/** Snapshot-pinned keyset pagination on `(score DESC, event_id ASC)`, and the opaque cursor that
    carries it between requests. */
module Pagination {
  import opened Ordering
  import opened Lists
  import opened Rerank

  datatype Result<+T> = Ok(value: T) | Err(error: Error)
  datatype Error = Malformed | Checksum | Unparsable | OtherQuery | Reclaimed

  // --- the cursor ---

  datatype CursorBody = CursorBody(snapshot: nat, plan: nat, lastScore: real, lastEventId: int, route: nat)

  /** The JSON codec and the checksum, which this model takes as given functions. */
  datatype Codec = Codec(toJson: CursorBody -> seq<nat>, fromJson: seq<nat> -> Option<CursorBody>, crc32: seq<nat> -> nat)

  /** Two to the 149th: every finite 32-bit float is a whole multiple of its inverse. */
  const ULPS := 713623846352979940529142984724747568191373312.0

  predicate Storable(score: real) {
    (score * ULPS).Floor as real == score * ULPS
  }

  ghost predicate AllBytes(bytes: seq<nat>) {
    forall i | 0 <= i < |bytes| :: bytes[i] < 256
  }

  /** The encoding returns every body whose score a 32-bit float can hold. */
  ghost predicate Lawful(c: Codec) {
    && (forall b: CursorBody {:trigger c.toJson(b)} | Storable(b.lastScore) :: c.fromJson(c.toJson(b)) == Some(b) && AllBytes(c.toJson(b)))
    && (forall bytes {:trigger c.crc32(bytes)} :: c.crc32(bytes) < 0x1_0000_0000)
  }

  /** Cursor text, as its character codes. */
  type Text = seq<nat>

  const PLUS := 43

  function Digit(d: nat): nat
    requires d < 16
  {
    if d < 10 then 48 + d else 87 + d
  }

  /** `n` as exactly `width` lower-case hex digits. */
  function ToHex(n: nat, width: nat): (s: Text)
    ensures |s| == width
  {
    if width == 0 then [] else ToHex(n / 16, width - 1) + [Digit(n % 16)]
  }

  /** The value of `0-9`, `a-f` or `A-F`. */
  function Nibble(c: nat): Option<nat> {
    if 48 <= c <= 57 then Some(c - 48)
    else if 97 <= c <= 102 then Some(c - 87)
    else if 65 <= c <= 70 then Some(c - 55)
    else None
  }

  function Digits(s: Text): Option<nat> {
    if s == [] then Some(0)
    else
      var front, last := Digits(s[..|s| - 1]), Nibble(s[|s| - 1]);
      if front.None? || last.None? then None else Some(front.value * 16 + last.value)
  }

  /** An unsigned parse in base 16: either case, and one leading plus sign, are accepted. */
  function FromHex(s: Text): Option<nat> {
    var body := if |s| > 1 && s[0] == PLUS then s[1..] else s;
    if body == [] then None else Digits(body)
  }

  function HexBytes(bytes: seq<nat>): Text {
    if bytes == [] then [] else HexBytes(bytes[..|bytes| - 1]) + ToHex(bytes[|bytes| - 1], 2)
  }

  function ParseBytes(s: Text): Option<seq<nat>> {
    if |s| < 2 then Some([])
    else
      var front, last := ParseBytes(s[..|s| - 2]), FromHex(s[|s| - 2..]);
      if front.None? || last.None? then None else Some(front.value + [last.value])
  }

  function Encode(c: Codec, b: CursorBody): Text {
    var json := c.toJson(b);
    ToHex(c.crc32(json), 8) + HexBytes(json)
  }

  function DecodeAs(c: Codec, want: Option<nat>, bytes: Option<seq<nat>>): Result<CursorBody> {
    if want.None? || bytes.None? then Err(Malformed)
    else if c.crc32(bytes.value) != want.value then Err(Checksum)
    else
      var body := c.fromJson(bytes.value);
      if body.None? then Err(Unparsable) else Ok(body.value)
  }

  function Decode(c: Codec, s: Text): Result<CursorBody> {
    if |s| < 8 || |s| % 2 != 0 then Err(Malformed)
    else DecodeAs(c, FromHex(s[..8]), ParseBytes(s[8..]))
  }

  function Pow16(w: nat): nat {
    if w == 0 then 1 else 16 * Pow16(w - 1)
  }

  lemma {:induction false} DigitsOfHex(n: nat, width: nat)
    requires n < Pow16(width)
    ensures Digits(ToHex(n, width)) == Some(n)
    ensures width > 0 ==> ToHex(n, width)[0] != PLUS
  {
    if width > 0 {
      DigitsOfHex(n / 16, width - 1);
      var s := ToHex(n, width);
      assert s[..width - 1] == ToHex(n / 16, width - 1);
      NibbleOfDigit(n % 16);
    }
  }

  lemma NibbleOfDigit(d: nat)
    requires d < 16
    ensures Nibble(Digit(d)) == Some(d) && Digit(d) != PLUS
  {
  }

  lemma HexRoundTrip(n: nat, width: nat)
    requires 0 < width && n < Pow16(width)
    ensures FromHex(ToHex(n, width)) == Some(n)
  {
    DigitsOfHex(n, width);
  }

  lemma ByteRoundTrip(n: nat)
    requires n < 256
    ensures FromHex(ToHex(n, 2)) == Some(n)
  {
    assert Pow16(1) == 16;
    HexRoundTrip(n, 2);
  }

  lemma {:induction false} BytesRoundTrip(bytes: seq<nat>)
    requires forall i | 0 <= i < |bytes| :: bytes[i] < 256
    ensures |HexBytes(bytes)| == 2 * |bytes|
    ensures ParseBytes(HexBytes(bytes)) == Some(bytes)
  {
    if bytes != [] {
      var (front, last) := (bytes[..|bytes| - 1], bytes[|bytes| - 1]);
      BytesRoundTrip(front);
      ByteRoundTrip(last);
      OneMoreByte(front, last, HexBytes(front), ToHex(last, 2));
      assert bytes == front + [last];
    }
  }

  lemma OneMoreByte(front: seq<nat>, last: nat, s: Text, t: Text)
    requires ParseBytes(s) == Some(front) && |t| == 2 && FromHex(t) == Some(last)
    ensures ParseBytes(s + t) == Some(front + [last])
  {
    ParseAppend(s, t);
  }

  lemma ParseAppend(s: Text, t: Text)
    requires |t| == 2
    ensures ParseBytes(s + t) == if ParseBytes(s).None? || FromHex(t).None? then None
                                 else Some(ParseBytes(s).value + [FromHex(t).value])
  {
    var u := s + t;
    assert u[..|u| - 2] == s && u[|u| - 2..] == t;
  }

  lemma DecodeParts(c: Codec, head: Text, tail: Text)
    requires |head| == 8 && |head + tail| % 2 == 0
    ensures Decode(c, head + tail) == DecodeAs(c, FromHex(head), ParseBytes(tail))
  {
    SplitAt(head, tail);
  }

  lemma SplitAt<T>(a: seq<T>, b: seq<T>)
    ensures (a + b)[..|a|] == a && (a + b)[|a|..] == b
  {
  }

  lemma WordRoundTrip(n: nat)
    requires n < 0x1_0000_0000
    ensures FromHex(ToHex(n, 8)) == Some(n)
  {
    assert Pow16(4) == 65536 by { assert Pow16(2) == 256; }
    assert Pow16(6) == 16777216;
    HexRoundTrip(n, 8);
  }

  lemma DecodeEncoded(c: Codec, b: CursorBody, json: seq<nat>, head: Text, tail: Text)
    requires Lawful(c) && Storable(b.lastScore) && json == c.toJson(b) && |head| == 8 && |tail| == 2 * |json|
    requires FromHex(head) == Some(c.crc32(json)) && ParseBytes(tail) == Some(json)
    ensures Decode(c, head + tail) == Ok(b)
  {
    assert |head + tail| == 2 * (4 + |json|);
    DecodeParts(c, head, tail);
  }

  /** A cursor survives being handed to a client and back. */
  lemma CursorRoundTrip(c: Codec, b: CursorBody)
    requires Lawful(c) && Storable(b.lastScore)
    ensures Decode(c, Encode(c, b)) == Ok(b)
  {
    var json := c.toJson(b);
    BytesRoundTrip(json);
    WordRoundTrip(c.crc32(json));
    DecodeEncoded(c, b, json, ToHex(c.crc32(json), 8), HexBytes(json));
  }

  /** What decoding makes of a checksum and a payload that do or do not belong together: any cursor whose
      payload does not sum to the number it carries is rejected, whichever of the two was altered. */
  lemma ChecksumGuards(c: Codec, sum: nat, bytes: seq<nat>)
    requires sum < 0x1_0000_0000 && AllBytes(bytes)
    ensures c.crc32(bytes) != sum ==> Decode(c, ToHex(sum, 8) + HexBytes(bytes)) == Err(Checksum)
    ensures c.crc32(bytes) == sum ==>
              Decode(c, ToHex(sum, 8) + HexBytes(bytes)) == match c.fromJson(bytes) case None => Err(Unparsable) case Some(b) => Ok(b)
  {
    BytesRoundTrip(bytes);
    WordRoundTrip(sum);
    assert |ToHex(sum, 8) + HexBytes(bytes)| == 2 * (4 + |bytes|);
    DecodeParts(c, ToHex(sum, 8), HexBytes(bytes));
  }

  /** A cursor handed out and then given another payload decodes only if the two payloads collide. */
  lemma AlteredCursorIsRejected(c: Codec, b: CursorBody, bytes: seq<nat>)
    requires Lawful(c) && Storable(b.lastScore) && AllBytes(bytes) && c.crc32(bytes) != c.crc32(c.toJson(b))
    ensures Decode(c, Encode(c, b)[..8] + HexBytes(bytes)) == Err(Checksum)
  {
    SplitAt(ToHex(c.crc32(c.toJson(b)), 8), HexBytes(c.toJson(b)));
    ChecksumGuards(c, c.crc32(c.toJson(b)), bytes);
  }

  // --- a codec that keeps the law ---

  /** A number as that many ones and a closing zero. */
  function Unary(n: nat): seq<nat> {
    if n == 0 then [0] else [1] + Unary(n - 1)
  }

  function WriteAll(ns: seq<nat>): seq<nat> {
    if ns == [] then [] else Unary(ns[0]) + WriteAll(ns[1..])
  }

  function ReadAll(bytes: seq<nat>, run: nat): seq<nat> {
    if bytes == [] then []
    else if bytes[0] == 0 then [run] + ReadAll(bytes[1..], 0)
    else ReadAll(bytes[1..], run + 1)
  }

  function Folded(i: int): nat {
    if i < 0 then -2 * i - 1 else 2 * i
  }

  function Unfolded(n: nat): int {
    if n % 2 == 1 then -((n + 1) / 2) else n / 2
  }

  function BodyNumbers(b: CursorBody): seq<nat> {
    [b.snapshot, b.plan, Folded((b.lastScore * ULPS).Floor), Folded(b.lastEventId), b.route]
  }

  function WriteBody(b: CursorBody): seq<nat> {
    WriteAll(BodyNumbers(b))
  }

  function ReadBody(bytes: seq<nat>): Option<CursorBody> {
    var ns := ReadAll(bytes, 0);
    if |ns| != 5 then None
    else Some(CursorBody(ns[0], ns[1], Unfolded(ns[2]) as real / ULPS, Unfolded(ns[3]), ns[4]))
  }

  function ByteSum(bytes: seq<nat>): nat {
    |bytes| % 256
  }

  lemma {:induction false} UnaryReads(n: nat, rest: seq<nat>, run: nat)
    ensures ReadAll(Unary(n) + rest, run) == [run + n] + ReadAll(rest, 0) && AllBytes(Unary(n))
  {
    var s := Unary(n) + rest;
    if n == 0 {
      assert s[1..] == rest;
    } else {
      assert s[1..] == Unary(n - 1) + rest;
      UnaryReads(n - 1, rest, run + 1);
    }
  }

  lemma {:induction false} AllRead(ns: seq<nat>)
    ensures ReadAll(WriteAll(ns), 0) == ns && AllBytes(WriteAll(ns))
  {
    if ns != [] {
      UnaryReads(ns[0], WriteAll(ns[1..]), 0);
      AllRead(ns[1..]);
    }
  }

  lemma BodyReads(b: CursorBody)
    requires Storable(b.lastScore)
    ensures ReadBody(WriteBody(b)) == Some(b) && AllBytes(WriteBody(b))
  {
    AllRead(BodyNumbers(b));
    assert forall i: int :: Unfolded(Folded(i)) == i;
  }

  /** The law can be kept, for every cursor a page can hand out. */
  lemma SomeCodecIsLawful() returns (c: Codec)
    ensures Lawful(c)
  {
    c := Codec(WriteBody, ReadBody, ByteSum);
    forall b: CursorBody | Storable(b.lastScore)
      ensures c.fromJson(c.toJson(b)) == Some(b) && AllBytes(c.toJson(b))
    {
      BodyReads(b);
    }
  }

  // --- one page ---

  /** The store a paginating client talks to: the rows a plan produces in a snapshot under a rerank
      route, and which snapshots garbage collection has kept. */
  datatype Store = Store(rows: (nat, nat, nat) -> seq<Hit>, retained: set<nat>)

  /** One request: the snapshot that is current, and the route the planner would choose now. */
  datatype Moment = Moment(current: nat, planned: nat)

  datatype Plan = Plan(fingerprint: nat, limit: nat)

  datatype Page = Page(rows: seq<Hit>, next: Option<Text>)

  predicate After(h: Hit, score: real, id: int) {
    Less(Key(-score, id), ByScore(h))
  }

  /** The first position strictly after the cursor. */
  function Skip(s: seq<Hit>, score: real, id: int): (i: nat)
    ensures i <= |s|
  {
    if s == [] then 0
    else if After(s[0], score, id) then 0
    else 1 + Skip(s[1..], score, id)
  }

  lemma {:induction false} SkipStops(s: seq<Hit>, score: real, id: int)
    ensures forall j | 0 <= j < Skip(s, score, id) :: !After(s[j], score, id)
    ensures Skip(s, score, id) < |s| ==> After(s[Skip(s, score, id)], score, id)
  {
    if s != [] && !After(s[0], score, id) {
      SkipStops(s[1..], score, id);
      assert forall j | 0 < j < |s| :: s[j] == s[1..][j - 1];
    }
  }

  method Resolve(st: Store, c: Codec, now: Moment, plan: Plan, cursor: Option<Text>)
    returns (r: Result<(nat, Option<CursorBody>)>)
    ensures cursor.None? ==> r == Ok((now.current, None))
    ensures cursor.Some? ==>
              r == match Decode(c, cursor.value)
                   case Err(e) => Err(e)
                   case Ok(b) =>
                     if b.plan != plan.fingerprint then Err(OtherQuery)
                     else if b.snapshot !in st.retained then Err(Reclaimed)
                     else Ok((b.snapshot, Some(b)))
  {
    if cursor.None? {
      return Ok((now.current, None));
    }
    match Decode(c, cursor.value)
    case Err(e) => return Err(e);
    case Ok(b) =>
      if b.plan != plan.fingerprint {
        return Err(OtherQuery);
      }
      if b.snapshot !in st.retained {
        return Err(Reclaimed);
      }
      return Ok((b.snapshot, Some(b)));
  }

  /** The page that starts at `start` of the sorted rows `s`. */
  function PageAt(s: seq<Hit>, start: nat, limit: nat): seq<Hit>
    requires start <= |s|
  {
    Take(s[start..], limit)
  }

  method FindStart(s: seq<Hit>, lastScore: real, lastEventId: int) returns (start: nat)
    ensures start == Skip(s, lastScore, lastEventId)
  {
    start := 0;
    while start < |s| && !After(s[start], lastScore, lastEventId)
      invariant start <= |s|
      invariant Skip(s, lastScore, lastEventId) == start + Skip(s[start..], lastScore, lastEventId)
    {
      assert s[start..][1..] == s[start + 1..];
      start := start + 1;
    }
    if start < |s| {
      assert s[start..][0] == s[start];
    }
  }

  method RunRows(st: Store, c: Codec, now: Moment, plan: Plan, cursor: Option<Text>) returns (r: Result<Page>)
    ensures cursor.None? ==>
              var s := SortBy(st.rows(plan.fingerprint, now.current, now.planned), ByScore);
              r == Ok(PageWithCursor(c, plan, now.current, now.planned, s, 0))
    ensures cursor.Some? && Decode(c, cursor.value).Err? ==> r == Err(Decode(c, cursor.value).error)
    ensures cursor.Some? && Decode(c, cursor.value).Ok? ==>
              var b := Decode(c, cursor.value).value;
              var s := SortBy(st.rows(plan.fingerprint, b.snapshot, b.route), ByScore);
              r == if b.plan != plan.fingerprint then Err(OtherQuery)
                   else if b.snapshot !in st.retained then Err(Reclaimed)
                   else Ok(PageWithCursor(c, plan, b.snapshot, b.route, s, Skip(s, b.lastScore, b.lastEventId)))
  {
    var resolved := Resolve(st, c, now, plan, cursor);
    if resolved.Err? {
      return Err(resolved.error);
    }
    var (snapshot, cur) := resolved.value;
    var route := if cur.Some? then cur.value.route else now.planned;
    var s := SortBy(st.rows(plan.fingerprint, snapshot, route), ByScore);
    var start := 0;
    if cur.Some? {
      start := FindStart(s, cur.value.lastScore, cur.value.lastEventId);
    }
    var page := PageAt(s, start, plan.limit);
    var next := None;
    if start + |page| < |s| && page != [] {
      var last := page[|page| - 1];
      next := Some(Encode(c, CursorBody(snapshot, plan.fingerprint, last.score, last.id, route)));
    }
    return Ok(Page(page, next));
  }

  function PageWithCursor(c: Codec, plan: Plan, snapshot: nat, route: nat, s: seq<Hit>, start: nat): Page
    requires start <= |s|
  {
    var page := PageAt(s, start, plan.limit);
    if start + |page| < |s| && page != [] then
      var last := page[|page| - 1];
      Page(page, Some(Encode(c, CursorBody(snapshot, plan.fingerprint, last.score, last.id, route))))
    else Page(page, None)
  }

  // --- following cursors ---

  /** All pages from `start` on, concatenated. */
  function Pages(s: seq<Hit>, start: nat, limit: nat): seq<Hit>
    requires start <= |s| && Sorted(s, ByScore)
    decreases |s| - start
  {
    var page := PageAt(s, start, limit);
    if start + |page| < |s| && page != [] then
      var last := page[|page| - 1];
      NextIsLater(s, start, limit);
      page + Pages(s, Skip(s, last.score, last.id), limit)
    else page
  }

  lemma NextIsLater(s: seq<Hit>, start: nat, limit: nat)
    requires start <= |s| && Sorted(s, ByScore) && PageAt(s, start, limit) != []
    ensures var page := PageAt(s, start, limit);
            start + |page| <= Skip(s, page[|page| - 1].score, page[|page| - 1].id)
  {
    var page := PageAt(s, start, limit);
    var e := start + |page|;
    assert page[|page| - 1] == s[e - 1];
    SkipPast(s, e);
  }

  lemma SkipPast(s: seq<Hit>, e: nat)
    requires Sorted(s, ByScore) && 0 < e <= |s|
    ensures Skip(s, s[e - 1].score, s[e - 1].id) >= e
  {
    SkipStops(s, s[e - 1].score, s[e - 1].id);
    assert forall i | 0 <= i < e - 1 :: Leq(ByScore(s[i]), ByScore(s[e - 1]));
  }

  /** Another page follows the one at `start`. */
  predicate More(s: seq<Hit>, start: nat, limit: nat)
    requires start <= |s|
  {
    start + |PageAt(s, start, limit)| < |s| && PageAt(s, start, limit) != []
  }

  function LastOf(s: seq<Hit>, start: nat, limit: nat): Hit
    requires start <= |s| && More(s, start, limit)
  {
    PageAt(s, start, limit)[|PageAt(s, start, limit)| - 1]
  }

  /** Where the page after the one at `start` begins. */
  function Following(s: seq<Hit>, start: nat, limit: nat): (i: nat)
    requires start <= |s| && More(s, start, limit) && Sorted(s, ByScore)
    ensures start < i <= |s|
  {
    NextIsLater(s, start, limit);
    Skip(s, LastOf(s, start, limit).score, LastOf(s, start, limit).id)
  }

  /** What is still to come after the page at `start`. */
  function Remaining(s: seq<Hit>, start: nat, limit: nat): seq<Hit>
    requires start <= |s| && Sorted(s, ByScore)
  {
    if More(s, start, limit) then Pages(s, Following(s, start, limit), limit) else []
  }

  /** Presenting a cursor resumes after the row it names, in the snapshot and on the route it pinned,
      whatever is current by now. */
  method NextPage(st: Store, c: Codec, now: Moment, plan: Plan, token: Text, ghost b: CursorBody) returns (page: Page)
    requires Lawful(c) && Storable(b.lastScore) && token == Encode(c, b)
    requires b.plan == plan.fingerprint && b.snapshot in st.retained
    ensures var s := SortBy(st.rows(plan.fingerprint, b.snapshot, b.route), ByScore);
            page == PageWithCursor(c, plan, b.snapshot, b.route, s, Skip(s, b.lastScore, b.lastEventId))
  {
    CursorRoundTrip(c, b);
    var r := RunRows(st, c, now, plan, Some(token));
    page := r.value;
  }

  /** A client that keeps asking until no cursor comes back, while ingest publishes new snapshots
      and the planner changes its mind between requests. */
  method Drain(st: Store, c: Codec, moments: nat -> Moment, plan: Plan) returns (rows: seq<Hit>)
    requires Lawful(c)
    requires moments(0).current in st.retained
    requires forall h | h in st.rows(plan.fingerprint, moments(0).current, moments(0).planned) :: Storable(h.score)
    ensures var s := SortBy(st.rows(plan.fingerprint, moments(0).current, moments(0).planned), ByScore);
            Sorted(s, ByScore) && rows == Pages(s, 0, plan.limit)
  {
    ghost var (snapshot, route) := (moments(0).current, moments(0).planned);
    ghost var s := SortBy(st.rows(plan.fingerprint, snapshot, route), ByScore);
    SortBySorted(st.rows(plan.fingerprint, snapshot, route), ByScore);
    SameElements(s, st.rows(plan.fingerprint, snapshot, route));
    var first := RunRows(st, c, moments(0), plan, None);
    var page := first.value;
    rows := page.rows;
    ghost var at := 0;
    var n: nat := 1;
    PagesSplit(s, 0, plan.limit);
    while page.next.Some?
      invariant 0 <= at <= |s|
      invariant page == PageWithCursor(c, plan, snapshot, route, s, at)
      invariant rows + Remaining(s, at, plan.limit) == Pages(s, 0, plan.limit)
      decreases |s| - at
    {
      ghost var b := PinnedAt(c, plan, snapshot, route, s, at);
      ghost var before := at;
      LastIsRow(s, at, plan.limit);
      at := Following(s, at, plan.limit);
      page := NextPage(st, c, moments(n), plan, page.next.value, b);
      PagesSplit(s, at, plan.limit);
      RemainingStep(s, before, plan.limit, rows);
      rows := rows + page.rows;
      n := n + 1;
    }
  }

  lemma LastIsRow(s: seq<Hit>, start: nat, limit: nat)
    requires start <= |s| && More(s, start, limit)
    ensures LastOf(s, start, limit) in s
  {
    var page := PageAt(s, start, limit);
    assert page[|page| - 1] == s[start + |page| - 1];
  }

  lemma RemainingStep(s: seq<Hit>, start: nat, limit: nat, rows: seq<Hit>)
    requires start <= |s| && Sorted(s, ByScore) && More(s, start, limit)
    ensures var next := Following(s, start, limit);
            rows + Remaining(s, start, limit) == (rows + PageAt(s, next, limit)) + Remaining(s, next, limit)
  {
    PagesSplit(s, Following(s, start, limit), limit);
  }

  lemma PinnedAt(c: Codec, plan: Plan, snapshot: nat, route: nat, s: seq<Hit>, start: nat) returns (b: CursorBody)
    requires start <= |s| && PageWithCursor(c, plan, snapshot, route, s, start).next.Some?
    ensures More(s, start, plan.limit)
    ensures var last := LastOf(s, start, plan.limit);
            b == CursorBody(snapshot, plan.fingerprint, last.score, last.id, route)
    ensures PageWithCursor(c, plan, snapshot, route, s, start).next.value == Encode(c, b)
  {
    var last := LastOf(s, start, plan.limit);
    b := CursorBody(snapshot, plan.fingerprint, last.score, last.id, route);
  }

  lemma PagesSplit(s: seq<Hit>, start: nat, limit: nat)
    requires start <= |s| && Sorted(s, ByScore)
    ensures Pages(s, start, limit) == PageAt(s, start, limit) + Remaining(s, start, limit)
  {
  }

  /** No page boundary from `start` on falls between two rows with one `(score, event_id)`. */
  predicate CleanBoundaries(s: seq<Hit>, start: nat, limit: nat)
    requires limit > 0
    decreases |s| - start
  {
    var e := start + limit;
    e < |s| ==> s[e - 1] != s[e] && CleanBoundaries(s, e, limit)
  }

  lemma SkipExact(s: seq<Hit>, e: nat)
    requires Sorted(s, ByScore) && 0 < e < |s|
    ensures Skip(s, s[e - 1].score, s[e - 1].id) >= e
    ensures Skip(s, s[e - 1].score, s[e - 1].id) == e <==> s[e - 1] != s[e]
  {
    SkipPast(s, e);
    SkipStops(s, s[e - 1].score, s[e - 1].id);
    assert Leq(ByScore(s[e - 1]), ByScore(s[e]));
    assert ByScore(s[e - 1]) == ByScore(s[e]) ==> s[e - 1] == s[e] by { HitsTotal(s); }
  }

  lemma {:induction false} PagesShort(s: seq<Hit>, start: nat, limit: nat)
    requires start <= |s| && Sorted(s, ByScore)
    ensures |Pages(s, start, limit)| <= |s| - start
    decreases |s| - start
  {
    PagesSplit(s, start, limit);
    var page := PageAt(s, start, limit);
    if start + |page| < |s| && page != [] {
      NextIsLater(s, start, limit);
      PagesShort(s, Skip(s, page[|page| - 1].score, page[|page| - 1].id), limit);
    }
  }

  lemma PrefixCancels<T>(a: seq<T>, b: seq<T>, c: seq<T>)
    ensures a + b == a + c <==> b == c
  {
    if a + b == a + c {
      assert b == (a + b)[|a|..] && c == (a + c)[|a|..];
    }
  }

  lemma FullPage(s: seq<Hit>, start: nat, limit: nat)
    requires Sorted(s, ByScore) && limit > 0 && start + limit < |s|
    ensures PageAt(s, start, limit) == s[start..start + limit]
    ensures var last := s[start + limit - 1];
            Pages(s, start, limit) == s[start..start + limit] + Pages(s, Skip(s, last.score, last.id), limit)
  {
    assert PageAt(s, start, limit)[limit - 1] == s[start + limit - 1];
  }

  lemma DirtyBoundary(s: seq<Hit>, start: nat, limit: nat)
    requires Sorted(s, ByScore) && limit > 0 && start + limit < |s|
    requires s[start + limit - 1] == s[start + limit]
    ensures |Pages(s, start, limit)| < |s[start..]|
  {
    var e := start + limit;
    FullPage(s, start, limit);
    SkipExact(s, e);
    PagesShort(s, Skip(s, s[e - 1].score, s[e - 1].id), limit);
  }

  lemma CleanBoundary(s: seq<Hit>, start: nat, limit: nat)
    requires Sorted(s, ByScore) && limit > 0 && start + limit < |s|
    requires s[start + limit - 1] != s[start + limit]
    ensures Pages(s, start, limit) == s[start..] <==> Pages(s, start + limit, limit) == s[start + limit..]
  {
    var e := start + limit;
    CleanStep(s, start, limit);
    SplitTail(s, start, e);
    PrefixCancels(s[start..e], Pages(s, e, limit), s[e..]);
  }

  lemma CleanStep(s: seq<Hit>, start: nat, limit: nat)
    requires Sorted(s, ByScore) && limit > 0 && start + limit < |s|
    requires s[start + limit - 1] != s[start + limit]
    ensures Pages(s, start, limit) == s[start..start + limit] + Pages(s, start + limit, limit)
  {
    FullPage(s, start, limit);
    SkipExact(s, start + limit);
  }

  lemma SplitTail<T>(s: seq<T>, i: nat, j: nat)
    requires i <= j <= |s|
    ensures s[i..] == s[i..j] + s[j..]
  {
  }

  lemma LastPage(s: seq<Hit>, start: nat, limit: nat)
    requires start <= |s| <= start + limit && Sorted(s, ByScore) && limit > 0
    ensures Pages(s, start, limit) == s[start..]
  {
  }

  /** From a page boundary, the remaining pages are the remaining rows exactly when no later page
      boundary falls inside a run of equal keys. */
  lemma {:induction false} PagesTile(s: seq<Hit>, start: nat, limit: nat)
    requires start <= |s| && Sorted(s, ByScore) && limit > 0
    ensures Pages(s, start, limit) == s[start..] <==> CleanBoundaries(s, start, limit)
    decreases |s| - start
  {
    var e := start + limit;
    if e < |s| {
      if s[e - 1] == s[e] {
        DirtyBoundary(s, start, limit);
      } else {
        PagesTile(s, e, limit);
        CleanBoundary(s, start, limit);
      }
    } else {
      LastPage(s, start, limit);
    }
  }

  /** Following cursors returns the whole sorted result set, no gap and no repeat, when keys are
      distinct and pages are not empty. */
  lemma PaginationTiles(rows: seq<Hit>, limit: nat)
    requires limit > 0 && Distinct(rows)
    ensures Sorted(SortBy(rows, ByScore), ByScore)
    ensures Pages(SortBy(rows, ByScore), 0, limit) == SortBy(rows, ByScore)
  {
    var s := SortBy(rows, ByScore);
    SortBySorted(rows, ByScore);
    DistinctCounts(rows, s);
    DistinctIsClean(s, 0, limit);
    PagesTile(s, 0, limit);
    assert s[0..] == s;
  }

  lemma {:induction false} DistinctIsClean(s: seq<Hit>, start: nat, limit: nat)
    requires limit > 0 && Distinct(s)
    ensures CleanBoundaries(s, start, limit)
    decreases |s| - start
  {
    if start + limit < |s| {
      DistinctIsClean(s, start + limit, limit);
    }
  }

  /** Three copies of one row and a page of two: the third copy is skipped. */
  lemma DuplicateKeysLoseRows()
    ensures var s := [Hit(0.5, 1), Hit(0.5, 1), Hit(0.5, 1)];
            Sorted(s, ByScore) && |Pages(s, 0, 2)| == 2
  {
    var s := [Hit(0.5, 1), Hit(0.5, 1), Hit(0.5, 1)];
    assert Skip(s, 0.5, 1) == 3;
    assert PageAt(s, 0, 2) == s[..2];
  }
}
