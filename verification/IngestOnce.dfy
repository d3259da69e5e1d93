/** Every durable write of every history, judged on its own: what keeps a key visible at most once, and
    what compaction may drop. Neither needs the id allocator to keep ahead of the marker. */
module IngestOnce {
  import opened Lists
  import opened Ingest
  import opened IngestInvariant
  import opened IngestRuns
  import opened IngestHistory

  // --- cursors ---

  /** The record's source offset, if it has one, is at or below the committed one. */
  predicate CursorDurable(d: Disk, r: WalRecord) {
    r.cursor.Some? ==> r.cursor.value.offset <= Committed(d, r.cursor.value.source)
  }

  /** A cursor that does not lie behind its source's committed offset. */
  predicate Forward(d: Disk, cursor: Option<Cursor>) {
    cursor.Some? ==> Committed(d, cursor.value.source) <= cursor.value.offset
  }

  predicate NoLater(a: WalRecord, b: WalRecord) {
    a.cursor.Some? && b.cursor.Some? && a.cursor.value.source == b.cursor.value.source ==> a.cursor.value.offset <= b.cursor.value.offset
  }

  /** The cursors of one source ascend with the record ids. */
  ghost predicate CursorsAscend(m: map<nat, WalRecord>) {
    forall a, b | a in m && b in m && a < b :: NoLater(m[a], m[b])
  }

  // --- one write ---

  /** The keys of the record are durable and, when callers poll forward, so is its offset. */
  ghost predicate Droppable(d: Disk, r: WalRecord, forward: bool) {
    AllIndexed(d.index, r.events) && (forward ==> CursorDurable(d, r))
  }

  ghost predicate LogDroppable(d: Disk, forward: bool) {
    forall id | id in Records(d.wal) :: Droppable(d, Records(d.wal)[id], forward)
  }

  /** The log and everything visible is on record. */
  ghost predicate OnRecord(d: Disk, forward: bool) {
    LogDroppable(d, forward) && forall e | e in d.visible :: Indexed(d.index, e)
  }

  ghost predicate Sound(d: Disk, forward: bool) {
    Once(d) && (forward ==> CursorsAscend(Records(d.wal)))
  }

  ghost predicate Legal(d: Disk, w: Write, forward: bool) {
    match w
    case DeadLetter(_) => true
    case AppendFrame(r) =>
      && r.id == d.nextId && KeyDistinct(r.events) && (forall e | e in r.events :: KeyOf(e) !in d.index)
      && OnRecord(d, forward) && (forward ==> Forward(d, r.cursor))
    case SaveAllocator(n) => d.nextId <= n
    case Commit(kept, id) => MayPublish(d, id, kept)
    case SaveIndex(ix) => exists id :: id in Records(d.wal) && ix == Recorded(d.index, Records(d.wal)[id].events)
    case CommitOffset(_) => true
    case Compact(floor) =>
      d.marker == Some(floor) && forall id | id in Records(d.wal) && id <= floor :: Droppable(d, Records(d.wal)[id], forward)
  }

  lemma AppendAscends(d: Disk, r: WalRecord)
    requires Once(d) && CursorsAscend(Records(d.wal)) && r.id == d.nextId && OnRecord(d, true) && Forward(d, r.cursor)
    ensures CursorsAscend(Records(d.wal + [r]))
  {
    var (m, m') := (Records(d.wal), Records(d.wal + [r]));
    AppendedRecord(d.wal, r);
    forall a, b | a in m' && b in m' && a < b ensures NoLater(m'[a], m'[b]) {
      assert a in m && a <= d.nextId;
      assert Droppable(d, m[a], true);
      assert b != r.id ==> NoLater(m[a], m[b]);
    }
  }

  lemma CompactAscends(d: Disk, floor: nat)
    requires CursorsAscend(Records(d.wal))
    ensures CursorsAscend(Records(Filter(Above(floor), d.wal)))
  {
    var (m, m') := (Records(d.wal), Records(Filter(Above(floor), d.wal)));
    forall a, b | a in m' && b in m' && a < b ensures NoLater(m'[a], m'[b]) {
      CompactedRecords(d.wal, floor, a);
      CompactedRecords(d.wal, floor, b);
    }
  }

  lemma LegalKeepsOnce(d: Disk, w: Write, forward: bool)
    requires Sound(d, forward) && Legal(d, w, forward)
    ensures Once(Apply(d, w))
  {
    match w
    case AppendFrame(r) =>
      forall id, e | id in Records(d.wal) && e in Records(d.wal)[id].events ensures Indexed(d.index, e) {
        assert Droppable(d, Records(d.wal)[id], forward);
      }
      AppendKeepsOnce(d, r);
    case Commit(kept, id) => CommitKeepsOnce(d, id, kept);
    case SaveIndex(ix) =>
      var id :| id in Records(d.wal) && ix == Recorded(d.index, Records(d.wal)[id].events);
      SaveIndexKeepsOnce(d, id);
    case Compact(floor) =>
      forall id, e | id in Records(d.wal) && id <= floor && e in Records(d.wal)[id].events ensures Indexed(d.index, e) {
        assert Droppable(d, Records(d.wal)[id], forward);
      }
      CompactKeepsOnce(d);
    case _ =>
  }

  lemma LegalKeeps(d: Disk, w: Write, forward: bool)
    requires Sound(d, forward) && Legal(d, w, forward)
    ensures Sound(Apply(d, w), forward)
  {
    LegalKeepsOnce(d, w, forward);
    if forward {
      if w.AppendFrame? {
        AppendAscends(d, w.record);
      } else if w.Compact? {
        CompactAscends(d, w.floor);
      }
    }
  }

  // --- runs of writes ---

  ghost predicate LegalAt(d: Disk, ws: seq<Write>, k: nat, forward: bool)
    requires k < |ws|
  {
    Legal(Run(d, ws[..k]), ws[k], forward)
  }

  ghost predicate AllLegal(d: Disk, ws: seq<Write>, forward: bool) {
    forall k: nat | k < |ws| :: LegalAt(d, ws, k, forward)
  }

  lemma {:induction false} LegalRun(d: Disk, ws: seq<Write>, n: nat, forward: bool)
    requires Sound(d, forward) && AllLegal(d, ws, forward) && n <= |ws|
    ensures Sound(Run(d, ws[..n]), forward)
  {
    if n == 0 {
      assert ws[..0] == [];
    } else {
      LegalRun(d, ws, n - 1, forward);
      assert LegalAt(d, ws, n - 1, forward);
      LegalKeeps(Run(d, ws[..n - 1]), ws[n - 1], forward);
      assert ws[..n][..n - 1] == ws[..n - 1];
    }
  }

  lemma LegalEnd(d: Disk, ws: seq<Write>, forward: bool)
    requires Sound(d, forward) && AllLegal(d, ws, forward)
    ensures Sound(Run(d, ws), forward)
  {
    LegalRun(d, ws, |ws|, forward);
    assert ws[..|ws|] == ws;
  }

  lemma LegalOne(d: Disk, w: Write, forward: bool)
    requires Legal(d, w, forward)
    ensures AllLegal(d, [w], forward)
  {
    assert [w][..0] == [] && Run(d, []) == d;
    assert LegalAt(d, [w], 0, forward);
  }

  lemma LegalConcat(d: Disk, a: seq<Write>, b: seq<Write>, forward: bool)
    requires AllLegal(d, a, forward) && AllLegal(Run(d, a), b, forward)
    ensures AllLegal(d, a + b, forward)
  {
    forall k: nat | k < |a + b| ensures LegalAt(d, a + b, k, forward) {
      if k < |a| {
        assert (a + b)[..k] == a[..k];
        assert LegalAt(d, a, k, forward);
      } else {
        assert (a + b)[..k] == a + b[..k - |a|];
        RunConcat(d, a, b[..k - |a|]);
        assert LegalAt(Run(d, a), b, k - |a|, forward);
      }
    }
  }

  lemma LettersLegal(d: Disk, events: seq<Event>, forward: bool)
    ensures AllLegal(d, DeadLetters(events), forward)
  {
    forall k: nat | k < |DeadLetters(events)| ensures LegalAt(d, DeadLetters(events), k, forward) {
      assert DeadLetters(events)[k].DeadLetter?;
    }
  }

  // --- the pieces ---

  lemma RecordLegal(d: Disk, r: WalRecord, forward: bool)
    requires InLog(d, r)
    ensures AllLegal(d, RecordWrites(d, r), forward)
  {
    var w := SaveIndex(Recorded(d.index, r.events));
    assert r.id in Records(d.wal);
    LegalOne(d, w, forward);
    RunOne(d, w);
    if r.cursor.Some? {
      LegalOne(Apply(d, w), CommitOffset(r.cursor.value), forward);
      LegalConcat(d, [w], [CommitOffset(r.cursor.value)], forward);
      assert RecordWrites(d, r) == [w] + [CommitOffset(r.cursor.value)];
    } else {
      assert RecordWrites(d, r) == [w];
    }
  }

  /** The record may be published: none of its keys is visible and no later record is covered. */
  ghost predicate Publishable(d: Disk, r: WalRecord) {
    InLog(d, r) && KeyDistinct(r.events) && KeysApart(r.events, d.visible) && forall a | a in Records(d.wal) && a > r.id :: !Applied(d.marker, a)
  }

  lemma CommitLegal(d: Disk, r: WalRecord, embeds: Event -> bool, forward: bool)
    requires Publishable(d, r)
    ensures AllLegal(d, CommitWrites(r, embeds), forward)
  {
    var (kept, lost) := (Filter(embeds, r.events), Filter(Not(embeds), r.events));
    LettersLegal(d, lost, forward);
    DeadLettersRun(d, lost);
    if kept == [] {
      assert CommitWrites(r, embeds) == DeadLetters(lost);
    } else {
      FilterDistinct(embeds, r.events);
      LegalOne(Run(d, DeadLetters(lost)), Commit(kept, r.id), forward);
      LegalConcat(d, DeadLetters(lost), [Commit(kept, r.id)], forward);
    }
  }

  lemma PublishLegal(d: Disk, r: WalRecord, embeds: Event -> bool, forward: bool)
    requires Publishable(d, r)
    ensures AllLegal(d, PublishWrites(d, r, embeds), forward)
  {
    CommitLegal(d, r, embeds, forward);
    CommitRuns(d, r, embeds);
    PublishRuns(d, r, embeds);
    RecordLegal(AfterCommit(d, r, embeds), r, forward);
    LegalConcat(d, CommitWrites(r, embeds), RecordWrites(AfterCommit(d, r, embeds), r), forward);
  }

  lemma CompactLegal(d: Disk, forward: bool)
    requires LogDroppable(d, forward)
    ensures AllLegal(d, CompactWrites(d.marker), forward)
  {
    if d.marker.Some? {
      LegalOne(d, Compact(d.marker.value), forward);
    }
  }

  lemma CompactOnRecord(d: Disk, forward: bool)
    requires Once(d) && LogDroppable(d, forward)
    ensures OnRecord(AfterCompact(d), forward)
  {
    var (m, d') := (Records(d.wal), AfterCompact(d));
    forall e | e in d.visible ensures Indexed(d.index, e) {
      assert forall id | id in m :: Droppable(d, m[id], forward);
    }
    forall id | id in Records(d'.wal) ensures Droppable(d', Records(d'.wal)[id], forward) {
      if d.marker.Some? {
        CompactedRecords(d.wal, d.marker.value, id);
      }
      assert Droppable(d, m[id], forward);
    }
  }

  /** Recording `r` keeps an earlier record droppable: its keys stay indexed, and `r`'s cursor lies no earlier. */
  lemma RecordingKeeps(d: Disk, d': Disk, r: WalRecord, x: WalRecord, forward: bool)
    requires Droppable(d, x, forward) && KeyDistinct(r.events) && Agrees(d.index, r.events) && (forward ==> NoLater(x, r))
    requires d'.index == AfterRecord(d, r).index && d'.offsets == AfterRecord(d, r).offsets
    ensures Droppable(d', x, forward) && Droppable(d', r, forward)
  {
    RecordedIndexes(d.index, r.events);
  }

  // --- recovery ---

  /** Recovery has put every record below `n` on record. */
  ghost predicate Caught(d0: Disk, d: Disk, n: nat, forward: bool) {
    && Sound(d, forward) && d.wal == d0.wal && MarkerWithin(d0.marker, d.marker, n)
    && forall id | id in Records(d.wal) && id < n :: Droppable(d, Records(d.wal)[id], forward)
  }

  lemma RecoveredDroppable(d: Disk, d': Disk, n: nat, r: WalRecord, forward: bool)
    requires Sound(d, forward) && n in Records(d.wal) && r == Records(d.wal)[n] && d'.wal == d.wal
    requires forall id | id in Records(d.wal) && id < n :: Droppable(d, Records(d.wal)[id], forward)
    requires d'.index == AfterRecord(d, r).index && d'.offsets == AfterRecord(d, r).offsets
    ensures forall id | id in Records(d.wal) && id < n + 1 :: Droppable(d', Records(d.wal)[id], forward)
  {
    var m := Records(d.wal);
    assert Agrees(d.index, r.events) && KeyDistinct(r.events);
    RecordedIndexes(d.index, r.events);
    forall id | id in m && id < n + 1 ensures Droppable(d', m[id], forward) {
      if id < n {
        RecordingKeeps(d, d', r, m[id], forward);
      }
    }
  }

  lemma RecoverOneLegal(d0: Disk, d: Disk, n: nat, r: WalRecord, ws: seq<Write>, embeds: Event -> bool, forward: bool)
    requires Caught(d0, d, n, forward) && n in Records(d.wal) && r == Records(d.wal)[n] && ws == RecoverOne(d, d0.marker, r, embeds)
    ensures AllLegal(d, ws, forward) && Caught(d0, Run(d, ws), n + 1, forward)
  {
    assert r.id == n && InLog(d, r);
    if Applied(d0.marker, n) {
      RecordLegal(d, r, forward);
      RecordRuns(d, r);
    } else {
      assert !Applied(d.marker, n) && Publishable(d, r);
      PublishLegal(d, r, embeds, forward);
      PublishRuns(d, r, embeds);
    }
    LegalEnd(d, ws, forward);
    RecoveredDroppable(d, Run(d, ws), n, r, forward);
  }

  ghost predicate CatchesUp(d: Disk, ws: seq<Write>, n: nat, forward: bool) {
    AllLegal(d, ws, forward) && Caught(d, Run(d, ws), n, forward)
  }

  lemma CatchUpMore(d: Disk, d1: Disk, ws: seq<Write>, one: seq<Write>, n: nat, forward: bool)
    requires AllLegal(d, ws, forward) && d1 == Run(d, ws) && AllLegal(d1, one, forward) && Caught(d, Run(d1, one), n, forward)
    ensures CatchesUp(d, ws + one, n, forward)
  {
    LegalConcat(d, ws, one, forward);
    RunConcat(d, ws, one);
  }

  lemma CatchUpSkip(d: Disk, m: map<nat, WalRecord>, ws: seq<Write>, n: nat, forward: bool)
    requires m == Records(d.wal) && n > 0 && n - 1 !in m && CatchesUp(d, ws, n - 1, forward)
    ensures CatchesUp(d, ws, n, forward)
  {
  }

  lemma RecoverIdLegal(d: Disk, m: map<nat, WalRecord>, ws: seq<Write>, one: seq<Write>, n: nat, embeds: Event -> bool, forward: bool)
    requires m == Records(d.wal) && n > 0 && CatchesUp(d, ws, n - 1, forward)
    requires one == RecoverId(Run(d, ws), d.marker, m, n - 1, embeds)
    ensures CatchesUp(d, ws + one, n, forward)
  {
    if n - 1 in m {
      RecoverOneLegal(d, Run(d, ws), n - 1, m[n - 1], one, embeds, forward);
      CatchUpMore(d, Run(d, ws), ws, one, n, forward);
    } else {
      CatchUpSkip(d, m, ws, n, forward);
      NothingMore(ws);
    }
  }

  lemma {:induction false} RecoverBelowLegal(d: Disk, m: map<nat, WalRecord>, n: nat, embeds: Event -> bool, forward: bool)
    requires Sound(d, forward) && m == Records(d.wal)
    ensures CatchesUp(d, RecoverBelow(d, d.marker, m, n, embeds), n, forward)
  {
    if n > 0 {
      var ws := RecoverBelow(d, d.marker, m, n - 1, embeds);
      RecoverBelowLegal(d, m, n - 1, embeds, forward);
      RecoverIdLegal(d, m, ws, RecoverId(Run(d, ws), d.marker, m, n - 1, embeds), n, embeds, forward);
    }
  }

  lemma RecoverEndLegal(d: Disk, d1: Disk, ws: seq<Write>, forward: bool)
    requires d1 == Run(d, ws) && AllLegal(d, ws, forward) && Caught(d, d1, HighestId(d.wal) + 1, forward)
    ensures AllLegal(d, ws + CompactWrites(d1.marker), forward) && OnRecord(Run(d, ws + CompactWrites(d1.marker)), forward)
  {
    forall id | id in Records(d1.wal) ensures Droppable(d1, Records(d1.wal)[id], forward) {
      IdsBelow(d.wal, id);
    }
    CompactLegal(d1, forward);
    CompactRuns(d1);
    CompactOnRecord(d1, forward);
    LegalConcat(d, ws, CompactWrites(d1.marker), forward);
    RunConcat(d, ws, CompactWrites(d1.marker));
  }

  lemma RecoverLegal(d: Disk, embeds: Event -> bool, forward: bool)
    requires Sound(d, forward)
    ensures AllLegal(d, RecoverWrites(d, embeds), forward) && OnRecord(Run(d, RecoverWrites(d, embeds)), forward)
  {
    var ws := RecoverBelow(d, d.marker, Records(d.wal), HighestId(d.wal) + 1, embeds);
    RecoverBelowLegal(d, Records(d.wal), HighestId(d.wal) + 1, embeds, forward);
    RecoverEndLegal(d, Run(d, ws), ws, forward);
  }

  // --- a batch ---

  lemma AppendLegal(d: Disk, r: WalRecord, forward: bool)
    requires Legal(d, AppendFrame(r), forward)
    ensures AllLegal(d, AppendWrites(r), forward)
  {
    var (a, b) := (AppendFrame(r), SaveAllocator(r.id + 1));
    LegalOne(d, a, forward);
    RunOne(d, a);
    LegalOne(Apply(d, a), b, forward);
    LegalConcat(d, [a], [b], forward);
    assert AppendWrites(r) == [a] + [b];
  }

  lemma AppendedPublishable(d: Disk, r: WalRecord, forward: bool)
    requires Sound(d, forward) && Legal(d, AppendFrame(r), forward)
    ensures Publishable(Appended(d, r), r) && Sound(Appended(d, r), forward)
  {
    AppendedRecord(d.wal, r);
    AppendLegal(d, r, forward);
    LegalEnd(d, AppendWrites(r), forward);
    AppendRuns(d, r);
    forall x, y | x in r.events && y in d.visible ensures KeyOf(x) != KeyOf(y) {
      assert Indexed(d.index, y);
    }
  }

  /** Once the appended record is published, the whole log is on record. */
  lemma PublishedDroppable(d: Disk, r: WalRecord, embeds: Event -> bool, forward: bool)
    requires Sound(d, forward) && Legal(d, AppendFrame(r), forward)
    ensures LogDroppable(AfterPublish(Appended(d, r), r, embeds), forward)
  {
    var (d2, d3) := (Appended(d, r), AfterPublish(Appended(d, r), r, embeds));
    var m := Records(d.wal);
    AppendedRecord(d.wal, r);
    AppendedPublishable(d, r, forward);
    assert Agrees(d2.index, Records(d2.wal)[r.id].events);
    forall id | id in Records(d3.wal) ensures Droppable(d3, Records(d3.wal)[id], forward) {
      if id == r.id {
        RecordedIndexes(d2.index, r.events);
      } else {
        assert Droppable(d, m[id], forward) && id < r.id;
        assert forward ==> NoLater(Records(d2.wal)[id], Records(d2.wal)[r.id]);
        RecordingKeeps(d2, d3, r, m[id], forward);
      }
    }
  }

  lemma LogLegal(d: Disk, r: WalRecord, embeds: Event -> bool, forward: bool)
    requires Sound(d, forward) && Legal(d, AppendFrame(r), forward)
    ensures AllLegal(d, LogWrites(d, r, embeds), forward) && OnRecord(Run(d, LogWrites(d, r, embeds)), forward)
  {
    var (d2, pub) := (Appended(d, r), PublishWrites(Appended(d, r), r, embeds));
    var d3 := AfterPublish(d2, r, embeds);
    AppendLegal(d, r, forward);
    AppendRuns(d, r);
    AppendedPublishable(d, r, forward);
    PublishLegal(d2, r, embeds, forward);
    PublishRuns(d2, r, embeds);
    LegalEnd(d2, pub, forward);
    PublishedDroppable(d, r, embeds, forward);
    LogJoined(d, r, embeds, forward);
    LogRuns(d, r, embeds);
    CompactOnRecord(d3, forward);
  }

  lemma LogJoined(d: Disk, r: WalRecord, embeds: Event -> bool, forward: bool)
    requires AllLegal(d, AppendWrites(r), forward) && AllLegal(Appended(d, r), PublishWrites(Appended(d, r), r, embeds), forward)
    requires LogDroppable(AfterPublish(Appended(d, r), r, embeds), forward)
    ensures AllLegal(d, LogWrites(d, r, embeds), forward)
  {
    var (d2, pub) := (Appended(d, r), PublishWrites(Appended(d, r), r, embeds));
    var d3 := AfterPublish(d2, r, embeds);
    AppendRuns(d, r);
    PublishRuns(d2, r, embeds);
    CompactLegal(d3, forward);
    LegalConcat(d, AppendWrites(r), pub, forward);
    RunConcat(d, AppendWrites(r), pub);
    LegalConcat(d, AppendWrites(r) + pub, CompactWrites(d3.marker), forward);
    assert pub == PublishWrites(d, r, embeds) && d3.marker == MarkerAfter(d, r, embeds);
  }

  lemma FreshKeysAreNew(d: Disk, dec: Decisions)
    ensures forall e | e in Fresh(d, dec) :: KeyOf(e) !in d.index
  {
    forall e | e in Fresh(d, dec) ensures KeyOf(e) !in d.index {
      FilterKeeps(dec.allows, Filter(IsNew(d.index), dec.accepted), e);
      FilterKeeps(IsNew(d.index), dec.accepted, e);
    }
  }

  lemma EmptyBatchLegal(d: Disk, cursor: Option<Cursor>, forward: bool)
    requires OnRecord(d, forward) && (forward ==> Forward(d, cursor))
    ensures var ws := if cursor.Some? then [CommitOffset(cursor.value)] else [];
            AllLegal(d, ws, forward) && OnRecord(Run(d, ws), forward)
  {
    if cursor.Some? {
      var w := CommitOffset(cursor.value);
      LegalOne(d, w, forward);
      RunOne(d, w);
      forall id | id in Records(d.wal) ensures Droppable(Apply(d, w), Records(d.wal)[id], forward) {
        assert Droppable(d, Records(d.wal)[id], forward);
      }
    }
  }

  lemma LettersKeepRecord(d: Disk, events: seq<Event>, forward: bool)
    requires Sound(d, forward) && OnRecord(d, forward)
    ensures var d1 := d.(dead := d.dead + events); Sound(d1, forward) && OnRecord(d1, forward)
  {
    var d1 := d.(dead := d.dead + events);
    forall id | id in Records(d1.wal) ensures Droppable(d1, Records(d1.wal)[id], forward) {
      assert Droppable(d, Records(d.wal)[id], forward);
    }
  }

  lemma BatchLegal(d: Disk, r: WalRecord, embeds: Event -> bool, forward: bool)
    requires Sound(d, forward) && OnRecord(d, forward) && r.id == d.nextId && KeyDistinct(r.events)
    requires (forall e | e in r.events :: KeyOf(e) !in d.index) && (forward ==> Forward(d, r.cursor))
    ensures AllLegal(d, BatchWrites(d, r, embeds), forward) && OnRecord(Run(d, BatchWrites(d, r, embeds)), forward)
  {
    if r.events == [] {
      EmptyBatchLegal(d, r.cursor, forward);
    } else {
      LogLegal(d, r, embeds, forward);
    }
  }

  lemma IngestLegal(d: Disk, dec: Decisions, cursor: Option<Cursor>, forward: bool)
    requires Sound(d, forward) && OnRecord(d, forward) && KeyDistinct(Fresh(d, dec)) && (forward ==> Forward(d, cursor))
    ensures AllLegal(d, IngestWrites(d, dec, cursor), forward) && OnRecord(Run(d, IngestWrites(d, dec, cursor)), forward)
  {
    var (refused, r) := (DeadLetters(Refused(d, dec)), NewRecord(d, dec, cursor));
    var d1 := d.(dead := d.dead + Refused(d, dec));
    LettersLegal(d, Refused(d, dec), forward);
    DeadLettersRun(d, Refused(d, dec));
    LettersKeepRecord(d, Refused(d, dec), forward);
    FreshKeysAreNew(d, dec);
    BatchLegal(d1, r, dec.embeds, forward);
    DeadLettersAside(d, d1.dead, r, dec.embeds);
    LegalConcat(d, refused, BatchWrites(d1, r, dec.embeds), forward);
    RunConcat(d, refused, BatchWrites(d1, r, dec.embeds));
  }

  // --- histories ---

  /** Callers recover before they ingest and offer no key twice in a batch; `forward` ones also never poll
      behind the committed offset. */
  ghost predicate Careful(m: Machine, op: Op, forward: bool) {
    op.Ingested? ==> m.ready && KeyDistinct(Fresh(m.disk, op.dec)) && (forward ==> Forward(m.disk, op.cursor))
  }

  ghost predicate CarefulRun(ops: seq<Op>, forward: bool) {
    ops == [] || (CarefulRun(ops[..|ops| - 1], forward) && Careful(Play(Empty(), ops[..|ops| - 1]), ops[|ops| - 1], forward))
  }

  lemma OpLegal(m: Machine, op: Op, forward: bool)
    requires Sound(m.disk, forward) && (m.ready ==> OnRecord(m.disk, forward)) && Careful(m, op, forward)
    ensures AllLegal(m.disk, WritesOf(m.disk, op), forward) && OnRecord(Run(m.disk, WritesOf(m.disk, op)), forward)
  {
    match op
    case Ingested(dec, cursor, _) => IngestLegal(m.disk, dec, cursor, forward);
    case Recovered(embeds, _) => RecoverLegal(m.disk, embeds, forward);
  }

  lemma {:induction false} EveryWriteIsLegal(ops: seq<Op>, forward: bool)
    requires CarefulRun(ops, forward)
    ensures var m := Play(Empty(), ops); Sound(m.disk, forward) && (m.ready ==> OnRecord(m.disk, forward))
  {
    if ops == [] {
      assert Records([]) == map[];
    } else {
      var n := |ops| - 1;
      var (m, op) := (Play(Empty(), ops[..n]), ops[n]);
      EveryWriteIsLegal(ops[..n], forward);
      OpLegal(m, op, forward);
      var ws := WritesOf(m.disk, op);
      if Completes(m.disk, op) {
        LegalEnd(m.disk, ws, forward);
      } else {
        LegalRun(m.disk, ws, op.cut, forward);
      }
    }
  }

  /** Over every history of batches, crashes and recoveries, wherever they die, each dedup key is visible at
      most once. */
  lemma AtMostOnce(ops: seq<Op>)
    requires CarefulRun(ops, false)
    ensures KeyDistinct(Play(Empty(), ops).disk.visible)
  {
    EveryWriteIsLegal(ops, false);
  }

  /** Every record a compaction through `floor` drops has all its keys in the index and its offset committed. */
  ghost predicate DropsOnlyDurable(d: Disk, floor: nat) {
    forall id | id in Records(d.wal) && id <= floor ::
      AllIndexed(d.index, Records(d.wal)[id].events) && CursorDurable(d, Records(d.wal)[id])
  }

  lemma LegalCompaction(d: Disk, ws: seq<Write>, k: nat)
    requires AllLegal(d, ws, true) && k < |ws| && ws[k].Compact?
    ensures DropsOnlyDurable(Run(d, ws[..k]), ws[k].floor)
  {
    assert LegalAt(d, ws, k, true);
    var x := Run(d, ws[..k]);
    forall id | id in Records(x.wal) && id <= ws[k].floor
      ensures AllIndexed(x.index, Records(x.wal)[id].events) && CursorDurable(x, Records(x.wal)[id])
    {
      assert Droppable(x, Records(x.wal)[id], true);
    }
  }

  /** At every compaction of every history, whether it ends a batch or a recovery, nothing is dropped whose
      keys or offset are not yet durable. */
  lemma CompactionDropsOnlyDurable(ops: seq<Op>, m: Machine, op: Op, ws: seq<Write>, k: nat)
    requires CarefulRun(ops, true) && m == Play(Empty(), ops) && Careful(m, op, true)
    requires ws == WritesOf(m.disk, op) && k < |ws| && ws[k].Compact?
    ensures DropsOnlyDurable(Run(m.disk, ws[..k]), ws[k].floor)
  {
    EveryWriteIsLegal(ops, true);
    OpLegal(m, op, true);
    LegalCompaction(m.disk, ws, k);
  }
}
