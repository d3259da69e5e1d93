/** The admission gauntlet: caps, key cardinality and per-tenant quotas, over any number of batches. */
module Admission {
  import opened Lists
  import opened Fairness

  const MAX_KEYS := 512
  const WINDOW_MS := 1000

  datatype Quota = Quota(events: nat, bytes: nat)

  /** One request against a tenant's quota. */
  datatype Request = Request(now: int, size: nat)

  datatype Usage = Usage(start: int, events: nat, bytes: nat)

  /** A tenant's usage as this instant sees it: a window that has run out starts again. */
  function Current(u: Usage, now: int): Usage {
    if now - u.start >= WINDOW_MS then Usage(now, 0, 0) else u
  }

  predicate Within(q: Quota, u: Usage, size: nat) {
    u.events + 1 <= q.events && u.bytes + size <= q.bytes
  }

  function Used(u: Usage, size: nat): Usage {
    u.(events := u.events + 1, bytes := u.bytes + size)
  }

  // --- one tenant's history ---

  /** The usage after a first charge at `now`, or after the charges so far. */
  function UsageAfter(q: Quota, charges: seq<Request>): Usage
    requires charges != []
  {
    var (front, c) := (charges[..|charges| - 1], charges[|charges| - 1]);
    var u := Current(if front == [] then Usage(c.now, 0, 0) else UsageAfter(q, front), c.now);
    if Within(q, u, c.size) then Used(u, c.size) else u
  }

  function WindowAt(q: Quota, front: seq<Request>, now: int): Usage {
    Current(if front == [] then Usage(now, 0, 0) else UsageAfter(q, front), now)
  }

  function Granted(q: Quota, charges: seq<Request>): seq<Request> {
    if charges == [] then []
    else
      var (front, c) := (charges[..|charges| - 1], charges[|charges| - 1]);
      Granted(q, front) + if Within(q, WindowAt(q, front, c.now), c.size) then [c] else []
  }

  predicate InSpan(c: Request, t: int) {
    t <= c.now < t + WINDOW_MS
  }

  function One(c: Request): nat {
    1
  }

  function Size(c: Request): nat {
    c.size
  }

  /** How much of `weight` was granted in the span that starts at `t`. */
  function Spent(granted: seq<Request>, weight: Request -> nat, t: int): nat {
    if granted == [] then 0
    else
      var (front, c) := (granted[..|granted| - 1], granted[|granted| - 1]);
      Spent(front, weight, t) + if InSpan(c, t) then weight(c) else 0
  }

  /** Everything granted from `t` on. */
  function SpentSince(granted: seq<Request>, weight: Request -> nat, t: int): nat {
    if granted == [] then 0
    else
      var (front, c) := (granted[..|granted| - 1], granted[|granted| - 1]);
      SpentSince(front, weight, t) + if t <= c.now then weight(c) else 0
  }

  /** The clock does not go back. */
  ghost predicate Forward(charges: seq<Request>) {
    forall i, j | 0 <= i < j < |charges| :: charges[i].now <= charges[j].now
  }

  /** What a limit `most` on each window leaves true: the current window started at `start` has granted
      `used`, nothing earlier reaches into it, and any span holds at most two windows' worth. */
  ghost predicate TwoWindows(granted: seq<Request>, weight: Request -> nat, start: int, used: nat, most: nat) {
    && used <= most
    && (forall t :: t >= start ==> SpentSince(granted, weight, t) <= used)
    && (forall t :: t > start - WINDOW_MS ==> SpentSince(granted, weight, t) <= used + most)
    && (forall t :: Spent(granted, weight, t) <= 2 * most)
  }

  lemma {:induction false} SpanIsSince(granted: seq<Request>, weight: Request -> nat, t: int)
    ensures Spent(granted, weight, t) <= SpentSince(granted, weight, t)
  {
    if granted != [] {
      SpanIsSince(granted[..|granted| - 1], weight, t);
    }
  }

  lemma {:induction false} NothingBefore(granted: seq<Request>, weight: Request -> nat, t: int)
    requires forall c | c in granted :: c.now < t
    ensures SpentSince(granted, weight, t) == 0
  {
    if granted != [] {
      var n := |granted| - 1;
      assert granted == granted[..n] + [granted[n]];
      NothingBefore(granted[..n], weight, t);
    }
  }

  /** A window that has run out: the next one starts at least a window later. */
  lemma NewWindow(granted: seq<Request>, weight: Request -> nat, start: int, used: nat, most: nat, start': int)
    requires TwoWindows(granted, weight, start, used, most) && start' >= start + WINDOW_MS
    requires forall c | c in granted :: c.now < start'
    ensures TwoWindows(granted, weight, start', 0, most)
  {
    forall t | t >= start' ensures SpentSince(granted, weight, t) <= 0 {
      NothingBefore(granted, weight, t);
    }
  }

  /** A grant inside the current window. */
  lemma GrantInWindow(granted: seq<Request>, weight: Request -> nat, start: int, used: nat, most: nat, c: Request)
    requires TwoWindows(granted, weight, start, used, most) && start <= c.now < start + WINDOW_MS && used + weight(c) <= most
    ensures TwoWindows(granted + [c], weight, start, used + weight(c), most)
  {
    var g := granted + [c];
    assert g[..|granted|] == granted;
    forall t ensures SpentSince(g, weight, t) <= SpentSince(granted, weight, t) + weight(c) {
    }
    forall t ensures Spent(g, weight, t) <= 2 * most {
      SpanIsSince(granted, weight, t);
      if t > start - WINDOW_MS {
        assert SpentSince(granted, weight, t) <= used + most;
      } else {
        assert !InSpan(c, t);
      }
    }
  }

  /** A tenant's books: both of its quotas are kept, and nothing granted lies beyond the current window. */
  ghost predicate Books(q: Quota, granted: seq<Request>, u: Usage) {
    && TwoWindows(granted, One, u.start, u.events, q.events)
    && TwoWindows(granted, Size, u.start, u.bytes, q.bytes)
    && forall c | c in granted :: c.now < u.start + WINDOW_MS
  }

  lemma BooksRoll(q: Quota, granted: seq<Request>, u: Usage, now: int)
    requires Books(q, granted, u)
    ensures Books(q, granted, Current(u, now))
  {
    if now - u.start >= WINDOW_MS {
      NewWindow(granted, One, u.start, u.events, q.events, now);
      NewWindow(granted, Size, u.start, u.bytes, q.bytes, now);
    }
  }

  lemma BooksGrant(q: Quota, granted: seq<Request>, u: Usage, c: Request)
    requires Books(q, granted, u) && u.start <= c.now < u.start + WINDOW_MS && Within(q, u, c.size)
    ensures Books(q, granted + [c], Used(u, c.size))
  {
    GrantInWindow(granted, One, u.start, u.events, q.events, c);
    GrantInWindow(granted, Size, u.start, u.bytes, q.bytes, c);
  }

  lemma {:induction false} BooksKept(q: Quota, charges: seq<Request>)
    requires Forward(charges) && charges != []
    ensures Books(q, Granted(q, charges), UsageAfter(q, charges))
    ensures UsageAfter(q, charges).start <= charges[|charges| - 1].now
  {
    var (front, c) := (charges[..|charges| - 1], charges[|charges| - 1]);
    var granted := Granted(q, front);
    if front == [] {
      assert granted == [];
      assert Books(q, [], Usage(c.now, 0, 0));
    } else {
      BooksKept(q, front);
      assert front[|front| - 1].now <= c.now;
      BooksRoll(q, granted, UsageAfter(q, front), c.now);
    }
    var u := WindowAt(q, front, c.now);
    if Within(q, u, c.size) {
      BooksGrant(q, granted, u, c);
    } else {
      assert granted + [] == granted;
    }
  }

  /** In any half-open span of one window, whenever it starts, a tenant is granted at most twice its event
      quota and at most twice its byte quota. */
  lemma AtMostTwiceTheQuota(q: Quota, charges: seq<Request>, t: int)
    requires Forward(charges)
    ensures Spent(Granted(q, charges), One, t) <= 2 * q.events
    ensures Spent(Granted(q, charges), Size, t) <= 2 * q.bytes
  {
    if charges != [] {
      BooksKept(q, charges);
    }
  }

  /** Twice is not slack in the statement. A refused charge opens a window too, so the whole quota can be
      granted at its very end and again as the next one begins. */
  lemma TwiceIsReached(t: int)
    ensures var charges := [Request(t, 2), Request(t + 999, 1), Request(t + 1000, 1)];
            Forward(charges) && Spent(Granted(Quota(1, 1), charges), One, t + 999) == 2
  {
    var (b, c) := (Request(t + 999, 1), Request(t + 1000, 1));
    LateThenNext(t);
    SpentMore([], One, t + 999, b);
    SpentMore([b], One, t + 999, c);
    assert [] + [b] == [b] && [b] + [c] == [b, c];
  }

  lemma LateThenNext(t: int)
    ensures Granted(Quota(1, 1), [Request(t, 2), Request(t + 999, 1), Request(t + 1000, 1)]) == [Request(t + 999, 1), Request(t + 1000, 1)]
  {
    var (q, a, b, c) := (Quota(1, 1), Request(t, 2), Request(t + 999, 1), Request(t + 1000, 1));
    RefusedThenLate(t);
    OneCharge(q, [a, b], c);
    assert [a, b] + [c] == [a, b, c] && [b] + [c] == [b, c];
  }

  lemma RefusedThenLate(t: int)
    ensures var charges := [Request(t, 2), Request(t + 999, 1)];
            UsageAfter(Quota(1, 1), charges) == Usage(t, 1, 1) && Granted(Quota(1, 1), charges) == [Request(t + 999, 1)]
  {
    var (q, a, b) := (Quota(1, 1), Request(t, 2), Request(t + 999, 1));
    OneCharge(q, [], a);
    assert [] + [a] == [a];
    OneCharge(q, [a], b);
    assert [a] + [b] == [a, b];
  }

  lemma OneCharge(q: Quota, front: seq<Request>, c: Request)
    ensures var u := WindowAt(q, front, c.now);
            && UsageAfter(q, front + [c]) == (if Within(q, u, c.size) then Used(u, c.size) else u)
            && Granted(q, front + [c]) == if Within(q, u, c.size) then Granted(q, front) + [c] else Granted(q, front)
  {
    assert (front + [c])[..|front|] == front;
  }

  lemma SpentMore(granted: seq<Request>, weight: Request -> nat, t: int, c: Request)
    ensures Spent(granted + [c], weight, t) == Spent(granted, weight, t) + if InSpan(c, t) then weight(c) else 0
  {
    assert (granted + [c])[..|granted|] == granted;
  }

  /** A clock that goes back breaks the bound: each refused charge in the future opens a window that a
      charge in the past then spends. */
  lemma BackwardClockBreaksTheBound(t: int)
    ensures var (a, b, c) := (Request(t, 1), Request(t + 1000, 2), Request(t + 2000, 2));
            Spent(Granted(Quota(1, 1), [a, b, a, c, a]), One, t) == 3
  {
    var (q, a, b, c) := (Quota(1, 1), Request(t, 1), Request(t + 1000, 2), Request(t + 2000, 2));
    OneCharge(q, [], a);
    assert [] + [a] == [a];
    BackAgain(t, [a], b);
    assert [a] + [b] + [a] == [a, b, a];
    BackAgain(t, [a, b, a], c);
    assert [a, b, a] + [c] + [a] == [a, b, a, c, a];
    SpentMore(Granted(q, [a, b, a]), One, t, a);
    SpentMore(Granted(q, [a]), One, t, a);
    SpentMore([], One, t, a);
  }

  lemma BackAgain(t: int, front: seq<Request>, ahead: Request)
    requires front != [] && ahead.size == 2 && ahead.now >= t
    requires UsageAfter(Quota(1, 1), front).start + WINDOW_MS <= ahead.now
    ensures var (q, a) := (Quota(1, 1), Request(t, 1));
            && UsageAfter(q, front + [ahead] + [a]).start == ahead.now
            && Granted(q, front + [ahead] + [a]) == Granted(q, front) + [a]
  {
    OneCharge(Quota(1, 1), front, ahead);
    OneCharge(Quota(1, 1), front + [ahead], Request(t, 1));
  }

  // --- the gauntlet, on values ---

  /** The quotas, and the caps and skew test at an instant. */
  datatype Rules = Rules(limits: nat -> Quota, passes: (int, Event) -> bool)

  /** One event as it meets the gauntlet. */
  datatype Offer = Offer(now: int, event: Event)

  /** What the gauntlet remembers: the keys it carries and every charge it made to a tenant. */
  datatype Gate = Gate(keys: set<nat>, charges: map<nat, seq<Request>>)

  const OPEN := Gate({}, map[])

  function ChargesOf(m: map<nat, seq<Request>>, t: nat): seq<Request> {
    if t in m then m[t] else []
  }

  predicate Fits(keys: set<nat>, more: set<nat>) {
    more - keys == {} || |keys| + |more - keys| <= MAX_KEYS
  }

  function Asked(o: Offer): Request {
    Request(o.now, o.event.size)
  }

  predicate InQuota(r: Rules, g: Gate, o: Offer) {
    var (q, t) := (r.limits(o.event.tenant), o.event.tenant);
    Within(q, WindowAt(q, ChargesOf(g.charges, t), o.now), o.event.size)
  }

  /** An event reaches the quota only past the caps, the skew test and the key check. */
  predicate Reaches(r: Rules, g: Gate, o: Offer) {
    r.passes(o.now, o.event) && Fits(g.keys, o.event.keys)
  }

  predicate Admits(r: Rules, g: Gate, o: Offer) {
    Reaches(r, g, o) && InQuota(r, g, o)
  }

  function Charged(charges: map<nat, seq<Request>>, o: Offer): map<nat, seq<Request>> {
    charges[o.event.tenant := ChargesOf(charges, o.event.tenant) + [Asked(o)]]
  }

  function Passed(r: Rules, g: Gate, o: Offer): Gate {
    if !Reaches(r, g, o) then g
    else Gate(if InQuota(r, g, o) then g.keys + o.event.keys else g.keys, Charged(g.charges, o))
  }

  function Through(r: Rules, g: Gate, offers: seq<Offer>): Gate {
    if offers == [] then g else Passed(r, Through(r, g, offers[..|offers| - 1]), offers[|offers| - 1])
  }

  /** The offers the gauntlet lets in, each judged by what came before it. */
  function Accepted(r: Rules, g: Gate, offers: seq<Offer>): seq<Offer> {
    if offers == [] then []
    else
      var (front, o) := (offers[..|offers| - 1], offers[|offers| - 1]);
      Accepted(r, g, front) + if Admits(r, Through(r, g, front), o) then [o] else []
  }

  function Rejected(r: Rules, g: Gate, offers: seq<Offer>): seq<Offer> {
    if offers == [] then []
    else
      var (front, o) := (offers[..|offers| - 1], offers[|offers| - 1]);
      Rejected(r, g, front) + if Admits(r, Through(r, g, front), o) then [] else [o]
  }

  lemma OneMore(r: Rules, g: Gate, offers: seq<Offer>, o: Offer)
    ensures var mid := Through(r, g, offers);
            && Through(r, g, offers + [o]) == Passed(r, mid, o)
            && Accepted(r, g, offers + [o]) == (if Admits(r, mid, o) then Accepted(r, g, offers) + [o] else Accepted(r, g, offers))
            && Rejected(r, g, offers + [o]) == if Admits(r, mid, o) then Rejected(r, g, offers) else Rejected(r, g, offers) + [o]
  {
    assert (offers + [o])[..|offers|] == offers;
  }

  /** A batch after another is one long run. */
  lemma {:induction false} ThroughBoth(r: Rules, g: Gate, a: seq<Offer>, b: seq<Offer>)
    ensures Through(r, g, a + b) == Through(r, Through(r, g, a), b)
    ensures Accepted(r, g, a + b) == Accepted(r, g, a) + Accepted(r, Through(r, g, a), b)
  {
    if b == [] {
      assert a + b == a;
    } else {
      var (front, o) := (b[..|b| - 1], b[|b| - 1]);
      ThroughBoth(r, g, a, front);
      Joined(a, front, [o]);
      assert b == front + [o];
      OneMore(r, g, a + front, o);
      OneMore(r, Through(r, g, a), front, o);
      Joined(Accepted(r, g, a), Accepted(r, Through(r, g, a), front), [o]);
    }
  }

  /** Every offer is accepted or rejected, once. */
  lemma {:induction false} NothingIsDropped(r: Rules, g: Gate, offers: seq<Offer>)
    ensures multiset(Accepted(r, g, offers) + Rejected(r, g, offers)) == multiset(offers)
  {
    if offers != [] {
      var (front, o) := (offers[..|offers| - 1], offers[|offers| - 1]);
      NothingIsDropped(r, g, front);
      assert offers == front + [o];
      OneMore(r, g, front, o);
      OnEitherSide(Accepted(r, g, front), Rejected(r, g, front), front, o);
    }
  }

  lemma OnEitherSide<T>(a: seq<T>, b: seq<T>, s: seq<T>, x: T)
    requires multiset(a + b) == multiset(s)
    ensures multiset(a + [x] + b) == multiset(s + [x]) == multiset(a + (b + [x]))
  {
  }

  function KeysOf(offers: seq<Offer>): set<nat> {
    if offers == [] then {} else KeysOf(offers[..|offers| - 1]) + offers[|offers| - 1].event.keys
  }

  lemma KeysAppend(offers: seq<Offer>, o: Offer)
    ensures KeysOf(offers + [o]) == KeysOf(offers) + o.event.keys
  {
    assert (offers + [o])[..|offers|] == offers;
  }

  lemma KeysFit(keys: set<nat>, more: set<nat>)
    requires |keys| <= MAX_KEYS && Fits(keys, more)
    ensures |keys + more| <= MAX_KEYS
  {
    assert keys + more == keys + (more - keys);
  }

  lemma KeysAfter(r: Rules, g: Gate, o: Offer, base: set<nat>, accepted: seq<Offer>)
    requires g.keys == base + KeysOf(accepted)
    ensures Passed(r, g, o).keys == base + KeysOf(if Admits(r, g, o) then accepted + [o] else accepted)
    ensures |g.keys| <= MAX_KEYS ==> |Passed(r, g, o).keys| <= MAX_KEYS
  {
    if Admits(r, g, o) {
      KeysAppend(accepted, o);
      if |g.keys| <= MAX_KEYS {
        KeysFit(g.keys, o.event.keys);
      }
    }
  }

  /** Only accepted events widen the dictionary, and never past its cap. */
  lemma {:induction false} DictionaryIsTheAccepted(r: Rules, g: Gate, offers: seq<Offer>)
    ensures Through(r, g, offers).keys == g.keys + KeysOf(Accepted(r, g, offers))
    ensures |g.keys| <= MAX_KEYS ==> |Through(r, g, offers).keys| <= MAX_KEYS
  {
    if offers != [] {
      var (front, o) := (offers[..|offers| - 1], offers[|offers| - 1]);
      DictionaryIsTheAccepted(r, g, front);
      KeysAfter(r, Through(r, g, front), o, g.keys, Accepted(r, g, front));
      assert offers == front + [o];
      OneMore(r, g, front, o);
    }
  }

  /** What a tenant's offers asked for, in order. */
  function RequestsOf(offers: seq<Offer>, t: nat): seq<Request> {
    if offers == [] then []
    else
      var (front, o) := (offers[..|offers| - 1], offers[|offers| - 1]);
      RequestsOf(front, t) + if o.event.tenant == t then [Asked(o)] else []
  }

  lemma RequestsMore(offers: seq<Offer>, o: Offer, t: nat)
    ensures RequestsOf(offers + [o], t) == if o.event.tenant == t then RequestsOf(offers, t) + [Asked(o)] else RequestsOf(offers, t)
  {
    assert (offers + [o])[..|offers|] == offers;
  }

  function GrantsOf(r: Rules, g: Gate, t: nat): seq<Request> {
    Granted(r.limits(t), ChargesOf(g.charges, t))
  }

  lemma GrantsAfter(r: Rules, g: Gate, o: Offer, t: nat)
    ensures GrantsOf(r, Passed(r, g, o), t) == if Admits(r, g, o) && o.event.tenant == t then GrantsOf(r, g, t) + [Asked(o)] else GrantsOf(r, g, t)
  {
    if Reaches(r, g, o) && o.event.tenant == t {
      OneCharge(r.limits(t), ChargesOf(g.charges, t), Asked(o));
    }
  }

  lemma GrantsStep(r: Rules, g: Gate, o: Offer, t: nat, base: seq<Request>, accepted: seq<Offer>)
    requires GrantsOf(r, g, t) == base + RequestsOf(accepted, t)
    ensures GrantsOf(r, Passed(r, g, o), t) == base + RequestsOf(if Admits(r, g, o) then accepted + [o] else accepted, t)
  {
    GrantsAfter(r, g, o, t);
    RequestsMore(accepted, o, t);
    Joined(base, RequestsOf(accepted, t), [Asked(o)]);
  }

  /** A tenant's quota is spent by its accepted events and by nothing else. */
  lemma {:induction false} GrantsAreTheAccepted(r: Rules, g: Gate, offers: seq<Offer>, t: nat)
    ensures GrantsOf(r, Through(r, g, offers), t) == GrantsOf(r, g, t) + RequestsOf(Accepted(r, g, offers), t)
  {
    if offers == [] {
      assert GrantsOf(r, g, t) + [] == GrantsOf(r, g, t);
    } else {
      var (front, o) := (offers[..|offers| - 1], offers[|offers| - 1]);
      GrantsAreTheAccepted(r, g, front, t);
      GrantsStep(r, Through(r, g, front), o, t, GrantsOf(r, g, t), Accepted(r, g, front));
      assert offers == front + [o];
      OneMore(r, g, front, o);
    }
  }

  /** Every charge so far was made in order and by `now`. */
  ghost predicate Timely(charges: map<nat, seq<Request>>, now: int) {
    forall t | t in charges :: Forward(charges[t]) && forall c | c in charges[t] :: c.now <= now
  }

  lemma TimelyCharge(charges: map<nat, seq<Request>>, o: Offer)
    requires Timely(charges, o.now)
    ensures Timely(Charged(charges, o), o.now)
  {
    var s := ChargesOf(charges, o.event.tenant) + [Asked(o)];
    forall i, j | 0 <= i < j < |s| ensures s[i].now <= s[j].now {
      assert s[i] in ChargesOf(charges, o.event.tenant);
    }
  }

  /** The clock does not go back from one offer to the next. */
  ghost predicate ClockForward(offers: seq<Offer>) {
    forall i, j | 0 <= i < j < |offers| :: offers[i].now <= offers[j].now
  }

  lemma {:induction false} ChargesStayTimely(r: Rules, offers: seq<Offer>, now: int)
    requires ClockForward(offers) && (offers != [] ==> offers[|offers| - 1].now <= now)
    ensures Timely(Through(r, OPEN, offers).charges, now)
  {
    if offers != [] {
      var (front, o) := (offers[..|offers| - 1], offers[|offers| - 1]);
      ChargesStayTimely(r, front, o.now);
      TimelyCharge(Through(r, OPEN, front).charges, o);
    }
  }

  /** Over any run of offers with a clock that does not go back, the events accepted from one tenant in any
      span of one window number at most twice its event quota and weigh at most twice its byte quota. */
  lemma AcceptedWithinTwice(r: Rules, offers: seq<Offer>, t: nat, s: int)
    requires ClockForward(offers)
    ensures Spent(RequestsOf(Accepted(r, OPEN, offers), t), One, s) <= 2 * r.limits(t).events
    ensures Spent(RequestsOf(Accepted(r, OPEN, offers), t), Size, s) <= 2 * r.limits(t).bytes
  {
    var granted := RequestsOf(Accepted(r, OPEN, offers), t);
    GrantsAreTheAccepted(r, OPEN, offers, t);
    assert [] + granted == granted;
    ChargesStayTimely(r, offers, if offers == [] then 0 else offers[|offers| - 1].now);
    AtMostTwiceTheQuota(r.limits(t), ChargesOf(Through(r, OPEN, offers).charges, t), s);
  }

  // --- who must be let in ---

  /** What a window has used, it granted since it started. */
  ghost predicate Counted(granted: seq<Request>, u: Usage) {
    u.events <= SpentSince(granted, One, u.start) && u.bytes <= SpentSince(granted, Size, u.start)
  }

  lemma CountedMore(granted: seq<Request>, u: Usage, c: Request)
    requires Counted(granted, u) && u.start <= c.now
    ensures Counted(granted + [c], Used(u, c.size))
  {
    SinceMore(granted, One, u.start, c);
    SinceMore(granted, Size, u.start, c);
  }

  lemma {:induction false} WindowCountsGrants(q: Quota, charges: seq<Request>)
    requires Forward(charges) && charges != []
    ensures Counted(Granted(q, charges), UsageAfter(q, charges)) && UsageAfter(q, charges).start <= charges[|charges| - 1].now
  {
    var (front, c) := (charges[..|charges| - 1], charges[|charges| - 1]);
    assert charges == front + [c];
    OneCharge(q, front, c);
    if front != [] {
      WindowCountsGrants(q, front);
      assert front[|front| - 1].now <= c.now;
    }
    CountedMoreIf(q, Granted(q, front), WindowAt(q, front, c.now), c);
  }

  lemma CountedMoreIf(q: Quota, granted: seq<Request>, u: Usage, c: Request)
    requires Counted(granted, u) && u.start <= c.now
    ensures Within(q, u, c.size) ==> Counted(granted + [c], Used(u, c.size))
  {
    CountedMore(granted, u, c);
  }

  lemma SinceMore(granted: seq<Request>, weight: Request -> nat, t: int, c: Request)
    ensures SpentSince(granted + [c], weight, t) == SpentSince(granted, weight, t) + if t <= c.now then weight(c) else 0
  {
    assert (granted + [c])[..|granted|] == granted;
  }

  lemma {:induction false} SinceLater(granted: seq<Request>, weight: Request -> nat, t: int, t': int)
    requires t <= t'
    ensures SpentSince(granted, weight, t') <= SpentSince(granted, weight, t)
  {
    if granted != [] {
      SinceLater(granted[..|granted| - 1], weight, t, t');
    }
  }

  /** The request keeps to both quotas beside what was spent in the window's length before it. */
  predicate HasRoom(q: Quota, spent: seq<Request>, c: Request) {
    && SpentSince(spent, One, c.now - WINDOW_MS + 1) + 1 <= q.events
    && SpentSince(spent, Size, c.now - WINDOW_MS + 1) + c.size <= q.bytes
  }

  /** A request that fits beside everything granted in the window's length before it is granted. */
  lemma RoomIsGranted(q: Quota, charges: seq<Request>, c: Request)
    requires Forward(charges)
    requires HasRoom(q, Granted(q, charges), c)
    ensures Granted(q, charges + [c]) == Granted(q, charges) + [c]
  {
    OneCharge(q, charges, c);
    if charges != [] {
      var u := UsageAfter(q, charges);
      WindowCountsGrants(q, charges);
      if c.now - u.start < WINDOW_MS {
        SinceLater(Granted(q, charges), One, c.now - WINDOW_MS + 1, u.start);
        SinceLater(Granted(q, charges), Size, c.now - WINDOW_MS + 1, u.start);
      }
    }
  }

  lemma FitsExactly(keys: set<nat>, more: set<nat>)
    ensures Fits(keys, more) <==> more <= keys || |keys + more| <= MAX_KEYS
  {
    assert keys + more == keys + (more - keys);
    assert more - keys == {} <==> more <= keys;
  }

  lemma RoomInQuota(r: Rules, g: Gate, o: Offer)
    requires Timely(g.charges, o.now) && HasRoom(r.limits(o.event.tenant), GrantsOf(r, g, o.event.tenant), Asked(o))
    ensures InQuota(r, g, o)
  {
    var (q, charges) := (r.limits(o.event.tenant), ChargesOf(g.charges, o.event.tenant));
    OneCharge(q, charges, Asked(o));
    RoomIsGranted(q, charges, Asked(o));
  }

  /** The other half of the quota's bound. After any run of offers, an event is let in only if it passes the
      caps and the skew test and its new keys leave the dictionary within its cap; and one that does is let
      in if it keeps to both quotas beside what its tenant's accepted events spent in the window's length
      before it. */
  lemma RoomIsAdmitted(r: Rules, offers: seq<Offer>, o: Offer)
    requires ClockForward(offers + [o])
    ensures var g := Through(r, OPEN, offers);
            var eligible := r.passes(o.now, o.event) && (o.event.keys <= g.keys || |g.keys + o.event.keys| <= MAX_KEYS);
            && (Admits(r, g, o) ==> eligible)
            && (eligible && HasRoom(r.limits(o.event.tenant), RequestsOf(Accepted(r, OPEN, offers), o.event.tenant), Asked(o)) ==> Admits(r, g, o))
  {
    var (g, t) := (Through(r, OPEN, offers), o.event.tenant);
    FitsExactly(g.keys, o.event.keys);
    OffersTimely(r, offers, o);
    GrantsFromOpen(r, offers, t);
    if HasRoom(r.limits(t), GrantsOf(r, g, t), Asked(o)) {
      RoomInQuota(r, g, o);
    }
  }

  lemma OffersTimely(r: Rules, offers: seq<Offer>, o: Offer)
    requires ClockForward(offers + [o])
    ensures Timely(Through(r, OPEN, offers).charges, o.now)
  {
    var all := offers + [o];
    assert forall i | 0 <= i < |offers| :: offers[i] == all[i];
    if offers != [] {
      assert all[|offers| - 1].now <= all[|offers|].now;
    }
    ChargesStayTimely(r, offers, o.now);
  }

  lemma GrantsFromOpen(r: Rules, offers: seq<Offer>, t: nat)
    ensures GrantsOf(r, Through(r, OPEN, offers), t) == RequestsOf(Accepted(r, OPEN, offers), t)
  {
    GrantsAreTheAccepted(r, OPEN, offers, t);
    assert [] + RequestsOf(Accepted(r, OPEN, offers), t) == RequestsOf(Accepted(r, OPEN, offers), t);
  }

  // --- the enforcer and the dictionary ---

  /** Each tenant's usage is what its own charges lead to. */
  ghost predicate Ledger(limits: nat -> Quota, usage: map<nat, Usage>, charges: map<nat, seq<Request>>) {
    usage.Keys == charges.Keys && forall t | t in usage :: charges[t] != [] && usage[t] == UsageAfter(limits(t), charges[t])
  }

  /** Per-tenant usage, updated in place, with the charges that led to it. */
  class QuotaEnforcer {
    const limits: nat -> Quota
    var usage: map<nat, Usage>
    ghost var charges: map<nat, seq<Request>>

    constructor (limits: nat -> Quota)
      ensures this.limits == limits && Valid() && charges == map[]
    {
      this.limits := limits;
      usage, charges := map[], map[];
    }

    ghost predicate Valid()
      reads this
    {
      Ledger(limits, usage, charges)
    }

    /** One event is charged to its tenant; the answer is exactly what that tenant's own history says. */
    method Charge(e: Event, now: int) returns (ok: bool)
      requires Valid()
      modifies this`usage, this`charges
      ensures Valid()
      ensures charges == Charged(old(charges), Offer(now, e))
      ensures ok <==> Within(limits(e.tenant), WindowAt(limits(e.tenant), ChargesOf(old(charges), e.tenant), now), e.size)
    {
      var (t, q) := (e.tenant, limits(e.tenant));
      OneCharge(q, ChargesOf(charges, t), Request(now, e.size));
      var u := Current(if t in usage then usage[t] else Usage(now, 0, 0), now);
      ok := Within(q, u, e.size);
      usage := usage[t := if ok then Used(u, e.size) else u];
      charges := Charged(charges, Offer(now, e));
    }
  }

  /** The keys the store has agreed to carry. */
  class KeyDictionary {
    var keys: set<nat>

    constructor ()
      ensures keys == {}
    {
      keys := {};
    }

    method InsertAll(e: Event)
      modifies this
      ensures keys == old(keys) + e.keys
    {
      keys := keys + e.keys;
    }
  }

  /** One event through the gauntlet, in the contract's order: caps and skew, key cardinality, quota. */
  method AdmitOne(e: Event, dict: KeyDictionary, quotas: QuotaEnforcer, now: int, r: Rules) returns (ok: bool)
    requires quotas.Valid() && quotas.limits == r.limits
    modifies dict, quotas`usage, quotas`charges
    ensures quotas.Valid()
    ensures ok <==> Admits(r, Gate(old(dict.keys), old(quotas.charges)), Offer(now, e))
    ensures Gate(dict.keys, quotas.charges) == Passed(r, Gate(old(dict.keys), old(quotas.charges)), Offer(now, e))
  {
    ok := false;
    if r.passes(now, e) {
      if Fits(dict.keys, e.keys) {
        ok := quotas.Charge(e, now);
        if ok {
          dict.InsertAll(e);
        }
      }
    }
  }

  function Offers(now: int, events: seq<Event>): (r: seq<Offer>)
    ensures |r| == |events| && forall i | 0 <= i < |r| :: r[i] == Offer(now, events[i])
  {
    seq(|events|, i requires 0 <= i < |events| => Offer(now, events[i]))
  }

  lemma OffersMore(now: int, events: seq<Event>, e: Event)
    ensures Offers(now, events + [e]) == Offers(now, events) + [Offer(now, e)]
  {
  }

  /** A batch offered at one instant, as the values say it goes. */
  ghost predicate Judged(r: Rules, g: Gate, g': Gate, now: int, turns: seq<Event>, accepted: seq<Event>, rejected: seq<Event>) {
    && g' == Through(r, g, Offers(now, turns))
    && Offers(now, accepted) == Accepted(r, g, Offers(now, turns))
    && Offers(now, rejected) == Rejected(r, g, Offers(now, turns))
  }

  lemma JudgedMore(r: Rules, g: Gate, mid: Gate, now: int, turns: seq<Event>, accepted: seq<Event>, rejected: seq<Event>, e: Event)
    requires Judged(r, g, mid, now, turns, accepted, rejected)
    ensures var g' := Passed(r, mid, Offer(now, e));
            if Admits(r, mid, Offer(now, e)) then Judged(r, g, g', now, turns + [e], accepted + [e], rejected)
            else Judged(r, g, g', now, turns + [e], accepted, rejected + [e])
  {
    OffersMore(now, turns, e);
    OffersMore(now, accepted, e);
    OffersMore(now, rejected, e);
    OneMore(r, g, Offers(now, turns), Offer(now, e));
  }

  method AdmitTurns(turns: seq<Event>, dict: KeyDictionary, quotas: QuotaEnforcer, now: int, r: Rules)
    returns (accepted: seq<Event>, rejected: seq<Event>)
    requires quotas.Valid() && quotas.limits == r.limits
    modifies dict, quotas`usage, quotas`charges
    ensures quotas.Valid()
    ensures Judged(r, Gate(old(dict.keys), old(quotas.charges)), Gate(dict.keys, quotas.charges), now, turns, accepted, rejected)
  {
    ghost var (g, read: seq<Event>) := (Gate(dict.keys, quotas.charges), []);
    accepted, rejected := [], [];
    for i := 0 to |turns|
      invariant quotas.Valid() && read == turns[..i]
      invariant Judged(r, g, Gate(dict.keys, quotas.charges), now, read, accepted, rejected)
    {
      JudgedMore(r, g, Gate(dict.keys, quotas.charges), now, read, accepted, rejected, turns[i]);
      var ok := AdmitOne(turns[i], dict, quotas, now, r);
      if ok {
        accepted := accepted + [turns[i]];
      } else {
        rejected := rejected + [turns[i]];
      }
      read := read + [turns[i]];
    }
    assert read == turns;
  }

  lemma EventsOf(now: int, a: seq<Event>, b: seq<Event>)
    requires multiset(Offers(now, a)) == multiset(Offers(now, b))
    ensures multiset(a) == multiset(b)
  {
    OffersAreMapped(now, a);
    OffersAreMapped(now, b);
    MapPermutes((o: Offer) => o.event, Offers(now, a), Offers(now, b));
  }

  lemma {:induction false} OffersAreMapped(now: int, events: seq<Event>)
    ensures Map((o: Offer) => o.event, Offers(now, events)) == events
  {
  }

  /** The accepted and rejected events are the batch. */
  lemma BatchIsKept(r: Rules, g: Gate, g': Gate, now: int, turns: seq<Event>, accepted: seq<Event>, rejected: seq<Event>)
    requires Judged(r, g, g', now, turns, accepted, rejected)
    ensures multiset(accepted + rejected) == multiset(turns)
  {
    NothingIsDropped(r, g, Offers(now, turns));
    assert Offers(now, accepted + rejected) == Offers(now, accepted) + Offers(now, rejected);
    EventsOf(now, accepted + rejected, turns);
  }

  /** A batch: interleaved, then event by event. */
  method Admit(events: seq<Event>, dict: KeyDictionary, quotas: QuotaEnforcer, now: int, r: Rules)
    returns (accepted: seq<Event>, rejected: seq<Event>, ghost turns: seq<Event>)
    requires quotas.Valid() && quotas.limits == r.limits
    modifies dict, quotas`usage, quotas`charges
    ensures quotas.Valid()
    ensures Interleaved(events, turns) && multiset(accepted + rejected) == multiset(events)
    ensures Judged(r, Gate(old(dict.keys), old(quotas.charges)), Gate(dict.keys, quotas.charges), now, turns, accepted, rejected)
  {
    ghost var g := Gate(dict.keys, quotas.charges);
    var out, tenants, queues := InterleaveByTenant(events);
    turns := out;
    accepted, rejected := AdmitTurns(out, dict, quotas, now, r);
    BatchIsKept(r, g, Gate(dict.keys, quotas.charges), now, out, accepted, rejected);
  }

  // --- any number of batches ---

  /** Batches and the instants they arrive at. */
  datatype Arrival = Arrival(now: int, events: seq<Event>)

  datatype Decision = Decision(accepted: seq<Event>, rejected: seq<Event>)

  /** `per[i]` offered at the instant of arrival `i`, in order. */
  function Offered(arrivals: seq<Arrival>, per: seq<seq<Event>>): seq<Offer>
    requires |per| <= |arrivals|
  {
    if per == [] then [] else Offered(arrivals, per[..|per| - 1]) + Offers(arrivals[|per| - 1].now, per[|per| - 1])
  }

  function AcceptedIn(decisions: seq<Decision>): (r: seq<seq<Event>>)
    ensures |r| == |decisions|
  {
    Map((d: Decision) => d.accepted, decisions)
  }

  lemma OfferedMore(arrivals: seq<Arrival>, per: seq<seq<Event>>, next: seq<Event>)
    requires |per| < |arrivals|
    ensures Offered(arrivals, per + [next]) == Offered(arrivals, per) + Offers(arrivals[|per|].now, next)
  {
    assert (per + [next])[..|per|] == per;
  }

  /** A batch is shared out fairly and kept whole. */
  ghost predicate SharedOut(batch: seq<Event>, turns: seq<Event>, d: Decision) {
    Interleaved(batch, turns) && multiset(d.accepted + d.rejected) == multiset(batch)
  }

  ghost predicate Shared(arrivals: seq<Arrival>, turns: seq<seq<Event>>, decisions: seq<Decision>) {
    |turns| == |decisions| <= |arrivals| && forall i | 0 <= i < |turns| :: SharedOut(arrivals[i].events, turns[i], decisions[i])
  }

  /** And all of them are one run of the gauntlet. */
  ghost predicate AllJudged(r: Rules, g: Gate, arrivals: seq<Arrival>, turns: seq<seq<Event>>, decisions: seq<Decision>) {
    && Shared(arrivals, turns, decisions)
    && g == Through(r, OPEN, Offered(arrivals, turns))
    && Offered(arrivals, AcceptedIn(decisions)) == Accepted(r, OPEN, Offered(arrivals, turns))
  }

  lemma AllJudgedMore(r: Rules, g: Gate, g': Gate, arrivals: seq<Arrival>, turns: seq<seq<Event>>, decisions: seq<Decision>, next: seq<Event>, d: Decision)
    requires AllJudged(r, g, arrivals, turns, decisions) && |turns| < |arrivals|
    requires SharedOut(arrivals[|turns|].events, next, d)
    requires Judged(r, g, g', arrivals[|turns|].now, next, d.accepted, d.rejected)
    ensures AllJudged(r, g', arrivals, turns + [next], decisions + [d])
  {
    OfferedMore(arrivals, turns, next);
    AcceptedInMore(arrivals, decisions, d);
    ThroughBoth(r, OPEN, Offered(arrivals, turns), Offers(arrivals[|turns|].now, next));
    SharedMore(arrivals, turns, decisions, next, d);
  }

  lemma AcceptedInMore(arrivals: seq<Arrival>, decisions: seq<Decision>, d: Decision)
    requires |decisions| < |arrivals|
    ensures Offered(arrivals, AcceptedIn(decisions + [d]))
         == Offered(arrivals, AcceptedIn(decisions)) + Offers(arrivals[|decisions|].now, d.accepted)
  {
    assert AcceptedIn(decisions + [d]) == AcceptedIn(decisions) + [d.accepted];
    OfferedMore(arrivals, AcceptedIn(decisions), d.accepted);
  }

  lemma SharedMore(arrivals: seq<Arrival>, turns: seq<seq<Event>>, decisions: seq<Decision>, next: seq<Event>, d: Decision)
    requires Shared(arrivals, turns, decisions) && |turns| < |arrivals|
    requires SharedOut(arrivals[|turns|].events, next, d)
    ensures Shared(arrivals, turns + [next], decisions + [d])
  {
  }

  /** Over any sequence of batches: each batch is shared out fairly and every event of it is accepted or
      rejected, all as one run of the gauntlet; the dictionary is the accepted events' keys and stays within
      its cap; and while the clock does not go back no tenant has more than twice a quota accepted in any
      span of one window. */
  method AdmitAll(arrivals: seq<Arrival>, r: Rules)
    returns (dict: KeyDictionary, quotas: QuotaEnforcer, decisions: seq<Decision>, ghost turns: seq<seq<Event>>)
    ensures |decisions| == |arrivals| && AllJudged(r, Gate(dict.keys, quotas.charges), arrivals, turns, decisions)
    ensures dict.keys == KeysOf(Offered(arrivals, AcceptedIn(decisions))) && |dict.keys| <= MAX_KEYS
    ensures forall t: nat :: Granted(r.limits(t), ChargesOf(quotas.charges, t)) == RequestsOf(Offered(arrivals, AcceptedIn(decisions)), t)
    ensures InOrder(arrivals) ==> NoMoreThanTwice(r.limits, Offered(arrivals, AcceptedIn(decisions)))
  {
    dict := new KeyDictionary();
    quotas := new QuotaEnforcer(r.limits);
    decisions, turns := [], [];
    for i := 0 to |arrivals|
      invariant quotas.Valid() && quotas.limits == r.limits && |turns| == i
      invariant AllJudged(r, Gate(dict.keys, quotas.charges), arrivals, turns, decisions)
    {
      ghost var g := Gate(dict.keys, quotas.charges);
      var accepted, rejected, next := Admit(arrivals[i].events, dict, quotas, arrivals[i].now, r);
      AllJudgedMore(r, g, Gate(dict.keys, quotas.charges), arrivals, turns, decisions, next, Decision(accepted, rejected));
      turns, decisions := turns + [next], decisions + [Decision(accepted, rejected)];
    }
    RunIsBounded(r, Gate(dict.keys, quotas.charges), arrivals, turns, decisions);
  }

  ghost predicate InOrder(arrivals: seq<Arrival>) {
    forall i, j | 0 <= i < j < |arrivals| :: arrivals[i].now <= arrivals[j].now
  }

  ghost predicate NoMoreThanTwice(limits: nat -> Quota, accepted: seq<Offer>) {
    forall t: nat, s: int ::
      && Spent(RequestsOf(accepted, t), One, s) <= 2 * limits(t).events
      && Spent(RequestsOf(accepted, t), Size, s) <= 2 * limits(t).bytes
  }

  lemma {:induction false} OfferedInOrder(arrivals: seq<Arrival>, per: seq<seq<Event>>)
    requires |per| <= |arrivals| && InOrder(arrivals)
    ensures ClockForward(Offered(arrivals, per))
    ensures forall o | o in Offered(arrivals, per) :: per != [] && o.now <= arrivals[|per| - 1].now
  {
    if per != [] {
      OfferedInOrder(arrivals, per[..|per| - 1]);
    }
  }

  lemma RunIsBounded(r: Rules, g: Gate, arrivals: seq<Arrival>, turns: seq<seq<Event>>, decisions: seq<Decision>)
    requires AllJudged(r, g, arrivals, turns, decisions)
    ensures g.keys == KeysOf(Offered(arrivals, AcceptedIn(decisions))) && |g.keys| <= MAX_KEYS
    ensures forall t: nat :: GrantsOf(r, g, t) == RequestsOf(Offered(arrivals, AcceptedIn(decisions)), t)
    ensures InOrder(arrivals) ==> NoMoreThanTwice(r.limits, Offered(arrivals, AcceptedIn(decisions)))
  {
    var offers := Offered(arrivals, turns);
    DictionaryIsTheAccepted(r, OPEN, offers);
    forall t: nat ensures GrantsOf(r, g, t) == RequestsOf(Accepted(r, OPEN, offers), t) {
      GrantsAreTheAccepted(r, OPEN, offers, t);
    }
    if InOrder(arrivals) {
      OfferedInOrder(arrivals, turns);
      forall t: nat, s: int
        ensures Spent(RequestsOf(Accepted(r, OPEN, offers), t), One, s) <= 2 * r.limits(t).events
        ensures Spent(RequestsOf(Accepted(r, OPEN, offers), t), Size, s) <= 2 * r.limits(t).bytes
      {
        AcceptedWithinTwice(r, offers, t, s);
      }
    }
  }
}
