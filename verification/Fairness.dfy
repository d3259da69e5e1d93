/** Round-robin interleaving: where each tenant's events land, whatever the others send. */
module Fairness {
  import opened Ordering
  import opened Lists

  datatype Event = Event(tenant: nat, size: nat, keys: set<nat>, rest: nat)

  function OfTenant(t: nat): Event -> bool {
    (e: Event) => e.tenant == t
  }

  function Queue(events: seq<Event>, t: nat): seq<Event> {
    Filter(OfTenant(t), events)
  }

  // --- where an event lands ---

  /** How many events the first `j` rounds take. */
  function Rounds(counts: seq<nat>, j: nat): nat {
    if counts == [] then 0 else Rounds(counts[..|counts| - 1], j) + Min(counts[|counts| - 1], j)
  }

  /** How many of the first `i` tenants still have an event in round `j`. */
  function Ahead(counts: seq<nat>, i: nat, j: nat): nat
    requires i <= |counts|
  {
    if i == 0 then 0 else Ahead(counts, i - 1, j) + if counts[i - 1] > j then 1 else 0
  }

  /** The place of the `i`-th tenant's `j`-th event. */
  function Place(counts: seq<nat>, i: nat, j: nat): nat
    requires i <= |counts|
  {
    Rounds(counts, j) + Ahead(counts, i, j)
  }

  lemma {:induction false} AheadPrefix(counts: seq<nat>, n: nat, i: nat, j: nat)
    requires i <= n <= |counts|
    ensures Ahead(counts[..n], i, j) == Ahead(counts, i, j)
  {
    if i > 0 {
      AheadPrefix(counts, n, i - 1, j);
    }
  }

  /** A round takes one event from each tenant that still has one. */
  lemma {:induction false} NextRound(counts: seq<nat>, j: nat)
    ensures Rounds(counts, j + 1) == Rounds(counts, j) + Ahead(counts, |counts|, j)
  {
    if counts != [] {
      var n := |counts| - 1;
      NextRound(counts[..n], j);
      AheadPrefix(counts, n, n, j);
    }
  }

  lemma {:induction false} AheadGrows(counts: seq<nat>, i: nat, k: nat, j: nat)
    requires i <= k <= |counts|
    ensures Ahead(counts, i, j) <= Ahead(counts, k, j)
    ensures (exists m :: i <= m < k && counts[m] > j) ==> Ahead(counts, i, j) < Ahead(counts, k, j)
  {
    if i < k {
      AheadGrows(counts, i, k - 1, j);
    }
  }

  /** Each tenant's events keep their order. */
  lemma OrderKept(counts: seq<nat>, i: nat, j: nat, k: nat)
    requires i < |counts| && j < k < counts[i]
    ensures Place(counts, i, j) < Place(counts, i, k)
  {
    LaterRounds(counts, i, j, k);
  }

  lemma {:induction false} LaterRounds(counts: seq<nat>, i: nat, j: nat, k: nat)
    requires i < |counts| && j < k && j < counts[i]
    ensures Place(counts, i, j) < Rounds(counts, k)
  {
    NextRound(counts, k - 1);
    if k == j + 1 {
      AheadGrows(counts, i, |counts|, j);
    } else {
      LaterRounds(counts, i, j, k - 1);
    }
  }

  /** Two batches look alike up to round `j`: same tenants, and counts that agree below it. */
  ghost predicate AlikeThrough(a: seq<nat>, b: seq<nat>, j: nat) {
    |a| == |b| && forall k | 0 <= k < |a| :: Min(a[k], j + 1) == Min(b[k], j + 1)
  }

  /** A quiet tenant is not moved by a loud one: its `j`-th event lands in the same place however far
      any other tenant's count exceeds `j`. */
  lemma {:induction false} LoudnessDoesNotMatter(a: seq<nat>, b: seq<nat>, i: nat, j: nat)
    requires AlikeThrough(a, b, j) && i <= |a|
    ensures Place(a, i, j) == Place(b, i, j)
  {
    RoundsAlike(a, b, j);
    AheadAlike(a, b, i, j);
  }

  lemma {:induction false} RoundsAlike(a: seq<nat>, b: seq<nat>, j: nat)
    requires AlikeThrough(a, b, j)
    ensures Rounds(a, j) == Rounds(b, j)
  {
    if a != [] {
      var n := |a| - 1;
      assert a[..n][..] == a[..n];
      forall k | 0 <= k < n ensures Min(a[..n][k], j + 1) == Min(b[..n][k], j + 1) {
        assert a[..n][k] == a[k] && b[..n][k] == b[k];
      }
      RoundsAlike(a[..n], b[..n], j);
      assert Min(a[n], j + 1) == Min(b[n], j + 1);
    }
  }

  lemma {:induction false} AheadAlike(a: seq<nat>, b: seq<nat>, i: nat, j: nat)
    requires AlikeThrough(a, b, j) && i <= |a|
    ensures Ahead(a, i, j) == Ahead(b, i, j)
  {
    if i > 0 {
      AheadAlike(a, b, i - 1, j);
      assert Min(a[i - 1], j + 1) == Min(b[i - 1], j + 1);
    }
  }

  // --- the queues ---

  function Counts(queues: seq<seq<Event>>): seq<nat> {
    seq(|queues|, i requires 0 <= i < |queues| => |queues[i]|)
  }

  /** One queue per tenant, tenants ascending, holding that tenant's events in arrival order. */
  ghost predicate Queues(events: seq<Event>, tenants: seq<nat>, queues: seq<seq<Event>>) {
    && |tenants| == |queues|
    && (forall i, j | 0 <= i < j < |tenants| :: tenants[i] < tenants[j])
    && (forall i | 0 <= i < |tenants| :: queues[i] == Queue(events, tenants[i]))
    && (forall e | e in events :: e.tenant in tenants)
    && multiset(Concat(queues)) == multiset(events)
  }

  lemma QueueAppend(events: seq<Event>, e: Event, t: nat)
    ensures Queue(events + [e], t) == Queue(events, t) + if e.tenant == t then [e] else []
  {
    assert (events + [e])[..|events|] == events;
  }

  lemma {:induction false} NoQueue(events: seq<Event>, t: nat)
    requires forall e | e in events :: e.tenant != t
    ensures Queue(events, t) == []
  {
    if events != [] {
      assert events == events[..|events| - 1] + [events[|events| - 1]];
      NoQueue(events[..|events| - 1], t);
    }
  }

  lemma JoinedQueues(events: seq<Event>, tenants: seq<nat>, queues: seq<seq<Event>>, e: Event, i: nat)
    requires Queues(events, tenants, queues) && i < |tenants| && tenants[i] == e.tenant
    ensures Queues(events + [e], tenants, queues[i := queues[i] + [e]])
  {
    var qs := queues[i := queues[i] + [e]];
    ConcatUpdate(queues, i, e);
    forall k | 0 <= k < |tenants| ensures qs[k] == Queue(events + [e], tenants[k]) {
      QueueAppend(events, e, tenants[k]);
    }
  }

  lemma InsertedAt<T>(s: seq<T>, i: nat, x: T, k: nat)
    requires i <= |s| && k <= |s|
    ensures (s[..i] + [x] + s[i..])[k] == if k < i then s[k] else if k == i then x else s[k - 1]
  {
  }

  lemma InsertedTenants(tenants: seq<nat>, i: nat, t: nat)
    requires (forall i, j | 0 <= i < j < |tenants| :: tenants[i] < tenants[j]) && i <= |tenants|
    requires (forall k | 0 <= k < i :: tenants[k] < t) && (i < |tenants| ==> t < tenants[i])
    ensures var ts := tenants[..i] + [t] + tenants[i..]; forall i, j | 0 <= i < j < |ts| :: ts[i] < ts[j]
  {
    var ts := tenants[..i] + [t] + tenants[i..];
    forall k | 0 <= k < |ts| ensures ts[k] == if k < i then tenants[k] else if k == i then t else tenants[k - 1] {
      InsertedAt(tenants, i, t, k);
    }
  }

  lemma InsertedQueue(events: seq<Event>, tenants: seq<nat>, queues: seq<seq<Event>>, e: Event, i: nat, k: nat)
    requires Queues(events, tenants, queues) && i <= |tenants| && k <= |tenants| && e.tenant !in tenants
    ensures (queues[..i] + [[e]] + queues[i..])[k] == Queue(events + [e], (tenants[..i] + [e.tenant] + tenants[i..])[k])
  {
    InsertedAt(tenants, i, e.tenant, k);
    InsertedAt(queues, i, [e], k);
    QueueAppend(events, e, (tenants[..i] + [e.tenant] + tenants[i..])[k]);
    if k == i {
      forall x | x in events ensures x.tenant != e.tenant {
        assert x.tenant in tenants;
      }
      NoQueue(events, e.tenant);
    }
  }

  lemma InsertedQueues(events: seq<Event>, tenants: seq<nat>, queues: seq<seq<Event>>, e: Event, i: nat)
    requires Queues(events, tenants, queues) && i <= |tenants|
    requires (forall k | 0 <= k < i :: tenants[k] < e.tenant) && (i < |tenants| ==> e.tenant < tenants[i])
    ensures Queues(events + [e], tenants[..i] + [e.tenant] + tenants[i..], queues[..i] + [[e]] + queues[i..])
  {
    var ts := tenants[..i] + [e.tenant] + tenants[i..];
    var qs := queues[..i] + [[e]] + queues[i..];
    InsertedTenants(tenants, i, e.tenant);
    ConcatInsert(queues, i, [e]);
    forall k | 0 <= k < |ts| ensures qs[k] == Queue(events + [e], ts[k]) {
      InsertedQueue(events, tenants, queues, e, i, k);
    }
    InsertedCovers(events, tenants, e, i);
  }

  lemma InsertedCovers(events: seq<Event>, tenants: seq<nat>, e: Event, i: nat)
    requires i <= |tenants| && forall x | x in events :: x.tenant in tenants
    ensures forall x | x in events + [e] :: x.tenant in tenants[..i] + [e.tenant] + tenants[i..]
  {
    forall x | x in events + [e] ensures x.tenant in tenants[..i] + [e.tenant] + tenants[i..] {
      InsertedHolds(tenants, i, e.tenant, x.tenant);
    }
  }

  lemma InsertedHolds(tenants: seq<nat>, i: nat, t: nat, x: nat)
    requires i <= |tenants|
    ensures x in tenants || x == t ==> x in tenants[..i] + [t] + tenants[i..]
  {
    assert tenants == tenants[..i] + tenants[i..];
  }

  method FindTenant(tenants: seq<nat>, t: nat) returns (i: nat)
    requires forall i, j | 0 <= i < j < |tenants| :: tenants[i] < tenants[j]
    ensures i <= |tenants| && (forall k | 0 <= k < i :: tenants[k] < t) && (i < |tenants| ==> t <= tenants[i])
  {
    i := 0;
    while i < |tenants| && tenants[i] < t
      invariant i <= |tenants| && forall k | 0 <= k < i :: tenants[k] < t
    {
      i := i + 1;
    }
  }

  method Enqueue(ghost events: seq<Event>, tenants: seq<nat>, queues: seq<seq<Event>>, e: Event)
    returns (ts: seq<nat>, qs: seq<seq<Event>>, ghost events': seq<Event>)
    requires Queues(events, tenants, queues)
    ensures events' == events + [e] && Queues(events', ts, qs)
  {
    events' := events + [e];
    var i := FindTenant(tenants, e.tenant);
    if i < |tenants| && tenants[i] == e.tenant {
      JoinedQueues(events, tenants, queues, e, i);
      ts, qs := tenants, queues[i := queues[i] + [e]];
    } else {
      InsertedQueues(events, tenants, queues, e, i);
      ts, qs := tenants[..i] + [e.tenant] + tenants[i..], queues[..i] + [[e]] + queues[i..];
    }
  }

  lemma NoEvents()
    ensures Queues([], [], [])
  {
  }

  method GroupByTenant(events: seq<Event>) returns (tenants: seq<nat>, queues: seq<seq<Event>>)
    ensures Queues(events, tenants, queues)
  {
    tenants, queues := [], [];
    ghost var read: seq<Event> := [];
    NoEvents();
    for n := 0 to |events|
      invariant read == events[..n]
      invariant Queues(read, tenants, queues)
    {
      tenants, queues, read := Enqueue(read, tenants, queues, events[n]);
    }
    assert read == events;
  }

  // --- the rounds ---

  /** What one tenant has given up when round `j` has or has not passed it. */
  function Given(q: seq<Event>, passed: bool, j: nat): seq<Event> {
    q[..Min(|q|, if passed then j + 1 else j)]
  }

  lemma GivesOne(q: seq<Event>, j: nat)
    ensures j < |q| ==> Given(q, true, j) == Given(q, false, j) + [q[j]]
    ensures j >= |q| ==> Given(q, true, j) == Given(q, false, j)
  {
  }

  /** What has been taken when round `j` has reached tenant `k`. */
  ghost function Drawn(queues: seq<seq<Event>>, k: nat, j: nat): multiset<Event> {
    if queues == [] then multiset{}
    else
      var n := |queues| - 1;
      Drawn(queues[..n], k, j) + multiset(Given(queues[n], n < k, j))
  }

  lemma {:induction false} DrawOne(queues: seq<seq<Event>>, k: nat, j: nat)
    requires k < |queues| && j < |queues[k]|
    ensures Drawn(queues, k + 1, j) == Drawn(queues, k, j) + multiset{queues[k][j]}
  {
    var n := |queues| - 1;
    if k < n {
      DrawOne(queues[..n], k, j);
    } else {
      DrawBeyond(queues[..n], n, j);
      GivesOne(queues[n], j);
    }
  }

  lemma {:induction false} DrawNothing(queues: seq<seq<Event>>, k: nat, j: nat)
    requires k < |queues| && j >= |queues[k]|
    ensures Drawn(queues, k + 1, j) == Drawn(queues, k, j)
  {
    var n := |queues| - 1;
    if k < n {
      DrawNothing(queues[..n], k, j);
    } else {
      DrawBeyond(queues[..n], n, j);
      GivesOne(queues[n], j);
    }
  }

  lemma {:induction false} DrawBeyond(queues: seq<seq<Event>>, k: nat, j: nat)
    requires k >= |queues|
    ensures Drawn(queues, k, j) == Drawn(queues, k + 1, j) == Drawn(queues, 0, j + 1)
  {
    if queues != [] {
      DrawBeyond(queues[..|queues| - 1], k, j);
    }
  }

  lemma {:induction false} DrawAll(queues: seq<seq<Event>>, j: nat)
    requires forall i | 0 <= i < |queues| :: |queues[i]| <= j
    ensures Drawn(queues, 0, j) == multiset(Concat(queues))
  {
    if queues != [] {
      var n := |queues| - 1;
      DrawAll(queues[..n], j);
      assert queues[n][..|queues[n]|] == queues[n];
    }
  }

  lemma {:induction false} DrawNone(queues: seq<seq<Event>>)
    ensures Drawn(queues, 0, 0) == multiset{}
  {
    if queues != [] {
      DrawNone(queues[..|queues| - 1]);
    }
  }

  /** Everything taken so far sits where it should. */
  ghost predicate Placed(queues: seq<seq<Event>>, out: seq<Event>, k: nat, j: nat) {
    forall i, t | 0 <= i < |queues| && 0 <= t < |queues[i]| && (t < j || (t == j && i < k)) ::
      Place(Counts(queues), i, t) < |out| && out[Place(Counts(queues), i, t)] == queues[i][t]
  }

  /** The state between rounds. */
  ghost predicate Turn(queues: seq<seq<Event>>, out: seq<Event>, j: nat) {
    |out| == Rounds(Counts(queues), j) && multiset(out) == Drawn(queues, 0, j) && Placed(queues, out, 0, j)
  }

  /** The state when round `j` has reached tenant `k`. */
  ghost predicate MidTurn(queues: seq<seq<Event>>, out: seq<Event>, k: nat, j: nat) {
    k <= |queues| && |out| == Place(Counts(queues), k, j) && multiset(out) == Drawn(queues, k, j) && Placed(queues, out, k, j)
  }

  lemma PlacedNext(queues: seq<seq<Event>>, out: seq<Event>, k: nat, j: nat)
    requires k < |queues| && Placed(queues, out, k, j) && j < |queues[k]| && |out| == Place(Counts(queues), k, j)
    ensures Placed(queues, out + [queues[k][j]], k + 1, j)
  {
    var out' := out + [queues[k][j]];
    forall i, t | 0 <= i < |queues| && 0 <= t < |queues[i]| && (t < j || (t == j && i < k + 1))
      ensures Place(Counts(queues), i, t) < |out'| && out'[Place(Counts(queues), i, t)] == queues[i][t]
    {
      if t < j || i < k {
        assert Place(Counts(queues), i, t) < |out|;
      }
    }
  }

  lemma TakeNext(queues: seq<seq<Event>>, out: seq<Event>, k: nat, j: nat)
    requires MidTurn(queues, out, k, j) && k < |queues| && j < |queues[k]|
    ensures MidTurn(queues, out + [queues[k][j]], k + 1, j)
  {
    DrawOne(queues, k, j);
    PlacedNext(queues, out, k, j);
  }

  lemma SkipNext(queues: seq<seq<Event>>, out: seq<Event>, k: nat, j: nat)
    requires MidTurn(queues, out, k, j) && k < |queues| && j >= |queues[k]|
    ensures MidTurn(queues, out, k + 1, j)
  {
    DrawNothing(queues, k, j);
  }

  lemma EndTurn(queues: seq<seq<Event>>, out: seq<Event>, j: nat)
    requires MidTurn(queues, out, |queues|, j)
    ensures Turn(queues, out, j + 1)
  {
    DrawBeyond(queues, |queues|, j);
    NextRound(Counts(queues), j);
  }

  /** One pass over the tenants. */
  method Round(queues: seq<seq<Event>>, out0: seq<Event>, j: nat) returns (out: seq<Event>, active: bool)
    requires Turn(queues, out0, j)
    ensures Turn(queues, out, j + 1)
    ensures active ==> |out| > |out0|
    ensures !active ==> |out| == |out0| && forall i | 0 <= i < |queues| :: |queues[i]| <= j
  {
    out, active := out0, false;
    for k := 0 to |queues|
      invariant MidTurn(queues, out, k, j)
      invariant if active then |out| > |out0| else |out| == |out0| && forall i | 0 <= i < k :: |queues[i]| <= j
    {
      if j < |queues[k]| {
        TakeNext(queues, out, k, j);
        out := out + [queues[k][j]];
        active := true;
      } else {
        SkipNext(queues, out, k, j);
      }
    }
    EndTurn(queues, out, j);
  }

  lemma {:induction false} RoundsWithin(queues: seq<seq<Event>>, j: nat)
    ensures Rounds(Counts(queues), j) <= |Concat(queues)|
  {
    if queues != [] {
      var n := |queues| - 1;
      RoundsWithin(queues[..n], j);
      assert Counts(queues)[..n] == Counts(queues[..n]);
    }
  }

  method TakeTurns(queues: seq<seq<Event>>) returns (out: seq<Event>)
    ensures multiset(out) == multiset(Concat(queues))
    ensures forall i, t | 0 <= i < |queues| && 0 <= t < |queues[i]| ::
              Place(Counts(queues), i, t) < |out| && out[Place(Counts(queues), i, t)] == queues[i][t]
  {
    out := [];
    DrawNone(queues);
    NoRounds(Counts(queues));
    var j := 0;
    var active := true;
    RoundsWithin(queues, 0);
    while active
      invariant Turn(queues, out, j) && |out| <= |Concat(queues)|
      invariant !active ==> forall i | 0 <= i < |queues| :: |queues[i]| <= j
      decreases |Concat(queues)| - |out|, active
    {
      RoundsWithin(queues, j + 1);
      out, active := Round(queues, out, j);
      j := j + 1;
    }
    DrawAll(queues, j);
  }

  lemma {:induction false} NoRounds(counts: seq<nat>)
    ensures Rounds(counts, 0) == 0
  {
    if counts != [] {
      NoRounds(counts[..|counts| - 1]);
    }
  }

  /** The round-robin order of a batch: the same events, tenant `tenants[i]`'s `j`-th event at the place the
      counts alone decide. */
  ghost predicate InterleavedAs(events: seq<Event>, out: seq<Event>, tenants: seq<nat>, queues: seq<seq<Event>>) {
    && Queues(events, tenants, queues) && multiset(out) == multiset(events)
    && forall i, j | 0 <= i < |queues| && 0 <= j < |queues[i]| ::
         Place(Counts(queues), i, j) < |out| && out[Place(Counts(queues), i, j)] == Queue(events, tenants[i])[j]
  }

  ghost predicate Interleaved(events: seq<Event>, out: seq<Event>) {
    exists tenants, queues :: InterleavedAs(events, out, tenants, queues)
  }

  /** The interleaved batch is the same events, and tenant `tenants[i]`'s `j`-th event is exactly at the
      place the counts alone decide. */
  method InterleaveByTenant(events: seq<Event>) returns (out: seq<Event>, ghost tenants: seq<nat>, ghost queues: seq<seq<Event>>)
    ensures InterleavedAs(events, out, tenants, queues) && Interleaved(events, out)
  {
    var ts, qs := GroupByTenant(events);
    tenants, queues := ts, qs;
    out := TakeTurns(qs);
  }
}
