/** The candidate phase: two collectors, and three physical scan strategies over the same rows. */
module Scan {
  import opened Ordering
  import opened Lists
  import opened TopK

  /** What the scalar mask says of a row: evaluating the row predicate can itself fail. */
  datatype Verdict = Pass | Drop | Fault

  datatype ScanRow = ScanRow(code: nat, id: int, part: nat, row: nat, verdict: Verdict)

  datatype Strategy = Interleaved | ScalarFirst | SemanticFirst

  type Adc = nat -> real

  function CandidateOf(adc: Adc, r: ScanRow): Candidate {
    Candidate(adc(r.code), r.id, r.part, r.row)
  }

  datatype State =
    | Bounded(cap: nat, heap: seq<Candidate>)
    | Threshold(exactBound: real, relaxedBound: real, budget: nat,
                kept: seq<Candidate>, overfetch: nat, overflowed: bool)

  function OfferThreshold(s: State, c: Candidate): State
    requires s.Threshold?
  {
    if c.dist > s.relaxedBound then s
    else if |s.kept| >= s.budget then s.(overflowed := true)
    else s.(overfetch := s.overfetch + (if c.dist > s.exactBound then 1 else 0), kept := s.kept + [c])
  }

  function Offered(s: State, c: Candidate): State {
    match s
    case Bounded(cap, heap) => Bounded(cap, OfferTo(heap, cap, c))
    case Threshold(_, _, _, _, _, _) => OfferThreshold(s, c)
  }

  predicate Admits(s: State, dist: real) {
    match s
    case Bounded(cap, heap) => WouldAdmit(heap, cap, dist)
    case Threshold(_, relaxed, _, _, _, _) => dist <= relaxed
  }

  class Collector {
    const topk: Heap?
    const exactBound: real
    const relaxedBound: real
    const budget: nat
    var kept: seq<Candidate>
    var overfetch: nat
    var overflowed: bool

    constructor Ranked(candidates: nat)
      ensures fresh(this) && topk != null && fresh(topk)
      ensures Current() == Bounded(candidates, [])
    {
      topk := new Heap(candidates);
      exactBound, relaxedBound, budget := 0.0, 0.0, 0;
      kept, overfetch, overflowed := [], 0, false;
    }

    constructor ByThreshold(exactBound: real, epsilon: real, budget: nat)
      ensures fresh(this) && topk == null
      ensures Current() == Threshold(exactBound, exactBound + epsilon, budget, [], 0, false)
    {
      topk := null;
      this.exactBound, relaxedBound, this.budget := exactBound, exactBound + epsilon, budget;
      kept, overfetch, overflowed := [], 0, false;
    }

    function Current(): State
      reads this, topk
    {
      if topk != null then Bounded(topk.cap, topk.heap)
      else Threshold(exactBound, relaxedBound, budget, kept, overfetch, overflowed)
    }

    method Offer(c: Candidate)
      modifies this, topk
      ensures Current() == Offered(old(Current()), c)
    {
      if topk != null {
        topk.Offer(c);
      } else if c.dist > relaxedBound {
      } else if |kept| >= budget {
        overflowed := true;
      } else {
        if c.dist > exactBound {
          overfetch := overfetch + 1;
        }
        kept := kept + [c];
      }
    }
  }

  // --- the reference: feed every row the mask passes; a failing predicate fails the query ---

  function Feed(s: State, adc: Adc, r: ScanRow): Option<State> {
    match r.verdict
    case Pass => Some(Offered(s, CandidateOf(adc, r)))
    case Drop => Some(s)
    case Fault => None
  }

  function FeedAll(s: State, adc: Adc, rows: seq<ScanRow>): Option<State> {
    if rows == [] then Some(s)
    else
      var before := FeedAll(s, adc, rows[..|rows| - 1]);
      if before.None? then None else Feed(before.value, adc, rows[|rows| - 1])
  }

  /** Consult the mask only where the collector could still be changed. */
  function FeedSkipping(s: State, adc: Adc, rows: seq<ScanRow>): Option<State> {
    if rows == [] then Some(s)
    else
      var before := FeedSkipping(s, adc, rows[..|rows| - 1]);
      var r := rows[|rows| - 1];
      if before.None? then None
      else if Admits(before.value, adc(r.code)) then Feed(before.value, adc, r)
      else before
  }

  function Outcome(strategy: Strategy, s: State, adc: Adc, rows: seq<ScanRow>): Option<State> {
    if strategy.SemanticFirst? then FeedSkipping(s, adc, rows) else FeedAll(s, adc, rows)
  }

  // --- the loops ---

  /** Fills the first `|range|` slots of the reused distance buffer. */
  method AdcScan(adc: Adc, range: seq<ScanRow>, dists: array<real>)
    requires |range| <= dists.Length
    modifies dists
    ensures forall i | 0 <= i < |range| :: dists[i] == adc(range[i].code)
  {
    for i := 0 to |range|
      invariant forall j | 0 <= j < i :: dists[j] == adc(range[j].code)
    {
      dists[i] := adc(range[i].code);
    }
  }

  /** One range under one strategy. `dists` is shared by every range, so stale slots past this
      range's rows are still in it. */
  method ScanRange(strategy: Strategy, adc: Adc, range: seq<ScanRow>, dists: array<real>, col: Collector)
    returns (ok: bool)
    requires |range| <= dists.Length
    modifies dists, col, col.topk
    ensures Outcome(strategy, old(col.Current()), adc, range) == if ok then Some(col.Current()) else None
  {
    ok := true;
    if !strategy.ScalarFirst? {
      AdcScan(adc, range, dists);
    }
    ghost var s0 := col.Current();
    for i := 0 to |range|
      invariant !strategy.ScalarFirst? ==> forall j | 0 <= j < |range| :: dists[j] == adc(range[j].code)
      invariant Outcome(strategy, s0, adc, range[..i]) == Some(col.Current())
      invariant ok
    {
      assert range[..i + 1][..i] == range[..i];
      var skip := false;
      if strategy.SemanticFirst? {
        var d := dists[i];
        skip := if col.topk != null then !WouldAdmit(col.topk.heap, col.topk.cap, d)
                else !(d <= col.relaxedBound);
      }
      if !skip {
        match range[i].verdict
        case Pass =>
          var dist := if strategy.ScalarFirst? then adc(range[i].code) else dists[i];
          col.Offer(Candidate(dist, range[i].id, range[i].part, range[i].row));
        case Drop =>
        case Fault =>
          FaultIsFinal(strategy, s0, adc, range, i + 1);
          return false;
      }
    }
    assert range[..|range|] == range;
  }

  lemma {:induction false} FaultIsFinal(strategy: Strategy, s: State, adc: Adc, rows: seq<ScanRow>, n: nat)
    requires n <= |rows| && Outcome(strategy, s, adc, rows[..n]) == None
    ensures Outcome(strategy, s, adc, rows) == None
    decreases |rows| - n
  {
    if n == |rows| {
      assert rows[..n] == rows;
    } else {
      assert rows[..n + 1][..n] == rows[..n];
      FaultIsFinal(strategy, s, adc, rows, n + 1);
    }
  }

  method ScanAll(strategy: Strategy, adc: Adc, ranges: seq<seq<ScanRow>>, col: Collector)
    returns (ok: bool)
    modifies col, col.topk
    ensures Outcome(strategy, old(col.Current()), adc, Concat(ranges)) == if ok then Some(col.Current()) else None
  {
    var longest: nat := 0;
    for i := 0 to |ranges|
      invariant forall j | 0 <= j < i :: |ranges[j]| <= longest
    {
      if |ranges[i]| > longest {
        longest := |ranges[i]|;
      }
    }
    var dists := new real[longest];
    ghost var s0 := col.Current();
    for i := 0 to |ranges|
      invariant fresh(dists)
      invariant Outcome(strategy, s0, adc, Concat(ranges[..i])) == Some(col.Current())
    {
      assert ranges[..i + 1][..i] == ranges[..i];
      OutcomeConcat(strategy, s0, adc, Concat(ranges[..i]), ranges[i]);
      ok := ScanRange(strategy, adc, ranges[i], dists, col);
      if !ok {
        ConcatFaults(strategy, s0, adc, ranges, i + 1);
        return false;
      }
    }
    assert ranges[..|ranges|] == ranges;
    return true;
  }

  lemma {:induction false} OutcomeConcat(strategy: Strategy, s: State, adc: Adc, a: seq<ScanRow>, b: seq<ScanRow>)
    ensures Outcome(strategy, s, adc, a + b)
         == var m := Outcome(strategy, s, adc, a); if m.None? then None else Outcome(strategy, m.value, adc, b)
    decreases |b|
  {
    if b == [] {
      assert a + b == a;
    } else {
      var n := |b| - 1;
      assert (a + b)[..|a + b| - 1] == a + b[..n];
      OutcomeConcat(strategy, s, adc, a, b[..n]);
    }
  }

  lemma {:induction false} ConcatFaults(strategy: Strategy, s: State, adc: Adc, ranges: seq<seq<ScanRow>>, n: nat)
    requires n <= |ranges| && Outcome(strategy, s, adc, Concat(ranges[..n])) == None
    ensures Outcome(strategy, s, adc, Concat(ranges)) == None
    decreases |ranges| - n
  {
    if n == |ranges| {
      assert ranges[..n] == ranges;
    } else {
      assert ranges[..n + 1][..n] == ranges[..n];
      OutcomeConcat(strategy, s, adc, Concat(ranges[..n]), ranges[n]);
      ConcatFaults(strategy, s, adc, ranges, n + 1);
    }
  }

  // --- plan invariance ---

  lemma RefusedOfferIsInert(s: State, c: Candidate)
    requires !Admits(s, c.dist)
    ensures Offered(s, c) == s
  {
  }

  ghost predicate NoFault(rows: seq<ScanRow>) {
    forall i | 0 <= i < |rows| :: !rows[i].verdict.Fault?
  }

  /** Skipping rows the collector would refuse never changes its state: heap layout, kept rows,
      overfetch count and overflow flag all agree, for both collectors. */
  lemma {:induction false} SkippingIsInvisible(s: State, adc: Adc, rows: seq<ScanRow>)
    requires NoFault(rows)
    ensures FeedSkipping(s, adc, rows) == FeedAll(s, adc, rows)
    ensures FeedAll(s, adc, rows).Some?
  {
    if rows != [] {
      var n := |rows| - 1;
      SkippingIsInvisible(s, adc, rows[..n]);
      var t := FeedAll(s, adc, rows[..n]).value;
      if !Admits(t, adc(rows[n].code)) {
        RefusedOfferIsInert(t, CandidateOf(adc, rows[n]));
      }
    }
  }

  /** Three strategies, one candidate set. */
  lemma PlanInvariance(a: Strategy, b: Strategy, s: State, adc: Adc, ranges: seq<seq<ScanRow>>)
    requires NoFault(Concat(ranges))
    ensures Outcome(a, s, adc, Concat(ranges)) == Outcome(b, s, adc, Concat(ranges))
    ensures Outcome(a, s, adc, Concat(ranges)).Some?
  {
    SkippingIsInvisible(s, adc, Concat(ranges));
  }

  /** Treats every failing row as one the predicate drops. */
  function WithoutFaults(rows: seq<ScanRow>): (r: seq<ScanRow>)
    ensures |r| == |rows|
  {
    seq(|rows|, i requires 0 <= i < |rows| => if rows[i].verdict.Fault? then rows[i].(verdict := Drop) else rows[i])
  }

  /** The failing row at `i` is near enough, when the scan reaches it, to have its predicate run. */
  ghost predicate ReachedAt(s: State, adc: Adc, rows: seq<ScanRow>, i: nat) {
    && i < |rows|
    && rows[i].verdict.Fault?
    && var before := FeedAll(s, adc, WithoutFaults(rows[..i]));
       before.Some? && Admits(before.value, adc(rows[i].code))
  }

  ghost predicate FaultReached(s: State, adc: Adc, rows: seq<ScanRow>) {
    exists i :: ReachedAt(s, adc, rows, i)
  }

  lemma ReachedInPrefix(s: State, adc: Adc, rows: seq<ScanRow>, n: nat, i: nat)
    requires i < n <= |rows|
    ensures ReachedAt(s, adc, rows, i) <==> ReachedAt(s, adc, rows[..n], i)
  {
    assert rows[..n][..i] == rows[..i];
  }

  lemma ReachedSplit(s: State, adc: Adc, rows: seq<ScanRow>)
    requires rows != []
    ensures FaultReached(s, adc, rows)
       <==> FaultReached(s, adc, rows[..|rows| - 1]) || ReachedAt(s, adc, rows, |rows| - 1)
  {
    forall i: nat | i < |rows| - 1 ensures ReachedAt(s, adc, rows, i) <==> ReachedAt(s, adc, rows[..|rows| - 1], i) {
      ReachedInPrefix(s, adc, rows, |rows| - 1, i);
    }
    if FaultReached(s, adc, rows[..|rows| - 1]) {
      var i :| ReachedAt(s, adc, rows[..|rows| - 1], i);
      assert ReachedAt(s, adc, rows, i);
    }
  }

  /** Semantic-first fails exactly when it reaches a failing row, and otherwise behaves as if the
      failing rows had been dropped. */
  lemma {:induction false} SkippingWithFaults(s: State, adc: Adc, rows: seq<ScanRow>)
    ensures FeedSkipping(s, adc, rows).None? <==> FaultReached(s, adc, rows)
    ensures FeedSkipping(s, adc, rows).Some? ==> FeedSkipping(s, adc, rows) == FeedAll(s, adc, WithoutFaults(rows))
  {
    if rows != [] {
      var n := |rows| - 1;
      SkippingWithFaults(s, adc, rows[..n]);
      ReachedSplit(s, adc, rows);
      SkippingIsInvisible(s, adc, WithoutFaults(rows[..n]));
      WithoutFaultsSplit(rows);
      var t := FeedAll(s, adc, WithoutFaults(rows[..n])).value;
      if !Admits(t, adc(rows[n].code)) {
        RefusedOfferIsInert(t, CandidateOf(adc, rows[n]));
      }
    }
  }

  lemma WithoutFaultsSplit(rows: seq<ScanRow>)
    requires rows != []
    ensures WithoutFaults(rows)[..|rows| - 1] == WithoutFaults(rows[..|rows| - 1])
  {
  }

  lemma {:induction false} FeedFailsOnFault(s: State, adc: Adc, rows: seq<ScanRow>)
    ensures FeedAll(s, adc, rows).None? <==> !NoFault(rows)
  {
    if rows != [] {
      FeedFailsOnFault(s, adc, rows[..|rows| - 1]);
      assert forall i | 0 <= i < |rows| - 1 :: rows[i] == rows[..|rows| - 1][i];
    }
  }

  /** When predicates can fail, plan invariance holds exactly when either no row's predicate fails
      or some failing row is reached: otherwise semantic-first answers a query the others refuse. */
  lemma PlanInvarianceExactly(s: State, adc: Adc, rows: seq<ScanRow>)
    ensures Outcome(SemanticFirst, s, adc, rows) == Outcome(Interleaved, s, adc, rows)
       <==> (NoFault(rows) || FaultReached(s, adc, rows))
    ensures Outcome(ScalarFirst, s, adc, rows) == Outcome(Interleaved, s, adc, rows)
  {
    FeedFailsOnFault(s, adc, rows);
    SkippingWithFaults(s, adc, rows);
    if NoFault(rows) {
      SkippingIsInvisible(s, adc, rows);
    }
  }

  /** A failing predicate is reported: by semantic-first if the scan reaches it, by the others always. */
  ghost predicate FaultShows(strategy: Strategy, s: State, adc: Adc, rows: seq<ScanRow>) {
    if strategy.SemanticFirst? then FaultReached(s, adc, rows) else !NoFault(rows)
  }

  /** Whatever the strategy, a scan that reports no fault leaves what it would if the failing rows had been
      dropped. */
  lemma OutcomeWithFaults(strategy: Strategy, s: State, adc: Adc, rows: seq<ScanRow>)
    ensures Outcome(strategy, s, adc, rows).None? <==> FaultShows(strategy, s, adc, rows)
    ensures !FaultShows(strategy, s, adc, rows) ==> Outcome(strategy, s, adc, rows) == FeedAll(s, adc, WithoutFaults(rows))
  {
    SkippingWithFaults(s, adc, rows);
    FeedFailsOnFault(s, adc, rows);
    if NoFault(rows) {
      assert WithoutFaults(rows) == rows;
    }
  }

  /** A full heap of near rows followed by a far row whose predicate fails. */
  lemma PlanInvarianceCanFail() returns (s: State, adc: Adc, rows: seq<ScanRow>)
    ensures Outcome(Interleaved, s, adc, rows).None?
    ensures Outcome(SemanticFirst, s, adc, rows).Some?
  {
    s := Bounded(1, []);
    adc := (code: nat) => code as real;
    rows := [ScanRow(1, 1, 0, 0, Pass), ScanRow(9, 2, 0, 1, Fault)];
    var one := [ScanRow(1, 1, 0, 0, Pass)];
    assert rows[..1] == one && one[..0] == [];
    var c := CandidateOf(adc, one[0]);
    assert OfferTo([], 1, c) == [c];
    assert FeedSkipping(s, adc, []) == Some(s) && Admits(s, adc(1));
    assert FeedSkipping(s, adc, one) == Some(Bounded(1, [c]));
  }

  // --- what a scan from an empty collector leaves behind ---

  function Passing(adc: Adc, rows: seq<ScanRow>): seq<Candidate> {
    if rows == [] then []
    else
      var front := Passing(adc, rows[..|rows| - 1]);
      var r := rows[|rows| - 1];
      if r.verdict.Pass? then front + [CandidateOf(adc, r)] else front
  }

  function Near(bound: real): Candidate -> bool {
    (c: Candidate) => c.dist <= bound
  }

  function Within(cs: seq<Candidate>, bound: real): seq<Candidate> {
    Filter(Near(bound), cs)
  }

  lemma {:induction false} BoundedScanKeepsBest(candidates: nat, adc: Adc, rows: seq<ScanRow>)
    requires NoFault(rows)
    ensures FeedAll(Bounded(candidates, []), adc, rows)
         == Some(Bounded(candidates, OfferAll(candidates, Passing(adc, rows))))
  {
    if rows != [] {
      var n := |rows| - 1;
      BoundedScanKeepsBest(candidates, adc, rows[..n]);
      var front := Passing(adc, rows[..n]);
      assert (front + [CandidateOf(adc, rows[n])])[..|front|] == front;
    }
  }

  function Beyond(cs: seq<Candidate>, bound: real): nat {
    if cs == [] then 0
    else Beyond(cs[..|cs| - 1], bound) + (if cs[|cs| - 1].dist > bound then 1 else 0)
  }

  function Collecting(exact: real, relaxed: real, budget: nat, near: seq<Candidate>): State {
    Threshold(exact, relaxed, budget, Take(near, budget), Beyond(Take(near, budget), exact), |near| > budget)
  }

  /** Every offered row inside the relaxed bound, in scan order, up to the budget; how many of
      those lie past the exact bound; and whether there were more than the budget. */
  function Gathered(exact: real, relaxed: real, budget: nat, cs: seq<Candidate>): State {
    Collecting(exact, relaxed, budget, Within(cs, relaxed))
  }

  lemma GatheredStep(exact: real, relaxed: real, budget: nat, cs: seq<Candidate>, c: Candidate)
    ensures Offered(Gathered(exact, relaxed, budget, cs), c) == Gathered(exact, relaxed, budget, cs + [c])
  {
    NearStep(cs, relaxed, c);
    GatherNext(exact, relaxed, budget, Within(cs, relaxed), c);
  }

  /** One more row, with the rows inside the relaxed bound so far. */
  lemma GatherNext(exact: real, relaxed: real, budget: nat, near: seq<Candidate>, c: Candidate)
    ensures OfferThreshold(Collecting(exact, relaxed, budget, near), c)
         == Collecting(exact, relaxed, budget, if c.dist <= relaxed then near + [c] else near)
  {
    if |near| < budget {
      assert Take(near, budget) == near && Take(near + [c], budget) == near + [c];
      BeyondStep(near, exact, c);
    } else {
      assert Take(near + [c], budget) == Take(near, budget);
    }
  }

  lemma NearStep(cs: seq<Candidate>, relaxed: real, c: Candidate)
    ensures Within(cs + [c], relaxed) == if c.dist <= relaxed then Within(cs, relaxed) + [c] else Within(cs, relaxed)
  {
    assert (cs + [c])[..|cs|] == cs;
  }

  lemma BeyondStep(near: seq<Candidate>, exact: real, c: Candidate)
    ensures Beyond(near + [c], exact) == Beyond(near, exact) + if c.dist > exact then 1 else 0
  {
    assert (near + [c])[..|near|] == near;
  }

  lemma {:induction false} ThresholdScanKeepsAll(exact: real, relaxed: real, budget: nat, adc: Adc, rows: seq<ScanRow>)
    requires NoFault(rows)
    ensures FeedAll(Threshold(exact, relaxed, budget, [], 0, false), adc, rows)
         == Some(Gathered(exact, relaxed, budget, Passing(adc, rows)))
  {
    if rows != [] {
      var n := |rows| - 1;
      ThresholdScanKeepsAll(exact, relaxed, budget, adc, rows[..n]);
      if rows[n].verdict.Pass? {
        GatheredStep(exact, relaxed, budget, Passing(adc, rows[..n]), CandidateOf(adc, rows[n]));
      }
    }
  }
}
