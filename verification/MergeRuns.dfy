/** Planned cycles carried out on the parts themselves: the planner's ops become the groups a cycle
    consumes, and cycles repeat until one selects nothing. */
module MergeRuns {
  import opened Lists
  import opened Merge
  import opened MergeCycles
  import opened Tiers
  import opened Scheduler
  import opened MergePlan

  /** What the planner sees of the parts: an id, the partition and the row count. */
  function Refs(parts: seq<Part>): (refs: seq<PartRef>)
    ensures |refs| == |parts| && forall i | 0 <= i < |refs| :: refs[i] == PartRef(i, parts[i].key, |parts[i].rows|)
  {
    seq(|parts|, i requires 0 <= i < |parts| => PartRef(i, parts[i].key, |parts[i].rows|))
  }

  /** The part a reference names. */
  function Named(parts: seq<Part>): PartRef -> Part {
    (r: PartRef) => if r.partId < |parts| then parts[r.partId] else Part(r.key, [])
  }

  /** The parts an op reads. */
  function Chosen(parts: seq<Part>, op: Op): seq<Part> {
    Map(Named(parts), op.members)
  }

  /** The parts no op reads. */
  function Spared(parts: seq<Part>, ops: seq<Op>): seq<Part> {
    Map(Named(parts), Filter(Untouched(GroupsOf(ops)), Refs(parts)))
  }

  function Consumed(ops: seq<Op>): set<nat> {
    set op, m | op in ops && m in op.members :: m.partId
  }

  ghost predicate FromRefs(parts: seq<Part>, ops: seq<Op>) {
    forall op | op in ops :: op in RipeOps(Refs(parts))
  }

  lemma OpIsItsGroup(parts: seq<Part>, op: Op)
    requires op in RipeOps(Refs(parts))
    ensures op.members == Scheduler.Members(Refs(parts), (op.key, op.tier))
  {
  }

  lemma {:induction false} KeptByFilter<T>(p: T -> bool, s: seq<T>, x: T)
    ensures x in Filter(p, s) <==> x in s && p(x)
  {
    if s != [] {
      KeptByFilter(p, s[..|s| - 1], x);
      assert s == s[..|s| - 1] + [s[|s| - 1]];
    }
  }

  lemma MemberOfOp(parts: seq<Part>, op: Op, i: nat)
    requires op in RipeOps(Refs(parts)) && i < |parts|
    ensures Refs(parts)[i] in op.members <==> GroupOf(Refs(parts)[i]) == (op.key, op.tier)
  {
    OpIsItsGroup(parts, op);
    KeptByFilter(InGroup((op.key, op.tier)), Refs(parts), Refs(parts)[i]);
  }

  lemma MembersAreRefs(parts: seq<Part>, op: Op, m: PartRef)
    requires op in RipeOps(Refs(parts)) && m in op.members
    ensures m.partId < |parts| && m == Refs(parts)[m.partId] && m.key == op.key
  {
    OpIsItsGroup(parts, op);
    KeptByFilter(InGroup((op.key, op.tier)), Refs(parts), m);
  }

  /** A part's id is consumed exactly when its tier was selected. */
  lemma ConsumedExactly(parts: seq<Part>, ops: seq<Op>, i: nat)
    requires FromRefs(parts, ops) && i < |parts|
    ensures i in Consumed(ops) <==> GroupOf(Refs(parts)[i]) in GroupsOf(ops)
  {
    var r := Refs(parts)[i];
    if i in Consumed(ops) {
      var op, m :| op in ops && m in op.members && m.partId == i;
      MembersAreRefs(parts, op, m);
      MemberOfOp(parts, op, i);
    }
    if GroupOf(r) in GroupsOf(ops) {
      var op :| op in ops && (op.key, op.tier) == GroupOf(r);
      MemberOfOp(parts, op, i);
      assert r in op.members && r.partId == i;
    }
  }

  lemma ChosenMembers(parts: seq<Part>, op: Op, p: Part)
    requires op in RipeOps(Refs(parts))
    ensures p in Chosen(parts, op) <==> exists i :: 0 <= i < |parts| && parts[i] == p && GroupOf(Refs(parts)[i]) == (op.key, op.tier)
    ensures p in Chosen(parts, op) ==> p.key == op.key
  {
    if p in Chosen(parts, op) {
      var k :| 0 <= k < |op.members| && Chosen(parts, op)[k] == p;
      var m := op.members[k];
      MembersAreRefs(parts, op, m);
      MemberOfOp(parts, op, m.partId);
    }
    if i :| 0 <= i < |parts| && parts[i] == p && GroupOf(Refs(parts)[i]) == (op.key, op.tier) {
      MemberOfOp(parts, op, i);
      var k :| 0 <= k < |op.members| && op.members[k] == Refs(parts)[i];
      assert Chosen(parts, op)[k] == p;
    }
  }

  lemma SparedMembers(parts: seq<Part>, ops: seq<Op>, p: Part)
    ensures p in Spared(parts, ops) <==> exists i :: 0 <= i < |parts| && parts[i] == p && GroupOf(Refs(parts)[i]) !in GroupsOf(ops)
  {
    var refs := Refs(parts);
    var left := Filter(Untouched(GroupsOf(ops)), refs);
    if p in Spared(parts, ops) {
      var k :| 0 <= k < |left| && Spared(parts, ops)[k] == p;
      KeptByFilter(Untouched(GroupsOf(ops)), refs, left[k]);
      var i :| 0 <= i < |refs| && refs[i] == left[k];
      assert parts[i] == p;
    }
    if i :| 0 <= i < |parts| && parts[i] == p && GroupOf(refs[i]) !in GroupsOf(ops) {
      KeptByFilter(Untouched(GroupsOf(ops)), refs, refs[i]);
      var k :| 0 <= k < |left| && left[k] == refs[i];
      assert Spared(parts, ops)[k] == p;
    }
  }

  // --- a plan carried out ---

  /** The cycle `c` is the plan's: one group per op, holding that op's parts, and the rest kept. */
  ghost predicate CarriesOut(parts: seq<Part>, plan: Plan, c: Cycle) {
    && c.kept == Spared(parts, plan.ops)
    && |c.groups| == |plan.ops|
    && forall i | 0 <= i < |c.groups| :: c.groups[i] == Chosen(parts, plan.ops[i])
  }

  ghost predicate Merges(scheme: Scheme, dead: set<int>, c: Cycle) {
    |c.outs| == |c.groups| && forall i | 0 <= i < |c.groups| :: Outputs(scheme, dead, c.groups[i], c.outs[i])
  }

  lemma PlannedGroupMember(parts: seq<Part>, plan: Plan, c: Cycle, p: Part)
    requires FromRefs(parts, plan.ops) && CarriesOut(parts, plan, c)
    ensures p in parts <==> p in c.kept || exists i :: 0 <= i < |c.groups| && p in c.groups[i]
  {
    SparedMembers(parts, plan.ops, p);
    if i :| 0 <= i < |c.groups| && p in c.groups[i] {
      ChosenMembers(parts, plan.ops[i], p);
    }
    if p in parts && p !in c.kept {
      var k :| 0 <= k < |parts| && parts[k] == p;
      var i := GroupHolding(parts, plan, k);
      assert p in c.groups[i];
    }
  }

  lemma GroupHolding(parts: seq<Part>, plan: Plan, k: nat) returns (i: nat)
    requires FromRefs(parts, plan.ops) && k < |parts| && GroupOf(Refs(parts)[k]) in GroupsOf(plan.ops)
    ensures i < |plan.ops| && parts[k] in Chosen(parts, plan.ops[i])
  {
    var op :| op in plan.ops && (op.key, op.tier) == GroupOf(Refs(parts)[k]);
    i :| 0 <= i < |plan.ops| && plan.ops[i] == op;
    ChosenMembers(parts, op, parts[k]);
  }

  /** The planner's ops are the disjoint one-partition groups a cycle needs. */
  lemma PlannedCycleRuns(scheme: Scheme, dead: set<int>, parts: seq<Part>, plan: Plan, c: Cycle)
    requires FromRefs(parts, plan.ops) && CarriesOut(parts, plan, c) && Merges(scheme, dead, c)
    ensures Runs(scheme, dead, parts, c)
  {
    forall p ensures p in parts <==> p in c.kept || exists i :: 0 <= i < |c.groups| && p in c.groups[i] {
      PlannedGroupMember(parts, plan, c, p);
    }
    forall i | 0 <= i < |c.groups| ensures OneKey(c.groups[i]) {
      forall p | p in c.groups[i] ensures p.key == plan.ops[i].key {
        ChosenMembers(parts, plan.ops[i], p);
      }
    }
  }

  lemma {:induction false} PresentBounded(outs: seq<Option<Part>>)
    ensures |Present(outs)| <= |outs|
  {
    if outs != [] {
      PresentBounded(outs[..|outs| - 1]);
    }
  }

  /** Every op leaves the store at least three parts smaller. */
  lemma PlannedCycleShrinks(parts: seq<Part>, rank: PartitionKey -> int, plan: Plan, c: Cycle)
    requires PlanOk(Refs(parts), rank, plan) && CarriesOut(parts, plan, c) && |c.outs| == |c.groups|
    ensures |After(c)| + (FANOUT - 1) * |plan.ops| <= |parts|
  {
    PresentBounded(c.outs);
    ConsumedCount(Refs(parts), plan.ops);
    UntouchedCount(Refs(parts), GroupsOf(plan.ops));
  }

  lemma SpareOne(parts: seq<Part>, refs: seq<PartRef>, ops: seq<Op>, i: nat)
    requires FromRefs(parts, ops) && i < |parts| && refs == Refs(parts)
    ensures Map(Named(parts), Filter(Untouched(GroupsOf(ops)), refs[..i + 1]))
         == Map(Named(parts), Filter(Untouched(GroupsOf(ops)), refs[..i])) + if i in Consumed(ops) then [] else [parts[i]]
  {
    ConsumedExactly(parts, ops, i);
    assert refs[..i + 1][..i] == refs[..i];
  }

  /** The snapshot's parts less the consumed ids. */
  method KeepUnconsumed(parts: seq<Part>, ops: seq<Op>) returns (kept: seq<Part>)
    requires FromRefs(parts, ops)
    ensures kept == Spared(parts, ops)
  {
    kept := [];
    var consumed := Consumed(ops);
    ghost var refs := Refs(parts);
    for i := 0 to |parts|
      invariant kept == Map(Named(parts), Filter(Untouched(GroupsOf(ops)), refs[..i]))
    {
      SpareOne(parts, refs, ops, i);
      if i !in consumed {
        kept := kept + [parts[i]];
      }
    }
    assert refs[..|parts|] == refs;
  }

  method MergeGroups(scheme: Scheme, dead: set<int>, parts: seq<Part>, ops: seq<Op>)
    returns (outs: seq<Option<Part>>, ghost groups: seq<seq<Part>>)
    ensures |outs| == |groups| == |ops|
    ensures forall i | 0 <= i < |ops| :: groups[i] == Chosen(parts, ops[i]) && Outputs(scheme, dead, groups[i], outs[i])
  {
    outs, groups := [], [];
    for i := 0 to |ops|
      invariant |outs| == |groups| == i
      invariant forall j | 0 <= j < i :: groups[j] == Chosen(parts, ops[j]) && Outputs(scheme, dead, groups[j], outs[j])
    {
      var group := Chosen(parts, ops[i]);
      var out, rowsIn, rowsOut, duplicates, dropped := MergeGroup(scheme, dead, group);
      outs, groups := outs + [out], groups + [group];
    }
  }

  method Collect(outs: seq<Option<Part>>) returns (written: seq<Part>)
    ensures written == Present(outs)
  {
    written := [];
    for i := 0 to |outs|
      invariant written == Present(outs[..i])
    {
      assert outs[..i + 1][..i] == outs[..i];
      if outs[i].Some? {
        written := written + [outs[i].value];
      }
    }
    assert outs[..|outs|] == outs;
  }

  /** A cycle as it happened: its plan, and what carrying it out did. */
  ghost predicate Planned(scheme: Scheme, dead: set<int>, parts: seq<Part>, rank: PartitionKey -> int, plan: Plan, c: Cycle) {
    PlanOk(Refs(parts), rank, plan) && CarriesOut(parts, plan, c) && Merges(scheme, dead, c)
  }

  /** Each group's output is the newest undeleted row of each id in it; a group with none leaves nothing. */
  ghost predicate WritesNewest(dead: set<int>, c: Cycle) {
    |c.outs| == |c.groups| && forall i | 0 <= i < |c.groups| ::
      if c.outs[i].Some? then KeepsNewest(dead, c.groups[i], c.outs[i].value) else forall r :: !Undeleted(dead, c.groups[i], r)
  }

  lemma CycleWritesNewest(scheme: Scheme, dead: set<int>, parts: seq<Part>, c: Cycle)
    requires Runs(scheme, dead, parts, c)
    ensures WritesNewest(dead, c)
  {
    forall i | 0 <= i < |c.groups|
      ensures if c.outs[i].Some? then KeepsNewest(dead, c.groups[i], c.outs[i].value) else forall r :: !Undeleted(dead, c.groups[i], r)
    {
      OutputKeepsNewest(scheme, dead, c.groups[i], c.outs[i]);
    }
  }

  /** One tiered cycle: plan, merge each op's parts, keep the rest. */
  method MergeTiered(scheme: Scheme, dead: set<int>, parts: seq<Part>, rank: PartitionKey -> int)
    returns (parts': seq<Part>, plan: Plan, ghost c: Cycle)
    ensures Planned(scheme, dead, parts, rank, plan, c) && parts' == After(c)
    ensures Runs(scheme, dead, parts, c) && |parts'| + (FANOUT - 1) * |plan.ops| <= |parts|
    ensures WritesNewest(dead, c)
  {
    ghost var queues;
    plan, queues := PlanMerges(Refs(parts), rank);
    var outs, groups := MergeGroups(scheme, dead, parts, plan.ops);
    var kept := KeepUnconsumed(parts, plan.ops);
    var written := Collect(outs);
    parts' := kept + written;
    c := Cycle(kept, groups, outs);
    PlannedCycleRuns(scheme, dead, parts, plan, c);
    PlannedCycleShrinks(parts, rank, plan, c);
    CycleWritesNewest(scheme, dead, parts, c);
  }

  // --- repeated cycles ---

  /** A run of cycles, each with its plan made on the parts the one before it left, none of them idle. */
  ghost predicate PlannedRun(scheme: Scheme, dead: set<int>, parts: seq<Part>, ranks: nat -> PartitionKey -> int, plans: seq<Plan>, cs: seq<Cycle>) {
    |plans| == |cs| && (cs == [] || (
      var n := |cs| - 1;
      && PlannedRun(scheme, dead, parts, ranks, plans[..n], cs[..n])
      && plans[n].ops != []
      && Planned(scheme, dead, AfterAll(parts, cs[..n]), ranks(n), plans[n], cs[n])))
  }

  lemma PlannedRunMore(scheme: Scheme, dead: set<int>, parts: seq<Part>, ranks: nat -> PartitionKey -> int, plans: seq<Plan>, cs: seq<Cycle>, plan: Plan, c: Cycle)
    requires PlannedRun(scheme, dead, parts, ranks, plans, cs) && plan.ops != []
    requires Planned(scheme, dead, AfterAll(parts, cs), ranks(|cs|), plan, c)
    ensures PlannedRun(scheme, dead, parts, ranks, plans + [plan], cs + [c]) && AfterAll(parts, cs + [c]) == After(c)
  {
    assert (plans + [plan])[..|plans|] == plans && (cs + [c])[..|cs|] == cs;
  }

  /** However the merges are ranked, no run of working cycles is longer than a third of the parts it
      started from, and each is a cycle the full merge cannot tell apart. */
  lemma {:induction false} EveryRunStops(scheme: Scheme, dead: set<int>, parts: seq<Part>, ranks: nat -> PartitionKey -> int, plans: seq<Plan>, cs: seq<Cycle>)
    requires PlannedRun(scheme, dead, parts, ranks, plans, cs)
    ensures RunsAll(scheme, dead, parts, cs)
    ensures |AfterAll(parts, cs)| + (FANOUT - 1) * |cs| <= |parts|
  {
    if cs != [] {
      var n := |cs| - 1;
      EveryRunStops(scheme, dead, parts, ranks, plans[..n], cs[..n]);
      var mid := AfterAll(parts, cs[..n]);
      PlannedCycleRuns(scheme, dead, mid, plans[n], cs[n]);
      PlannedCycleShrinks(mid, ranks(n), plans[n], cs[n]);
    }
  }

  /** Without ingest, cycles run until one selects nothing. They stop within a third as many cycles as there
      are parts; then every ripe tier is over the row budget; and a full merge of what is left keeps exactly
      the rows a full merge would have kept at the start. */
  method RunCycles(scheme: Scheme, dead: set<int>, parts: seq<Part>, ranks: nat -> PartitionKey -> int)
    returns (final: seq<Part>, cycles: nat, ghost plans: seq<Plan>, ghost cs: seq<Cycle>)
    ensures PlannedRun(scheme, dead, parts, ranks, plans, cs) && final == AfterAll(parts, cs) && |cs| == cycles
    ensures |final| + (FANOUT - 1) * cycles <= |parts|
    ensures forall op | op in RipeOps(Refs(final)) :: op.rows > IO_BUDGET
    ensures AllPure(scheme, parts) && Tieless(Entries(scheme, dead, parts)) ==>
              Merged(Entries(scheme, dead, final)) == Merged(Entries(scheme, dead, parts))
  {
    final, cycles, plans, cs := parts, 0, [], [];
    var parts', plan, c := MergeTiered(scheme, dead, final, ranks(cycles));
    while plan.ops != []
      invariant PlannedRun(scheme, dead, parts, ranks, plans, cs) && final == AfterAll(parts, cs) && |cs| == cycles
      invariant Planned(scheme, dead, final, ranks(cycles), plan, c) && parts' == After(c)
      invariant |parts'| + (FANOUT - 1) * |plan.ops| <= |final|
      decreases |final|
    {
      PlannedRunMore(scheme, dead, parts, ranks, plans, cs, plan, c);
      final, cycles, plans, cs := parts', cycles + 1, plans + [plan], cs + [c];
      parts', plan, c := MergeTiered(scheme, dead, final, ranks(cycles));
    }
    IdleExactly(Refs(final), ranks(cycles), plan);
    RunIsInvisible(scheme, dead, parts, ranks, plans, cs);
  }

  lemma RunIsInvisible(scheme: Scheme, dead: set<int>, parts: seq<Part>, ranks: nat -> PartitionKey -> int, plans: seq<Plan>, cs: seq<Cycle>)
    requires PlannedRun(scheme, dead, parts, ranks, plans, cs)
    ensures |AfterAll(parts, cs)| + (FANOUT - 1) * |cs| <= |parts|
    ensures AllPure(scheme, parts) && Tieless(Entries(scheme, dead, parts)) ==>
              Merged(Entries(scheme, dead, AfterAll(parts, cs))) == Merged(Entries(scheme, dead, parts))
  {
    EveryRunStops(scheme, dead, parts, ranks, plans, cs);
    if AllPure(scheme, parts) && Tieless(Entries(scheme, dead, parts)) {
      TieredThenFull(scheme, dead, parts, cs);
    }
  }
}
