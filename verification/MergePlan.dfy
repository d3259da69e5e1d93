/** One cycle's merge plan, end to end, and how much carrying it out removes. */
module MergePlan {
  import opened Ordering
  import opened Lists
  import opened Merge
  import opened Tiers
  import opened Scheduler

  datatype Plan = Plan(ops: seq<Op>, spent: nat, deferred: nat, debt: nat)

  predicate Cheaper(rank: PartitionKey -> int, a: Op, b: Op) {
    Less(Cost(rank)(a), Cost(rank)(b))
  }

  /** Each op is one ripe group, no group twice. */
  ghost predicate Sound(parts: seq<PartRef>, plan: Plan) {
    Distinct(plan.ops) && forall op | op in plan.ops :: op in RipeOps(parts)
  }

  ghost predicate WithinBudgets(plan: Plan) {
    |plan.ops| <= MAX_OPS && plan.spent == SumRows(plan.ops) && plan.spent <= IO_BUDGET
  }

  /** Nothing deferred would still fit. */
  ghost predicate Maximal(parts: seq<PartRef>, plan: Plan) {
    forall op | op in RipeOps(parts) && op !in plan.ops :: !Fits(|plan.ops|, plan.spent, op)
  }

  /** Within one bucket id, nothing is admitted ahead of something cheaper. */
  ghost predicate CheapestAdmitted(parts: seq<PartRef>, rank: PartitionKey -> int, plan: Plan) {
    forall x, y | x in plan.ops && y in RipeOps(parts) && BucketId(x) == BucketId(y) && Cheaper(rank, y, x) :: y in plan.ops
  }

  ghost predicate PlanOk(parts: seq<PartRef>, rank: PartitionKey -> int, plan: Plan) {
    && Sound(parts, plan)
    && |plan.ops| + plan.deferred == |RipeOps(parts)|
    && WithinBudgets(plan)
    && Maximal(parts, plan)
    && CheapestAdmitted(parts, rank, plan)
    && plan.debt + |Groups(parts)| == |parts|
  }

  /** The admission order's guarantees, read off its final state. */
  lemma AdmittedTook(queues: seq<seq<Op>>, ops: set<Op>, taken: seq<nat>, op: Op)
    requires Queued(queues, ops) && |taken| == |queues| && Took(queues, taken, op)
    ensures op in ops
  {
    var i, j :| 0 <= i < |queues| && 0 <= j < taken[i] && j < |queues[i]| && queues[i][j] == op;
    assert QueueOk(queues[i], ops) && op in queues[i];
  }

  lemma LaterCostsMore(queue: seq<Op>, rank: PartitionKey -> int, i: nat, j: nat)
    requires Sorted(queue, Cost(rank)) && i <= j < |queue|
    ensures queue[i].rows <= queue[j].rows && !Cheaper(rank, queue[j], queue[i])
  {
    if i < j {
      assert Leq(Cost(rank)(queue[i]), Cost(rank)(queue[j]));
    }
  }

  lemma TurnedAwayDoesNotFit(queues: seq<seq<Op>>, ripe: set<Op>, rank: PartitionKey -> int, left: seq<seq<Op>>, taken: seq<nat>,
                             ops: seq<Op>, spent: nat, deferred: nat, op: Op)
    requires Queued(queues, ripe) && CheapestFirst(queues, rank) && Admitting(queues, left, taken, ops, spent, deferred)
    requires (forall i | 0 <= i < |left| :: left[i] == []) && op in ripe && op !in ops
    ensures !Fits(|ops|, spent, op)
  {
    assert Waits(queues, op);
    var i :| 0 <= i < |queues| && op in queues[i];
    var j :| 0 <= j < |queues[i]| && queues[i][j] == op;
    assert Share(queues[i], left[i], taken[i], |ops|, spent);
    assert !Took(queues, taken, op);
    assert j >= taken[i];
    assert left[i] == [];
    LaterCostsMore(queues[i], rank, taken[i], j);
  }

  lemma CheaperIsTaken(queues: seq<seq<Op>>, ripe: set<Op>, rank: PartitionKey -> int, taken: seq<nat>, x: Op, y: Op)
    requires Queued(queues, ripe) && CheapestFirst(queues, rank) && |taken| == |queues| && Took(queues, taken, x)
    requires y in ripe && BucketId(x) == BucketId(y) && Cheaper(rank, y, x)
    ensures Took(queues, taken, y)
  {
    var i, a :| 0 <= i < |queues| && 0 <= a < taken[i] && a < |queues[i]| && queues[i][a] == x;
    assert Waits(queues, y);
    var k :| 0 <= k < |queues| && y in queues[k];
    SameQueue(queues, ripe, i, k, x, y);
    var b :| 0 <= b < |queues[i]| && queues[i][b] == y;
    if a <= b {
      LaterCostsMore(queues[i], rank, a, b);
    }
    assert 0 <= b < taken[i] && queues[i][b] == y;
  }

  lemma SameQueue(queues: seq<seq<Op>>, ripe: set<Op>, i: nat, k: nat, x: Op, y: Op)
    requires Queued(queues, ripe) && i < |queues| && k < |queues| && x in queues[i] && y in queues[k] && BucketId(x) == BucketId(y)
    ensures i == k
  {
    assert QueueOk(queues[i], ripe) && QueueOk(queues[k], ripe);
  }

  // --- the planner ---

  lemma {:induction false} LeastGroup(gs: set<Group>, rank: PartitionKey -> int) returns (g: Group)
    requires gs != {}
    ensures g in gs && forall h | h in gs :: rank(g.0) < rank(h.0) || (rank(g.0) == rank(h.0) && g.1 <= h.1)
    decreases |gs|
  {
    var x :| x in gs;
    if gs == {x} {
      g := x;
    } else {
      var y := LeastGroup(gs - {x}, rank);
      g := if rank(x.0) < rank(y.0) || (rank(x.0) == rank(y.0) && x.1 <= y.1) then x else y;
      assert forall h | h in gs :: h == x || h in gs - {x};
    }
  }

  /** The ripe merges among some of the groups. */
  function RipeIn(parts: seq<PartRef>, gs: set<Group>): set<Op> {
    set g | g in gs && Ripe(parts, g) :: OpFor(parts, g)
  }

  lemma RipeInAdds(parts: seq<PartRef>, gs: set<Group>, g: Group)
    requires g !in gs
    ensures Ripe(parts, g) ==> RipeIn(parts, gs + {g}) == RipeIn(parts, gs) + {OpFor(parts, g)} && OpFor(parts, g) !in RipeIn(parts, gs)
    ensures !Ripe(parts, g) ==> RipeIn(parts, gs + {g}) == RipeIn(parts, gs)
  {
    var all := gs + {g};
    if Ripe(parts, g) {
      forall op ensures op in RipeIn(parts, all) <==> op in RipeIn(parts, gs) + {OpFor(parts, g)} {
        if op in RipeIn(parts, all) {
          var h :| h in all && Ripe(parts, h) && OpFor(parts, h) == op;
          assert h in gs || h == g;
        }
        if op in RipeIn(parts, gs) {
          var h :| h in gs && Ripe(parts, h) && OpFor(parts, h) == op;
          assert h in all;
        }
        assert g in all;
      }
    } else {
      forall op ensures op in RipeIn(parts, all) <==> op in RipeIn(parts, gs) {
        if op in RipeIn(parts, all) {
          var h :| h in all && Ripe(parts, h) && OpFor(parts, h) == op;
          assert h in gs;
        }
        if op in RipeIn(parts, gs) {
          var h :| h in gs && Ripe(parts, h) && OpFor(parts, h) == op;
          assert h in all;
        }
      }
    }
  }

  method SumPartRows(parts: seq<PartRef>) returns (n: nat)
    ensures n == TotalRows(parts)
  {
    n := 0;
    for i := 0 to |parts|
      invariant n == TotalRows(parts[..i])
    {
      assert parts[..i + 1][..i] == parts[..i];
      n := n + parts[i].rows;
    }
    assert parts[..|parts|] == parts;
  }

  /** One group joins its bucket's queue if it is ripe. */
  method QueueIfRipe(parts: seq<PartRef>, g: Group, members: seq<PartRef>, queues: seq<seq<Op>>, ghost done: set<Group>)
    returns (qs: seq<seq<Op>>)
    requires members == Members(parts, g) && g !in done && Queued(queues, RipeIn(parts, done))
    ensures Queued(qs, RipeIn(parts, done + {g}))
  {
    RipeInAdds(parts, done, g);
    qs := queues;
    if |members| >= FANOUT {
      var rows := SumPartRows(members);
      qs := Enqueue(queues, Op(g.0, g.1, members, rows), RipeIn(parts, done));
    }
  }

  lemma Moved(all: set<Group>, todo: set<Group>, g: Group)
    requires g in todo && todo <= all
    ensures all - (todo - {g}) == (all - todo) + {g} && g !in all - todo && |todo - {g}| == |todo| - 1
  {
  }

  /** The ripe groups, queued per bucket id. */
  method QueueRipe(parts: seq<PartRef>, m: map<Group, seq<PartRef>>, rank: PartitionKey -> int) returns (queues: seq<seq<Op>>)
    requires m.Keys == Groups(parts) && forall g | g in m :: m[g] == Members(parts, g)
    ensures Queued(queues, RipeOps(parts))
  {
    queues := [];
    var all := m.Keys;
    var todo := all;
    while todo != {}
      invariant todo <= all && Queued(queues, RipeIn(parts, all - todo))
      decreases |todo|
    {
      ghost var least := LeastGroup(todo, rank);
      var g :| g in todo && forall h | h in todo :: rank(g.0) < rank(h.0) || (rank(g.0) == rank(h.0) && g.1 <= h.1);
      Moved(all, todo, g);
      queues := QueueIfRipe(parts, g, m[g], queues, all - todo);
      todo := todo - {g};
    }
    AllRipe(parts, all - todo);
  }

  lemma AllRipe(parts: seq<PartRef>, gs: set<Group>)
    requires gs == Groups(parts)
    ensures RipeIn(parts, gs) == RipeOps(parts)
  {
  }

  function CountIn(parts: seq<PartRef>, gs: set<Group>): nat {
    if parts == [] then 0
    else CountIn(parts[..|parts| - 1], gs) + if GroupOf(parts[|parts| - 1]) in gs then 1 else 0
  }

  lemma {:induction false} CountInAdds(parts: seq<PartRef>, gs: set<Group>, g: Group)
    requires g !in gs
    ensures CountIn(parts, gs + {g}) == CountIn(parts, gs) + |Members(parts, g)|
  {
    if parts != [] {
      CountInAdds(parts[..|parts| - 1], gs, g);
    }
  }

  lemma {:induction false} CountAll(parts: seq<PartRef>, gs: set<Group>)
    requires forall p | p in parts :: GroupOf(p) in gs
    ensures CountIn(parts, gs) == |parts|
  {
    if parts != [] {
      var n := |parts| - 1;
      assert forall p | p in parts[..n] :: p in parts;
      CountAll(parts[..n], gs);
      assert parts[n] in parts;
    }
  }

  lemma {:induction false} CountNone(parts: seq<PartRef>)
    ensures CountIn(parts, {}) == 0
  {
    if parts != [] {
      CountNone(parts[..|parts| - 1]);
    }
  }

  lemma {:induction false} GroupHasMember(parts: seq<PartRef>, p: PartRef)
    requires p in parts
    ensures |Members(parts, GroupOf(p))| >= 1
  {
    var n := |parts| - 1;
    if parts[n] != p {
      assert p in parts[..n];
      GroupHasMember(parts[..n], p);
    }
  }

  lemma GroupPopulated(parts: seq<PartRef>, g: Group)
    requires g in Groups(parts)
    ensures |Members(parts, g)| >= 1
  {
    var p :| p in parts && GroupOf(p) == g;
    GroupHasMember(parts, p);
  }

  /** Merge debt: every part beyond the first of its group, summed over the groups. */
  method MergeDebt(parts: seq<PartRef>, m: map<Group, seq<PartRef>>) returns (debt: nat)
    requires m.Keys == Groups(parts) && forall g | g in m :: m[g] == Members(parts, g)
    ensures debt + |Groups(parts)| == |parts|
  {
    debt := 0;
    var all := m.Keys;
    var todo := all;
    CountNone(parts);
    assert all - todo == {};
    while todo != {}
      invariant todo <= all && debt + |all| == CountIn(parts, all - todo) + |todo|
      decreases |todo|
    {
      var g :| g in todo;
      Moved(all, todo, g);
      CountInAdds(parts, all - todo, g);
      GroupPopulated(parts, g);
      debt := debt + |m[g]| - 1;
      todo := todo - {g};
    }
    assert all - todo == all;
    CountAll(parts, all);
  }

  /** One queue per bucket id, ids ascending, each queue by rows and then by partition. */
  ghost predicate ByBucket(queues: seq<seq<Op>>, rank: PartitionKey -> int) {
    && (forall i, x, y | 0 <= i < |queues| && x in queues[i] && y in queues[i] :: x.key.bucket.id == y.key.bucket.id)
    && (forall i, j, x, y | 0 <= i < j < |queues| && x in queues[i] && y in queues[j] :: x.key.bucket.id < y.key.bucket.id)
    && (forall i, a, b | 0 <= i < |queues| && 0 <= a < b < |queues[i]| ::
          queues[i][a].rows < queues[i][b].rows
          || (queues[i][a].rows == queues[i][b].rows && rank(queues[i][a].key) <= rank(queues[i][b].key)))
  }

  lemma QueuesByBucket(queues: seq<seq<Op>>, ripe: set<Op>, rank: PartitionKey -> int)
    requires Queued(queues, ripe) && CheapestFirst(queues, rank)
    ensures ByBucket(queues, rank)
  {
    forall i, x | 0 <= i < |queues| && x in queues[i] ensures x.key.bucket.id == queues[i][0].key.bucket.id {
      assert QueueOk(queues[i], ripe);
    }
    forall i, a, b | 0 <= i < |queues| && 0 <= a < b < |queues[i]|
      ensures queues[i][a].rows < queues[i][b].rows
              || (queues[i][a].rows == queues[i][b].rows && rank(queues[i][a].key) <= rank(queues[i][b].key))
    {
      assert Sorted(queues[i], Cost(rank));
      assert Leq(Cost(rank)(queues[i][a]), Cost(rank)(queues[i][b]));
    }
  }

  /** This cycle's plan. */
  method PlanMerges(parts: seq<PartRef>, rank: PartitionKey -> int) returns (plan: Plan, ghost queues: seq<seq<Op>>)
    ensures PlanOk(parts, rank, plan)
    ensures Queued(queues, RipeOps(parts)) && CheapestFirst(queues, rank) && ByBucket(queues, rank)
    ensures HeadsFit(queues) ==> HeadsTaken(queues, plan.ops)
    ensures exists taken, turns, rounds :: RoundRobin(queues, taken, plan.ops, turns, rounds)
  {
    var m := GroupParts(parts);
    var debt := MergeDebt(parts, m);
    var unsorted := QueueRipe(parts, m, rank);
    ghost var ripe := RipeOps(parts);
    var qs := SortQueues(unsorted, rank, ripe);
    QueuesApart(qs, ripe);
    QueuesByBucket(qs, ripe, rank);
    var ops, spent, deferred, left, taken, turns, rounds := AdmitAll(qs);
    NothingLeft(left);
    plan, queues := Plan(ops, spent, deferred, debt), qs;
    forall op | op in ops ensures op in ripe {
      AdmittedTook(qs, ripe, taken, op);
    }
    forall op | op in ripe && op !in ops ensures !Fits(|ops|, spent, op) {
      TurnedAwayDoesNotFit(qs, ripe, rank, left, taken, ops, spent, deferred, op);
    }
    forall x, y | x in ops && y in ripe && BucketId(x) == BucketId(y) && Cheaper(rank, y, x) ensures y in ops {
      CheaperIsTaken(qs, ripe, rank, taken, x, y);
    }
  }

  // --- what every plan implies ---

  lemma {:induction false} OpWithinTotal(ops: seq<Op>, op: Op)
    requires op in ops
    ensures op.rows <= SumRows(ops)
  {
    var n := |ops| - 1;
    if ops[n] != op {
      OpWithinTotal(ops[..n], op);
    }
  }

  /** A cycle selects nothing if and only if every ripe group alone exceeds the row budget. */
  lemma IdleExactly(parts: seq<PartRef>, rank: PartitionKey -> int, plan: Plan)
    requires PlanOk(parts, rank, plan)
    ensures plan.ops == [] <==> forall op | op in RipeOps(parts) :: op.rows > IO_BUDGET
  {
    if plan.ops != [] {
      assert plan.ops[0] in RipeOps(parts);
      OpWithinTotal(plan.ops, plan.ops[0]);
    }
  }

  /** A ripe group larger than the row budget is deferred by every plan, however often it is planned. */
  lemma OversizedIsNeverMerged(parts: seq<PartRef>, rank: PartitionKey -> int, plan: Plan, op: Op)
    requires PlanOk(parts, rank, plan) && op in RipeOps(parts) && op.rows > IO_BUDGET
    ensures op !in plan.ops && plan.deferred >= 1
  {
    if op in plan.ops {
      OpWithinTotal(plan.ops, op);
    }
    OneTurnedAway(parts, plan, op);
  }

  function AsSet(ops: seq<Op>): set<Op> {
    set op | op in ops
  }

  lemma {:induction false} AsSetSize(ops: seq<Op>)
    ensures |AsSet(ops)| <= |ops|
    ensures Distinct(ops) ==> |AsSet(ops)| == |ops|
  {
    if ops == [] {
      assert AsSet(ops) == {};
    } else {
      var n := |ops| - 1;
      AsSetSize(ops[..n]);
      assert ops == ops[..n] + [ops[n]];
      assert AsSet(ops) == AsSet(ops[..n]) + {ops[n]};
    }
  }

  lemma SmallerSet(a: set<Op>, b: set<Op>)
    ensures a <= b ==> |a| <= |b|
  {
    if a <= b {
      assert b == a + (b - a);
    }
  }

  lemma OneTurnedAway(parts: seq<PartRef>, plan: Plan, op: Op)
    requires Sound(parts, plan) && |plan.ops| + plan.deferred == |RipeOps(parts)|
    requires op in RipeOps(parts) && op !in plan.ops
    ensures plan.deferred >= 1
  {
    AsSetSize(plan.ops);
    SmallerSet(AsSet(plan.ops) + {op}, RipeOps(parts));
  }

  /** With nothing selected and nothing deferred, every tier of every partition is below the fan-out. */
  lemma QuietMeansNoTierIsFull(parts: seq<PartRef>, rank: PartitionKey -> int, plan: Plan, g: Group)
    requires PlanOk(parts, rank, plan) && plan.ops == [] && plan.deferred == 0
    ensures |Members(parts, g)| < FANOUT
  {
    RipeIsListed(parts, g);
  }

  lemma RipeIsListed(parts: seq<PartRef>, g: Group)
    ensures Ripe(parts, g) ==> OpFor(parts, g) in RipeOps(parts)
  {
    if Ripe(parts, g) {
      var p := Members(parts, g)[0];
      assert p in Members(parts, g);
      assert p in parts && GroupOf(p) == g;
    }
  }

  // --- what a cycle removes ---

  function GroupsOf(ops: seq<Op>): set<Group> {
    set op | op in ops :: (op.key, op.tier)
  }

  function Untouched(gs: set<Group>): PartRef -> bool {
    (p: PartRef) => GroupOf(p) !in gs
  }

  lemma {:induction false} UntouchedCount(parts: seq<PartRef>, gs: set<Group>)
    ensures |Filter(Untouched(gs), parts)| + CountIn(parts, gs) == |parts|
  {
    if parts != [] {
      UntouchedCount(parts[..|parts| - 1], gs);
    }
  }

  lemma {:induction false} ConsumedCount(parts: seq<PartRef>, ops: seq<Op>)
    requires Distinct(ops) && forall op | op in ops :: op in RipeOps(parts)
    ensures CountIn(parts, GroupsOf(ops)) >= FANOUT * |ops|
  {
    if ops == [] {
    } else {
      var (front, last) := (ops[..|ops| - 1], ops[|ops| - 1]);
      assert ops == front + [last];
      assert forall op | op in front :: op in ops;
      ConsumedCount(parts, front);
      assert last in ops;
      NewGroup(parts, front, last);
      CountInAdds(parts, GroupsOf(front), (last.key, last.tier));
    }
  }

  lemma NewGroup(parts: seq<PartRef>, front: seq<Op>, last: Op)
    requires Distinct(front + [last]) && forall op | op in front + [last] :: op in RipeOps(parts)
    ensures GroupsOf(front + [last]) == GroupsOf(front) + {(last.key, last.tier)}
    ensures (last.key, last.tier) !in GroupsOf(front)
    ensures |Members(parts, (last.key, last.tier))| >= FANOUT
  {
    var ops := front + [last];
    assert last in ops;
    forall op | op in ops ensures op == OpFor(parts, (op.key, op.tier)) && Ripe(parts, (op.key, op.tier)) {
      assert op in RipeOps(parts);
    }
    forall op | op in front ensures (op.key, op.tier) != (last.key, last.tier) {
      var i :| 0 <= i < |front| && front[i] == op;
      assert ops[i] == op && ops[|front|] == last;
      assert op in ops;
    }
  }

  /** The parts after a cycle: what no op touched, and at most one output per op. */
  ghost predicate Cycled(parts: seq<PartRef>, plan: Plan, outs: seq<PartRef>, parts': seq<PartRef>) {
    |outs| <= |plan.ops| && parts' == Filter(Untouched(GroupsOf(plan.ops)), parts) + outs
  }

  /** Every op removes at least three parts from the store. */
  lemma CycleShrinks(parts: seq<PartRef>, rank: PartitionKey -> int, plan: Plan, outs: seq<PartRef>, parts': seq<PartRef>)
    requires PlanOk(parts, rank, plan) && Cycled(parts, plan, outs, parts')
    ensures |parts'| + (FANOUT - 1) * |plan.ops| <= |parts|
  {
    ConsumedCount(parts, plan.ops);
    UntouchedCount(parts, GroupsOf(plan.ops));
  }
}
