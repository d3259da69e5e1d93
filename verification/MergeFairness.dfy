/** Whom a merge plan is fair to. Admission takes turns over bucket ids; a tenant's own bucket and a shared
    one may carry the same id. */
module MergeFairness {
  import opened Ordering
  import opened Lists
  import opened Merge
  import opened Tiers
  import opened Scheduler
  import opened MergePlan

  /** A due merge that nothing in its own bucket is cheaper than. */
  ghost predicate HeadsBucket(parts: seq<PartRef>, rank: PartitionKey -> int, op: Op) {
    op in RipeOps(parts) && forall x | x in RipeOps(parts) && x.key.bucket == op.key.bucket :: !Cheaper(rank, x, op)
  }

  /** One cheapest merge of every bucket that has any, in the order of the bucket ids. */
  ghost predicate BucketHeads(parts: seq<PartRef>, rank: PartitionKey -> int, heads: seq<Op>) {
    && (forall h | h in heads :: HeadsBucket(parts, rank, h))
    && (forall i, j | 0 <= i < j < |heads| :: heads[i].key.bucket != heads[j].key.bucket && BucketId(heads[i]) <= BucketId(heads[j]))
    && (forall x | x in RipeOps(parts) :: exists i :: 0 <= i < |heads| && heads[i].key.bucket == x.key.bucket)
  }

  /** They would all fit in one cycle. */
  predicate FitTogether(heads: seq<Op>) {
    |heads| <= MAX_OPS && SumRows(heads) <= IO_BUDGET
  }

  /** No two buckets with due merges share an id. */
  ghost predicate IdsApart(parts: seq<PartRef>) {
    forall x, y | x in RipeOps(parts) && y in RipeOps(parts) && BucketId(x) == BucketId(y) :: x.key.bucket == y.key.bucket
  }

  /** A plan and the queues it was admitted from. */
  ghost predicate PlannedFrom(parts: seq<PartRef>, rank: PartitionKey -> int, plan: Plan, queues: seq<seq<Op>>) {
    && PlanOk(parts, rank, plan) && Queued(queues, RipeOps(parts)) && CheapestFirst(queues, rank)
    && (HeadsFit(queues) ==> HeadsTaken(queues, plan.ops))
  }

  /** Every bucket with a due merge has a cheapest one admitted. */
  ghost predicate FairToBuckets(parts: seq<PartRef>, rank: PartitionKey -> int, plan: Plan) {
    forall x | x in RipeOps(parts) :: exists op :: op in plan.ops && op.key.bucket == x.key.bucket && HeadsBucket(parts, rank, op)
  }

  // --- when ids are apart ---

  /** With ids apart, a queue is one bucket's merges, so its front is a cheapest of that bucket. */
  lemma FrontHeadsBucket(parts: seq<PartRef>, rank: PartitionKey -> int, queues: seq<seq<Op>>, i: nat)
    requires Queued(queues, RipeOps(parts)) && CheapestFirst(queues, rank) && IdsApart(parts) && i < |queues|
    ensures queues[i] != [] && HeadsBucket(parts, rank, queues[i][0])
  {
    var ripe := RipeOps(parts);
    assert QueueOk(queues[i], ripe) && Sorted(queues[i], Cost(rank));
    var front := queues[i][0];
    assert front in queues[i];
    forall x | x in ripe && x.key.bucket == front.key.bucket ensures !Cheaper(rank, x, front) {
      assert Waits(queues, x);
      var k :| 0 <= k < |queues| && x in queues[k];
      SameQueue(queues, ripe, i, k, front, x);
      var j :| 0 <= j < |queues[i]| && queues[i][j] == x;
      LaterCostsMore(queues[i], rank, 0, j);
    }
  }

  lemma HeadsAscend(parts: seq<PartRef>, rank: PartitionKey -> int, heads: seq<Op>)
    requires BucketHeads(parts, rank, heads) && IdsApart(parts)
    ensures forall i, j | 0 <= i < j < |heads| :: BucketId(heads[i]) < BucketId(heads[j])
  {
    forall i, j | 0 <= i < j < |heads| ensures BucketId(heads[i]) < BucketId(heads[j]) {
      assert heads[i] in heads && heads[j] in heads;
    }
  }

  /** The fronts of the queues, one per bucket id, and the buckets' heads go by the same ids. */
  lemma FrontOf(parts: seq<PartRef>, rank: PartitionKey -> int, queues: seq<seq<Op>>, heads: seq<Op>, id: nat)
    requires Queued(queues, RipeOps(parts)) && BucketHeads(parts, rank, heads)
    ensures (exists i :: 0 <= i < |queues| && queues[i] != [] && BucketId(queues[i][0]) == id) <==> exists j :: 0 <= j < |heads| && BucketId(heads[j]) == id
  {
    var ripe := RipeOps(parts);
    if i :| 0 <= i < |queues| && queues[i] != [] && BucketId(queues[i][0]) == id {
      assert QueueOk(queues[i], ripe) && queues[i][0] in queues[i];
      var j :| 0 <= j < |heads| && heads[j].key.bucket == queues[i][0].key.bucket;
    }
    if j :| 0 <= j < |heads| && BucketId(heads[j]) == id {
      assert heads[j] in heads && Waits(queues, heads[j]);
      var i :| 0 <= i < |queues| && heads[j] in queues[i];
      assert QueueOk(queues[i], ripe);
    }
  }

  function Ids(ops: seq<Op>): seq<nat> {
    Map(BucketId, ops)
  }

  lemma SameId(parts: seq<PartRef>, rank: PartitionKey -> int, queues: seq<seq<Op>>, fronts: seq<Op>, heads: seq<Op>, id: nat)
    requires Queued(queues, RipeOps(parts)) && BucketHeads(parts, rank, heads)
    requires |fronts| == |queues| && forall i | 0 <= i < |queues| :: queues[i] != [] && fronts[i] == queues[i][0]
    ensures id in Ids(fronts) <==> id in Ids(heads)
  {
    FrontOf(parts, rank, queues, heads, id);
    if id in Ids(fronts) {
      var i :| 0 <= i < |fronts| && Ids(fronts)[i] == id;
      assert queues[i] != [] && BucketId(queues[i][0]) == id;
      var j :| 0 <= j < |heads| && BucketId(heads[j]) == id;
      assert Ids(heads)[j] == id;
    }
    if id in Ids(heads) {
      var j :| 0 <= j < |heads| && Ids(heads)[j] == id;
      assert BucketId(heads[j]) == id;
      var i :| 0 <= i < |queues| && queues[i] != [] && BucketId(queues[i][0]) == id;
      assert Ids(fronts)[i] == id;
    }
  }

  lemma SameIds(parts: seq<PartRef>, rank: PartitionKey -> int, queues: seq<seq<Op>>, fronts: seq<Op>, heads: seq<Op>)
    requires Queued(queues, RipeOps(parts)) && BucketHeads(parts, rank, heads) && IdsApart(parts)
    requires |fronts| == |queues| && forall i | 0 <= i < |queues| :: queues[i] != [] && fronts[i] == queues[i][0]
    ensures |fronts| == |heads| && Ids(fronts) == Ids(heads)
  {
    HeadsAscend(parts, rank, heads);
    forall id: nat ensures id in Ids(fronts) <==> id in Ids(heads) {
      SameId(parts, rank, queues, fronts, heads, id);
    }
    AscendingUnique(Ids(fronts), Ids(heads));
    assert |Ids(fronts)| == |fronts| && |Ids(heads)| == |heads|;
  }

  lemma {:induction false} SameRowsSameSum(a: seq<Op>, b: seq<Op>)
    requires |a| == |b| && forall i | 0 <= i < |a| :: a[i].rows == b[i].rows
    ensures SumRows(a) == SumRows(b)
  {
    if a != [] {
      SameRowsSameSum(a[..|a| - 1], b[..|b| - 1]);
    }
  }

  /** Two cheapest merges of a bucket have as many rows. */
  lemma HeadsCostAlike(parts: seq<PartRef>, rank: PartitionKey -> int, x: Op, y: Op)
    requires HeadsBucket(parts, rank, x) && HeadsBucket(parts, rank, y) && x.key.bucket == y.key.bucket
    ensures x.rows == y.rows
  {
    assert !Cheaper(rank, x, y) && !Cheaper(rank, y, x);
  }

  lemma FrontsFit(parts: seq<PartRef>, rank: PartitionKey -> int, queues: seq<seq<Op>>, heads: seq<Op>)
    requires Queued(queues, RipeOps(parts)) && CheapestFirst(queues, rank) && BucketHeads(parts, rank, heads)
    requires IdsApart(parts) && FitTogether(heads)
    ensures HeadsFit(queues)
  {
    forall q | q in queues ensures q != [] {
      var i :| 0 <= i < |queues| && queues[i] == q;
    }
    var fronts := Heads(queues);
    SameIds(parts, rank, queues, fronts, heads);
    forall i | 0 <= i < |fronts| ensures fronts[i].rows == heads[i].rows {
      FrontHeadsBucket(parts, rank, queues, i);
      assert heads[i] in heads;
      assert Ids(fronts)[i] == Ids(heads)[i];
      HeadsCostAlike(parts, rank, fronts[i], heads[i]);
    }
    SameRowsSameSum(fronts, heads);
  }

  /** Fair to every bucket: when no two buckets with due merges share an id and the buckets' cheapest merges
      fit together, every bucket's cheapest is admitted. */
  lemma FairWhenIdsAreApart(parts: seq<PartRef>, rank: PartitionKey -> int, plan: Plan, queues: seq<seq<Op>>, heads: seq<Op>)
    requires PlannedFrom(parts, rank, plan, queues) && BucketHeads(parts, rank, heads) && IdsApart(parts) && FitTogether(heads)
    ensures FairToBuckets(parts, rank, plan)
  {
    FrontsFit(parts, rank, queues, heads);
    forall x | x in RipeOps(parts) ensures exists op :: op in plan.ops && op.key.bucket == x.key.bucket && HeadsBucket(parts, rank, op) {
      assert Waits(queues, x);
      var i :| 0 <= i < |queues| && x in queues[i];
      assert QueueOk(queues[i], RipeOps(parts));
      FrontHeadsBucket(parts, rank, queues, i);
      assert queues[i][0] in plan.ops && queues[i][0] in queues[i];
    }
  }

  // --- when two buckets share an id ---

  lemma {:induction false} SumOfSome(some: seq<Op>, ops: seq<Op>)
    requires Distinct(some) && forall x | x in some :: x in ops
    ensures |some| <= |ops| && SumRows(some) <= SumRows(ops)
    decreases |some|
  {
    if some != [] {
      var (front, last) := (some[..|some| - 1], some[|some| - 1]);
      assert some == front + [last] && last in some;
      var i :| 0 <= i < |ops| && ops[i] == last;
      var rest := ops[..i] + ops[i + 1..];
      SumWithout(ops, i);
      forall x | x in front ensures x in rest {
        var j :| 0 <= j < |front| && front[j] == x;
        assert some[j] == x && some[|some| - 1] == last && x in some;
        var k :| 0 <= k < |ops| && ops[k] == x;
        assert k != i;
        assert k < i ==> rest[k] == x;
        assert k > i ==> rest[k - 1] == x;
      }
      SumOfSome(front, rest);
    }
  }

  lemma {:induction false} SumWithout(ops: seq<Op>, i: nat)
    requires i < |ops|
    ensures SumRows(ops) == SumRows(ops[..i] + ops[i + 1..]) + ops[i].rows
  {
    var n := |ops| - 1;
    var rest := ops[..i] + ops[i + 1..];
    if i == n {
      assert rest == ops[..n];
    } else {
      assert rest[..|rest| - 1] == ops[..n][..i] + ops[..n][i + 1..];
      SumWithout(ops[..n], i);
    }
  }

  /** `ahead` is every due merge under `op`'s id that is cheaper, whichever bucket owns it. */
  ghost predicate Ahead(parts: seq<PartRef>, rank: PartitionKey -> int, op: Op, ahead: seq<Op>) {
    Distinct(ahead) && forall x :: x in ahead <==> x in RipeOps(parts) && BucketId(x) == BucketId(op) && Cheaper(rank, x, op)
  }

  /** `op` and everything ahead of it fit in one cycle. */
  predicate FitsBehind(ahead: seq<Op>, op: Op) {
    |ahead| < MAX_OPS && SumRows(ahead) + op.rows <= IO_BUDGET
  }

  /** An admitted merge fits together with everything cheaper under its id, other buckets' included. So a
      bucket's only merge is passed over when other buckets of its id have a cycle's worth of cheaper ones. */
  lemma AdmittedFitsBehind(parts: seq<PartRef>, rank: PartitionKey -> int, plan: Plan, op: Op, ahead: seq<Op>)
    requires PlanOk(parts, rank, plan) && op in plan.ops && Ahead(parts, rank, op, ahead)
    ensures FitsBehind(ahead, op)
  {
    assert op !in ahead by {
      assert !Cheaper(rank, op, op);
    }
    var all := ahead + [op];
    assert forall x | x in all :: x in plan.ops;
    assert all[..|ahead|] == ahead;
    SumOfSome(all, plan.ops);
  }

  /** No other due merge has the same cost and id as `op`. */
  ghost predicate Untied(parts: seq<PartRef>, rank: PartitionKey -> int, op: Op) {
    forall x | x in RipeOps(parts) && BucketId(x) == BucketId(op) && x != op :: Cheaper(rank, x, op) || Cheaper(rank, op, x)
  }

  /** When every due merge is under one id, that is the whole condition. */
  lemma OneIdAdmitsExactly(parts: seq<PartRef>, rank: PartitionKey -> int, plan: Plan, op: Op, ahead: seq<Op>)
    requires PlanOk(parts, rank, plan) && op in RipeOps(parts) && Untied(parts, rank, op) && Ahead(parts, rank, op, ahead)
    requires forall x | x in RipeOps(parts) :: BucketId(x) == BucketId(op)
    ensures op in plan.ops <==> FitsBehind(ahead, op)
  {
    if op in plan.ops {
      AdmittedFitsBehind(parts, rank, plan, op, ahead);
    } else {
      forall x | x in plan.ops ensures x in ahead {
        assert x in RipeOps(parts);
      }
      SumOfSome(plan.ops, ahead);
      assert !Fits(|plan.ops|, plan.spent, op);
    }
  }

  /** Fairness to buckets fails whenever some bucket's cheapest merges all sit behind more than a cycle of
      cheaper merges that other buckets have under its id. */
  lemma SharedIdStarves(parts: seq<PartRef>, rank: PartitionKey -> int, plan: Plan, op: Op, ahead: seq<Op>)
    requires PlanOk(parts, rank, plan) && HeadsBucket(parts, rank, op) && Ahead(parts, rank, op, ahead) && !FitsBehind(ahead, op)
    requires forall x | HeadsBucket(parts, rank, x) && x.key.bucket == op.key.bucket :: x == op
    ensures (forall x | x in ahead :: x.key.bucket != op.key.bucket) && op !in plan.ops && !FairToBuckets(parts, rank, plan)
  {
    if op in plan.ops {
      AdmittedFitsBehind(parts, rank, plan, op, ahead);
    }
  }

  // --- such a store ---

  function Partition(bucket: Bucket, window: nat): PartitionKey {
    PartitionKey(bucket, window, 0)
  }

  /** Four parts of one partition, which is a fan-out. */
  function Block(first: nat, key: PartitionKey, rows: nat): seq<PartRef> {
    [PartRef(first, key, rows), PartRef(first + 1, key, rows), PartRef(first + 2, key, rows), PartRef(first + 3, key, rows)]
  }

  /** A tenant's own bucket with `n` due merges of four rows each. */
  function Loud(n: nat): seq<PartRef> {
    if n == 0 then [] else Loud(n - 1) + Block(4 * (n - 1), Partition(Dedicated(0), n - 1), 1)
  }

  /** And a shared bucket of the same id, with one due merge of eight rows. */
  function Crowded(n: nat): seq<PartRef> {
    Loud(n) + Block(4 * n, Partition(Shared(0), 0), 2)
  }

  function ByWindow(key: PartitionKey): int {
    key.window
  }

  function LoudGroup(w: nat): Group {
    (Partition(Dedicated(0), w), 0)
  }

  function QuietGroup(): Group {
    (Partition(Shared(0), 0), 0)
  }

  lemma BlockRows(first: nat, key: PartitionKey, rows: nat)
    ensures TotalRows(Block(first, key, rows)) == 4 * rows
  {
    EqualRows(Block(first, key, rows), rows);
  }

  lemma {:induction false} EqualRows(parts: seq<PartRef>, rows: nat)
    requires forall i | 0 <= i < |parts| :: parts[i].rows == rows
    ensures TotalRows(parts) == |parts| * rows
  {
    if parts != [] {
      EqualRows(parts[..|parts| - 1], rows);
    }
  }

  lemma BlockMembers(first: nat, key: PartitionKey, rows: nat, g: Group)
    requires rows <= BASE_ROWS
    ensures Members(Block(first, key, rows), g) == if g == (key, 0) then Block(first, key, rows) else []
  {
    TierIsLeast(rows, TierOf(rows), 0);
    assert TierOf(rows) == 0;
    FilterFull(InGroup(g), Block(first, key, rows));
    FilterNone(InGroup(g), Block(first, key, rows));
  }

  /** A group of four parts with `rows` rows in all. */
  predicate Four(parts: seq<PartRef>, g: Group, rows: nat) {
    |Members(parts, g)| == 4 && TotalRows(Members(parts, g)) == rows
  }

  lemma AddBlock(parts: seq<PartRef>, first: nat, key: PartitionKey, rows: nat, g: Group)
    requires rows <= BASE_ROWS
    ensures g != (key, 0) ==> Members(parts + Block(first, key, rows), g) == Members(parts, g)
    ensures g == (key, 0) && Members(parts, g) == [] ==> Four(parts + Block(first, key, rows), g, 4 * rows)
  {
    var b := Block(first, key, rows);
    FilterAppend(InGroup(g), parts, b);
    BlockMembers(first, key, rows, g);
    BlockRows(first, key, rows);
    assert [] + b == b && Members(parts, g) + [] == Members(parts, g);
  }

  lemma {:induction false} LoudMembers(n: nat, w: nat)
    ensures w < n ==> Four(Loud(n), LoudGroup(w), 4)
    ensures w >= n ==> Members(Loud(n), LoudGroup(w)) == []
  {
    if n > 0 {
      LoudMembers(n - 1, w);
      AddBlock(Loud(n - 1), 4 * (n - 1), Partition(Dedicated(0), n - 1), 1, LoudGroup(w));
    }
  }

  lemma {:induction false} OthersInLoud(n: nat, g: Group)
    requires forall w: nat | w < n :: g != LoudGroup(w)
    ensures Members(Loud(n), g) == []
  {
    if n > 0 {
      OthersInLoud(n - 1, g);
      AddBlock(Loud(n - 1), 4 * (n - 1), Partition(Dedicated(0), n - 1), 1, g);
      assert g != LoudGroup(n - 1);
    }
  }

  function LoudOp(n: nat, w: nat): Op {
    OpFor(Crowded(n), LoudGroup(w))
  }

  function QuietOp(n: nat): Op {
    OpFor(Crowded(n), QuietGroup())
  }

  lemma LoudIsDue(n: nat, w: nat)
    requires w < n
    ensures LoudOp(n, w) in RipeOps(Crowded(n)) && LoudOp(n, w).rows == 4
  {
    LoudMembers(n, w);
    AddBlock(Loud(n), 4 * n, Partition(Shared(0), 0), 2, LoudGroup(w));
    RipeIsListed(Crowded(n), LoudGroup(w));
  }

  lemma QuietIsDue(n: nat)
    ensures QuietOp(n) in RipeOps(Crowded(n)) && QuietOp(n).rows == 8
  {
    OthersInLoud(n, QuietGroup());
    AddBlock(Loud(n), 4 * n, Partition(Shared(0), 0), 2, QuietGroup());
    RipeIsListed(Crowded(n), QuietGroup());
  }

  /** Nothing else is due. */
  lemma NothingElseIsDue(n: nat, op: Op)
    requires op in RipeOps(Crowded(n)) && op != QuietOp(n)
    ensures exists w: nat :: w < n && op == LoudOp(n, w)
  {
    var g :| g in Groups(Crowded(n)) && Ripe(Crowded(n), g) && OpFor(Crowded(n), g) == op;
    if w: nat :| w < n && g == LoudGroup(w) {
      assert op == LoudOp(n, w);
    } else {
      assert forall w: nat | w < n :: g != LoudGroup(w);
      OthersInLoud(n, g);
      AddBlock(Loud(n), 4 * n, Partition(Shared(0), 0), 2, g);
      assert false;
    }
  }

  function LoudOps(n: nat): (ops: seq<Op>)
    ensures |ops| == n && forall w | 0 <= w < n :: ops[w] == LoudOp(n, w)
  {
    seq(n, w requires 0 <= w < n => LoudOp(n, w))
  }

  lemma LoudHeads(n: nat)
    requires n > 0
    ensures HeadsBucket(Crowded(n), ByWindow, LoudOp(n, 0)) && LoudOp(n, 0).rows == 4
  {
    LoudIsDue(n, 0);
    forall x | x in RipeOps(Crowded(n)) && x.key.bucket == Dedicated(0) ensures !Cheaper(ByWindow, x, LoudOp(n, 0)) {
      NothingElseIsDue(n, x);
      var w: nat :| w < n && x == LoudOp(n, w);
      LoudCost(n, w);
      LoudCost(n, 0);
    }
  }

  lemma LoudCost(n: nat, w: nat)
    requires w < n
    ensures Cost(ByWindow)(LoudOp(n, w)) == Key(4.0, w)
  {
    LoudIsDue(n, w);
    var op := LoudOp(n, w);
    assert op.rows as real == 4.0 && ByWindow(op.key) == w;
    assert Cost(ByWindow)(op) == Key(op.rows as real, ByWindow(op.key));
  }

  lemma QuietHeads(n: nat, x: Op)
    ensures HeadsBucket(Crowded(n), ByWindow, QuietOp(n))
    ensures x in RipeOps(Crowded(n)) && x.key.bucket == Shared(0) ==> x == QuietOp(n)
  {
    QuietIsDue(n);
    forall y | y in RipeOps(Crowded(n)) && y.key.bucket == Shared(0) ensures y == QuietOp(n) {
      if y != QuietOp(n) {
        NothingElseIsDue(n, y);
      }
    }
  }

  lemma SumOfTwo(a: Op, b: Op)
    ensures SumRows([a, b]) == a.rows + b.rows
  {
    assert [a, b][..1] == [a] && [a][..0] == [];
    assert SumRows([a]) == a.rows;
  }

  lemma CrowdedHeads(n: nat)
    requires n > 0
    ensures BucketHeads(Crowded(n), ByWindow, [LoudOp(n, 0), QuietOp(n)]) && FitTogether([LoudOp(n, 0), QuietOp(n)])
  {
    var heads := [LoudOp(n, 0), QuietOp(n)];
    LoudHeads(n);
    QuietHeads(n, QuietOp(n));
    QuietIsDue(n);
    SumOfTwo(LoudOp(n, 0), QuietOp(n));
    forall x | x in RipeOps(Crowded(n)) ensures exists i :: 0 <= i < |heads| && heads[i].key.bucket == x.key.bucket {
      assert heads[0].key.bucket == Dedicated(0) && heads[1].key.bucket == Shared(0);
      if x != QuietOp(n) {
        NothingElseIsDue(n, x);
      }
    }
  }

  lemma CrowdedAhead(n: nat, x: Op)
    ensures x in LoudOps(n) <==> x in RipeOps(Crowded(n)) && BucketId(x) == 0 && Cheaper(ByWindow, x, QuietOp(n))
  {
    QuietIsDue(n);
    if x in LoudOps(n) {
      var w :| 0 <= w < n && LoudOps(n)[w] == x;
      LoudIsDue(n, w);
    }
    if x in RipeOps(Crowded(n)) && x != QuietOp(n) {
      NothingElseIsDue(n, x);
      var w: nat :| w < n && x == LoudOp(n, w);
      assert LoudOps(n)[w] == x;
    }
  }

  lemma LoudIsAhead(n: nat)
    ensures Ahead(Crowded(n), ByWindow, QuietOp(n), LoudOps(n))
  {
    forall x ensures x in LoudOps(n) <==> x in RipeOps(Crowded(n)) && BucketId(x) == 0 && Cheaper(ByWindow, x, QuietOp(n)) {
      CrowdedAhead(n, x);
    }
    forall i, j | 0 <= i < j < n ensures LoudOps(n)[i] != LoudOps(n)[j] {
      assert LoudOps(n)[i].key.window == i && LoudOps(n)[j].key.window == j;
    }
  }

  /** A tenant's own bucket and a shared one carry id zero. Both buckets' cheapest merges fit together many
      times over, and yet, once the first has a cycle's worth, every plan passes over the other's only one. */
  lemma SharedIdWitness(n: nat, plan: Plan)
    requires n >= MAX_OPS && PlanOk(Crowded(n), ByWindow, plan)
    ensures BucketHeads(Crowded(n), ByWindow, [LoudOp(n, 0), QuietOp(n)]) && FitTogether([LoudOp(n, 0), QuietOp(n)])
    ensures QuietOp(n) !in plan.ops && !FairToBuckets(Crowded(n), ByWindow, plan)
  {
    CrowdedHeads(n);
    QuietHeads(n, QuietOp(n));
    LoudIsAhead(n);
    forall x | HeadsBucket(Crowded(n), ByWindow, x) && x.key.bucket == Shared(0) ensures x == QuietOp(n) {
      QuietHeads(n, x);
    }
    SharedIdStarves(Crowded(n), ByWindow, plan, QuietOp(n), LoudOps(n));
  }
}
