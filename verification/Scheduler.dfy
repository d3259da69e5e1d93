/** The merge scheduler: ripe groups, one queue per bucket id, and round-robin admission under two
    budgets. */
module Scheduler {
  import opened Ordering
  import opened Lists
  import opened Merge
  import opened Tiers

  const IO_BUDGET := 1_000_000
  const MAX_OPS := 16

  datatype PartRef = PartRef(partId: nat, key: PartitionKey, rows: nat)

  type Group = (PartitionKey, nat)

  datatype Op = Op(key: PartitionKey, tier: nat, members: seq<PartRef>, rows: nat)

  function GroupOf(p: PartRef): Group {
    (p.key, TierOf(p.rows))
  }

  function InGroup(g: Group): PartRef -> bool {
    (p: PartRef) => GroupOf(p) == g
  }

  function Members(parts: seq<PartRef>, g: Group): seq<PartRef> {
    Filter(InGroup(g), parts)
  }

  function TotalRows(parts: seq<PartRef>): nat {
    if parts == [] then 0 else TotalRows(parts[..|parts| - 1]) + parts[|parts| - 1].rows
  }

  function Groups(parts: seq<PartRef>): set<Group> {
    set p | p in parts :: GroupOf(p)
  }

  function OpFor(parts: seq<PartRef>, g: Group): Op {
    Op(g.0, g.1, Members(parts, g), TotalRows(Members(parts, g)))
  }

  predicate Ripe(parts: seq<PartRef>, g: Group) {
    |Members(parts, g)| >= FANOUT
  }

  /** The merges that are due. */
  function RipeOps(parts: seq<PartRef>): set<Op> {
    set g | g in Groups(parts) && Ripe(parts, g) :: OpFor(parts, g)
  }

  /** Within a queue, cheapest first; equal costs by the partition's name, which `rank` orders. */
  function Cost(rank: PartitionKey -> int): Op -> Key {
    (op: Op) => Key(op.rows as real, rank(op.key))
  }

  function BucketId(op: Op): nat {
    op.key.bucket.id
  }

  // --- admission ---

  function SumLen(qs: seq<seq<Op>>): nat {
    if qs == [] then 0 else SumLen(qs[..|qs| - 1]) + |qs[|qs| - 1]|
  }

  function SumRows(ops: seq<Op>): nat {
    if ops == [] then 0 else SumRows(ops[..|ops| - 1]) + ops[|ops| - 1].rows
  }

  lemma {:induction false} SumLenUpdate(qs: seq<seq<Op>>, i: nat, q: seq<Op>)
    requires i < |qs|
    ensures SumLen(qs[i := q]) + |qs[i]| == SumLen(qs) + |q|
  {
    var n := |qs| - 1;
    if i < n {
      assert qs[i := q][..n] == qs[..n][i := q];
      SumLenUpdate(qs[..n], i, q);
    } else {
      assert qs[i := q][..n] == qs[..n];
    }
  }

  predicate Fits(count: nat, spent: nat, op: Op) {
    count < MAX_OPS && spent + op.rows <= IO_BUDGET
  }

  /** One bucket's share so far: the first `taken` of its queue were admitted, and what is left is
      either still waiting or was deferred because its cheapest did not fit. */
  ghost predicate Share(queue: seq<Op>, left: seq<Op>, taken: nat, count: nat, spent: nat) {
    && taken <= |queue|
    && (left == queue[taken..] || (left == [] && taken < |queue| && !Fits(count, spent, queue[taken])))
  }

  ghost predicate Took(queues: seq<seq<Op>>, taken: seq<nat>, op: Op) {
    exists i, j :: 0 <= i < |queues| == |taken| && 0 <= j < taken[i] && j < |queues[i]| && queues[i][j] == op
  }

  /** The running state of admission over the queues. */
  ghost predicate Admitting(queues: seq<seq<Op>>, left: seq<seq<Op>>, taken: seq<nat>, ops: seq<Op>, spent: nat, deferred: nat) {
    && |left| == |queues| == |taken|
    && (forall i | 0 <= i < |queues| :: Share(queues[i], left[i], taken[i], |ops|, spent))
    && (forall op :: op in ops <==> Took(queues, taken, op))
    && Distinct(ops)
    && spent == SumRows(ops) && spent <= IO_BUDGET && |ops| <= MAX_OPS
    && |ops| + deferred + SumLen(left) == SumLen(queues)
  }

  /** No merge waits in two places. */
  ghost predicate Apart(queues: seq<seq<Op>>) {
    && (forall i | 0 <= i < |queues| :: Distinct(queues[i]))
    && (forall i, j, a, b | 0 <= i < j < |queues| && 0 <= a < |queues[i]| && 0 <= b < |queues[j]| :: queues[i][a] != queues[j][b])
  }

  /** The op at the front of a bucket's remaining queue has not been admitted before. */
  lemma FrontIsNew(queues: seq<seq<Op>>, taken: seq<nat>, i: nat)
    requires Apart(queues) && |taken| == |queues| && i < |queues| && taken[i] < |queues[i]|
    ensures !Took(queues, taken, queues[i][taken[i]])
  {
    var op := queues[i][taken[i]];
    forall k, j | 0 <= k < |queues| && 0 <= j < taken[k] && j < |queues[k]| ensures queues[k][j] != op {
    }
  }

  lemma TookMore(queues: seq<seq<Op>>, taken: seq<nat>, i: nat, op: Op)
    requires |taken| == |queues| && i < |queues| && taken[i] < |queues[i]|
    ensures Took(queues, taken[i := taken[i] + 1], op) <==> Took(queues, taken, op) || op == queues[i][taken[i]]
  {
    var taken' := taken[i := taken[i] + 1];
    if Took(queues, taken, op) {
      var k, j :| 0 <= k < |queues| && 0 <= j < taken[k] && j < |queues[k]| && queues[k][j] == op;
      assert 0 <= j < taken'[k];
    }
    if op == queues[i][taken[i]] {
      assert 0 <= taken[i] < taken'[i];
    }
    if Took(queues, taken', op) {
      var k, j :| 0 <= k < |queues| && 0 <= j < taken'[k] && j < |queues[k]| && queues[k][j] == op;
      assert j < taken[k] || (k == i && j == taken[i]);
    }
  }

  lemma Admit(queues: seq<seq<Op>>, left: seq<seq<Op>>, taken: seq<nat>, ops: seq<Op>, spent: nat, deferred: nat, i: nat)
    requires Apart(queues) && Admitting(queues, left, taken, ops, spent, deferred)
    requires i < |left| && left[i] != [] && Fits(|ops|, spent, left[i][0])
    ensures Admitting(queues, left[i := left[i][1..]], taken[i := taken[i] + 1], ops + [left[i][0]], spent + left[i][0].rows, deferred)
  {
    var op := left[i][0];
    assert Share(queues[i], left[i], taken[i], |ops|, spent);
    assert op == queues[i][taken[i]];
    var (left', taken', ops') := (left[i := left[i][1..]], taken[i := taken[i] + 1], ops + [op]);
    FrontIsNew(queues, taken, i);
    forall x ensures x in ops' <==> Took(queues, taken', x) {
      TookMore(queues, taken, i, x);
    }
    assert ops'[..|ops|] == ops;
    forall k | 0 <= k < |queues| ensures Share(queues[k], left'[k], taken'[k], |ops'|, spent + op.rows) {
      assert Share(queues[k], left[k], taken[k], |ops|, spent);
    }
    SumLenUpdate(left, i, left[i][1..]);
  }

  lemma Defer(queues: seq<seq<Op>>, left: seq<seq<Op>>, taken: seq<nat>, ops: seq<Op>, spent: nat, deferred: nat, i: nat)
    requires Admitting(queues, left, taken, ops, spent, deferred)
    requires i < |left| && left[i] != [] && !Fits(|ops|, spent, left[i][0])
    ensures Admitting(queues, left[i := []], taken, ops, spent, deferred + |left[i]|)
  {
    assert Share(queues[i], left[i], taken[i], |ops|, spent);
    SumLenUpdate(left, i, []);
    var left' := left[i := []];
    forall k | 0 <= k < |queues| ensures Share(queues[k], left'[k], taken[k], |ops|, spent) {
      assert Share(queues[k], left[k], taken[k], |ops|, spent);
    }
  }

  lemma {:induction false} NothingLeft(qs: seq<seq<Op>>)
    requires forall i | 0 <= i < |qs| :: qs[i] == []
    ensures SumLen(qs) == 0
  {
    if qs != [] {
      NothingLeft(qs[..|qs| - 1]);
    }
  }

  function Heads(queues: seq<seq<Op>>): seq<Op>
    requires forall q | q in queues :: q != []
  {
    seq(|queues|, i requires 0 <= i < |queues| => assert queues[i] in queues; queues[i][0])
  }

  /** Every bucket's cheapest merge fits this cycle at once. */
  predicate HeadsFit(queues: seq<seq<Op>>) {
    && (forall q | q in queues :: q != [])
    && |queues| <= MAX_OPS && SumRows(Heads(queues)) <= IO_BUDGET
  }

  ghost predicate HeadsTaken(queues: seq<seq<Op>>, ops: seq<Op>) {
    forall i | 0 <= i < |queues| :: queues[i] != [] && queues[i][0] in ops
  }

  /** Part-way through the first round with heads that fit: one op per bucket passed, nothing else. */
  ghost predicate FirstRound(queues: seq<seq<Op>>, left: seq<seq<Op>>, ops: seq<Op>, i: nat)
    requires HeadsFit(queues)
  {
    && i <= |queues| == |left| && ops == Heads(queues)[..i]
    && forall k | i <= k < |queues| :: left[k] == queues[k]
  }

  lemma {:induction false} PrefixCosts(ops: seq<Op>, i: nat)
    requires i <= |ops|
    ensures SumRows(ops[..i]) <= SumRows(ops)
  {
    if i < |ops| {
      var n := |ops| - 1;
      assert ops[..n][..i] == ops[..i];
      PrefixCosts(ops[..n], i);
    } else {
      assert ops[..i] == ops;
    }
  }

  lemma NextPrefix(ops: seq<Op>, i: nat)
    requires i < |ops|
    ensures ops[..i + 1] == ops[..i] + [ops[i]] && SumRows(ops[..i + 1]) == SumRows(ops[..i]) + ops[i].rows
  {
    assert ops[..i + 1][..i] == ops[..i];
  }

  /** In the first round no head is turned away. */
  lemma HeadFits(queues: seq<seq<Op>>, left: seq<seq<Op>>, ops: seq<Op>, i: nat)
    requires HeadsFit(queues) && FirstRound(queues, left, ops, i) && i < |queues|
    ensures left[i] != [] && Fits(|ops|, SumRows(ops), left[i][0])
  {
    assert queues[i] in queues;
    PrefixCosts(Heads(queues), i + 1);
    NextPrefix(Heads(queues), i);
  }

  lemma HeadTaken(queues: seq<seq<Op>>, left: seq<seq<Op>>, ops: seq<Op>, i: nat)
    requires HeadsFit(queues) && FirstRound(queues, left, ops, i) && i < |queues| && left[i] != []
    ensures FirstRound(queues, left[i := left[i][1..]], ops + [left[i][0]], i + 1)
  {
    NextPrefix(Heads(queues), i);
  }

  lemma RoundTaken(queues: seq<seq<Op>>, left: seq<seq<Op>>, ops: seq<Op>)
    requires HeadsFit(queues) && FirstRound(queues, left, ops, |queues|)
    ensures HeadsTaken(queues, ops)
  {
    forall i | 0 <= i < |queues| ensures queues[i] != [] && queues[i][0] in ops {
      assert queues[i] in queues && ops[i] == queues[i][0];
    }
  }

  // --- whose turn it is ---

  /** A bucket's turn in a round. In round `r` a bucket may only offer the merge at place `r` of its queue. */
  datatype Turn = Turn(round: nat, bucket: nat)

  predicate Earlier(s: Turn, t: Turn) {
    s.round < t.round || (s.round == t.round && s.bucket < t.bucket)
  }

  /** Every merge was admitted in its own turn, in order of turns, all of them before `now`. */
  ghost predicate InTurn(queues: seq<seq<Op>>, ops: seq<Op>, turns: seq<Turn>, now: Turn) {
    && |turns| == |ops|
    && (forall n | 0 <= n < |ops| ::
          turns[n].bucket < |queues| && turns[n].round < |queues[turns[n].bucket]| && ops[n] == queues[turns[n].bucket][turns[n].round])
    && (forall m, n | 0 <= m < n < |turns| :: Earlier(turns[m], turns[n]))
    && (forall n | 0 <= n < |turns| :: Earlier(turns[n], now))
  }

  /** When turn `t` came, with what earlier turns had admitted, `op` did not fit. */
  ghost predicate TurnedAway(op: Op, ops: seq<Op>, turns: seq<Turn>, t: Turn) {
    exists n | 0 <= n <= |ops| == |turns| ::
      && (forall m | 0 <= m < n :: Earlier(turns[m], t)) && (forall m | n <= m < |turns| :: Earlier(t, turns[m]))
      && !Fits(n, SumRows(ops[..n]), op)
  }

  /** Where bucket `k` stands at `now`: still waiting for this round's turn or the next, or through its queue,
      or turned away at its last turn. */
  ghost predicate Standing(queue: seq<Op>, left: seq<Op>, taken: nat, ops: seq<Op>, turns: seq<Turn>, k: nat, now: Turn) {
    if left != [] then taken == now.round + (if k < now.bucket then 1 else 0)
    else taken < |queue| ==> Earlier(Turn(taken, k), now) && TurnedAway(queue[taken], ops, turns, Turn(taken, k))
  }

  ghost predicate Turned(queues: seq<seq<Op>>, left: seq<seq<Op>>, taken: seq<nat>, ops: seq<Op>, turns: seq<Turn>, now: Turn) {
    && |left| == |queues| == |taken| && InTurn(queues, ops, turns, now)
    && forall k | 0 <= k < |queues| :: Standing(queues[k], left[k], taken[k], ops, turns, k, now)
  }

  lemma StillTurnedAway(op: Op, ops: seq<Op>, turns: seq<Turn>, t: Turn, next: Op, now: Turn)
    requires TurnedAway(op, ops, turns, t) && Earlier(t, now)
    ensures TurnedAway(op, ops + [next], turns + [now], t)
  {
    var n :| 0 <= n <= |ops| == |turns|
             && (forall m | 0 <= m < n :: Earlier(turns[m], t)) && (forall m | n <= m < |turns| :: Earlier(t, turns[m]))
             && !Fits(n, SumRows(ops[..n]), op);
    assert (ops + [next])[..n] == ops[..n];
  }

  /** A bucket uses its turn: the others stand as they did. */
  lemma TurnUsed(queues: seq<seq<Op>>, left: seq<seq<Op>>, taken: seq<nat>, ops: seq<Op>, turns: seq<Turn>, r: nat, i: nat)
    requires Turned(queues, left, taken, ops, turns, Turn(r, i)) && i < |queues| && left[i] != []
    requires taken[i] < |queues[i]| && left[i] == queues[i][taken[i]..]
    ensures Turned(queues, left[i := left[i][1..]], taken[i := taken[i] + 1], ops + [left[i][0]], turns + [Turn(r, i)], Turn(r, i + 1))
  {
    assert Standing(queues[i], left[i], taken[i], ops, turns, i, Turn(r, i));
    var (left', taken', ops', turns') := (left[i := left[i][1..]], taken[i := taken[i] + 1], ops + [left[i][0]], turns + [Turn(r, i)]);
    forall k | 0 <= k < |queues| ensures Standing(queues[k], left'[k], taken'[k], ops', turns', k, Turn(r, i + 1)) {
      assert Standing(queues[k], left[k], taken[k], ops, turns, k, Turn(r, i));
      if k != i && left[k] == [] && taken[k] < |queues[k]| {
        StillTurnedAway(queues[k][taken[k]], ops, turns, Turn(taken[k], k), left[i][0], Turn(r, i));
      }
    }
  }

  /** Or is turned away at it. */
  lemma TurnMissed(queues: seq<seq<Op>>, left: seq<seq<Op>>, taken: seq<nat>, ops: seq<Op>, turns: seq<Turn>, r: nat, i: nat)
    requires Turned(queues, left, taken, ops, turns, Turn(r, i)) && i < |queues| && left[i] != []
    requires taken[i] < |queues[i]| && !Fits(|ops|, SumRows(ops), queues[i][taken[i]])
    ensures Turned(queues, left[i := []], taken, ops, turns, Turn(r, i + 1))
  {
    assert Standing(queues[i], left[i], taken[i], ops, turns, i, Turn(r, i));
    assert ops[..|ops|] == ops;
    assert TurnedAway(queues[i][taken[i]], ops, turns, Turn(taken[i], i));
    var left' := left[i := []];
    forall k | 0 <= k < |queues| ensures Standing(queues[k], left'[k], taken[k], ops, turns, k, Turn(r, i + 1)) {
      assert Standing(queues[k], left[k], taken[k], ops, turns, k, Turn(r, i));
    }
  }

  /** Or has nothing left to offer. */
  lemma TurnPassed(queues: seq<seq<Op>>, left: seq<seq<Op>>, taken: seq<nat>, ops: seq<Op>, turns: seq<Turn>, r: nat, i: nat)
    requires Turned(queues, left, taken, ops, turns, Turn(r, i)) && i < |queues| && left[i] == []
    ensures Turned(queues, left, taken, ops, turns, Turn(r, i + 1))
  {
    forall k | 0 <= k < |queues| ensures Standing(queues[k], left[k], taken[k], ops, turns, k, Turn(r, i + 1)) {
      assert Standing(queues[k], left[k], taken[k], ops, turns, k, Turn(r, i));
    }
  }

  lemma RoundOver(queues: seq<seq<Op>>, left: seq<seq<Op>>, taken: seq<nat>, ops: seq<Op>, turns: seq<Turn>, r: nat)
    requires Turned(queues, left, taken, ops, turns, Turn(r, |queues|))
    ensures Turned(queues, left, taken, ops, turns, Turn(r + 1, 0))
  {
    forall k | 0 <= k < |queues| ensures Standing(queues[k], left[k], taken[k], ops, turns, k, Turn(r + 1, 0)) {
      assert Standing(queues[k], left[k], taken[k], ops, turns, k, Turn(r, |queues|));
    }
  }

  /** Round-robin admission, whole: bucket `k` got the first `taken[k]` of its queue, one a round; the merges
      admitted stand in order of round and then bucket; and a bucket that did not get all of its queue was
      turned away in the round it stopped at, because with what earlier turns had admitted its next merge
      did not fit. */
  ghost predicate RoundRobin(queues: seq<seq<Op>>, taken: seq<nat>, ops: seq<Op>, turns: seq<Turn>, rounds: nat) {
    && |taken| == |queues| && InTurn(queues, ops, turns, Turn(rounds, 0))
    && (forall op :: op in ops <==> Took(queues, taken, op))
    && forall k | 0 <= k < |queues| ::
         taken[k] == |queues[k]| || (taken[k] < |queues[k]| && TurnedAway(queues[k][taken[k]], ops, turns, Turn(taken[k], k)))
  }

  lemma AllTurned(queues: seq<seq<Op>>, left: seq<seq<Op>>, taken: seq<nat>, ops: seq<Op>, spent: nat, deferred: nat, turns: seq<Turn>, rounds: nat)
    requires Admitting(queues, left, taken, ops, spent, deferred) && Turned(queues, left, taken, ops, turns, Turn(rounds, 0))
    requires forall i | 0 <= i < |left| :: left[i] == []
    ensures RoundRobin(queues, taken, ops, turns, rounds)
  {
    forall k | 0 <= k < |queues| ensures
      taken[k] == |queues[k]| || (taken[k] < |queues[k]| && TurnedAway(queues[k][taken[k]], ops, turns, Turn(taken[k], k)))
    {
      assert Share(queues[k], left[k], taken[k], |ops|, spent);
      assert Standing(queues[k], left[k], taken[k], ops, turns, k, Turn(rounds, 0));
    }
  }

  lemma NobodyYet(queues: seq<seq<Op>>, taken: seq<nat>)
    requires |taken| == |queues| && forall k | 0 <= k < |queues| :: taken[k] == 0
    ensures Turned(queues, queues, taken, [], [], Turn(0, 0))
  {
  }

  /** The whole running state at a turn. */
  ghost predicate Underway(queues: seq<seq<Op>>, left: seq<seq<Op>>, taken: seq<nat>, ops: seq<Op>, spent: nat, deferred: nat, turns: seq<Turn>, now: Turn) {
    Admitting(queues, left, taken, ops, spent, deferred) && Turned(queues, left, taken, ops, turns, now)
  }

  ghost predicate AtFirst(queues: seq<seq<Op>>, left: seq<seq<Op>>, ops: seq<Op>, i: nat) {
    HeadsFit(queues) && FirstRound(queues, left, ops, i)
  }

  lemma FrontOfQueue(queues: seq<seq<Op>>, left: seq<seq<Op>>, taken: seq<nat>, ops: seq<Op>, spent: nat, deferred: nat, i: nat)
    requires Admitting(queues, left, taken, ops, spent, deferred) && i < |left| && left[i] != []
    ensures taken[i] < |queues[i]| && left[i] == queues[i][taken[i]..] && spent == SumRows(ops)
  {
    assert Share(queues[i], left[i], taken[i], |ops|, spent);
  }

  /** A bucket with something to offer takes its turn: its next merge is admitted, or the bucket is deferred. */
  method TakeTurn(queues: seq<seq<Op>>, left: seq<seq<Op>>, ghost taken: seq<nat>, ops: seq<Op>, spent: nat, deferred: nat,
                  ghost turns: seq<Turn>, ghost r: nat, i: nat)
    returns (left': seq<seq<Op>>, ghost taken': seq<nat>, ops': seq<Op>, spent': nat, deferred': nat, ghost turns': seq<Turn>)
    requires Apart(queues) && Underway(queues, left, taken, ops, spent, deferred, turns, Turn(r, i)) && i < |left| && left[i] != []
    ensures Underway(queues, left', taken', ops', spent', deferred', turns', Turn(r, i + 1))
    ensures |left'| == |left| && ops <= ops' && SumLen(left') < SumLen(left)
    ensures AtFirst(queues, left, ops, i) ==> AtFirst(queues, left', ops', i + 1)
  {
    left', taken', ops', spent', deferred', turns' := left, taken, ops, spent, deferred, turns;
    FrontOfQueue(queues, left, taken, ops, spent, deferred, i);
    if AtFirst(queues, left, ops, i) {
      HeadFits(queues, left, ops, i);
      HeadTaken(queues, left, ops, i);
    }
    var op := left[i][0];
    if Fits(|ops|, spent, op) {
      Admit(queues, left, taken, ops, spent, deferred, i);
      TurnUsed(queues, left, taken, ops, turns, r, i);
      SumLenUpdate(left, i, left[i][1..]);
      left', taken', ops', spent', turns' := left[i := left[i][1..]], taken[i := taken[i] + 1], ops + [op], spent + op.rows, turns + [Turn(r, i)];
    } else {
      Defer(queues, left, taken, ops, spent, deferred, i);
      TurnMissed(queues, left, taken, ops, turns, r, i);
      SumLenUpdate(left, i, []);
      left', deferred' := left[i := []], deferred + |left[i]|;
    }
  }

  lemma EmptyTurn(queues: seq<seq<Op>>, left: seq<seq<Op>>, taken: seq<nat>, ops: seq<Op>, spent: nat, deferred: nat, turns: seq<Turn>, r: nat, i: nat)
    requires Underway(queues, left, taken, ops, spent, deferred, turns, Turn(r, i)) && i < |left| && left[i] == []
    ensures Underway(queues, left, taken, ops, spent, deferred, turns, Turn(r, i + 1)) && !AtFirst(queues, left, ops, i)
  {
    TurnPassed(queues, left, taken, ops, turns, r, i);
    if AtFirst(queues, left, ops, i) {
      HeadFits(queues, left, ops, i);
      assert false;
    }
  }

  /** One pass over the buckets, one op from each. */
  method Round(queues: seq<seq<Op>>, left0: seq<seq<Op>>, ghost taken0: seq<nat>, ops0: seq<Op>, spent0: nat, deferred0: nat,
               ghost turns0: seq<Turn>, ghost r: nat)
    returns (left: seq<seq<Op>>, ghost taken: seq<nat>, ops: seq<Op>, spent: nat, deferred: nat, progress: bool, ghost turns: seq<Turn>)
    requires Apart(queues) && Underway(queues, left0, taken0, ops0, spent0, deferred0, turns0, Turn(r, 0))
    ensures Underway(queues, left, taken, ops, spent, deferred, turns, Turn(r + 1, 0)) && ops0 <= ops
    ensures progress ==> SumLen(left) < SumLen(left0)
    ensures !progress ==> left == left0 && forall i | 0 <= i < |left| :: left[i] == []
    ensures AtFirst(queues, left0, ops0, 0) ==> HeadsTaken(queues, ops)
  {
    left, taken, ops, spent, deferred, progress, turns := left0, taken0, ops0, spent0, deferred0, false, turns0;
    for i := 0 to |left0|
      invariant |left| == |left0| && Underway(queues, left, taken, ops, spent, deferred, turns, Turn(r, i)) && ops0 <= ops
      invariant if progress then SumLen(left) < SumLen(left0) else left == left0 && forall k | 0 <= k < i :: left[k] == []
      invariant AtFirst(queues, left0, ops0, 0) ==> AtFirst(queues, left, ops, i)
    {
      if left[i] != [] {
        progress := true;
        left, taken, ops, spent, deferred, turns := TakeTurn(queues, left, taken, ops, spent, deferred, turns, r, i);
      } else {
        EmptyTurn(queues, left, taken, ops, spent, deferred, turns, r, i);
      }
    }
    RoundOver(queues, left, taken, ops, turns, r);
    if AtFirst(queues, left0, ops0, 0) {
      RoundTaken(queues, left, ops);
    }
  }

  /** Round after round until every queue is drained or deferred. */
  method AdmitAll(queues: seq<seq<Op>>) returns (ops: seq<Op>, spent: nat, deferred: nat, ghost left: seq<seq<Op>>, ghost taken: seq<nat>,
                                               ghost turns: seq<Turn>, ghost rounds: nat)
    requires Apart(queues)
    ensures RoundRobin(queues, taken, ops, turns, rounds)
    ensures Admitting(queues, left, taken, ops, spent, deferred) && forall i | 0 <= i < |left| :: left[i] == []
    ensures HeadsFit(queues) ==> HeadsTaken(queues, ops)
  {
    var waiting := queues;
    ops, spent, deferred := [], 0, 0;
    taken, turns, rounds := seq(|queues|, i => 0), [], 0;
    NobodyYet(queues, taken);
    assert Admitting(queues, waiting, taken, ops, spent, deferred);
    assert HeadsFit(queues) ==> AtFirst(queues, waiting, ops, 0);
    var progress := true;
    ghost var started := false;
    while progress
      invariant Underway(queues, waiting, taken, ops, spent, deferred, turns, Turn(rounds, 0))
      invariant !progress ==> forall i | 0 <= i < |waiting| :: waiting[i] == []
      invariant !started ==> progress && waiting == queues && ops == []
      invariant started && HeadsFit(queues) ==> HeadsTaken(queues, ops)
      decreases SumLen(waiting), progress
    {
      waiting, taken, ops, spent, deferred, progress, turns := Round(queues, waiting, taken, ops, spent, deferred, turns, rounds);
      started, rounds := true, rounds + 1;
    }
    left := waiting;
    AllTurned(queues, left, taken, ops, spent, deferred, turns, rounds);
  }

  // --- grouping and queueing ---

  /** Parts by partition and tier. */
  method GroupParts(parts: seq<PartRef>) returns (m: map<Group, seq<PartRef>>)
    ensures m.Keys == Groups(parts) && forall g | g in m :: m[g] == Members(parts, g)
  {
    m := map[];
    ghost var read: seq<PartRef> := [];
    for i := 0 to |parts|
      invariant read == parts[..i]
      invariant Grouped(read, m)
    {
      var t := FindTier(parts[i].rows);
      var g := (parts[i].key, t);
      GroupedMore(read, m, parts[i]);
      m, read := m[g := (if g in m then m[g] else []) + [parts[i]]], read + [parts[i]];
    }
    assert read == parts;
  }

  ghost predicate Grouped(parts: seq<PartRef>, m: map<Group, seq<PartRef>>) {
    m.Keys == Groups(parts) && forall g | g in m :: m[g] == Members(parts, g)
  }

  lemma {:induction false} NoMembers(parts: seq<PartRef>, g: Group)
    requires g !in Groups(parts)
    ensures Members(parts, g) == []
  {
    if parts != [] {
      var n := |parts| - 1;
      assert parts[n] in parts;
      assert forall p | p in parts[..n] :: p in parts;
      NoMembers(parts[..n], g);
    }
  }

  lemma MembersMore(parts: seq<PartRef>, p: PartRef, g: Group)
    ensures Members(parts + [p], g) == if GroupOf(p) == g then Members(parts, g) + [p] else Members(parts, g)
  {
    assert (parts + [p])[..|parts|] == parts;
  }

  lemma GroupedMore(parts: seq<PartRef>, m: map<Group, seq<PartRef>>, p: PartRef)
    requires Grouped(parts, m)
    ensures var g := GroupOf(p); Grouped(parts + [p], m[g := (if g in m then m[g] else []) + [p]])
  {
    var g := GroupOf(p);
    var m' := m[g := (if g in m then m[g] else []) + [p]];
    assert Groups(parts + [p]) == Groups(parts) + {g};
    if g !in m {
      NoMembers(parts, g);
    }
    forall h | h in m' ensures m'[h] == Members(parts + [p], h) {
      MembersMore(parts, p, h);
    }
  }

  /** One bucket id's merges, nothing twice. */
  ghost predicate QueueOk(q: seq<Op>, ops: set<Op>) {
    q != [] && Distinct(q) && forall x | x in q :: x in ops && BucketId(x) == BucketId(q[0])
  }

  ghost predicate Waits(queues: seq<seq<Op>>, op: Op) {
    exists i :: 0 <= i < |queues| && op in queues[i]
  }

  ghost predicate Ascending(queues: seq<seq<Op>>) {
    && (forall i | 0 <= i < |queues| :: queues[i] != [])
    && forall i, j | 0 <= i < j < |queues| :: BucketId(queues[i][0]) < BucketId(queues[j][0])
  }

  /** The queues over some of the ripe merges: one per bucket id, ids ascending, nothing twice. */
  ghost predicate Queued(queues: seq<seq<Op>>, ops: set<Op>) {
    && Ascending(queues)
    && (forall i | 0 <= i < |queues| :: QueueOk(queues[i], ops))
    && (forall op | op in ops :: Waits(queues, op))
    && SumLen(queues) == |ops|
  }

  lemma {:induction false} SumLenInsert(queues: seq<seq<Op>>, i: nat, q: seq<Op>)
    requires i <= |queues|
    ensures SumLen(queues[..i] + [q] + queues[i..]) == SumLen(queues) + |q|
  {
    var all := queues[..i] + [q] + queues[i..];
    if i == |queues| {
      assert all[..|all| - 1] == queues;
    } else {
      var n := |queues| - 1;
      assert all[..|all| - 1] == queues[..n][..i] + [q] + queues[..n][i..];
      SumLenInsert(queues[..n], i, q);
    }
  }

  /** Where a bucket id belongs among the queues. */
  method FindQueue(queues: seq<seq<Op>>, id: nat) returns (i: nat)
    requires Ascending(queues)
    ensures i <= |queues| && (forall k | 0 <= k < i :: BucketId(queues[k][0]) < id)
    ensures forall k | i <= k < |queues| :: id <= BucketId(queues[k][0])
  {
    i := 0;
    while i < |queues| && BucketId(queues[i][0]) < id
      invariant i <= |queues| && forall k | 0 <= k < i :: BucketId(queues[k][0]) < id
    {
      i := i + 1;
    }
  }

  lemma QueueGrows(q: seq<Op>, ops: set<Op>, op: Op)
    requires QueueOk(q, ops) && op !in ops && BucketId(op) == BucketId(q[0])
    ensures QueueOk(q + [op], ops + {op})
  {
    forall i, j | 0 <= i < j < |q + [op]| ensures (q + [op])[i] != (q + [op])[j] {
      assert q[i] in q;
    }
  }

  lemma ReplacedAscends(queues: seq<seq<Op>>, i: nat, q: seq<Op>)
    requires Ascending(queues) && i < |queues| && q != [] && BucketId(q[0]) == BucketId(queues[i][0])
    ensures Ascending(queues[i := q])
  {
  }

  lemma ReplacedWaits(queues: seq<seq<Op>>, i: nat, q: seq<Op>, x: Op)
    requires i < |queues| && (forall y | y in queues[i] :: y in q) && (Waits(queues, x) || x in q)
    ensures Waits(queues[i := q], x)
  {
    if x in q {
      assert x in queues[i := q][i];
    } else {
      var k :| 0 <= k < |queues| && x in queues[k];
      assert x in queues[i := q][k];
    }
  }

  /** One queue may be exchanged for another that holds at least as much. */
  lemma Replaced(queues: seq<seq<Op>>, ops: set<Op>, ops': set<Op>, i: nat, q: seq<Op>)
    requires Queued(queues, ops) && i < |queues| && ops <= ops' && QueueOk(q, ops') && |q| + |ops| == |queues[i]| + |ops'|
    requires BucketId(q[0]) == BucketId(queues[i][0]) && (forall y | y in queues[i] :: y in q) && forall y | y in ops' :: y in ops || y in q
    ensures Queued(queues[i := q], ops')
  {
    SumLenUpdate(queues, i, q);
    ReplacedAscends(queues, i, q);
    var qs := queues[i := q];
    forall k | 0 <= k < |qs| ensures QueueOk(qs[k], ops') {
      assert QueueOk(queues[k], ops);
    }
    forall x | x in ops' ensures Waits(queues[i := q], x) {
      ReplacedWaits(queues, i, q, x);
    }
  }

  lemma EnqueueOld(queues: seq<seq<Op>>, ops: set<Op>, op: Op, i: nat)
    requires Queued(queues, ops) && op !in ops && i < |queues| && BucketId(queues[i][0]) == BucketId(op)
    ensures Queued(queues[i := queues[i] + [op]], ops + {op})
  {
    QueueGrows(queues[i], ops, op);
    Replaced(queues, ops, ops + {op}, i, queues[i] + [op]);
  }

  lemma Inserted(queues: seq<seq<Op>>, i: nat, q: seq<Op>, k: nat)
    requires i <= |queues| && k <= |queues|
    ensures (queues[..i] + [q] + queues[i..])[k] == if k < i then queues[k] else if k == i then q else queues[k - 1]
  {
  }

  lemma InsertAscends(queues: seq<seq<Op>>, i: nat, op: Op)
    requires Ascending(queues) && i <= |queues|
    requires (forall k | 0 <= k < i :: BucketId(queues[k][0]) < BucketId(op)) && forall k | i <= k < |queues| :: BucketId(op) < BucketId(queues[k][0])
    ensures Ascending(queues[..i] + [[op]] + queues[i..])
  {
    forall k | 0 <= k <= |queues| {
      Inserted(queues, i, [op], k);
    }
  }

  lemma InsertedWaits(queues: seq<seq<Op>>, i: nat, op: Op, x: Op)
    requires i <= |queues| && (x == op || Waits(queues, x))
    ensures Waits(queues[..i] + [[op]] + queues[i..], x)
  {
    var qs := queues[..i] + [[op]] + queues[i..];
    var k' := i;
    if x != op {
      var k :| 0 <= k < |queues| && x in queues[k];
      k' := if k < i then k else k + 1;
    }
    Inserted(queues, i, [op], k');
    assert x in qs[k'];
  }

  lemma InsertedOk(queues: seq<seq<Op>>, ops: set<Op>, i: nat, op: Op, k: nat)
    requires (forall k | 0 <= k < |queues| :: QueueOk(queues[k], ops)) && i <= |queues| && k <= |queues|
    ensures QueueOk((queues[..i] + [[op]] + queues[i..])[k], ops + {op})
  {
    Inserted(queues, i, [op], k);
    assert k < i ==> QueueOk(queues[k], ops);
    assert k > i ==> QueueOk(queues[k - 1], ops);
  }

  lemma EnqueueNew(queues: seq<seq<Op>>, ops: set<Op>, op: Op, i: nat)
    requires Queued(queues, ops) && op !in ops && i <= |queues|
    requires (forall k | 0 <= k < i :: BucketId(queues[k][0]) < BucketId(op)) && forall k | i <= k < |queues| :: BucketId(op) < BucketId(queues[k][0])
    ensures Queued(queues[..i] + [[op]] + queues[i..], ops + {op})
  {
    var qs := queues[..i] + [[op]] + queues[i..];
    SumLenInsert(queues, i, [op]);
    InsertAscends(queues, i, op);
    forall k | 0 <= k < |qs| ensures QueueOk(qs[k], ops + {op}) {
      InsertedOk(queues, ops, i, op, k);
    }
    forall x | x in ops + {op} ensures Waits(qs, x) {
      InsertedWaits(queues, i, op, x);
    }
  }

  method Enqueue(queues: seq<seq<Op>>, op: Op, ghost ops: set<Op>) returns (qs: seq<seq<Op>>)
    requires Queued(queues, ops) && op !in ops
    ensures Queued(qs, ops + {op})
  {
    var i := FindQueue(queues, BucketId(op));
    if i < |queues| && BucketId(queues[i][0]) == BucketId(op) {
      EnqueueOld(queues, ops, op, i);
      qs := queues[i := queues[i] + [op]];
    } else {
      EnqueueNew(queues, ops, op, i);
      qs := queues[..i] + [[op]] + queues[i..];
    }
  }

  // --- sorting the queues ---

  ghost predicate CheapestFirst(queues: seq<seq<Op>>, rank: PartitionKey -> int) {
    forall i | 0 <= i < |queues| :: Sorted(queues[i], Cost(rank))
  }

  lemma SortedQueueOk(q: seq<Op>, ops: set<Op>, key: Op -> Key)
    requires QueueOk(q, ops)
    ensures QueueOk(SortBy(q, key), ops) && BucketId(SortBy(q, key)[0]) == BucketId(q[0])
    ensures forall x :: x in SortBy(q, key) <==> x in q
  {
    var r := SortBy(q, key);
    DistinctCounts(q, r);
    forall x ensures x in r <==> x in q {
      assert x in r <==> x in multiset(r);
    }
    assert r[0] in r;
  }

  lemma SortOne(queues: seq<seq<Op>>, ops: set<Op>, i: nat, key: Op -> Key)
    requires Queued(queues, ops) && i < |queues|
    ensures Queued(queues[i := SortBy(queues[i], key)], ops)
  {
    SortedQueueOk(queues[i], ops, key);
    Replaced(queues, ops, ops, i, SortBy(queues[i], key));
  }

  method SortQueues(queues: seq<seq<Op>>, rank: PartitionKey -> int, ghost ops: set<Op>) returns (qs: seq<seq<Op>>)
    requires Queued(queues, ops)
    ensures Queued(qs, ops) && CheapestFirst(qs, rank)
  {
    qs := queues;
    for i := 0 to |queues|
      invariant |qs| == |queues| && Queued(qs, ops)
      invariant forall k | 0 <= k < i :: Sorted(qs[k], Cost(rank))
    {
      SortOne(qs, ops, i, Cost(rank));
      SortBySorted(qs[i], Cost(rank));
      qs := qs[i := SortBy(qs[i], Cost(rank))];
    }
  }

  lemma QueuesApart(queues: seq<seq<Op>>, ops: set<Op>)
    requires Queued(queues, ops)
    ensures Apart(queues)
  {
    forall i | 0 <= i < |queues| ensures Distinct(queues[i]) {
      assert QueueOk(queues[i], ops);
    }
    forall i, j, a, b | 0 <= i < j < |queues| && 0 <= a < |queues[i]| && 0 <= b < |queues[j]| ensures queues[i][a] != queues[j][b] {
      assert QueueOk(queues[i], ops) && QueueOk(queues[j], ops);
      assert queues[i][a] in queues[i] && queues[j][b] in queues[j];
    }
  }
}
