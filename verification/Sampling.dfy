/** The training sample: how many rows each stratum gets, and why the order of the rows cannot matter. */
module Sampling {
  import opened Ordering
  import opened Lists

  const FLOOR_SHARE := 4

  // --- small arithmetic ---

  lemma DivMod(n: nat, d: nat)
    requires d > 0
    ensures d * (n / d) + n % d == n && n % d < d
  {
  }

  lemma Distribute(x: nat, a: nat, b: nat)
    ensures x * (a + b) == x * a + x * b
  {
  }

  lemma Cancel(d: nat, a: nat, b: nat)
    requires d > 0
    ensures d * a <= d * b ==> a <= b
    ensures d * a < d * b ==> a < b
  {
    if a > b {
      Distribute(d, b, a - b);
    }
  }

  lemma Grow(d: nat, a: nat, b: nat)
    requires a <= b
    ensures d * a <= d * b
  {
    Distribute(d, a, b - a);
  }

  // --- the allocation ---

  function AtLeastOne(n: nat): nat {
    if n == 0 then 1 else n
  }

  /** The equal floor every stratum gets first. */
  function FloorFor(strata: nat, max: nat): nat
    requires strata > 0
  {
    AtLeastOne((max / FLOOR_SHARE) / strata)
  }

  function Floors(sizes: seq<nat>, floor: nat): (r: seq<nat>)
    ensures |r| == |sizes|
  {
    seq(|sizes|, i requires 0 <= i < |sizes| => Min(floor, sizes[i]))
  }

  /** A stratum's exact proportional share, rounded down. */
  function Exact(rest: nat, rows: nat, total: nat): nat
    requires total > 0
  {
    rest * rows / total
  }

  function Remainder(rest: nat, rows: nat, total: nat): nat
    requires total > 0
  {
    rest * rows % total
  }

  function Shares(sizes: seq<nat>, rest: nat, total: nat): (r: seq<nat>)
    requires total > 0
    ensures |r| == |sizes|
  {
    seq(|sizes|, i requires 0 <= i < |sizes| => Exact(rest, sizes[i], total))
  }

  function Remainders(sizes: seq<nat>, rest: nat, total: nat): (r: seq<nat>)
    requires total > 0
    ensures |r| == |sizes|
  {
    seq(|sizes|, i requires 0 <= i < |sizes| => Remainder(rest, sizes[i], total))
  }

  /** Floor plus proportional share, never more than the stratum has. */
  function Based(sizes: seq<nat>, floor: nat, shares: seq<nat>): (r: seq<nat>)
    requires |shares| == |sizes|
    ensures |r| == |sizes|
  {
    seq(|sizes|, i requires 0 <= i < |sizes| => Min(floor, sizes[i]) + Min(shares[i], sizes[i] - Min(floor, sizes[i])))
  }

  /** The strata that could take one more, in order of discovery. */
  function Hungry(sizes: seq<nat>, base: seq<nat>, n: nat): seq<nat>
    requires |sizes| == |base| && n <= |sizes|
  {
    if n == 0 then []
    else Hungry(sizes, base, n - 1) + if base[n - 1] < sizes[n - 1] then [n - 1] else []
  }

  /** Biggest remainder first; ties by the stratum's name, which is its index. */
  function ByRemainder(remainders: seq<nat>): nat -> Key {
    (i: nat) => Key(0.0 - (if i < |remainders| then remainders[i] else 0) as real, i)
  }

  /** One more for each in turn while any are left. */
  function HandOut(sizes: seq<nat>, base: seq<nat>, left: nat, order: seq<nat>): (r: (seq<nat>, nat))
    requires |sizes| == |base|
    ensures |r.0| == |sizes|
  {
    if order == [] then (base, left)
    else
      var i := order[|order| - 1];
      var (q, l) := HandOut(sizes, base, left, order[..|order| - 1]);
      if i < |sizes| && l > 0 && q[i] < sizes[i] then (q[i := q[i] + 1], l - 1) else (q, l)
  }

  lemma {:induction false} HungryBelow(sizes: seq<nat>, base: seq<nat>, n: nat)
    requires |sizes| == |base| && n <= |sizes|
    ensures forall i | i in Hungry(sizes, base, n) :: i < n && base[i] < sizes[i]
    ensures Distinct(Hungry(sizes, base, n))
    ensures |Hungry(sizes, base, n)| <= n
    ensures (forall i | 0 <= i < n :: base[i] < sizes[i]) ==> |Hungry(sizes, base, n)| == n
  {
    if n > 0 {
      HungryBelow(sizes, base, n - 1);
      var h := Hungry(sizes, base, n - 1);
      assert forall i | 0 <= i < |h| :: h[i] in h;
    }
  }

  function Order(sizes: seq<nat>, base: seq<nat>, remainders: seq<nat>): seq<nat>
    requires |sizes| == |base|
  {
    SortBy(Hungry(sizes, base, |sizes|), ByRemainder(remainders))
  }

  function MinusOrZero(a: nat, b: nat): nat {
    if a > b then a - b else 0
  }

  /** The proportional phase and the remainders after it. */
  function Spread(sizes: seq<nat>, max: nat, floor: nat, rest: nat, total: nat): (r: seq<nat>)
    requires total > 0
    ensures |r| == |sizes|
  {
    Round(sizes, max, Based(sizes, floor, Shares(sizes, rest, total)), Remainders(sizes, rest, total))
  }

  function Round(sizes: seq<nat>, max: nat, base: seq<nat>, remainders: seq<nat>): (r: seq<nat>)
    requires |sizes| == |base|
    ensures |r| == |sizes|
  {
    HandOut(sizes, base, MinusOrZero(max, Sum(base)), Order(sizes, base, remainders)).0
  }

  /** The slots each stratum gets, strata in name order. */
  function Quotas(sizes: seq<nat>, max: nat): (r: seq<nat>)
    ensures |r| == |sizes|
  {
    var total := Sum(sizes);
    if total == 0 || max == 0 then seq(|sizes|, i => 0)
    else
      assert sizes != [];
      var floor := FloorFor(|sizes|, max);
      var rest := MinusOrZero(max, Sum(Floors(sizes, floor)));
      if rest == 0 then Floors(sizes, floor)
      else
        Spread(sizes, max, floor, rest, total)
  }

  // --- what the allocation adds up to ---

  /** Handing out moves slots from what is left to the strata, one for one, and never overfills one. */
  lemma {:induction false} HandOutKeeps(sizes: seq<nat>, base: seq<nat>, left: nat, order: seq<nat>)
    requires |sizes| == |base| && forall i | 0 <= i < |sizes| :: base[i] <= sizes[i]
    ensures var (q, l) := HandOut(sizes, base, left, order);
            && Sum(q) + l == Sum(base) + left
            && forall i | 0 <= i < |sizes| :: base[i] <= q[i] <= sizes[i]
  {
    if order != [] {
      var (front, i) := (order[..|order| - 1], order[|order| - 1]);
      HandOutKeeps(sizes, base, left, front);
      var (q, l) := HandOut(sizes, base, left, front);
      if i < |sizes| {
        SumUpdate(q, i, q[i] + 1);
      }
    }
  }

  /** With as many takers as slots, nothing is left over. */
  lemma {:induction false} HandOutFinishes(sizes: seq<nat>, base: seq<nat>, left: nat, order: seq<nat>)
    requires |sizes| == |base| && Distinct(order) && forall i | i in order :: i < |sizes| && base[i] < sizes[i]
    ensures var (q, l) := HandOut(sizes, base, left, order);
            && l == MinusOrZero(left, |order|)
            && forall i | 0 <= i < |sizes| && i !in order :: q[i] == base[i]
  {
    if order != [] {
      var n := |order| - 1;
      var (front, i) := (order[..n], order[n]);
      assert order == front + [i];
      assert i in order && forall k | k in front :: k in order;
      assert i !in front by {
        assert forall k | 0 <= k < n :: order[k] != order[n];
      }
      HandOutFinishes(sizes, base, left, front);
    }
  }

  lemma {:induction false} SharesWithin(sizes: seq<nat>, rest: nat, total: nat, shares: seq<nat>, remainders: seq<nat>)
    requires total > 0 && |shares| == |remainders| == |sizes|
    requires forall i | 0 <= i < |sizes| :: shares[i] == Exact(rest, sizes[i], total) && remainders[i] == Remainder(rest, sizes[i], total)
    ensures total * Sum(shares) + Sum(remainders) == rest * Sum(sizes)
  {
    if sizes != [] {
      var n := |sizes| - 1;
      SharesWithin(sizes[..n], rest, total, shares[..n], remainders[..n]);
      Distribute(total, Sum(shares[..n]), shares[n]);
      Distribute(rest, Sum(sizes[..n]), sizes[n]);
      DivMod(rest * sizes[n], total);
    }
  }

  function NonEmpty(sizes: seq<nat>): nat {
    if sizes == [] then 0 else NonEmpty(sizes[..|sizes| - 1]) + if sizes[|sizes| - 1] > 0 then 1 else 0
  }

  lemma {:induction false} NonEmptyWithin(sizes: seq<nat>)
    ensures NonEmpty(sizes) <= |sizes|
  {
    if sizes != [] {
      NonEmptyWithin(sizes[..|sizes| - 1]);
    }
  }

  lemma {:induction false} UnitFloors(sizes: seq<nat>)
    ensures Sum(Floors(sizes, 1)) == NonEmpty(sizes)
  {
    if sizes != [] {
      var n := |sizes| - 1;
      assert Floors(sizes, 1)[..n] == Floors(sizes[..n], 1);
      UnitFloors(sizes[..n]);
    }
  }

  lemma {:induction false} FloorsWithin(sizes: seq<nat>, floor: nat)
    ensures Sum(Floors(sizes, floor)) <= floor * |sizes|
  {
    if sizes != [] {
      var n := |sizes| - 1;
      assert Floors(sizes, floor)[..n] == Floors(sizes[..n], floor);
      FloorsWithin(sizes[..n], floor);
      Distribute(floor, n, 1);
    }
  }

  /** The floors alone fit if and only if there are no more non-empty strata than slots. */
  lemma FloorsFitExactly(sizes: seq<nat>, max: nat)
    requires sizes != []
    ensures Sum(Floors(sizes, FloorFor(|sizes|, max))) <= max <==> NonEmpty(sizes) <= max
  {
    var (strata, pool) := (|sizes|, max / FLOOR_SHARE);
    var floor := FloorFor(strata, max);
    if floor == 1 {
      UnitFloors(sizes);
    } else {
      DivMod(pool, strata);
      FloorsWithin(sizes, floor);
      NonEmptyWithin(sizes);
      Grow(strata, 1, floor);
    }
  }

  lemma {:induction false} SumPlus(a: seq<nat>, b: seq<nat>, c: seq<nat>)
    requires |a| == |b| == |c| && forall i | 0 <= i < |a| :: c[i] <= a[i] + b[i]
    ensures Sum(c) <= Sum(a) + Sum(b)
    ensures (forall i | 0 <= i < |a| :: c[i] == a[i] + b[i]) ==> Sum(c) == Sum(a) + Sum(b)
  {
    if a != [] {
      var n := |a| - 1;
      SumPlus(a[..n], b[..n], c[..n]);
    }
  }

  lemma {:induction false} RemaindersSmall(rs: seq<nat>, total: nat)
    requires forall i | 0 <= i < |rs| :: rs[i] < total
    ensures Sum(rs) <= total * |rs|
    ensures rs != [] ==> Sum(rs) < total * |rs|
  {
    if rs != [] {
      var n := |rs| - 1;
      RemaindersSmall(rs[..n], total);
      Distribute(total, n, 1);
    }
  }

  lemma LessThanOneEach(total: nat, shares: nat, remainder: nat, rest: nat, n: nat)
    requires total > 0 && total * shares + remainder == rest * total && remainder < total * n
    ensures shares <= rest && rest - shares < n
  {
    assert rest * total == total * rest;
    Cancel(total, shares, rest);
    Distribute(total, shares, rest - shares);
    Cancel(total, rest - shares, n);
  }

  lemma RemaindersWithin(sizes: seq<nat>, rest: nat, total: nat)
    requires total > 0 && sizes != []
    ensures Sum(Remainders(sizes, rest, total)) < total * |sizes|
  {
    var rs := Remainders(sizes, rest, total);
    forall i | 0 <= i < |rs| ensures rs[i] < total {
      DivMod(rest * sizes[i], total);
    }
    RemaindersSmall(rs, total);
  }

  /** What rounding down drops is less than one slot per stratum. */
  lemma RoundingDropsLittle(sizes: seq<nat>, rest: nat)
    requires Sum(sizes) > 0
    ensures var dropped := rest - Sum(Shares(sizes, rest, Sum(sizes))); 0 <= dropped < |sizes|
  {
    var total := Sum(sizes);
    SharesWithin(sizes, rest, total, Shares(sizes, rest, total), Remainders(sizes, rest, total));
    RemaindersWithin(sizes, rest, total);
    LessThanOneEach(total, Sum(Shares(sizes, rest, total)), Sum(Remainders(sizes, rest, total)), rest, |sizes|);
  }

  lemma BasedBounds(sizes: seq<nat>, floor: nat, shares: seq<nat>)
    requires |shares| == |sizes|
    ensures var base := Based(sizes, floor, shares);
            && (forall i | 0 <= i < |sizes| :: Min(floor, sizes[i]) <= base[i] <= sizes[i])
            && Sum(base) <= Sum(Floors(sizes, floor)) + Sum(shares)
  {
    SumPlus(Floors(sizes, floor), shares, Based(sizes, floor, shares));
  }

  /** What the second phase makes of the floors: bounds for each stratum, and what is left unspent. */
  lemma SecondPhase(sizes: seq<nat>, floor: nat, shares: seq<nat>, remainders: seq<nat>, max: nat)
    requires |shares| == |sizes| && Sum(Floors(sizes, floor)) + Sum(shares) <= max
    ensures var base := Based(sizes, floor, shares);
            var q := Round(sizes, max, base, remainders);
            && Sum(q) <= max
            && forall i | 0 <= i < |sizes| :: Min(floor, sizes[i]) <= q[i] <= sizes[i]
  {
    var base := Based(sizes, floor, shares);
    BasedBounds(sizes, floor, shares);
    HandOutKeeps(sizes, base, MinusOrZero(max, Sum(base)), Order(sizes, base, remainders));
  }

  /** Each stratum gets at least its floor, or everything it has, and never more than it has. */
  lemma QuotaBounds(sizes: seq<nat>, max: nat, i: nat)
    requires Sum(sizes) > 0 && max > 0 && i < |sizes|
    ensures Min(FloorFor(|sizes|, max), sizes[i]) <= Quotas(sizes, max)[i] <= sizes[i]
  {
    var floor := FloorFor(|sizes|, max);
    var rest := MinusOrZero(max, Sum(Floors(sizes, floor)));
    if rest > 0 {
      RoundingDropsLittle(sizes, rest);
      SecondPhase(sizes, floor, Shares(sizes, rest, Sum(sizes)), Remainders(sizes, rest, Sum(sizes)), max);
    }
  }

  /** The sample stays within its size if and only if there are no more non-empty strata than slots: the
      floor of one row per stratum is what can exceed it. */
  lemma WithinSizeExactly(sizes: seq<nat>, max: nat)
    requires Sum(sizes) > 0 && max > 0
    ensures Sum(Quotas(sizes, max)) <= max <==> NonEmpty(sizes) <= max
  {
    var floor := FloorFor(|sizes|, max);
    var rest := MinusOrZero(max, Sum(Floors(sizes, floor)));
    FloorsFitExactly(sizes, max);
    if rest > 0 {
      RoundingDropsLittle(sizes, rest);
      SecondPhase(sizes, floor, Shares(sizes, rest, Sum(sizes)), Remainders(sizes, rest, Sum(sizes)), max);
    }
  }

  /** Every stratum still has rows to spare after its floor and its proportional share. */
  ghost predicate Headroom(sizes: seq<nat>, floor: nat, shares: seq<nat>) {
    |shares| == |sizes| && forall i | 0 <= i < |sizes| :: Min(floor, sizes[i]) + shares[i] < sizes[i]
  }

  lemma OrderCovers(sizes: seq<nat>, base: seq<nat>, remainders: seq<nat>)
    requires |sizes| == |base|
    ensures var order := Order(sizes, base, remainders);
            && Distinct(order) && (forall i | i in order :: i < |sizes| && base[i] < sizes[i])
            && ((forall i | 0 <= i < |sizes| :: base[i] < sizes[i]) ==> |order| == |sizes|)
  {
    var h := Hungry(sizes, base, |sizes|);
    var order := Order(sizes, base, remainders);
    HungryBelow(sizes, base, |sizes|);
    DistinctCounts(h, order);
    forall i | i in order ensures i in h {
      assert i in multiset(order);
    }
  }

  lemma BasedExactly(sizes: seq<nat>, floor: nat, shares: seq<nat>)
    requires Headroom(sizes, floor, shares)
    ensures var base := Based(sizes, floor, shares);
            && Sum(base) == Sum(Floors(sizes, floor)) + Sum(shares)
            && forall i | 0 <= i < |sizes| :: base[i] < sizes[i]
  {
    SumPlus(Floors(sizes, floor), shares, Based(sizes, floor, shares));
  }

  /** What is left after the floors and the shares is no more than the strata with rows to spare; when the
      floors alone reach the sample size, they have to reach it exactly. */
  predicate SlackIsTaken(sizes: seq<nat>, max: nat)
    requires Sum(sizes) > 0
  {
    var floor := FloorFor(|sizes|, max);
    var floors := Sum(Floors(sizes, floor));
    if floors >= max then floors == max
    else
      var base := Based(sizes, floor, Shares(sizes, max - floors, Sum(sizes)));
      max <= Sum(base) + |Hungry(sizes, base, |sizes|)|
  }

  lemma RoundFillsExactly(sizes: seq<nat>, max: nat, base: seq<nat>, remainders: seq<nat>)
    requires |sizes| == |base| && Sum(base) <= max && forall i | 0 <= i < |sizes| :: base[i] <= sizes[i]
    ensures Sum(Round(sizes, max, base, remainders)) == max <==> max <= Sum(base) + |Hungry(sizes, base, |sizes|)|
  {
    var order := Order(sizes, base, remainders);
    var left := MinusOrZero(max, Sum(base));
    OrderCovers(sizes, base, remainders);
    SameElements(order, Hungry(sizes, base, |sizes|));
    HandOutKeeps(sizes, base, left, order);
    HandOutFinishes(sizes, base, left, order);
  }

  /** The quotas use the whole sample if and only if the slack is no more than the strata that can take it. */
  lemma FillsTheSampleExactly(sizes: seq<nat>, max: nat)
    requires Sum(sizes) > 0 && max > 0
    ensures Sum(Quotas(sizes, max)) == max <==> SlackIsTaken(sizes, max)
  {
    var floor := FloorFor(|sizes|, max);
    var rest := MinusOrZero(max, Sum(Floors(sizes, floor)));
    if rest > 0 {
      var shares := Shares(sizes, rest, Sum(sizes));
      RoundingDropsLittle(sizes, rest);
      BasedBounds(sizes, floor, shares);
      RoundFillsExactly(sizes, max, Based(sizes, floor, shares), Remainders(sizes, rest, Sum(sizes)));
    }
  }

  /** With headroom everywhere the whole sample is used, to the last slot. */
  lemma FillsTheSample(sizes: seq<nat>, max: nat, floor: nat, rest: nat)
    requires Sum(sizes) > 0 && floor == FloorFor(|sizes|, max) && rest > 0 && max == Sum(Floors(sizes, floor)) + rest
    requires Headroom(sizes, floor, Shares(sizes, rest, Sum(sizes)))
    ensures Sum(Quotas(sizes, max)) == max
  {
    var shares := Shares(sizes, rest, Sum(sizes));
    RoundingDropsLittle(sizes, rest);
    SlackFits(sizes, max, floor, rest, shares);
    assert SlackIsTaken(sizes, max);
    FillsTheSampleExactly(sizes, max);
  }

  lemma SlackFits(sizes: seq<nat>, max: nat, floor: nat, rest: nat, shares: seq<nat>)
    requires Headroom(sizes, floor, shares) && max == Sum(Floors(sizes, floor)) + rest && 0 <= rest - Sum(shares) < |sizes|
    ensures var base := Based(sizes, floor, shares); max <= Sum(base) + |Hungry(sizes, base, |sizes|)|
  {
    BasedExactly(sizes, floor, shares);
    HungryBelow(sizes, Based(sizes, floor, shares), |sizes|);
  }

  lemma SumOfThree(a: nat, b: nat, c: nat)
    ensures Sum([a, b, c]) == a + b + c && Sum([a, b]) == a + b
  {
    assert [a, b, c][..2] == [a, b] && [a, b][..1] == [a] && [a][..0] == [];
    assert Sum([a]) == a;
  }

  /** More strata than slots: the floor of one row each exceeds the sample. */
  lemma FloorsOverfill()
    ensures Sum(Quotas([1, 1], 1)) > 1
  {
    assert [1, 1][..1] == [1] && [1][..0] == [];
    assert Sum([1]) == 1 && Sum([1, 1]) == 2;
    assert NonEmpty([1]) == 1 && NonEmpty([1, 1]) == 2;
    WithinSizeExactly([1, 1], 1);
  }

  lemma SmallShares()
    ensures var sizes := [1, 1, 5];
            Sum(sizes) == 7 && FloorFor(3, 7) == 1 && Floors(sizes, 1) == [1, 1, 1] && Based(sizes, 1, Shares(sizes, 4, 7)) == [1, 1, 3]
  {
    var sizes := [1, 1, 5];
    SumOfThree(1, 1, 5);
    assert Exact(4, 1, 7) == 0 && Exact(4, 5, 7) == 2;
    assert Shares(sizes, 4, 7) == [0, 0, 2];
  }

  lemma OneHungry()
    ensures |Hungry([1, 1, 5], [1, 1, 3], 3)| == 1
  {
    assert Hungry([1, 1, 5], [1, 1, 3], 2) == [] by {
      assert Hungry([1, 1, 5], [1, 1, 3], 1) == [];
    }
  }

  /** As many slots as rows, and one row is still left out: the small strata cannot take their shares, and
      the one that could takes a single slot of what they leave. */
  lemma RoomGoesUnused()
    ensures Sum([1, 1, 5]) == 7 && Sum(Quotas([1, 1, 5], 7)) < 7
  {
    var sizes := [1, 1, 5];
    SmallShares();
    SumOfThree(1, 1, 1);
    SumOfThree(1, 1, 3);
    OneHungry();
    assert !SlackIsTaken(sizes, 7);
    FillsTheSampleExactly(sizes, 7);
    ThreeStrata();
    WithinSizeExactly(sizes, 7);
  }

  lemma ThreeStrata()
    ensures NonEmpty([1, 1, 5]) <= 3
  {
    NonEmptyWithin([1, 1, 5]);
  }

  lemma HandOutMore(sizes: seq<nat>, base: seq<nat>, left: nat, front: seq<nat>, last: nat)
    requires |sizes| == |base| && last < |sizes|
    ensures var (q, l) := HandOut(sizes, base, left, front);
            HandOut(sizes, base, left, front + [last]) == if l > 0 && q[last] < sizes[last] then (q[last := q[last] + 1], l - 1) else (q, l)
  {
    assert (front + [last])[..|front|] == front;
  }

  lemma TakeLast(front: seq<nat>, last: nat, left: nat)
    ensures Take(front + [last], left) == if left > |front| then front + [last] else Take(front, left)
    ensures forall k | k in Take(front, left) :: k in front
  {
  }

  ghost predicate Takers(sizes: seq<nat>, base: seq<nat>, order: seq<nat>) {
    |sizes| == |base| && Distinct(order) && forall k | k in order :: k < |sizes| && base[k] < sizes[k]
  }

  lemma TakersFront(sizes: seq<nat>, base: seq<nat>, front: seq<nat>, last: nat)
    requires Takers(sizes, base, front + [last])
    ensures Takers(sizes, base, front) && last !in front && last < |sizes| && base[last] < sizes[last]
  {
    var order := front + [last];
    assert forall k | 0 <= k < |front| :: order[k] == front[k] && order[k] != order[|front|];
    assert last in order && forall k | k in front :: k in order;
  }

  /** Handing out reaches exactly the first `left` of the order. */
  lemma {:induction false} HandOutReaches(sizes: seq<nat>, base: seq<nat>, left: nat, order: seq<nat>, i: nat)
    requires Takers(sizes, base, order) && i < |sizes|
    ensures HandOut(sizes, base, left, order).0[i] == base[i] + if i in Take(order, left) then 1 else 0
  {
    if order != [] {
      var (front, last) := (order[..|order| - 1], order[|order| - 1]);
      assert order == front + [last];
      TakersFront(sizes, base, front, last);
      HandOutReaches(sizes, base, left, front, i);
      HandOutFinishes(sizes, base, left, front);
      HandOutMore(sizes, base, left, front, last);
      TakeLast(front, last, left);
    }
  }

  lemma TakenComeFirst(order: seq<nat>, key: nat -> Key, left: nat, i: nat, j: nat)
    requires Sorted(order, key) && i in Take(order, left) && j in order && j !in Take(order, left)
    ensures Leq(key(i), key(j))
  {
    var a :| 0 <= a < |Take(order, left)| && Take(order, left)[a] == i;
    var b :| 0 <= b < |order| && order[b] == j;
    assert order[a] == i && a < b;
  }

  /** The slots rounding left over go to the largest remainders, ties to the earlier name: a stratum that
      could take one more and did not has a smaller remainder, or an equal one and a later name. */
  lemma LargestRemaindersFirst(sizes: seq<nat>, base: seq<nat>, left: nat, remainders: seq<nat>, i: nat, j: nat)
    requires |sizes| == |base| == |remainders| && i < |sizes| && j < |sizes| && base[j] < sizes[j]
    requires var q := HandOut(sizes, base, left, Order(sizes, base, remainders)).0; q[i] > base[i] && q[j] == base[j]
    ensures remainders[i] > remainders[j] || (remainders[i] == remainders[j] && i < j)
  {
    var order := Order(sizes, base, remainders);
    OrderCovers(sizes, base, remainders);
    HandOutReaches(sizes, base, left, order, i);
    HandOutReaches(sizes, base, left, order, j);
    InOrder(sizes, base, remainders, j);
    TakenComeFirst(order, ByRemainder(remainders), left, i, j);
  }

  lemma InOrder(sizes: seq<nat>, base: seq<nat>, remainders: seq<nat>, j: nat)
    requires |sizes| == |base| == |remainders| && j < |sizes| && base[j] < sizes[j]
    ensures j in Order(sizes, base, remainders) && Sorted(Order(sizes, base, remainders), ByRemainder(remainders))
  {
    var hungry := Hungry(sizes, base, |sizes|);
    HungryHolds(sizes, base, |sizes|, j);
    SameElements(Order(sizes, base, remainders), hungry);
    SortBySorted(hungry, ByRemainder(remainders));
  }

  lemma {:induction false} HungryHolds(sizes: seq<nat>, base: seq<nat>, n: nat, j: nat)
    requires |sizes| == |base| && n <= |sizes| && j < n && base[j] < sizes[j]
    ensures j in Hungry(sizes, base, n)
  {
    if j < n - 1 {
      HungryHolds(sizes, base, n - 1, j);
    }
  }

  // --- the allocation as it runs ---

  method AllocateFloors(sizes: seq<nat>, floor: nat) returns (quota: seq<nat>, used: nat)
    ensures quota == Floors(sizes, floor) && used == Sum(quota)
  {
    quota, used := [], 0;
    for i := 0 to |sizes|
      invariant quota == Floors(sizes[..i], floor) && used == Sum(quota)
    {
      var q := Min(floor, sizes[i]);
      assert (quota + [q])[..i] == quota;
      assert Floors(sizes[..i + 1], floor) == quota + [q];
      quota, used := quota + [q], used + q;
    }
    assert sizes[..|sizes|] == sizes;
  }

  method AllocateShares(sizes: seq<nat>, floor: nat, rest: nat, total: nat) returns (base: seq<nat>, remainders: seq<nat>, hungry: seq<nat>)
    requires total > 0
    ensures base == Based(sizes, floor, Shares(sizes, rest, total)) && remainders == Remainders(sizes, rest, total)
    ensures hungry == Hungry(sizes, base, |sizes|)
  {
    base, remainders := [], [];
    for i := 0 to |sizes|
      invariant |base| == |remainders| == i
      invariant forall k | 0 <= k < i :: base[k] == Based(sizes, floor, Shares(sizes, rest, total))[k] && remainders[k] == Remainders(sizes, rest, total)[k]
    {
      var share := Min(Exact(rest, sizes[i], total), sizes[i] - Min(floor, sizes[i]));
      base, remainders := base + [Min(floor, sizes[i]) + share], remainders + [Remainder(rest, sizes[i], total)];
    }
    hungry := [];
    for i := 0 to |sizes|
      invariant hungry == Hungry(sizes, base, i)
    {
      if base[i] < sizes[i] {
        hungry := hungry + [i];
      }
    }
  }

  method GiveRemainders(sizes: seq<nat>, base: seq<nat>, left0: nat, order: seq<nat>) returns (quota: seq<nat>)
    requires |sizes| == |base| && forall i | 0 <= i < |order| :: order[i] < |sizes|
    ensures quota == HandOut(sizes, base, left0, order).0
  {
    quota := base;
    var left := left0;
    for k := 0 to |order|
      invariant (quota, left) == HandOut(sizes, base, left0, order[..k])
    {
      assert order[..k + 1][..k] == order[..k];
      if left > 0 && quota[order[k]] < sizes[order[k]] {
        quota, left := quota[order[k] := quota[order[k]] + 1], left - 1;
      }
    }
    assert order[..|order|] == order;
  }

  method Allocate(sizes: seq<nat>, max: nat) returns (quota: seq<nat>)
    ensures quota == Quotas(sizes, max)
  {
    var total := SumOf(sizes);
    if total == 0 || max == 0 {
      return seq(|sizes|, i => 0);
    }
    var floor := FloorFor(|sizes|, max);
    var used;
    quota, used := AllocateFloors(sizes, floor);
    if max > used {
      var base, remainders, hungry := AllocateShares(sizes, floor, max - used, total);
      var spent := SumOf(base);
      var order := SortBy(hungry, ByRemainder(remainders));
      OrderCovers(sizes, base, remainders);
      assert forall i | 0 <= i < |order| :: order[i] in order;
      quota := GiveRemainders(sizes, base, MinusOrZero(max, spent), order);
    }
  }

  method SumOf(s: seq<nat>) returns (n: nat)
    ensures n == Sum(s)
  {
    n := 0;
    for i := 0 to |s|
      invariant n == Sum(s[..i])
    {
      assert s[..i + 1][..i] == s[..i];
      n := n + s[i];
    }
    assert s[..|s|] == s;
  }

  // --- the sample ---

  datatype SampleRow = SampleRow(id: int, stratum: nat, vector: nat)

  function InStratum(name: nat): SampleRow -> bool {
    (r: SampleRow) => r.stratum == name
  }

  /** Rows in order of the ticket their own identity draws. */
  function ByTicket(ticket: int -> int): SampleRow -> Key {
    (r: SampleRow) => Key(ticket(r.id) as real, r.id)
  }

  function SizesOf(rows: seq<SampleRow>, names: seq<nat>): seq<nat> {
    seq(|names|, i requires 0 <= i < |names| => |Filter(InStratum(names[i]), rows)|)
  }

  /** Each stratum's rows, in ticket order. */
  function Drawn(rows: seq<SampleRow>, names: seq<nat>, key: SampleRow -> Key): seq<seq<SampleRow>> {
    seq(|names|, i requires 0 <= i < |names| => SortBy(Filter(InStratum(names[i]), rows), key))
  }

  /** The first `quotas[i]` tickets of each stratum. */
  function Picked(drawn: seq<seq<SampleRow>>, quotas: seq<nat>): seq<SampleRow>
    requires |drawn| == |quotas|
  {
    if drawn == [] then []
    else
      var n := |drawn| - 1;
      Picked(drawn[..n], quotas[..n]) + Take(drawn[n], quotas[n])
  }

  function Sample(rows: seq<SampleRow>, names: seq<nat>, max: nat, ticket: int -> int): seq<SampleRow> {
    var quotas := Quotas(SizesOf(rows, names), Min(max, |rows|));
    SortBy(Picked(Drawn(rows, names, ByTicket(ticket)), quotas), ByTicket(ticket))
  }

  ghost predicate Identified(rows: seq<SampleRow>) {
    forall i, j | 0 <= i < |rows| && 0 <= j < |rows| && rows[i].id == rows[j].id :: rows[i] == rows[j]
  }

  lemma StratumTotal(rows: seq<SampleRow>, name: nat, ticket: int -> int)
    requires Identified(rows)
    ensures Total(Filter(InStratum(name), rows), ByTicket(ticket))
  {
    var s := Filter(InStratum(name), rows);
    forall i, j | 0 <= i < |s| && 0 <= j < |s| && ByTicket(ticket)(s[i]) == ByTicket(ticket)(s[j]) ensures s[i] == s[j] {
      assert s[i] in s && s[j] in s;
      assert s[i] in rows && s[j] in rows;
    }
  }

  lemma StratumSame(a: seq<SampleRow>, b: seq<SampleRow>, name: nat, ticket: int -> int, key: SampleRow -> Key)
    requires multiset(a) == multiset(b) && Identified(a) && key == ByTicket(ticket)
    ensures SortBy(Filter(InStratum(name), a), key) == SortBy(Filter(InStratum(name), b), key)
    ensures |Filter(InStratum(name), a)| == |Filter(InStratum(name), b)|
  {
    FilterPermutes(InStratum(name), a, b);
    StratumTotal(a, name, ticket);
    SortByPermutes(Filter(InStratum(name), a), Filter(InStratum(name), b), key);
    SameElements(Filter(InStratum(name), a), Filter(InStratum(name), b));
  }

  lemma DrawnSame(a: seq<SampleRow>, b: seq<SampleRow>, names: seq<nat>, ticket: int -> int, key: SampleRow -> Key)
    requires multiset(a) == multiset(b) && Identified(a) && key == ByTicket(ticket)
    ensures Drawn(a, names, key) == Drawn(b, names, key)
  {
    forall i | 0 <= i < |names| ensures Drawn(a, names, key)[i] == Drawn(b, names, key)[i] {
      StratumSame(a, b, names[i], ticket, key);
    }
  }

  lemma SizesSame(a: seq<SampleRow>, b: seq<SampleRow>, names: seq<nat>, ticket: int -> int)
    requires multiset(a) == multiset(b) && Identified(a)
    ensures SizesOf(a, names) == SizesOf(b, names)
  {
    forall i | 0 <= i < |names| ensures SizesOf(a, names)[i] == SizesOf(b, names)[i] {
      StratumSame(a, b, names[i], ticket, ByTicket(ticket));
    }
  }

  /** The strata present, ascending. */
  ghost predicate NamesOf(rows: seq<SampleRow>, names: seq<nat>) {
    && (forall i, j | 0 <= i < j < |names| :: names[i] < names[j])
    && (forall r | r in rows :: r.stratum in names)
    && (forall n | n in names :: exists r :: r in rows && r.stratum == n)
  }

  lemma NamesSame(a: seq<SampleRow>, b: seq<SampleRow>, namesA: seq<nat>, namesB: seq<nat>)
    requires multiset(a) == multiset(b) && NamesOf(a, namesA) && NamesOf(b, namesB)
    ensures namesA == namesB
  {
    forall r ensures r in a <==> r in b {
      assert r in a <==> r in multiset(a);
      assert r in b <==> r in multiset(b);
    }
    forall x: nat ensures x in namesA <==> x in namesB {
    }
    AscendingUnique(namesA, namesB);
  }

  /** The sample, and the order training sees it in, is a function of the set of rows: however the rows
      are laid out, batched or handed over, the same rows come out in the same order. */
  lemma LayoutDoesNotMatter(a: seq<SampleRow>, b: seq<SampleRow>, namesA: seq<nat>, namesB: seq<nat>, max: nat, ticket: int -> int)
    requires multiset(a) == multiset(b) && Identified(a) && NamesOf(a, namesA) && NamesOf(b, namesB)
    ensures Sample(a, namesA, max, ticket) == Sample(b, namesB, max, ticket)
  {
    NamesSame(a, b, namesA, namesB);
    SizesSame(a, b, namesA, ticket);
    SameElements(a, b);
    DrawnSame(a, b, namesA, ticket, ByTicket(ticket));
  }

  // --- what the sample holds, by strata, tickets and ids ---

  function StratumSize(rows: seq<SampleRow>, name: nat): nat {
    if rows == [] then 0
    else StratumSize(rows[..|rows| - 1], name) + if rows[|rows| - 1].stratum == name then 1 else 0
  }

  /** `a`'s ticket is drawn no later than `b`'s, equal tickets going to the lower id. */
  predicate NoLater(ticket: int -> int, a: SampleRow, b: SampleRow) {
    ticket(a.id) < ticket(b.id) || (ticket(a.id) == ticket(b.id) && a.id <= b.id)
  }

  lemma {:induction false} StratumSizeCounts(rows: seq<SampleRow>, name: nat)
    ensures StratumSize(rows, name) == |Filter(InStratum(name), rows)|
  {
    if rows != [] {
      StratumSizeCounts(rows[..|rows| - 1], name);
    }
  }

  /** `drawn[j]` holds rows of stratum `names[j]` only, and no name comes twice. */
  ghost predicate DrawnBy(drawn: seq<seq<SampleRow>>, names: seq<nat>) {
    && |drawn| == |names| && Distinct(names)
    && forall j, r | 0 <= j < |drawn| && r in drawn[j] :: r.stratum == names[j]
  }

  lemma DrawnFront(drawn: seq<seq<SampleRow>>, names: seq<nat>)
    requires DrawnBy(drawn, names) && drawn != []
    ensures DrawnBy(drawn[..|drawn| - 1], names[..|drawn| - 1])
  {
  }

  lemma OneStratum(s: seq<SampleRow>, n: nat, own: nat, name: nat)
    requires forall r | r in s :: r.stratum == own
    ensures Filter(InStratum(name), Take(s, n)) == if own == name then Take(s, n) else []
  {
    var t := Take(s, n);
    forall k | 0 <= k < |t| ensures t[k].stratum == own {
      assert t[k] == s[k];
    }
    FilterFull(InStratum(name), t);
    FilterNone(InStratum(name), t);
  }

  lemma PickedLast(drawn: seq<seq<SampleRow>>, quotas: seq<nat>, names: seq<nat>, name: nat)
    requires |drawn| == |quotas| && DrawnBy(drawn, names) && drawn != []
    ensures var n := |drawn| - 1;
            Filter(InStratum(name), Picked(drawn, quotas))
            == Filter(InStratum(name), Picked(drawn[..n], quotas[..n])) + if names[n] == name then Take(drawn[n], quotas[n]) else []
  {
    var n := |drawn| - 1;
    OneStratum(drawn[n], quotas[n], names[n], name);
    FilterAppend(InStratum(name), Picked(drawn[..n], quotas[..n]), Take(drawn[n], quotas[n]));
  }

  lemma {:induction false} PickedElsewhere(drawn: seq<seq<SampleRow>>, quotas: seq<nat>, names: seq<nat>, name: nat)
    requires |drawn| == |quotas| && DrawnBy(drawn, names) && name !in names
    ensures Filter(InStratum(name), Picked(drawn, quotas)) == []
  {
    if drawn != [] {
      var n := |drawn| - 1;
      DrawnFront(drawn, names);
      PickedElsewhere(drawn[..n], quotas[..n], names[..n], name);
      PickedLast(drawn, quotas, names, name);
    }
  }

  lemma {:induction false} PickedInStratum(drawn: seq<seq<SampleRow>>, quotas: seq<nat>, names: seq<nat>, i: nat, name: nat)
    requires |drawn| == |quotas| && DrawnBy(drawn, names) && i < |drawn| && name == names[i]
    ensures Filter(InStratum(name), Picked(drawn, quotas)) == Take(drawn[i], quotas[i])
  {
    var n := |drawn| - 1;
    DrawnFront(drawn, names);
    PickedLast(drawn, quotas, names, name);
    if i < n {
      PickedInStratum(drawn[..n], quotas[..n], names[..n], i, name);
    } else {
      PickedElsewhere(drawn[..n], quotas[..n], names[..n], name);
    }
  }

  lemma DrawnHolds(rows: seq<SampleRow>, names: seq<nat>, key: SampleRow -> Key)
    requires Distinct(names)
    ensures DrawnBy(Drawn(rows, names, key), names)
  {
    var drawn := Drawn(rows, names, key);
    forall j: nat, r: SampleRow | j < |drawn| && r in drawn[j] ensures r.stratum == names[j] {
      SameElements(drawn[j], Filter(InStratum(names[j]), rows));
    }
  }

  /** The rows a stratum gives the sample: the first of its own tickets, as many as its quota. */
  lemma SampledStratum(rows: seq<SampleRow>, names: seq<nat>, quotas: seq<nat>, key: SampleRow -> Key, i: nat)
    requires Distinct(names) && |quotas| == |names| && i < |names|
    ensures multiset(Filter(InStratum(names[i]), SortBy(Picked(Drawn(rows, names, key), quotas), key)))
         == multiset(Best(Filter(InStratum(names[i]), rows), quotas[i], key))
  {
    var picked := Picked(Drawn(rows, names, key), quotas);
    DrawnHolds(rows, names, key);
    PickedInStratum(Drawn(rows, names, key), quotas, names, i, names[i]);
    FilterPermutes(InStratum(names[i]), SortBy(picked, key), picked);
  }

  lemma BestSplits<T>(s: seq<T>, c: nat, key: T -> Key) returns (rest: seq<T>)
    ensures multiset(s) == multiset(Best(s, c, key)) + multiset(rest) && AllLeq(Best(s, c, key), rest, key)
  {
    var t := SortBy(s, key);
    SortBySorted(s, key);
    rest := t[|Best(s, c, key)|..];
    assert t == Best(s, c, key) + rest;
  }

  lemma StratumTakes(stratum: seq<SampleRow>, n: nat, ticket: int -> int, taken: seq<SampleRow>, b: SampleRow)
    requires multiset(taken) == multiset(Best(stratum, n, ByTicket(ticket)))
    ensures multiset(taken)[b] <= multiset(stratum)[b]
    ensures multiset(taken)[b] < multiset(stratum)[b] ==> forall a | a in taken :: NoLater(ticket, a, b)
  {
    var best := Best(stratum, n, ByTicket(ticket));
    var rest := BestSplits(stratum, n, ByTicket(ticket));
    if multiset(taken)[b] < multiset(stratum)[b] {
      assert b in multiset(rest);
      var k :| 0 <= k < |rest| && rest[k] == b;
      SameElements(taken, best);
      forall a | a in taken ensures NoLater(ticket, a, b) {
        var j :| 0 <= j < |best| && best[j] == a;
        assert Leq(ByTicket(ticket)(best[j]), ByTicket(ticket)(rest[k]));
      }
    }
  }

  lemma SampleTakes(rows: seq<SampleRow>, names: seq<nat>, quotas: seq<nat>, ticket: int -> int, sample: seq<SampleRow>, b: SampleRow)
    requires Distinct(names) && |quotas| == |names| && b.stratum in names
    requires sample == SortBy(Picked(Drawn(rows, names, ByTicket(ticket)), quotas), ByTicket(ticket))
    ensures multiset(sample)[b] <= multiset(rows)[b]
    ensures multiset(sample)[b] < multiset(rows)[b] ==> forall a | a in sample && a.stratum == b.stratum :: NoLater(ticket, a, b)
  {
    var i :| 0 <= i < |names| && names[i] == b.stratum;
    var (stratum, taken) := (Filter(InStratum(names[i]), rows), Filter(InStratum(names[i]), sample));
    SampledStratum(rows, names, quotas, ByTicket(ticket), i);
    StratumTakes(stratum, quotas[i], ticket, taken, b);
    FilterMultiset(InStratum(names[i]), rows, b);
    FilterMultiset(InStratum(names[i]), sample, b);
    forall a | a in sample && a.stratum == b.stratum ensures a in taken {
      FilterMultiset(InStratum(names[i]), sample, a);
      assert a in multiset(sample);
    }
  }

  lemma QuotaSampled(rows: seq<SampleRow>, names: seq<nat>, quotas: seq<nat>, key: SampleRow -> Key, i: nat)
    requires Distinct(names) && |quotas| == |names| && i < |names| && quotas[i] <= StratumSize(rows, names[i])
    ensures StratumSize(SortBy(Picked(Drawn(rows, names, key), quotas), key), names[i]) == quotas[i]
  {
    var sample := SortBy(Picked(Drawn(rows, names, key), quotas), key);
    SampledStratum(rows, names, quotas, key, i);
    StratumSizeCounts(rows, names[i]);
    StratumSizeCounts(sample, names[i]);
    SameElements(Filter(InStratum(names[i]), sample), Best(Filter(InStratum(names[i]), rows), quotas[i], key));
  }

  lemma OnlyNamed(rows: seq<SampleRow>, names: seq<nat>, quotas: seq<nat>, key: SampleRow -> Key, b: SampleRow)
    requires Distinct(names) && |quotas| == |names| && b.stratum !in names
    ensures b !in SortBy(Picked(Drawn(rows, names, key), quotas), key)
  {
    var picked := Picked(Drawn(rows, names, key), quotas);
    DrawnHolds(rows, names, key);
    PickedElsewhere(Drawn(rows, names, key), quotas, names, b.stratum);
    FilterMultiset(InStratum(b.stratum), picked, b);
    SameElements(SortBy(picked, key), picked);
  }

  /** What the sample is, without saying how it is drawn. It holds rows of the store, none more often than
      the store does, as many of each stratum as its quota; a row left out has no earlier ticket than a
      row of its stratum taken; and the rows taken ascend by ticket. */
  ghost predicate BottomTickets(rows: seq<SampleRow>, names: seq<nat>, quotas: seq<nat>, ticket: int -> int, sample: seq<SampleRow>)
    requires |quotas| == |names|
  {
    && (forall b :: multiset(sample)[b] <= multiset(rows)[b])
    && (forall i | 0 <= i < |names| :: StratumSize(sample, names[i]) == quotas[i])
    && (forall a, b | a in sample && b in rows && a.stratum == b.stratum && multiset(sample)[b] < multiset(rows)[b] :: NoLater(ticket, a, b))
    && (forall i, j | 0 <= i < j < |sample| :: NoLater(ticket, sample[i], sample[j]))
  }

  function StratumSizes(rows: seq<SampleRow>, names: seq<nat>): (sizes: seq<nat>)
    ensures |sizes| == |names| && forall i | 0 <= i < |names| :: sizes[i] == StratumSize(rows, names[i])
  {
    seq(|names|, i requires 0 <= i < |names| => StratumSize(rows, names[i]))
  }

  lemma SampleIsBottomTickets(rows: seq<SampleRow>, names: seq<nat>, max: nat, ticket: int -> int)
    requires NamesOf(rows, names)
    ensures BottomTickets(rows, names, Quotas(StratumSizes(rows, names), Min(max, |rows|)), ticket, Sample(rows, names, max, ticket))
  {
    var sizes := StratumSizes(rows, names);
    forall i | 0 <= i < |names| ensures sizes[i] == SizesOf(rows, names)[i] {
      StratumSizeCounts(rows, names[i]);
    }
    assert sizes == SizesOf(rows, names);
    var quotas := Quotas(sizes, Min(max, |rows|));
    DrawnIsBottomTickets(rows, names, sizes, Min(max, |rows|), quotas, ticket);
  }

  lemma QuotaWithin(sizes: seq<nat>, max: nat, i: nat)
    requires i < |sizes|
    ensures Quotas(sizes, max)[i] <= sizes[i]
  {
    if Sum(sizes) > 0 && max > 0 {
      QuotaBounds(sizes, max, i);
    }
  }

  lemma DrawnIsBottomTickets(rows: seq<SampleRow>, names: seq<nat>, sizes: seq<nat>, max: nat, quotas: seq<nat>, ticket: int -> int)
    requires NamesOf(rows, names) && sizes == StratumSizes(rows, names) && quotas == Quotas(sizes, max)
    ensures BottomTickets(rows, names, quotas, ticket, SortBy(Picked(Drawn(rows, names, ByTicket(ticket)), quotas), ByTicket(ticket)))
  {
    var sample := SortBy(Picked(Drawn(rows, names, ByTicket(ticket)), quotas), ByTicket(ticket));
    forall b ensures multiset(sample)[b] <= multiset(rows)[b] {
      if b.stratum in names {
        SampleTakes(rows, names, quotas, ticket, sample, b);
      } else {
        OnlyNamed(rows, names, quotas, ByTicket(ticket), b);
      }
    }
    forall i | 0 <= i < |names| ensures StratumSize(sample, names[i]) == quotas[i] {
      QuotaWithin(sizes, max, i);
      QuotaSampled(rows, names, quotas, ByTicket(ticket), i);
    }
    forall a, b | a in sample && b in rows && a.stratum == b.stratum && multiset(sample)[b] < multiset(rows)[b] ensures NoLater(ticket, a, b) {
      SampleTakes(rows, names, quotas, ticket, sample, b);
    }
    SortBySorted(Picked(Drawn(rows, names, ByTicket(ticket)), quotas), ByTicket(ticket));
    forall i, j | 0 <= i < j < |sample| ensures NoLater(ticket, sample[i], sample[j]) {
      assert Leq(ByTicket(ticket)(sample[i]), ByTicket(ticket)(sample[j]));
    }
  }

  /** The strata present, as the sampler's ordered map holds them. */
  method FindStrata(rows: seq<SampleRow>) returns (names: seq<nat>)
    ensures NamesOf(rows, names)
  {
    names := [];
    for k := 0 to |rows|
      invariant NamesOf(rows[..k], names)
    {
      names := AddStratum(rows[..k], names, rows[k]);
      assert rows[..k + 1] == rows[..k] + [rows[k]];
    }
    assert rows[..|rows|] == rows;
  }

  method AddStratum(ghost rows: seq<SampleRow>, names: seq<nat>, r: SampleRow) returns (names': seq<nat>)
    requires NamesOf(rows, names)
    ensures NamesOf(rows + [r], names')
  {
    var i := 0;
    while i < |names| && names[i] < r.stratum
      invariant i <= |names| && forall k | 0 <= k < i :: names[k] < r.stratum
    {
      i := i + 1;
    }
    names' := names;
    if i == |names| || names[i] != r.stratum {
      names' := names[..i] + [r.stratum] + names[i..];
      assert forall n | n in names' :: n in names || n == r.stratum;
      assert forall n | n in names :: n in names[..i] || n in names[i..];
    }
    forall n | n in names' ensures exists x :: x in rows + [r] && x.stratum == n {
      if n in names {
        var x :| x in rows && x.stratum == n;
        assert x in rows + [r];
      } else {
        assert r in rows + [r];
      }
    }
  }

  /** Bottom-k by ticket in every stratum, emitted in ticket order. */
  method StratifiedSample(rows: seq<SampleRow>, max: nat, ticket: int -> int) returns (sample: seq<SampleRow>, names: seq<nat>)
    ensures NamesOf(rows, names) && sample == Sample(rows, names, max, ticket)
    ensures BottomTickets(rows, names, Quotas(StratumSizes(rows, names), Min(max, |rows|)), ticket, sample)
  {
    names := FindStrata(rows);
    var quotas := Allocate(SizesOf(rows, names), Min(max, |rows|));
    var picked := PickTickets(Drawn(rows, names, ByTicket(ticket)), quotas);
    sample := SortBy(picked, ByTicket(ticket));
    SampleIsBottomTickets(rows, names, max, ticket);
  }

  method PickTickets(drawn: seq<seq<SampleRow>>, quotas: seq<nat>) returns (picked: seq<SampleRow>)
    requires |drawn| == |quotas|
    ensures picked == Picked(drawn, quotas)
  {
    picked := [];
    for n := 0 to |drawn|
      invariant picked == Picked(drawn[..n], quotas[..n])
    {
      assert drawn[..n + 1][..n] == drawn[..n] && quotas[..n + 1][..n] == quotas[..n];
      picked := picked + Take(drawn[n], quotas[n]);
    }
    assert drawn[..|drawn|] == drawn && quotas[..|quotas|] == quotas;
  }
}
