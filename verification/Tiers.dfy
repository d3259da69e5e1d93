/** Size tiers: which tier a part belongs to, and where a merged part lands. */
module Tiers {
  import opened Lists

  const BASE_ROWS := 256
  const RATIO := 4
  const FANOUT := 4

  /** The upper row count of tier `t`. */
  function Bound(t: nat): nat {
    if t == 0 then BASE_ROWS else RATIO * Bound(t - 1)
  }

  /** Tier `t` holds the row counts above the bound below it and up to its own. */
  predicate InTier(rows: nat, t: nat) {
    rows <= Bound(t) && (t > 0 ==> Bound(t - 1) < rows)
  }

  lemma {:induction false} BoundsClimb(s: nat, t: nat)
    requires s <= t
    ensures Bound(s) <= Bound(t)
  {
    if s < t {
      BoundsClimb(s, t - 1);
    }
  }

  /** A row count is in one tier only, the least whose bound covers it. */
  lemma TierIsLeast(rows: nat, t: nat, s: nat)
    requires InTier(rows, t)
    ensures rows <= Bound(s) <==> t <= s
    ensures InTier(rows, s) <==> s == t
  {
    if s < t {
      BoundsClimb(s, t - 1);
    } else {
      BoundsClimb(t, s);
      if t < s {
        BoundsClimb(t, s - 1);
      }
    }
  }

  function TierFrom(rows: nat, t: nat): (r: nat)
    requires t > 0 ==> Bound(t - 1) < rows
    ensures InTier(rows, r)
    decreases rows - Bound(t)
  {
    if rows <= Bound(t) then t
    else
      BoundPositive(t);
      TierFrom(rows, t + 1)
  }

  lemma {:induction false} BoundPositive(t: nat)
    ensures Bound(t) > 0
  {
    if t > 0 {
      BoundPositive(t - 1);
    }
  }

  function TierOf(rows: nat): (t: nat)
    ensures InTier(rows, t)
  {
    TierFrom(rows, 0)
  }

  /** The loop the scheduler runs: raise the bound until it covers the part. */
  method FindTier(rows: nat) returns (t: nat)
    ensures t == TierOf(rows) && rows <= Bound(t) && forall s | rows <= Bound(s) :: t <= s
  {
    t := 0;
    var bound := BASE_ROWS;
    while bound < rows
      invariant bound == Bound(t) && bound > 0 && (t > 0 ==> Bound(t - 1) < rows)
    {
      bound := bound * RATIO;
      t := t + 1;
    }
    forall s | rows <= Bound(s) ensures t <= s {
      TierIsLeast(rows, t, s);
    }
    TierIsLeast(rows, TierOf(rows), t);
  }

  function Times(n: nat, x: nat): nat {
    if n == 0 then 0 else Times(n - 1, x) + x
  }

  lemma FanoutTimes(x: nat)
    ensures Times(FANOUT, x) == FANOUT * x
  {
    assert Times(1, x) == Times(0, x) + x;
    assert Times(2, x) == Times(1, x) + x;
    assert Times(3, x) == Times(2, x) + x;
  }

  lemma {:induction false} TimesClimbs(n: nat, x: nat)
    requires n >= FANOUT
    ensures Times(n, x) >= FANOUT * x
  {
    if n == FANOUT {
      FanoutTimes(x);
    } else {
      TimesClimbs(n - 1, x);
    }
  }

  lemma {:induction false} SumBetween(rows: seq<nat>, low: nat, high: nat)
    requires forall r | r in rows :: low <= r <= high
    ensures Times(|rows|, low) <= Sum(rows) <= Times(|rows|, high)
  {
    if rows != [] {
      var n := |rows| - 1;
      assert forall r | r in rows[..n] :: r in rows;
      SumBetween(rows[..n], low, high);
      assert rows[n] in rows;
    }
  }

  /** A merged part climbs exactly one tier if and only if its rows pass this tier's bound and not the
      next one's. */
  lemma ClimbsOneExactly(total: nat, t: nat)
    ensures TierOf(total) == t + 1 <==> Bound(t) < total <= Bound(t + 1)
  {
    TierIsLeast(total, TierOf(total), t + 1);
  }

  /** Above tier 0 a fan-out of parts always climbs, and exactly a fan-out climbs exactly one tier. */
  lemma FanoutClimbs(rows: seq<nat>, t: nat)
    requires t >= 1 && |rows| >= FANOUT && forall r | r in rows :: TierOf(r) == t
    ensures TierOf(Sum(rows)) >= t + 1
    ensures |rows| == FANOUT ==> TierOf(Sum(rows)) == t + 1
  {
    var (low, high) := (Bound(t - 1) + 1, Bound(t));
    SumBetween(rows, low, high);
    TimesClimbs(|rows|, low);
    var total := Sum(rows);
    TierIsLeast(total, TierOf(total), t);
    if |rows| == FANOUT {
      FanoutTimes(high);
      ClimbsOneExactly(total, t);
    }
  }

  /** In tier 0 it need not: the merged part stays there if and only if it still fits, so a fan-out of
      small parts is ripe again as soon as three more arrive. */
  lemma TierZeroStaysExactly(rows: seq<nat>)
    ensures TierOf(Sum(rows)) == 0 <==> Sum(rows) <= BASE_ROWS
  {
    TierIsLeast(Sum(rows), TierOf(Sum(rows)), 0);
  }
}
