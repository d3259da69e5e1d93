/** The bounded nearest-`cap` selection: an explicit binary max-heap on "worse". */
module TopK {
  import opened Ordering

  /** `id` is the event id the source looks up from `(part, row)` for the tie-break. */
  datatype Candidate = Candidate(dist: real, id: int, part: nat, row: nat)

  function ByDistance(c: Candidate): Key {
    Key(c.dist, c.id)
  }

  predicate Worse(a: Candidate, b: Candidate) {
    Less(ByDistance(b), ByDistance(a))
  }

  function Parent(i: nat): (p: nat)
    requires i > 0
    ensures p < i && (i == 2 * p + 1 || i == 2 * p + 2)
  {
    (i - 1) / 2
  }

  function Swap(h: seq<Candidate>, i: nat, j: nat): (r: seq<Candidate>)
    requires i < |h| && j < |h|
    ensures |r| == |h| && multiset(r) == multiset(h)
  {
    h[i := h[j]][j := h[i]]
  }

  function SiftUp(h: seq<Candidate>, i: nat): (r: seq<Candidate>)
    requires i < |h|
    ensures |r| == |h| && multiset(r) == multiset(h)
    decreases i
  {
    if i > 0 && Worse(h[i], h[Parent(i)]) then SiftUp(Swap(h, i, Parent(i)), Parent(i)) else h
  }

  /** The worst of a node and its two children. */
  function WorstChild(h: seq<Candidate>, i: nat): (w: nat)
    requires i < |h|
    ensures i <= w < |h|
  {
    var l, r := 2 * i + 1, 2 * i + 2;
    var w := if l < |h| && Worse(h[l], h[i]) then l else i;
    if r < |h| && Worse(h[r], h[w]) then r else w
  }

  function SiftDown(h: seq<Candidate>, i: nat): (r: seq<Candidate>)
    requires i < |h|
    ensures |r| == |h| && multiset(r) == multiset(h)
    decreases |h| - i
  {
    var w := WorstChild(h, i);
    if w == i then h else SiftDown(Swap(h, i, w), w)
  }

  function OfferTo(h: seq<Candidate>, cap: nat, c: Candidate): (r: seq<Candidate>)
  {
    if |h| < cap then SiftUp(h + [c], |h|)
    else if h != [] && Worse(h[0], c) then SiftDown(h[0 := c], 0)
    else h
  }

  function OfferAll(cap: nat, rows: seq<Candidate>): (r: seq<Candidate>) {
    if rows == [] then []
    else OfferTo(OfferAll(cap, rows[..|rows| - 1]), cap, rows[|rows| - 1])
  }

  predicate WouldAdmit(h: seq<Candidate>, cap: nat, dist: real) {
    |h| < cap || h == [] || dist <= h[0].dist
  }

  class Heap {
    const cap: nat
    var heap: seq<Candidate>

    constructor (cap: nat)
      ensures this.cap == cap && heap == []
    {
      this.cap := cap;
      heap := [];
    }

    method Offer(c: Candidate)
      modifies this
      ensures heap == OfferTo(old(heap), cap, c)
    {
      if |heap| < cap {
        heap := heap + [c];
        SiftUpFrom(|heap| - 1);
      } else if heap != [] && Worse(heap[0], c) {
        heap := heap[0 := c];
        SiftDownFrom(0);
      }
    }

    method SiftUpFrom(start: nat)
      requires start < |heap|
      modifies this
      ensures heap == SiftUp(old(heap), start)
    {
      var i: nat := start;
      while i > 0
        invariant i < |heap|
        invariant SiftUp(heap, i) == SiftUp(old(heap), start)
      {
        var parent := Parent(i);
        if !Worse(heap[i], heap[parent]) {
          break;
        }
        heap := Swap(heap, i, parent);
        i := parent;
      }
    }

    method SiftDownFrom(start: nat)
      requires start < |heap|
      modifies this
      ensures heap == SiftDown(old(heap), start)
    {
      var i: nat := start;
      while true
        invariant i < |heap|
        invariant SiftDown(heap, i) == SiftDown(old(heap), start)
        decreases |heap| - i
      {
        var l, r, worst := 2 * i + 1, 2 * i + 2, i;
        if l < |heap| && Worse(heap[l], heap[worst]) {
          worst := l;
        }
        if r < |heap| && Worse(heap[r], heap[worst]) {
          worst := r;
        }
        if worst == i {
          break;
        }
        heap := Swap(heap, i, worst);
        i := worst;
      }
    }
  }

  // --- the heap order, and what one offer keeps ---

  predicate InOrder(h: seq<Candidate>, j: nat)
    requires 0 < j < |h|
  {
    !Worse(h[j], h[Parent(j)])
  }

  ghost predicate HeapOrdered(h: seq<Candidate>) {
    forall j | 0 < j < |h| :: InOrder(h, j)
  }

  /** Ordered everywhere except between `i` and its parent. */
  ghost predicate OrderedButUp(h: seq<Candidate>, i: nat) {
    && (forall j | 0 < j < |h| && j != i :: InOrder(h, j))
    && (forall j | 0 < j < |h| && Parent(j) == i && i > 0 :: !Worse(h[j], h[Parent(i)]))
  }

  /** Ordered everywhere except between `i` and its children. */
  ghost predicate OrderedButDown(h: seq<Candidate>, i: nat) {
    && (forall j | 0 < j < |h| && Parent(j) != i :: InOrder(h, j))
    && (forall j | 0 < j < |h| && Parent(j) == i && i > 0 :: !Worse(h[j], h[Parent(i)]))
  }

  lemma {:induction false} SiftUpOrders(h: seq<Candidate>, i: nat)
    requires i < |h| && OrderedButUp(h, i)
    ensures HeapOrdered(SiftUp(h, i))
    decreases i
  {
    if i > 0 && Worse(h[i], h[Parent(i)]) {
      var p := Parent(i);
      var g := Swap(h, i, p);
      forall j | 0 < j < |g| && j != p ensures InOrder(g, j) {
        assert j != i ==> InOrder(h, j);
      }
      forall j | 0 < j < |g| && Parent(j) == p && p > 0 ensures !Worse(g[j], g[Parent(p)]) {
        assert InOrder(h, p);
        assert j != i ==> InOrder(h, j);
      }
      SiftUpOrders(g, p);
    }
  }

  lemma WorstChildIsWorst(h: seq<Candidate>, i: nat, j: nat)
    requires i < |h| && 0 < j < |h| && Parent(j) == i
    ensures !Worse(h[j], h[WorstChild(h, i)])
    ensures WorstChild(h, i) != i ==> Worse(h[WorstChild(h, i)], h[i]) && Parent(WorstChild(h, i)) == i
  {
  }

  lemma SwappedDown(h: seq<Candidate>, i: nat)
    requires i < |h| && OrderedButDown(h, i) && WorstChild(h, i) != i
    ensures OrderedButDown(Swap(h, i, WorstChild(h, i)), WorstChild(h, i))
  {
    var w := WorstChild(h, i);
    var g := Swap(h, i, w);
    WorstChildIsWorst(h, i, w);
    forall j | 0 < j < |g| && Parent(j) != w ensures InOrder(g, j) {
      if Parent(j) == i {
        WorstChildIsWorst(h, i, j);
      } else {
        assert InOrder(h, j);
      }
    }
    forall j | 0 < j < |g| && Parent(j) == w && w > 0 ensures !Worse(g[j], g[Parent(w)]) {
      assert InOrder(h, j);
    }
  }

  lemma {:induction false} SiftDownOrders(h: seq<Candidate>, i: nat)
    requires i < |h| && OrderedButDown(h, i)
    ensures HeapOrdered(SiftDown(h, i))
    decreases |h| - i
  {
    var w := WorstChild(h, i);
    if w == i {
      forall j | 0 < j < |h| ensures InOrder(h, j) {
        if Parent(j) == i {
          WorstChildIsWorst(h, i, j);
        }
      }
    } else {
      SwappedDown(h, i);
      SiftDownOrders(Swap(h, i, w), w);
    }
  }

  lemma {:induction false} RootIsWorst(h: seq<Candidate>, i: nat)
    requires HeapOrdered(h) && i < |h|
    ensures !Worse(h[i], h[0])
  {
    if i > 0 {
      RootIsWorst(h, Parent(i));
      assert InOrder(h, i);
    }
  }

  lemma OfferOrders(h: seq<Candidate>, cap: nat, c: Candidate)
    requires HeapOrdered(h)
    ensures HeapOrdered(OfferTo(h, cap, c))
  {
    if |h| < cap {
      var g := h + [c];
      forall j | 0 < j < |g| && j != |h| ensures InOrder(g, j) {
        assert InOrder(h, j);
      }
      SiftUpOrders(g, |h|);
    } else if h != [] && Worse(h[0], c) {
      var g := h[0 := c];
      forall j | 0 < j < |g| && Parent(j) != 0 ensures InOrder(g, j) {
        assert InOrder(h, j);
      }
      SiftDownOrders(g, 0);
    }
  }

  /** `h` is a nearest-`cap` selection of `rows`, with `dropped` the rest. Ties on the whole
      `(dist, id)` key may fall either way, so this holds for duplicate ids too. */
  ghost predicate Selects(h: seq<Candidate>, cap: nat, rows: seq<Candidate>, dropped: seq<Candidate>) {
    && multiset(rows) == multiset(h) + multiset(dropped)
    && |h| == Min(cap, |rows|)
    && AllLeq(h, dropped, ByDistance)
  }

  /** Everything a max-heap holds is at least as near as its root. */
  lemma HeapBelowRoot(h: seq<Candidate>, x: Candidate)
    requires HeapOrdered(h) && x in h
    ensures Leq(ByDistance(x), ByDistance(h[0]))
  {
    var k :| 0 <= k < |h| && h[k] == x;
    RootIsWorst(h, k);
  }

  lemma AllLeqAppend(h: seq<Candidate>, dropped: seq<Candidate>, x: Candidate)
    requires AllLeq(h, dropped, ByDistance)
    requires forall i | 0 <= i < |h| :: Leq(ByDistance(h[i]), ByDistance(x))
    ensures AllLeq(h, dropped + [x], ByDistance)
  {
  }

  lemma ReplacingKeepsNearest(h: seq<Candidate>, c: Candidate, dropped: seq<Candidate>)
    requires h != [] && HeapOrdered(h) && Worse(h[0], c)
    requires AllLeq(h, dropped, ByDistance)
    ensures AllLeq(SiftDown(h[0 := c], 0), dropped + [h[0]], ByDistance)
  {
    var g := SiftDown(h[0 := c], 0);
    ReplacedRoot(h, c);
    forall i | 0 <= i < |g|
      ensures Leq(ByDistance(g[i]), ByDistance(h[0]))
      ensures forall j | 0 <= j < |dropped| :: Leq(ByDistance(g[i]), ByDistance(dropped[j]))
    {
      assert g[i] in multiset(g);
      if g[i] != c {
        HeapBelowRoot(h, g[i]);
      }
    }
  }

  lemma OfferSelects(h: seq<Candidate>, cap: nat, c: Candidate, rows: seq<Candidate>, dropped: seq<Candidate>)
    returns (rest: seq<Candidate>)
    requires HeapOrdered(h) && Selects(h, cap, rows, dropped)
    ensures Selects(OfferTo(h, cap, c), cap, rows + [c], rest)
  {
    assert |rows| == |h| + |dropped| by {
      assert |multiset(rows)| == |rows|;
    }
    if |h| < cap {
      assert dropped == [];
      rest := [];
    } else if h != [] && Worse(h[0], c) {
      rest := dropped + [h[0]];
      ReplacedRoot(h, c);
      ReplacingKeepsNearest(h, c, dropped);
    } else {
      rest := dropped + [c];
      forall i | 0 <= i < |h| ensures Leq(ByDistance(h[i]), ByDistance(c)) {
        RootIsWorst(h, i);
      }
      AllLeqAppend(h, dropped, c);
    }
  }

  lemma ReplacedRoot(h: seq<Candidate>, c: Candidate)
    requires h != []
    ensures multiset(h[0 := c]) + multiset{h[0]} == multiset(h) + multiset{c}
    ensures forall x | x in multiset(h[0 := c]) :: x == c || x in h
  {
    assert h == [h[0]] + h[1..];
    assert h[0 := c] == [c] + h[1..];
  }

  lemma {:induction false} OfferAllSelects(cap: nat, rows: seq<Candidate>) returns (dropped: seq<Candidate>)
    ensures HeapOrdered(OfferAll(cap, rows))
    ensures Selects(OfferAll(cap, rows), cap, rows, dropped)
  {
    if rows == [] {
      dropped := [];
    } else {
      var n := |rows| - 1;
      dropped := OfferAllSelects(cap, rows[..n]);
      OfferOrders(OfferAll(cap, rows[..n]), cap, rows[n]);
      dropped := OfferSelects(OfferAll(cap, rows[..n]), cap, rows[n], rows[..n], dropped);
      assert rows == rows[..n] + [rows[n]];
    }
  }

  /** Offering every row, in any order, and sorting what the heap kept gives exactly the first
      `cap` rows under `(dist, event_id)`. */
  lemma OfferAllIsBest(cap: nat, rows: seq<Candidate>)
    requires Total(rows, ByDistance)
    ensures SortBy(OfferAll(cap, rows), ByDistance) == Best(rows, cap, ByDistance)
  {
    var dropped := OfferAllSelects(cap, rows);
    var h := OfferAll(cap, rows);
    var s := SortBy(h, ByDistance);
    SortBySorted(h, ByDistance);
    SameElements(h, s);
    assert AllLeq(s, dropped, ByDistance) by {
      forall i, j | 0 <= i < |s| && 0 <= j < |dropped| ensures Leq(ByDistance(s[i]), ByDistance(dropped[j])) {
        assert s[i] in h;
      }
    }
    BestCharacterised(rows, s, dropped, cap, ByDistance);
  }

  /** A distance the pre-check refuses cannot change the heap: not even which ties it keeps. */
  lemma RefusedIsInert(h: seq<Candidate>, cap: nat, c: Candidate)
    requires !WouldAdmit(h, cap, c.dist)
    ensures OfferTo(h, cap, c) == h
  {
  }
}
