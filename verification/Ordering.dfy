/** Stable sorting by a two-part key, and the bounded selection built on it.

  Every ordered choice in the engine is "a primary number, ties broken on an identity": a distance
  and an event id, a score and an event id, a hash ticket and an event id, a row count and a
  partition. Identities are only ever compared, so they are integers here. */
module Ordering {

  datatype Key = Key(major: real, minor: int)

  predicate Less(a: Key, b: Key) {
    a.major < b.major || (a.major == b.major && a.minor < b.minor)
  }

  predicate Leq(a: Key, b: Key) {
    !Less(b, a)
  }

  ghost predicate Sorted<T>(s: seq<T>, key: T -> Key) {
    forall i, j | 0 <= i < j < |s| :: Leq(key(s[i]), key(s[j]))
  }

  /** Elements that compare equal are equal: the key is a total order on these elements. */
  ghost predicate Total<T>(s: seq<T>, key: T -> Key) {
    forall i, j | 0 <= i < |s| && 0 <= j < |s| && key(s[i]) == key(s[j]) :: s[i] == s[j]
  }

  ghost predicate AllLeq<T>(a: seq<T>, b: seq<T>, key: T -> Key) {
    forall i, j | 0 <= i < |a| && 0 <= j < |b| :: Leq(key(a[i]), key(b[j]))
  }

  ghost predicate Distinct<T>(s: seq<T>) {
    forall i, j | 0 <= i < j < |s| :: s[i] != s[j]
  }

  function Min(a: nat, b: nat): nat {
    if a < b then a else b
  }

  function Take<T>(s: seq<T>, n: nat): (r: seq<T>)
    ensures |r| == Min(n, |s|)
  {
    if n < |s| then s[..n] else s
  }

  /** Inserts after every element that does not compare greater, so equal keys keep arrival order. */
  function Insert<T>(s: seq<T>, x: T, key: T -> Key): (r: seq<T>)
    ensures multiset(r) == multiset(s) + multiset{x}
    ensures |r| == |s| + 1
  {
    if s == [] then [x]
    else if Less(key(x), key(s[0])) then [x] + s
    else
      assert s == [s[0]] + s[1..];
      [s[0]] + Insert(s[1..], x, key)
  }

  function SortBy<T>(s: seq<T>, key: T -> Key): (r: seq<T>)
    ensures multiset(r) == multiset(s)
    ensures |r| == |s|
  {
    if s == [] then []
    else
      var n := |s| - 1;
      assert s == s[..n] + [s[n]];
      Insert(SortBy(s[..n], key), s[n], key)
  }

  /** The `c` first elements of `s` in key order. */
  function Best<T>(s: seq<T>, c: nat, key: T -> Key): (r: seq<T>)
    ensures |r| == Min(c, |s|)
  {
    Take(SortBy(s, key), c)
  }

  lemma {:induction false} InsertSorted<T>(s: seq<T>, x: T, key: T -> Key)
    requires Sorted(s, key)
    ensures Sorted(Insert(s, x, key), key)
  {
    if s != [] && !Less(key(x), key(s[0])) {
      InsertSorted(s[1..], x, key);
      var t := Insert(s[1..], x, key);
      forall j | 0 <= j < |t| ensures Leq(key(s[0]), key(t[j])) {
        assert t[j] in multiset(t);
        assert t[j] == x || t[j] in s[1..];
      }
    }
  }

  lemma {:induction false} SortBySorted<T>(s: seq<T>, key: T -> Key)
    ensures Sorted(SortBy(s, key), key)
  {
    if s != [] {
      var n := |s| - 1;
      SortBySorted(s[..n], key);
      InsertSorted(SortBy(s[..n], key), s[n], key);
    }
  }

  lemma SameElements<T>(a: seq<T>, b: seq<T>)
    requires multiset(a) == multiset(b)
    ensures |a| == |b|
    ensures forall x :: x in a <==> x in b
  {
    assert |multiset(a)| == |a| && |multiset(b)| == |b|;
    forall x ensures x in a <==> x in b {
      assert x in a <==> x in multiset(a);
    }
  }

  lemma TotalPermutes<T>(a: seq<T>, b: seq<T>, key: T -> Key)
    requires multiset(a) == multiset(b) && Total(a, key)
    ensures Total(b, key)
  {
    SameElements(a, b);
    forall i, j | 0 <= i < |b| && 0 <= j < |b| && key(b[i]) == key(b[j]) ensures b[i] == b[j] {
      assert b[i] in a && b[j] in a;
    }
  }

  /** A total order leaves no freedom: two sorted arrangements of one multiset are one sequence. */
  lemma {:induction false} SortedUnique<T>(a: seq<T>, b: seq<T>, key: T -> Key)
    requires Sorted(a, key) && Sorted(b, key)
    requires multiset(a) == multiset(b)
    requires Total(a, key)
    ensures a == b
  {
    if a == [] {
      SameElements(a, b);
    } else {
      FirstAgrees(a, b, key);
      Tail(a, key);
      Tail(b, key);
      SortedUnique(a[1..], b[1..], key);
    }
  }

  lemma Tail<T>(a: seq<T>, key: T -> Key)
    requires a != []
    ensures Sorted(a, key) ==> Sorted(a[1..], key)
    ensures Total(a, key) ==> Total(a[1..], key)
    ensures multiset(a[1..]) == multiset(a) - multiset{a[0]}
    ensures a == [a[0]] + a[1..]
  {
    assert a == [a[0]] + a[1..];
  }

  lemma FirstAgrees<T>(a: seq<T>, b: seq<T>, key: T -> Key)
    requires Sorted(a, key) && Sorted(b, key)
    requires multiset(a) == multiset(b) && a != []
    requires Total(a, key)
    ensures b != [] && a[0] == b[0]
  {
    SameElements(a, b);
    assert a[0] in b && b[0] in a;
    var i :| 0 <= i < |b| && b[i] == a[0];
    var j :| 0 <= j < |a| && a[j] == b[0];
    assert Leq(key(a[0]), key(a[j])) && Leq(key(b[0]), key(b[i]));
    assert key(a[0]) == key(a[j]);
  }

  /** Sorting by a total order depends only on the multiset of elements, never on arrival order. */
  lemma SortByPermutes<T>(a: seq<T>, b: seq<T>, key: T -> Key)
    requires multiset(a) == multiset(b) && Total(a, key)
    ensures SortBy(a, key) == SortBy(b, key)
  {
    SortBySorted(a, key);
    SortBySorted(b, key);
    TotalPermutes(a, SortBy(a, key), key);
    SortedUnique(SortBy(a, key), SortBy(b, key), key);
  }

  lemma {:induction false} InsertAtEnd<T>(s: seq<T>, x: T, key: T -> Key)
    requires forall i | 0 <= i < |s| :: Leq(key(s[i]), key(x))
    ensures Insert(s, x, key) == s + [x]
  {
    if s != [] {
      InsertAtEnd(s[1..], x, key);
    }
  }

  lemma {:induction false} SortByFixpoint<T>(s: seq<T>, key: T -> Key)
    requires Sorted(s, key)
    ensures SortBy(s, key) == s
  {
    if s != [] {
      var n := |s| - 1;
      SortByFixpoint(s[..n], key);
      InsertAtEnd(s[..n], s[n], key);
    }
  }

  lemma SortByAppend<T>(s: seq<T>, x: T, key: T -> Key)
    ensures SortBy(s + [x], key) == Insert(SortBy(s, key), x, key)
  {
    assert (s + [x])[..|s|] == s;
  }

  /** Truncating before or after an insertion keeps the same first `c`. */
  lemma {:induction false} InsertTake<T>(s: seq<T>, x: T, c: nat, key: T -> Key)
    ensures Take(Insert(Take(s, c), x, key), c) == Take(Insert(s, x, key), c)
  {
    if s == [] || c == 0 {
    } else if Less(key(x), key(s[0])) {
      InsertFirst(s, x, c, key);
    } else {
      InsertTake(s[1..], x, c - 1, key);
      InsertLater(s, x, c, key);
    }
  }

  lemma InsertFirst<T>(s: seq<T>, x: T, c: nat, key: T -> Key)
    requires s != [] && c > 0 && Less(key(x), key(s[0]))
    ensures Take(Insert(Take(s, c), x, key), c) == Take(Insert(s, x, key), c)
  {
    TakeCons(x, s, c);
    TakeCons(x, Take(s, c), c);
    TakeTake(s, c - 1, c);
  }

  lemma InsertLater<T>(s: seq<T>, x: T, c: nat, key: T -> Key)
    requires s != [] && c > 0 && !Less(key(x), key(s[0]))
    requires Take(Insert(Take(s[1..], c - 1), x, key), c - 1) == Take(Insert(s[1..], x, key), c - 1)
    ensures Take(Insert(Take(s, c), x, key), c) == Take(Insert(s, x, key), c)
  {
    TakeUncons(s, c);
    TakeCons(s[0], Insert(Take(s[1..], c - 1), x, key), c);
    TakeCons(s[0], Insert(s[1..], x, key), c);
  }

  lemma TakeUncons<T>(s: seq<T>, c: nat)
    requires s != [] && c > 0
    ensures Take(s, c) != [] && Take(s, c)[0] == s[0] && Take(s, c)[1..] == Take(s[1..], c - 1)
  {
  }

  lemma TakeCons<T>(x: T, s: seq<T>, c: nat)
    requires c > 0
    ensures Take([x] + s, c) == [x] + Take(s, c - 1)
  {
  }

  /** One more element needs only the current selection, not what was already dropped. */
  lemma BestAppend<T>(s: seq<T>, x: T, c: nat, key: T -> Key)
    ensures Best(s + [x], c, key) == Take(Insert(Best(s, c, key), x, key), c)
  {
    SortByAppend(s, x, key);
    InsertTake(SortBy(s, key), x, c, key);
  }

  lemma BestSorted<T>(s: seq<T>, c: nat, key: T -> Key)
    ensures Sorted(Best(s, c, key), key)
  {
    SortBySorted(s, key);
  }

  lemma TakeTake<T>(s: seq<T>, c: nat, d: nat)
    requires c <= d
    ensures Take(Take(s, d), c) == Take(s, c)
  {
  }

  lemma BestOfSelection<T>(a: seq<T>, c: nat, d: nat, key: T -> Key)
    requires c <= d
    ensures Best(Best(a, d, key), c, key) == Best(a, c, key)
  {
    BestSorted(a, d, key);
    SortByFixpoint(Best(a, d, key), key);
    TakeTake(SortBy(a, key), c, d);
  }

  lemma BestStep<T>(p: seq<T>, q: seq<T>, x: T, c: nat, key: T -> Key)
    requires Best(p, c, key) == Best(q, c, key)
    ensures Best(p + [x], c, key) == Best(q + [x], c, key)
  {
    BestAppend(p, x, c, key);
    BestAppend(q, x, c, key);
  }

  /** Selecting early, with at least the final width, changes nothing. */
  lemma {:induction false} BestOfBest<T>(a: seq<T>, b: seq<T>, c: nat, d: nat, key: T -> Key)
    requires c <= d
    ensures Best(Best(a, d, key) + b, c, key) == Best(a + b, c, key)
    decreases |b|
  {
    if |b| == 0 {
      assert a + b == a && Best(a, d, key) + b == Best(a, d, key);
      BestOfSelection(a, c, d, key);
    } else {
      var (b', x) := (b[..|b| - 1], b[|b| - 1]);
      SplitLast(a, b);
      SplitLast(Best(a, d, key), b);
      BestOfBest(a, b', c, d, key);
      BestStep(Best(a, d, key) + b', a + b', x, c, key);
    }
  }

  lemma SplitLast<T>(a: seq<T>, b: seq<T>)
    requires b != []
    ensures a + b == (a + b[..|b| - 1]) + [b[|b| - 1]]
  {
  }

  lemma BestPermutes<T>(a: seq<T>, b: seq<T>, c: nat, key: T -> Key)
    requires multiset(a) == multiset(b) && Total(a, key)
    ensures Best(a, c, key) == Best(b, c, key)
  {
    SortByPermutes(a, b, key);
  }

  lemma AllLeqPermutes<T>(r: seq<T>, a: seq<T>, b: seq<T>, key: T -> Key)
    requires AllLeq(r, a, key) && multiset(a) == multiset(b)
    ensures AllLeq(r, b, key)
  {
    SameElements(a, b);
    forall i, j | 0 <= i < |r| && 0 <= j < |b| ensures Leq(key(r[i]), key(b[j])) {
      assert b[j] in b;
      var k :| 0 <= k < |a| && a[k] == b[j];
    }
  }

  /** What makes a sequence the best `c`: it is sorted, has the right length, and nothing left out
      comes before anything kept. Independent of how the selection was computed. */
  lemma BestCharacterised<T>(s: seq<T>, r: seq<T>, rest: seq<T>, c: nat, key: T -> Key)
    requires multiset(s) == multiset(r) + multiset(rest)
    requires Total(s, key)
    requires Sorted(r, key) && AllLeq(r, rest, key)
    requires |r| == Min(c, |s|)
    ensures r == Best(s, c, key)
  {
    var t := SortBy(rest, key);
    SortBySorted(rest, key);
    AllLeqPermutes(r, rest, t, key);
    assert multiset(r + t) == multiset(s);
    SortBySorted(s, key);
    TotalPermutes(s, r + t, key);
    SortedUnique(r + t, SortBy(s, key), key);
    assert |r + t| == |s| by { SameElements(r + t, s); }
  }

  lemma DistinctCounts<T>(s: seq<T>, t: seq<T>)
    requires multiset(s) == multiset(t) && Distinct(s)
    ensures Distinct(t)
  {
    forall i, j | 0 <= i < j < |t| ensures t[i] != t[j] {
      if t[i] == t[j] {
        assert t == t[..i] + [t[i]] + t[i + 1..j] + [t[j]] + t[j + 1..];
        assert multiset(t)[t[i]] >= 2;
        OnceAtMost(s, t[i]);
      }
    }
  }

  lemma {:induction false} OnceAtMost<T>(s: seq<T>, x: T)
    requires Distinct(s)
    ensures multiset(s)[x] <= 1
  {
    if s != [] {
      var n := |s| - 1;
      OnceAtMost(s[..n], x);
      assert s == s[..n] + [s[n]];
      if s[n] == x {
        assert x !in s[..n];
      }
    }
  }
}
