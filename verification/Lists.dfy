/** Maps and filters over sequences, and how they meet multisets and sorting. */
module Lists {
  import opened Ordering

  datatype Option<+T> = None | Some(value: T)

  function Map<S, T>(f: S -> T, s: seq<S>): (r: seq<T>)
    ensures |r| == |s|
    ensures forall i | 0 <= i < |s| :: r[i] == f(s[i])
  {
    seq(|s|, i requires 0 <= i < |s| => f(s[i]))
  }

  function Filter<T>(p: T -> bool, s: seq<T>): (r: seq<T>)
    ensures |r| <= |s|
    ensures forall x | x in r :: x in s && p(x)
  {
    if s == [] then []
    else
      var front := Filter(p, s[..|s| - 1]);
      if p(s[|s| - 1]) then front + [s[|s| - 1]] else front
  }

  function Concat<T>(ss: seq<seq<T>>): (r: seq<T>) {
    if ss == [] then [] else Concat(ss[..|ss| - 1]) + ss[|ss| - 1]
  }

  lemma Joined<T>(a: seq<T>, b: seq<T>, c: seq<T>)
    ensures a + b + c == a + (b + c)
  {
  }

  function Sum(s: seq<nat>): nat {
    if s == [] then 0 else Sum(s[..|s| - 1]) + s[|s| - 1]
  }

  lemma {:induction false} SumUpdate(s: seq<nat>, i: nat, x: nat)
    requires i < |s|
    ensures Sum(s[i := x]) + s[i] == Sum(s) + x
  {
    var n := |s| - 1;
    if i < n {
      assert s[i := x][..n] == s[..n][i := x];
      SumUpdate(s[..n], i, x);
    } else {
      assert s[i := x][..n] == s[..n];
    }
  }

  lemma {:induction false} MapAppend<S, T>(f: S -> T, a: seq<S>, b: seq<S>)
    ensures Map(f, a + b) == Map(f, a) + Map(f, b)
  {
  }

  lemma {:induction false} MapRemove<S, T>(f: S -> T, s: seq<S>, i: nat)
    requires i < |s|
    ensures multiset(Map(f, s)) == multiset(Map(f, s[..i] + s[i + 1..])) + multiset{f(s[i])}
    ensures multiset(s) == multiset(s[..i] + s[i + 1..]) + multiset{s[i]}
  {
    var (a, b) := (s[..i], s[i + 1..]);
    assert s == a + [s[i]] + b;
    assert Map(f, s) == Map(f, a) + [f(s[i])] + Map(f, b);
    MapAppend(f, a, b);
  }

  /** Mapping depends on the multiset only. */
  lemma {:induction false} MapPermutes<S, T>(f: S -> T, a: seq<S>, b: seq<S>)
    requires multiset(a) == multiset(b)
    ensures multiset(Map(f, a)) == multiset(Map(f, b))
    decreases |a|
  {
    if a == [] {
      SameElements(a, b);
    } else {
      var i := FindIn(a[0], b, a);
      MapRemove(f, a, 0);
      MapRemove(f, b, i);
      var (a', b') := (a[..0] + a[1..], b[..i] + b[i + 1..]);
      assert multiset(a') == multiset(b') by {
        assert multiset(a') == multiset(a) - multiset{a[0]};
        assert multiset(b') == multiset(b) - multiset{a[0]};
      }
      MapPermutes(f, a', b');
    }
  }

  lemma FindIn<S>(x: S, b: seq<S>, a: seq<S>) returns (i: nat)
    requires multiset(a) == multiset(b) && x in a
    ensures i < |b| && b[i] == x
  {
    SameElements(a, b);
    assert x in b;
    i :| 0 <= i < |b| && b[i] == x;
  }

  lemma MapSum<S, T>(f: S -> T, s: seq<S>, a: seq<S>, b: seq<S>)
    requires multiset(s) == multiset(a) + multiset(b)
    ensures multiset(Map(f, s)) == multiset(Map(f, a)) + multiset(Map(f, b))
  {
    assert multiset(s) == multiset(a + b);
    MapPermutes(f, s, a + b);
    MapAppend(f, a, b);
  }

  lemma {:induction false} InsertMap<S, T>(f: S -> T, s: seq<S>, x: S, key: S -> Key, key': T -> Key)
    requires key'(f(x)) == key(x)
    requires forall i | 0 <= i < |s| :: key'(f(s[i])) == key(s[i])
    ensures Map(f, Insert(s, x, key)) == Insert(Map(f, s), f(x), key')
  {
    if s == [] {
    } else if Less(key(x), key(s[0])) {
      assert Map(f, [x] + s) == [f(x)] + Map(f, s);
    } else {
      assert Map(f, s)[1..] == Map(f, s[1..]);
      InsertMap(f, s[1..], x, key, key');
      assert Map(f, [s[0]] + Insert(s[1..], x, key)) == [f(s[0])] + Map(f, Insert(s[1..], x, key));
    }
  }

  /** Sorting commutes with a map that preserves the key. */
  lemma {:induction false} SortByMap<S, T>(f: S -> T, s: seq<S>, key: S -> Key, key': T -> Key)
    requires forall i | 0 <= i < |s| :: key'(f(s[i])) == key(s[i])
    ensures Map(f, SortBy(s, key)) == SortBy(Map(f, s), key')
  {
    if s != [] {
      var n := |s| - 1;
      assert Map(f, s)[..n] == Map(f, s[..n]);
      SortByMap(f, s[..n], key, key');
      var t := SortBy(s[..n], key);
      KeyKeptPermutes(f, s[..n], t, key, key');
      InsertMap(f, t, s[n], key, key');
    }
  }

  lemma KeyKeptPermutes<S, T>(f: S -> T, a: seq<S>, b: seq<S>, key: S -> Key, key': T -> Key)
    requires forall i | 0 <= i < |a| :: key'(f(a[i])) == key(a[i])
    requires multiset(a) == multiset(b)
    ensures forall i | 0 <= i < |b| :: key'(f(b[i])) == key(b[i])
  {
    SameElements(a, b);
    forall i | 0 <= i < |b| ensures key'(f(b[i])) == key(b[i]) {
      assert b[i] in b;
      var j :| 0 <= j < |a| && a[j] == b[i];
    }
  }

  lemma {:induction false} FilterMultiset<T>(p: T -> bool, s: seq<T>, x: T)
    ensures multiset(Filter(p, s))[x] == if p(x) then multiset(s)[x] else 0
  {
    if s != [] {
      assert s == s[..|s| - 1] + [s[|s| - 1]];
      FilterMultiset(p, s[..|s| - 1], x);
    }
  }

  lemma FilterPermutes<T>(p: T -> bool, a: seq<T>, b: seq<T>)
    requires multiset(a) == multiset(b)
    ensures multiset(Filter(p, a)) == multiset(Filter(p, b))
  {
    var (m, n) := (multiset(Filter(p, a)), multiset(Filter(p, b)));
    forall x: T ensures m[x] == n[x] {
      FilterMultiset(p, a, x);
      FilterMultiset(p, b, x);
    }
    assert m == n;
  }

  lemma {:induction false} FilterSorted<T>(p: T -> bool, s: seq<T>, key: T -> Key)
    requires Sorted(s, key)
    ensures Sorted(Filter(p, s), key)
  {
    if s != [] {
      var n := |s| - 1;
      FilterSorted(p, s[..n], key);
      var front := Filter(p, s[..n]);
      forall i | 0 <= i < |front| ensures Leq(key(front[i]), key(s[n])) {
        assert front[i] in front;
        assert front[i] in s[..n];
      }
    }
  }

  /** Filtering a sorted sequence is sorting the filtered one, when the order is total. */
  lemma FilterOfSort<T>(p: T -> bool, s: seq<T>, key: T -> Key)
    requires Total(s, key)
    ensures Filter(p, SortBy(s, key)) == SortBy(Filter(p, s), key)
  {
    SortBySorted(s, key);
    FilterSorted(p, SortBy(s, key), key);
    FilterPermutes(p, s, SortBy(s, key));
    SortBySorted(Filter(p, s), key);
    TotalFilter(p, s, key);
    var (a, b) := (Filter(p, SortBy(s, key)), SortBy(Filter(p, s), key));
    TotalPermutes(Filter(p, s), a, key);
    SortedUnique(a, b, key);
  }

  lemma TotalFilter<T>(p: T -> bool, s: seq<T>, key: T -> Key)
    requires Total(s, key)
    ensures Total(Filter(p, s), key)
  {
    var t := Filter(p, s);
    forall i, j | 0 <= i < |t| && 0 <= j < |t| && key(t[i]) == key(t[j]) ensures t[i] == t[j] {
      assert t[i] in t && t[j] in t;
      assert t[i] in s && t[j] in s;
    }
  }

  lemma {:induction false} FilterAppend<T>(p: T -> bool, a: seq<T>, b: seq<T>)
    ensures Filter(p, a + b) == Filter(p, a) + Filter(p, b)
  {
    if b == [] {
      assert a + b == a;
    } else {
      assert (a + b)[..|a + b| - 1] == a + b[..|b| - 1];
      FilterAppend(p, a, b[..|b| - 1]);
    }
  }

  lemma {:induction false} FilterFull<T>(p: T -> bool, s: seq<T>)
    ensures |Filter(p, s)| == |s| <==> forall i | 0 <= i < |s| :: p(s[i])
    ensures |Filter(p, s)| == |s| ==> Filter(p, s) == s
  {
    if s != [] {
      var n := |s| - 1;
      FilterFull(p, s[..n]);
      assert s == s[..n] + [s[n]];
      assert (forall i | 0 <= i < |s| :: p(s[i])) <==> (forall i | 0 <= i < n :: p(s[..n][i])) && p(s[n]);
    }
  }

  lemma {:induction false} FilterNone<T>(p: T -> bool, s: seq<T>)
    ensures Filter(p, s) == [] <==> forall i | 0 <= i < |s| :: !p(s[i])
  {
    if s != [] {
      var n := |s| - 1;
      FilterNone(p, s[..n]);
      assert (forall i | 0 <= i < |s| :: !p(s[i])) <==> (forall i | 0 <= i < n :: !p(s[..n][i])) && !p(s[n]);
    }
  }

  lemma FilterMapStep<S, T>(p: T -> bool, f: S -> T, s: seq<S>, x: S)
    ensures Filter(p, Map(f, s + [x])) == Filter(p, Map(f, s)) + (if p(f(x)) then [f(x)] else [])
  {
    var t := Map(f, s + [x]);
    assert t[..|t| - 1] == Map(f, s);
  }

  lemma {:induction false} ConcatAppend<T>(a: seq<seq<T>>, b: seq<T>)
    ensures Concat(a + [b]) == Concat(a) + b
  {
    assert (a + [b])[..|a|] == a;
  }

  lemma {:induction false} ConcatEmpty<T>(ss: seq<seq<T>>)
    requires forall i | 0 <= i < |ss| :: ss[i] == []
    ensures Concat(ss) == []
  {
    if ss != [] {
      ConcatEmpty(ss[..|ss| - 1]);
    }
  }

  lemma {:induction false} ConcatUpdate<T>(ss: seq<seq<T>>, p: nat, x: T)
    requires p < |ss|
    ensures multiset(Concat(ss[p := ss[p] + [x]])) == multiset(Concat(ss)) + multiset{x}
  {
    var n := |ss| - 1;
    var tt := ss[p := ss[p] + [x]];
    if p == n {
      assert tt[..n] == ss[..n];
    } else {
      ConcatUpdate(ss[..n], p, x);
      assert tt[..n] == ss[..n][p := ss[..n][p] + [x]];
    }
  }

  lemma {:induction false} ConcatInsert<T>(ss: seq<seq<T>>, i: nat, q: seq<T>)
    requires i <= |ss|
    ensures multiset(Concat(ss[..i] + [q] + ss[i..])) == multiset(Concat(ss)) + multiset(q)
  {
    var tt := ss[..i] + [q] + ss[i..];
    if i == |ss| {
      assert tt[..|tt| - 1] == ss;
    } else {
      var n := |ss| - 1;
      ConcatInsert(ss[..n], i, q);
      assert tt[..|tt| - 1] == ss[..n][..i] + [q] + ss[..n][i..];
    }
  }

  /** A set of numbers has one ascending listing. */
  lemma {:induction false} AscendingUnique(a: seq<nat>, b: seq<nat>)
    requires (forall i, j | 0 <= i < j < |a| :: a[i] < a[j]) && (forall i, j | 0 <= i < j < |b| :: b[i] < b[j])
    requires forall x: nat :: x in a <==> x in b
    ensures a == b
  {
    assert |a| > 0 ==> a[0] in b;
    assert |b| > 0 ==> b[0] in a;
    if a != [] {
      var (m, n) := (|a| - 1, |b| - 1);
      assert a[m] in b && b[n] in a;
      assert a[m] == b[n];
      forall x: nat ensures x in a[..m] <==> x in b[..n] {
        assert x in a[..m] <==> x in a && x != a[m];
        assert x in b[..n] <==> x in b && x != b[n];
      }
      AscendingUnique(a[..m], b[..n]);
      assert a == a[..m] + [a[m]] && b == b[..n] + [b[n]];
    }
  }
}
