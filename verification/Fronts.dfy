/** The first few of a collection under a two-part key, by counting: what is kept has few elements before it,
    and what has few elements up to it is kept. Elements that tie at the edge are the only freedom left. */
module Fronts {
  import opened Ordering
  import opened Lists

  function Before<T>(key: T -> Key, x: T): T -> bool {
    (y: T) => Less(key(y), key(x))
  }

  function UpTo<T>(key: T -> Key, x: T): T -> bool {
    (y: T) => Leq(key(y), key(x))
  }

  /** `kept` is `w` elements of `all`, or all of them, and none of the rest comes before any of it. */
  ghost predicate Front<T>(kept: seq<T>, rest: seq<T>, all: seq<T>, w: nat, key: T -> Key) {
    && multiset(all) == multiset(kept) + multiset(rest)
    && |kept| == Min(w, |all|)
    && AllLeq(kept, rest, key)
  }

  lemma SplitCounts<T>(p: T -> bool, all: seq<T>, a: seq<T>, b: seq<T>)
    requires multiset(all) == multiset(a) + multiset(b)
    ensures |Filter(p, all)| == |Filter(p, a)| + |Filter(p, b)|
    ensures |all| == |a| + |b|
  {
    assert multiset(a + b) == multiset(all);
    FilterPermutes(p, all, a + b);
    FilterAppend(p, a, b);
    SameElements(Filter(p, all), Filter(p, a + b));
    SameElements(all, a + b);
  }

  lemma CountLast<T>(p: T -> bool, s: seq<T>)
    requires s != []
    ensures |Filter(p, s)| == |Filter(p, s[..|s| - 1])| + if p(s[|s| - 1]) then 1 else 0
  {
  }

  /** Fewer than `w` elements come before a kept one. */
  lemma KeptHasFewBefore<T>(kept: seq<T>, rest: seq<T>, all: seq<T>, w: nat, key: T -> Key, x: T)
    requires Front(kept, rest, all, w, key) && x in kept
    ensures |Filter(Before(key, x), all)| < w
  {
    SplitCounts(Before(key, x), all, kept, rest);
    var i :| 0 <= i < |kept| && kept[i] == x;
    forall j | 0 <= j < |rest| ensures !Before(key, x)(rest[j]) {
      assert Leq(key(kept[i]), key(rest[j]));
    }
    FilterNone(Before(key, x), rest);
    FilterFull(Before(key, x), kept);
    assert !Before(key, x)(kept[i]);
  }

  /** An element left out has more than `w` up to it, itself among them. */
  lemma LeftOutHasManyUpTo<T>(kept: seq<T>, rest: seq<T>, all: seq<T>, w: nat, key: T -> Key, x: T)
    requires Front(kept, rest, all, w, key) && x in all && x !in kept
    ensures |Filter(UpTo(key, x), all)| > w
  {
    SplitCounts(UpTo(key, x), all, kept, rest);
    assert x in multiset(all) && x in multiset(rest);
    var k :| 0 <= k < |rest| && rest[k] == x;
    forall i | 0 <= i < |kept| ensures UpTo(key, x)(kept[i]) {
      assert Leq(key(kept[i]), key(rest[k]));
    }
    FilterFull(UpTo(key, x), kept);
    FilterNone(UpTo(key, x), rest);
    assert UpTo(key, x)(rest[k]);
  }

  /** An element left out has all of what is kept before it, where the key tells elements apart. */
  lemma LeftOutHasManyBefore<T>(kept: seq<T>, rest: seq<T>, all: seq<T>, w: nat, key: T -> Key, x: T)
    requires Front(kept, rest, all, w, key) && Total(all, key) && x in all && x !in kept
    ensures |Filter(Before(key, x), all)| >= w
  {
    SplitCounts(Before(key, x), all, kept, rest);
    assert x in multiset(all) && x in multiset(rest);
    var k :| 0 <= k < |rest| && rest[k] == x;
    var n :| 0 <= n < |all| && all[n] == x;
    forall i | 0 <= i < |kept| ensures Before(key, x)(kept[i]) {
      assert Leq(key(kept[i]), key(rest[k]));
      assert kept[i] in multiset(all);
      var m :| 0 <= m < |all| && all[m] == kept[i];
      assert key(all[m]) != key(all[n]);
    }
    FilterFull(Before(key, x), kept);
  }

  lemma WholeFront<T>(all: seq<T>, key: T -> Key)
    ensures Front(all, [], all, |all|, key)
  {
  }

  lemma FrontPermutes<T>(a: seq<T>, b: seq<T>, rest: seq<T>, all: seq<T>, w: nat, key: T -> Key)
    requires Front(a, rest, all, w, key) && multiset(a) == multiset(b)
    ensures Front(b, rest, all, w, key)
  {
    SameElements(a, b);
    forall i, j | 0 <= i < |b| && 0 <= j < |rest| ensures Leq(key(b[i]), key(rest[j])) {
      assert b[i] in a;
    }
  }

  /** Cutting a sorted front makes a shorter front. */
  lemma CutFront<T>(kept: seq<T>, rest: seq<T>, all: seq<T>, w: nat, v: nat, key: T -> Key) returns (rest': seq<T>)
    requires Front(kept, rest, all, w, key) && Sorted(kept, key)
    ensures Front(Take(kept, v), rest', all, Min(w, v), key) && Sorted(Take(kept, v), key)
  {
    var cut := Take(kept, v);
    rest' := kept[|cut|..] + rest;
    assert kept == cut + kept[|cut|..];
    SplitCounts(x => true, all, kept, rest);
    forall i, j | 0 <= i < |cut| && 0 <= j < |rest'| ensures Leq(key(cut[i]), key(rest'[j])) {
      if j < |kept| - |cut| {
        assert rest'[j] == kept[|cut| + j];
      } else {
        assert rest'[j] == rest[j - (|kept| - |cut|)] && cut[i] == kept[i];
      }
    }
  }
}
