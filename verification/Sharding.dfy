/** Layout and shard invariance: an answer is a function of the rows, never of which part, shard or
    scan position held them. */
module Sharding {
  import opened Ordering
  import opened Lists
  import opened TopK
  import opened Scan
  import opened Rerank

  /** What a row is, apart from where it is stored. */
  datatype Content = Content(dist: real, id: int, score: real)

  function ContentOf(score: Scorer): Candidate -> Content {
    (c: Candidate) => Content(c.dist, c.id, score(c))
  }

  function ByNearness(x: Content): Key {
    Key(x.dist, x.id)
  }

  function HitOfContent(x: Content): Hit {
    Hit(x.score, x.id)
  }

  /** How many candidates a ranked query may rerank. */
  function Cutoff(q: Query): nat {
    if q.maxVectors.None? then q.rerank else Min(q.maxVectors.value, q.rerank)
  }

  // --- the coordinator ---

  /** Round one on every shard. A refused shard refuses the query. */
  function CollectShards(q: Query, lim: Limits, shards: seq<seq<Candidate>>): Option<seq<seq<Candidate>>> {
    if shards == [] then Some([])
    else
      var front := CollectShards(q, lim, shards[..|shards| - 1]);
      var last := Collected(q, lim, shards[|shards| - 1]);
      if front.None? || last.None? then None else Some(front.value + [last.value])
  }

  /** Merge the shards' candidates by distance, bound once globally, score, finalize. */
  function ClusterAnswer(q: Query, lim: Limits, shards: seq<seq<Candidate>>, score: Scorer, tombstones: set<int>): Option<seq<Hit>> {
    var lists := CollectShards(q, lim, shards);
    if lists.None? then None
    else Some(Finalize(q, tombstones, Map(HitOf(score), Bound(q, SortBy(Concat(lists.value), ByDistance)))))
  }

  /** The coordinator: gather, sort, truncate, then let each owning shard score its own rows. */
  method CoordinateCrossShard(q: Query, lim: Limits, shards: seq<seq<Candidate>>, score: Scorer, tombstones: set<int>)
    returns (r: Option<seq<Hit>>)
    ensures r == ClusterAnswer(q, lim, shards, score, tombstones)
  {
    var global: seq<Candidate> := [];
    ghost var lists: seq<seq<Candidate>> := [];
    for i := 0 to |shards|
      invariant CollectShards(q, lim, shards[..i]) == Some(lists) && global == Concat(lists)
    {
      assert shards[..i + 1][..i] == shards[..i];
      var cs := Collected(q, lim, shards[i]);
      if cs.None? {
        RefusedShard(q, lim, shards, i + 1);
        return None;
      }
      ConcatAppend(lists, cs.value);
      lists := lists + [cs.value];
      global := global + cs.value;
    }
    assert shards[..|shards|] == shards;
    global := SortBy(global, ByDistance);
    var bounded := Bound(q, global);
    var scored := RerankScores(bounded, score);
    FinalizePermutes(q, tombstones, scored, Map(HitOf(score), bounded));
    var hits := FinalizeHits(q, tombstones, scored);
    r := Some(hits);
  }

  lemma {:induction false} RefusedShard(q: Query, lim: Limits, shards: seq<seq<Candidate>>, n: nat)
    requires n <= |shards| && CollectShards(q, lim, shards[..n]).None?
    ensures CollectShards(q, lim, shards).None?
    decreases |shards| - n
  {
    if n == |shards| {
      assert shards[..n] == shards;
    } else {
      assert shards[..n + 1][..n] == shards[..n];
      RefusedShard(q, lim, shards, n + 1);
    }
  }

  // --- selections commute with forgetting locations ---

  /** What the heap keeps, seen through contents, is the best `cap` contents. */
  lemma HeapContents(cap: nat, rows: seq<Candidate>, score: Scorer)
    requires Total(Map(ContentOf(score), rows), ByNearness)
    ensures Map(ContentOf(score), SortBy(OfferAll(cap, rows), ByDistance)) == Best(Map(ContentOf(score), rows), cap, ByNearness)
  {
    var f := ContentOf(score);
    var h := OfferAll(cap, rows);
    var dropped := OfferAllSelects(cap, rows);
    SortByMap(f, h, ByDistance, ByNearness);
    MapSum(f, rows, h, dropped);
    SortBySorted(Map(f, h), ByNearness);
    var r := SortBy(Map(f, h), ByNearness);
    AllLeqMap(score, h, dropped);
    AllLeqPermutesLeft(Map(f, h), r, Map(f, dropped));
    BestCharacterised(Map(f, rows), r, Map(f, dropped), cap, ByNearness);
  }

  lemma AllLeqMap(score: Scorer, a: seq<Candidate>, b: seq<Candidate>)
    requires AllLeq(a, b, ByDistance)
    ensures AllLeq(Map(ContentOf(score), a), Map(ContentOf(score), b), ByNearness)
  {
    var f := ContentOf(score);
    forall i, j | 0 <= i < |a| && 0 <= j < |b| ensures Leq(ByNearness(Map(f, a)[i]), ByNearness(Map(f, b)[j])) {
      assert Leq(ByDistance(a[i]), ByDistance(b[j]));
    }
  }

  lemma AllLeqPermutesLeft(a: seq<Content>, b: seq<Content>, r: seq<Content>)
    requires AllLeq(a, r, ByNearness) && multiset(a) == multiset(b)
    ensures AllLeq(b, r, ByNearness)
  {
    SameElements(a, b);
    forall i, j | 0 <= i < |b| && 0 <= j < |r| ensures Leq(ByNearness(b[i]), ByNearness(r[j])) {
      assert b[i] in b;
      var k :| 0 <= k < |a| && a[k] == b[i];
    }
  }

  lemma BoundIsTake(q: Query, cs: seq<Candidate>)
    requires q.threshold.None?
    ensures Bound(q, cs) == Take(cs, Cutoff(q))
  {
  }

  lemma HitsFromContents(score: Scorer, cs: seq<Candidate>, n: nat)
    ensures Map(HitOf(score), Take(cs, n)) == Map(HitOfContent, Take(Map(ContentOf(score), cs), n))
  {
  }

  /** The answer a ranked query must give, from contents alone. */
  function RankedAnswer(q: Query, rows: seq<Content>, tombstones: set<int>): seq<Hit> {
    Finalize(q, tombstones, Map(HitOfContent, Take(Best(rows, q.candidates, ByNearness), Cutoff(q))))
  }

  /** A single store's ranked answer depends only on what its rows are. */
  lemma RankedFromContents(q: Query, lim: Limits, rows: seq<Candidate>, score: Scorer, tombstones: set<int>)
    requires q.threshold.None?
    requires Total(Map(ContentOf(score), rows), ByNearness)
    ensures Answer(q, lim, rows, score, tombstones) == Some(RankedAnswer(q, Map(ContentOf(score), rows), tombstones))
  {
    var cs := SortBy(OfferAll(q.candidates, rows), ByDistance);
    HeapContents(q.candidates, rows, score);
    BoundIsTake(q, cs);
    HitsFromContents(score, cs, Cutoff(q));
  }

  /** Layout invariance: regrouping rows into other parts, in another order, under other scores
      functions that agree on content, cannot change a ranked answer. */
  lemma LayoutInvariance(q: Query, lim: Limits, rows: seq<Candidate>, score: Scorer,
                         rows': seq<Candidate>, score': Scorer, tombstones: set<int>)
    requires q.threshold.None?
    requires multiset(Map(ContentOf(score), rows)) == multiset(Map(ContentOf(score'), rows'))
    requires Total(Map(ContentOf(score), rows), ByNearness)
    ensures Answer(q, lim, rows, score, tombstones) == Answer(q, lim, rows', score', tombstones)
  {
    var (a, b) := (Map(ContentOf(score), rows), Map(ContentOf(score'), rows'));
    TotalPermutes(a, b, ByNearness);
    RankedFromContents(q, lim, rows, score, tombstones);
    RankedFromContents(q, lim, rows', score', tombstones);
    BestPermutes(a, b, q.candidates, ByNearness);
  }

  // --- shards ---

  /** Each shard's own best `c`, one after another. */
  function PerShardBest(shards: seq<seq<Content>>, c: nat): (r: seq<Content>) {
    if shards == [] then []
    else PerShardBest(shards[..|shards| - 1], c) + Best(shards[|shards| - 1], c, ByNearness)
  }

  /** Each shard keeping its own best `c` loses nothing from the global best `w`, for `w <= c`. */
  lemma {:induction false} ShardsLoseNothing(shards: seq<seq<Content>>, c: nat, w: nat)
    requires w <= c && Total(Concat(shards), ByNearness)
    ensures Best(PerShardBest(shards, c), w, ByNearness) == Best(Concat(shards), w, ByNearness)
  {
    if shards != [] {
      var n := |shards| - 1;
      var (front, last) := (Concat(shards[..n]), shards[n]);
      var (fb, lb) := (PerShardBest(shards[..n], c), Best(last, c, ByNearness));
      TotalPrefix(front, last);
      ShardsLoseNothing(shards[..n], c, w);
      PerShardBestSubset(shards[..n], c);
      BestSubset(last, c);
      calc {
        Best(fb + lb, w, ByNearness);
        { BestOfBest(fb, lb, w, w, ByNearness); }
        Best(Best(fb, w, ByNearness) + lb, w, ByNearness);
        Best(Best(front, w, ByNearness) + lb, w, ByNearness);
        { BestOfBest(front, lb, w, w, ByNearness); }
        Best(front + lb, w, ByNearness);
        { TotalSub(front + last, front + lb); BestPermutes(front + lb, lb + front, w, ByNearness); }
        Best(lb + front, w, ByNearness);
        { BestOfBest(last, front, w, c, ByNearness); }
        Best(last + front, w, ByNearness);
        { TotalSub(front + last, last + front); BestPermutes(last + front, front + last, w, ByNearness); }
        Best(front + last, w, ByNearness);
      }
    }
  }

  lemma TotalSub(a: seq<Content>, b: seq<Content>)
    requires Total(a, ByNearness)
    requires forall x | x in b :: x in a
    ensures Total(b, ByNearness)
  {
    forall i, j | 0 <= i < |b| && 0 <= j < |b| && ByNearness(b[i]) == ByNearness(b[j]) ensures b[i] == b[j] {
      assert b[i] in a && b[j] in a;
    }
  }

  lemma TotalPrefix(a: seq<Content>, b: seq<Content>)
    requires Total(a + b, ByNearness)
    ensures Total(a, ByNearness) && Total(b, ByNearness)
  {
    TotalSub(a + b, a);
    TotalSub(a + b, b);
  }

  lemma BestSubset(s: seq<Content>, c: nat)
    ensures forall x | x in Best(s, c, ByNearness) :: x in s
  {
    SameElements(s, SortBy(s, ByNearness));
  }

  lemma {:induction false} PerShardBestSubset(shards: seq<seq<Content>>, c: nat)
    ensures forall x | x in PerShardBest(shards, c) :: x in Concat(shards)
  {
    if shards != [] {
      PerShardBestSubset(shards[..|shards| - 1], c);
      BestSubset(shards[|shards| - 1], c);
    }
  }

  lemma {:induction false} PerShardBestSize(shards: seq<seq<Content>>, c: nat)
    ensures |PerShardBest(shards, c)| >= Min(c, |Concat(shards)|)
    ensures |Concat(shards)| <= c ==> multiset(PerShardBest(shards, c)) == multiset(Concat(shards))
  {
    if shards != [] {
      PerShardBestSize(shards[..|shards| - 1], c);
    }
  }

  /** At most one shard holds rows. */
  ghost predicate OneHolder(shards: seq<seq<Content>>) {
    forall i, j | 0 <= i < j < |shards| :: shards[i] == [] || shards[j] == []
  }

  lemma {:induction false} SpreadShardsOffer(shards: seq<seq<Content>>, c: nat)
    requires c > 0 && |Concat(shards)| > c && !OneHolder(shards)
    ensures |PerShardBest(shards, c)| > c
  {
    var n := |shards| - 1;
    if shards[n] == [] {
      NotOneHolderFront(shards);
      SpreadShardsOffer(shards[..n], c);
    } else {
      SomeOtherHolder(shards);
      PerShardBestSize(shards[..n], c);
    }
  }

  lemma NotOneHolderFront(shards: seq<seq<Content>>)
    requires !OneHolder(shards) && shards[|shards| - 1] == []
    ensures !OneHolder(shards[..|shards| - 1])
  {
    var front := shards[..|shards| - 1];
    var i, j :| 0 <= i < j < |shards| && shards[i] != [] && shards[j] != [];
    assert front[i] == shards[i] && front[j] == shards[j];
  }

  lemma SomeOtherHolder(shards: seq<seq<Content>>)
    requires !OneHolder(shards)
    ensures Concat(shards[..|shards| - 1]) != []
  {
    var front := shards[..|shards| - 1];
    var i, j :| 0 <= i < j < |shards| && shards[i] != [] && shards[j] != [];
    assert front[i] == shards[i];
    if Concat(front) == [] {
      EmptyConcat(front);
    }
  }

  lemma {:induction false} EmptyConcat(shards: seq<seq<Content>>)
    requires Concat(shards) == []
    ensures forall i | 0 <= i < |shards| :: shards[i] == []
  {
    if shards != [] {
      EmptyConcat(shards[..|shards| - 1]);
      assert forall i | 0 <= i < |shards| - 1 :: shards[i] == shards[..|shards| - 1][i];
    }
  }

  lemma {:induction false} EmptyShardsOfferNothing(shards: seq<seq<Content>>, c: nat)
    requires forall i | 0 <= i < |shards| :: shards[i] == []
    ensures PerShardBest(shards, c) == []
  {
    if shards != [] {
      EmptyShardsOfferNothing(shards[..|shards| - 1], c);
    }
  }

  lemma {:induction false} OneHolderOffersItsBest(shards: seq<seq<Content>>, c: nat)
    requires OneHolder(shards)
    ensures PerShardBest(shards, c) == Best(Concat(shards), c, ByNearness)
  {
    if shards != [] {
      var n := |shards| - 1;
      var front := shards[..n];
      assert OneHolder(front);
      if shards[n] == [] {
        OneHolderOffersItsBest(front, c);
        assert Concat(shards) == Concat(front);
      } else {
        assert forall i | 0 <= i < n :: front[i] == shards[i] == [];
        ConcatEmpty(front);
        assert Concat(shards) == shards[n];
        EmptyShardsOfferNothing(front, c);
      }
    }
  }

  ghost predicate WideEnough(shards: seq<seq<Content>>, c: nat, w: nat) {
    w <= c || c == 0 || |Concat(shards)| <= c || OneHolder(shards)
  }

  lemma NarrowRerank(shards: seq<seq<Content>>, c: nat, w: nat)
    requires Total(Concat(shards), ByNearness) && w <= c
    ensures Best(PerShardBest(shards, c), w, ByNearness) == Take(Best(Concat(shards), c, ByNearness), w)
  {
    ShardsLoseNothing(shards, c, w);
  }

  lemma OneHolderRerank(shards: seq<seq<Content>>, c: nat, w: nat)
    requires OneHolder(shards)
    ensures Best(PerShardBest(shards, c), w, ByNearness) == Take(Best(Concat(shards), c, ByNearness), w)
  {
    OneHolderOffersItsBest(shards, c);
    BestSorted(Concat(shards), c, ByNearness);
    SortByFixpoint(PerShardBest(shards, c), ByNearness);
  }

  lemma SmallRerank(shards: seq<seq<Content>>, c: nat, w: nat)
    requires Total(Concat(shards), ByNearness) && |Concat(shards)| <= c
    ensures Best(PerShardBest(shards, c), w, ByNearness) == Take(Best(Concat(shards), c, ByNearness), w)
  {
    PerShardBestSize(shards, c);
    BestPermutes(Concat(shards), PerShardBest(shards, c), w, ByNearness);
  }

  lemma RerankSetsAgree(shards: seq<seq<Content>>, c: nat, w: nat)
    requires Total(Concat(shards), ByNearness) && WideEnough(shards, c, w)
    ensures Best(PerShardBest(shards, c), w, ByNearness) == Take(Best(Concat(shards), c, ByNearness), w)
  {
    if w <= c {
      NarrowRerank(shards, c, w);
    } else if OneHolder(shards) {
      OneHolderRerank(shards, c, w);
    } else if c == 0 {
      NoCandidates(shards);
    } else {
      SmallRerank(shards, c, w);
    }
  }

  /** The rerank set a cluster chooses equals a single store's exactly when the rerank width is at
      most the candidate width, or the rows fit the candidate width, or one shard holds them all.
      Otherwise the coordinator reranks candidates a single store would have dropped. */
  lemma RerankSetsAgreeExactly(shards: seq<seq<Content>>, c: nat, w: nat)
    requires Total(Concat(shards), ByNearness)
    ensures Best(PerShardBest(shards, c), w, ByNearness) == Take(Best(Concat(shards), c, ByNearness), w)
       <==> WideEnough(shards, c, w)
  {
    if WideEnough(shards, c, w) {
      RerankSetsAgree(shards, c, w);
    } else {
      SpreadShardsOffer(shards, c);
      assert |Best(PerShardBest(shards, c), w, ByNearness)| > c;
      assert |Take(Best(Concat(shards), c, ByNearness), w)| <= c;
    }
  }

  lemma {:induction false} NoCandidates(shards: seq<seq<Content>>)
    ensures PerShardBest(shards, 0) == []
  {
    if shards != [] {
      NoCandidates(shards[..|shards| - 1]);
    }
  }

  function ShardContents(score: Scorer, shards: seq<seq<Candidate>>): (r: seq<seq<Content>>)
    ensures |r| == |shards|
  {
    if shards == [] then []
    else ShardContents(score, shards[..|shards| - 1]) + [Map(ContentOf(score), shards[|shards| - 1])]
  }

  lemma {:induction false} ContentsOfConcat(score: Scorer, shards: seq<seq<Candidate>>)
    ensures Map(ContentOf(score), Concat(shards)) == Concat(ShardContents(score, shards))
  {
    if shards != [] {
      var n := |shards| - 1;
      ContentsOfConcat(score, shards[..n]);
      MapAppend(ContentOf(score), Concat(shards[..n]), shards[n]);
      ConcatAppend(ShardContents(score, shards[..n]), Map(ContentOf(score), shards[n]));
    }
  }

  lemma {:induction false} ClusterContents(q: Query, lim: Limits, shards: seq<seq<Candidate>>, score: Scorer)
    requires q.threshold.None? && Total(Concat(ShardContents(score, shards)), ByNearness)
    ensures CollectShards(q, lim, shards).Some?
    ensures Map(ContentOf(score), Concat(CollectShards(q, lim, shards).value)) == PerShardBest(ShardContents(score, shards), q.candidates)
  {
    if shards != [] {
      var n := |shards| - 1;
      var f := ContentOf(score);
      ConcatAppend(ShardContents(score, shards[..n]), Map(f, shards[n]));
      TotalPrefix(Concat(ShardContents(score, shards[..n])), Map(f, shards[n]));
      ClusterContents(q, lim, shards[..n], score);
      HeapContents(q.candidates, shards[n], score);
      var lists := CollectShards(q, lim, shards[..n]).value;
      var last := SortBy(OfferAll(q.candidates, shards[n]), ByDistance);
      ConcatAppend(lists, last);
      MapAppend(f, Concat(lists), last);
      assert ShardContents(score, shards)[..n] == ShardContents(score, shards[..n]);
    }
  }

  lemma ClusterFromContents(q: Query, lim: Limits, shards: seq<seq<Candidate>>, score: Scorer, tombstones: set<int>)
    requires q.threshold.None? && Total(Concat(ShardContents(score, shards)), ByNearness)
    ensures ClusterAnswer(q, lim, shards, score, tombstones)
         == Some(Finalize(q, tombstones, Map(HitOfContent, Best(PerShardBest(ShardContents(score, shards), q.candidates), Cutoff(q), ByNearness))))
  {
    ClusterContents(q, lim, shards, score);
    var offered := Concat(CollectShards(q, lim, shards).value);
    SortByMap(ContentOf(score), offered, ByDistance, ByNearness);
    BoundIsTake(q, SortBy(offered, ByDistance));
    HitsFromContents(score, SortBy(offered, ByDistance), Cutoff(q));
  }

  /** Shard invariance for ranked queries: any split of the rows over any number of shards, in any
      layout, answers as one store does. */
  lemma ShardInvariance(q: Query, lim: Limits, shards: seq<seq<Candidate>>, score: Scorer,
                        rows: seq<Candidate>, score': Scorer, tombstones: set<int>)
    requires q.threshold.None?
    requires multiset(Map(ContentOf(score), Concat(shards))) == multiset(Map(ContentOf(score'), rows))
    requires Total(Map(ContentOf(score'), rows), ByNearness)
    requires Cutoff(q) <= q.candidates || |rows| <= q.candidates || OneHolder(ShardContents(score, shards))
    ensures ClusterAnswer(q, lim, shards, score, tombstones) == Answer(q, lim, rows, score', tombstones)
  {
    var (all, one) := (Map(ContentOf(score), Concat(shards)), Map(ContentOf(score'), rows));
    SameElements(all, one);
    TotalPermutes(one, all, ByNearness);
    ContentsOfConcat(score, shards);
    ClusterFromContents(q, lim, shards, score, tombstones);
    RerankSetsAgreeExactly(ShardContents(score, shards), q.candidates, Cutoff(q));
    RankedFromContents(q, lim, rows, score', tombstones);
    BestPermutes(all, one, q.candidates, ByNearness);
  }

  lemma RankedSize(q: Query, hits: seq<Hit>)
    requires q.threshold.None?
    ensures |Finalize(q, {}, hits)| == Min(|hits|, q.k)
  {
    var sorted := SortBy(hits, ByScore);
    FilterFull(Clears(q.threshold), sorted);
    FilterFull(Live({}), Take(sorted, q.k));
    SameElements(sorted, hits);
  }

  lemma ClusterSize(q: Query, lim: Limits, shards: seq<seq<Candidate>>, score: Scorer)
    requires q.threshold.None? && Total(Concat(ShardContents(score, shards)), ByNearness)
    requires !WideEnough(ShardContents(score, shards), q.candidates, Cutoff(q))
    ensures ClusterAnswer(q, lim, shards, score, {}).Some?
    ensures |ClusterAnswer(q, lim, shards, score, {}).value| > Min(q.candidates, q.k) || q.k <= q.candidates
  {
    var offered := PerShardBest(ShardContents(score, shards), q.candidates);
    ClusterFromContents(q, lim, shards, score, {});
    SpreadShardsOffer(ShardContents(score, shards), q.candidates);
    RankedSize(q, Map(HitOfContent, Best(offered, Cutoff(q), ByNearness)));
  }

  lemma StoreSize(q: Query, lim: Limits, rows: seq<Candidate>, score: Scorer)
    requires q.threshold.None? && Total(Map(ContentOf(score), rows), ByNearness)
    ensures Answer(q, lim, rows, score, {}).Some?
    ensures |Answer(q, lim, rows, score, {}).value| == Min(Min(Min(|rows|, q.candidates), Cutoff(q)), q.k)
  {
    RankedFromContents(q, lim, rows, score, {});
    RankedSize(q, Map(HitOfContent, Take(Best(Map(ContentOf(score), rows), q.candidates, ByNearness), Cutoff(q))));
  }

  /** When a client asks for more rows than the candidate width and nothing is deleted, the answers
      themselves agree exactly when the rerank sets do. */
  lemma ShardAnswersAgreeExactly(q: Query, lim: Limits, shards: seq<seq<Candidate>>, score: Scorer)
    requires q.threshold.None? && q.k > q.candidates
    requires Total(Map(ContentOf(score), Concat(shards)), ByNearness)
    ensures ClusterAnswer(q, lim, shards, score, {}) == Answer(q, lim, Concat(shards), score, {})
       <==> WideEnough(ShardContents(score, shards), q.candidates, Cutoff(q))
  {
    ContentsOfConcat(score, shards);
    if WideEnough(ShardContents(score, shards), q.candidates, Cutoff(q)) {
      RerankSetsAgree(ShardContents(score, shards), q.candidates, Cutoff(q));
      ClusterFromContents(q, lim, shards, score, {});
      RankedFromContents(q, lim, Concat(shards), score, {});
    } else {
      ClusterSize(q, lim, shards, score);
      StoreSize(q, lim, Concat(shards), score);
    }
  }

  lemma TwoHolders(a: Candidate, b: Candidate, score: Scorer)
    ensures Concat([[a], [b]]) == [a, b]
    ensures !OneHolder(ShardContents(score, [[a], [b]]))
  {
    ConcatAppend([[a]], [b]);
    ConcatAppend([], [a]);
    assert [] + [[a]] == [[a]] && [[a]] + [[b]] == [[a], [b]];
    var f := ContentOf(score);
    assert [[a], [b]][..1] == [[a]] && [[a]][..0] == [];
    assert ShardContents(score, [[a]]) == [Map(f, [a])];
    var contents := ShardContents(score, [[a], [b]]);
    assert contents == [Map(f, [a]), Map(f, [b])];
    assert contents[0] != [] && contents[1] != [];
  }

  /** Two shards of one row each, one candidate kept and two reranked: the cluster returns both rows and
      one store returns one. */
  lemma SpreadRowsAnswerMore(lim: Limits, score: Scorer)
    ensures var (a, b, q) := (Candidate(0.0, 1, 0, 0), Candidate(1.0, 2, 0, 0), Query(2, 1, 2, None, None));
            && ClusterAnswer(q, lim, [[a], [b]], score, {}).Some? && |ClusterAnswer(q, lim, [[a], [b]], score, {}).value| >= 2
            && Answer(q, lim, [a, b], score, {}).Some? && |Answer(q, lim, [a, b], score, {}).value| == 1
  {
    var (a, b, q) := (Candidate(0.0, 1, 0, 0), Candidate(1.0, 2, 0, 0), Query(2, 1, 2, None, None));
    TwoHolders(a, b, score);
    ContentsOfConcat(score, [[a], [b]]);
    assert Map(ContentOf(score), [a, b]) == [Content(0.0, 1, score(a)), Content(1.0, 2, score(b))];
    ClusterSize(q, lim, [[a], [b]], score);
    StoreSize(q, lim, [a, b], score);
  }

  // --- threshold queries across shards ---

  ghost predicate SomeShardOverfull(q: Query, lim: Limits, shards: seq<seq<Candidate>>)
    requires q.threshold.Some?
  {
    exists i | 0 <= i < |shards| :: Overfull(q, lim, shards[i])
  }

  lemma {:induction false} ClusterRefusal(q: Query, lim: Limits, shards: seq<seq<Candidate>>)
    requires q.threshold.Some?
    ensures CollectShards(q, lim, shards).None? <==> SomeShardOverfull(q, lim, shards)
  {
    if shards != [] {
      var n := |shards| - 1;
      ClusterRefusal(q, lim, shards[..n]);
      OverfullSplit(q, lim, shards);
    }
  }

  lemma OverfullSplit(q: Query, lim: Limits, shards: seq<seq<Candidate>>)
    requires q.threshold.Some? && shards != []
    ensures SomeShardOverfull(q, lim, shards)
       <==> SomeShardOverfull(q, lim, shards[..|shards| - 1]) || Overfull(q, lim, shards[|shards| - 1])
  {
    assert forall i | 0 <= i < |shards| - 1 :: shards[i] == shards[..|shards| - 1][i];
  }

  lemma WithinAppend(a: seq<Candidate>, b: seq<Candidate>, bound: real)
    ensures Within(a + b, bound) == Within(a, bound) + Within(b, bound)
  {
    FilterAppend(Near(bound), a, b);
  }

  lemma {:induction false} ShardOverflowIsGlobal(q: Query, lim: Limits, shards: seq<seq<Candidate>>, i: nat)
    requires q.threshold.Some? && i < |shards| && Overfull(q, lim, shards[i])
    ensures Overfull(q, lim, Concat(shards))
  {
    var n := |shards| - 1;
    WithinAppend(Concat(shards[..n]), shards[n], RelaxedBound(q, lim));
    if i < n {
      ShardOverflowIsGlobal(q, lim, shards[..n], i);
    }
  }

  lemma {:induction false} ClusterNear(q: Query, lim: Limits, shards: seq<seq<Candidate>>)
    requires q.threshold.Some? && CollectShards(q, lim, shards).Some?
    ensures multiset(Concat(CollectShards(q, lim, shards).value))
         == multiset(Within(Concat(shards), RelaxedBound(q, lim)))
  {
    if shards != [] {
      var n := |shards| - 1;
      ClusterNear(q, lim, shards[..n]);
      WithinAppend(Concat(shards[..n]), shards[n], RelaxedBound(q, lim));
      ConcatAppend(CollectShards(q, lim, shards[..n]).value, Collected(q, lim, shards[n]).value);
    }
  }

  /** When one store's budget holds every qualifying row, so does every shard's, and the sorted
      candidate lists coincide. */
  lemma SameNearRows(q: Query, lim: Limits, shards: seq<seq<Candidate>>)
    requires q.threshold.Some? && Total(Concat(shards), ByDistance) && !Overfull(q, lim, Concat(shards))
    ensures CollectShards(q, lim, shards).Some?
    ensures Collected(q, lim, Concat(shards)) == Some(SortBy(Concat(CollectShards(q, lim, shards).value), ByDistance))
  {
    ClusterRefusal(q, lim, shards);
    if SomeShardOverfull(q, lim, shards) {
      var i :| 0 <= i < |shards| && Overfull(q, lim, shards[i]);
      ShardOverflowIsGlobal(q, lim, shards, i);
    }
    ClusterNear(q, lim, shards);
    var relaxed := RelaxedBound(q, lim);
    var near := Within(Concat(shards), relaxed);
    TotalFilter(Near(relaxed), Concat(shards), ByDistance);
    SortByPermutes(near, Concat(CollectShards(q, lim, shards).value), ByDistance);
  }

  /** Across shards the state budget is per shard. The cluster and one store agree exactly unless
      the qualifying rows overflow one store's budget but no single shard's. */
  lemma ThresholdAcrossShards(q: Query, lim: Limits, shards: seq<seq<Candidate>>, score: Scorer, tombstones: set<int>)
    requires q.threshold.Some? && Total(Concat(shards), ByDistance)
    ensures ClusterAnswer(q, lim, shards, score, tombstones) == Answer(q, lim, Concat(shards), score, tombstones)
       <==> (Overfull(q, lim, Concat(shards)) ==> SomeShardOverfull(q, lim, shards))
  {
    ThresholdRefusal(q, lim, Concat(shards), score, tombstones);
    ClusterRefusal(q, lim, shards);
    if !Overfull(q, lim, Concat(shards)) {
      SameNearRows(q, lim, shards);
    }
  }

  lemma RowsNear(bound: real, cs: seq<Candidate>)
    requires forall i | 0 <= i < |cs| :: cs[i].dist <= bound
    ensures |Within(cs, bound)| == |cs|
  {
    FilterFull(Near(bound), cs);
  }

  /** One near row on each of two shards and room for one: the cluster answers and one store refuses. */
  lemma SpreadRowsEscapeTheBudget(a: Candidate, b: Candidate, q: Query, lim: Limits, score: Scorer)
    requires q.threshold.Some? && lim.stateBudget == 1 && a.dist <= RelaxedBound(q, lim) && b.dist <= RelaxedBound(q, lim)
    ensures ClusterAnswer(q, lim, [[a], [b]], score, {}).Some? && Answer(q, lim, [a, b], score, {}).None?
  {
    var bound := RelaxedBound(q, lim);
    RowsNear(bound, [a, b]);
    RowsNear(bound, [a]);
    RowsNear(bound, [b]);
    var shards := [[a], [b]];
    assert forall i | 0 <= i < |shards| :: shards[i] == [a] || shards[i] == [b];
    ClusterRefusal(q, lim, shards);
  }
}
