/** Mergeable cluster aggregates: why neither the shard cut nor the arrival order shows. */
module Clustering {
  import opened Ordering
  import opened Lists

  /** A row already assigned to its nearest centroid, `dist` away from it. */
  datatype Point = Point(id: int, cluster: nat, dist: real, error: bool)

  datatype Aggregate = Aggregate(count: nat, errors: nat, exemplar: Option<Point>)

  function ByDistance(p: Point): Key {
    Key(p.dist, p.id)
  }

  predicate WorseThan(a: Point, b: Point) {
    Less(ByDistance(b), ByDistance(a))
  }

  function Better(cur: Option<Point>, cand: Point): Option<Point> {
    if cur.Some? && WorseThan(cand, cur.value) then cur else Some(cand)
  }

  /** One row joins its cluster's aggregate. */
  function AddPoint(a: Aggregate, p: Point): Aggregate {
    Aggregate(a.count + 1, a.errors + (if p.error then 1 else 0), Better(a.exemplar, p))
  }

  function Combine(a: Aggregate, b: Aggregate): Aggregate {
    Aggregate(a.count + b.count, a.errors + b.errors, if b.exemplar.Some? then Better(a.exemplar, b.exemplar.value) else a.exemplar)
  }

  const NOTHING := Aggregate(0, 0, None)

  /** The aggregate of some rows, in one pass. */
  function Total(points: seq<Point>): Aggregate {
    if points == [] then NOTHING else AddPoint(Total(points[..|points| - 1]), points[|points| - 1])
  }

  function Errors(points: seq<Point>): nat {
    if points == [] then 0 else Errors(points[..|points| - 1]) + if points[|points| - 1].error then 1 else 0
  }

  /** What the aggregate means: the count, the errors, and the nearest row by (distance, id). */
  lemma {:induction false} TotalMeans(points: seq<Point>)
    ensures Total(points).count == |points| && Total(points).errors == Errors(points)
    ensures Total(points).exemplar.Some? <==> points != []
    ensures points != [] ==>
              var x := Total(points).exemplar.value;
              x in points && forall p | p in points :: x.dist < p.dist || (x.dist == p.dist && x.id <= p.id)
  {
    if points != [] {
      var (front, last) := (points[..|points| - 1], points[|points| - 1]);
      assert points == front + [last];
      TotalMeans(front);
    }
  }

  lemma BetterAssociates(a: Option<Point>, b: Option<Point>, p: Point)
    ensures Better(if b.Some? then Better(a, b.value) else a, p) == Better(a, Better(b, p).value)
  {
  }

  lemma CombineAdds(a: Aggregate, b: Aggregate, p: Point)
    ensures Combine(a, AddPoint(b, p)) == AddPoint(Combine(a, b), p)
  {
    BetterAssociates(a.exemplar, b.exemplar, p);
  }

  lemma TotalAdds(points: seq<Point>, p: Point)
    ensures Total(points + [p]) == AddPoint(Total(points), p)
  {
    assert (points + [p])[..|points|] == points;
  }

  lemma SplitsMore(a: seq<Point>, front: seq<Point>, last: Point)
    requires Total(a + front) == Combine(Total(a), Total(front))
    ensures Total(a + (front + [last])) == Combine(Total(a), Total(front + [last]))
  {
    Joined(a, front, [last]);
    TotalAdds(a + front, last);
    TotalAdds(front, last);
    CombineAdds(Total(a), Total(front), last);
  }

  /** Aggregating in two pieces and combining is aggregating at once. */
  lemma {:induction false} TotalSplits(a: seq<Point>, b: seq<Point>)
    ensures Total(a + b) == Combine(Total(a), Total(b))
    decreases |b|
  {
    if b == [] {
      assert a + b == a;
      assert Total(b) == NOTHING;
    } else {
      var (front, last) := (b[..|b| - 1], b[|b| - 1]);
      assert b == front + [last];
      TotalSplits(a, front);
      SplitsMore(a, front, last);
    }
  }

  // --- shards ---

  /** One shard's partial state: an aggregate per cluster. */
  datatype Partial = Partial(shard: nat, clusters: seq<Aggregate>)

  function InCluster(c: nat): Point -> bool {
    (p: Point) => p.cluster == c
  }

  function ClusterTotal(points: seq<Point>, c: nat): Aggregate {
    Total(Filter(InCluster(c), points))
  }

  lemma ClusterTotalSplits(a: seq<Point>, b: seq<Point>, c: nat)
    ensures ClusterTotal(a + b, c) == Combine(ClusterTotal(a, c), ClusterTotal(b, c))
  {
    FilterAppend(InCluster(c), a, b);
    TotalSplits(Filter(InCluster(c), a), Filter(InCluster(c), b));
  }

  lemma ClusterTotalAdds(points: seq<Point>, p: Point, c: nat)
    ensures ClusterTotal(points + [p], c) == if p.cluster == c then AddPoint(ClusterTotal(points, c), p) else ClusterTotal(points, c)
  {
    assert (points + [p])[..|points|] == points;
    var f := Filter(InCluster(c), points);
    assert (f + [p])[..|f|] == f;
  }

  /** `clusters` is the aggregate of exactly these rows, cluster by cluster. */
  ghost predicate Reduces(points: seq<Point>, clusters: seq<Aggregate>) {
    forall c | 0 <= c < |clusters| :: clusters[c] == ClusterTotal(points, c)
  }

  /** The rows in `k` clusters. */
  ghost predicate Within(points: seq<Point>, k: nat) {
    forall p | p in points :: p.cluster < k
  }

  method ReduceShard(points: seq<Point>, k: nat) returns (clusters: seq<Aggregate>)
    requires Within(points, k)
    ensures |clusters| == k && Reduces(points, clusters)
  {
    clusters := seq(k, i => NOTHING);
    ghost var read: seq<Point> := [];
    for i := 0 to |points|
      invariant |clusters| == k && read == points[..i]
      invariant Reduces(read, clusters)
    {
      assert points[i] in points;
      clusters, read := AddToCluster(clusters, points[i], read);
    }
    assert points[..|points|] == points;
  }

  method AddToCluster(clusters: seq<Aggregate>, p: Point, ghost read: seq<Point>) returns (clusters': seq<Aggregate>, ghost read': seq<Point>)
    requires p.cluster < |clusters| && Reduces(read, clusters)
    ensures |clusters'| == |clusters| && read' == read + [p] && Reduces(read', clusters')
  {
    clusters', read' := clusters[p.cluster := AddPoint(clusters[p.cluster], p)], read + [p];
    forall c | 0 <= c < |clusters'| ensures clusters'[c] == ClusterTotal(read', c) {
      ClusterTotalAdds(read, p, c);
    }
  }

  /** The stream cut into shards of `size` rows, each reduced on its own. */
  ghost predicate Cut(points: seq<Point>, k: nat, size: nat, partials: seq<Partial>)
    requires size > 0
  {
    && forall s | 0 <= s < |partials| ::
         partials[s].shard == s && |partials[s].clusters| == k && Reduces(Chunk(points, size, s), partials[s].clusters)
  }

  function Chunk(points: seq<Point>, size: nat, s: nat): seq<Point>
    requires size > 0
  {
    points[Min(s * size, |points|)..Min(s * size + size, |points|)]
  }

  method ShardAndReduce(points: seq<Point>, k: nat, size: nat) returns (partials: seq<Partial>)
    requires size > 0 && Within(points, k)
    ensures Cut(points, k, size, partials) && |points| <= |partials| * size
  {
    partials := [];
    var start := 0;
    while start < |points|
      invariant start == |partials| * size && Cut(points, k, size, partials)
      decreases |points| - start
    {
      var end := Min(start + size, |points|);
      var chunk := points[start..end];
      assert chunk == Chunk(points, size, |partials|);
      assert forall p | p in chunk :: p in points;
      var clusters := ReduceShard(chunk, k);
      partials := partials + [Partial(|partials|, clusters)];
      NextMultiple(|partials| - 1, size);
      start := start + size;
    }
  }

  lemma NextMultiple(n: nat, size: nat)
    ensures (n + 1) * size == n * size + size
  {
  }

  // --- merging the partials ---

  function ByShard(p: Partial): Key {
    Key(p.shard as real, 0)
  }

  function MergedAt(partials: seq<Partial>, k: nat, c: nat): Aggregate
    requires c < k && forall p | p in partials :: |p.clusters| == k
  {
    if partials == [] then NOTHING
    else
      var last := partials[|partials| - 1];
      assert last in partials;
      Combine(MergedAt(partials[..|partials| - 1], k, c), last.clusters[c])
  }

  /** The partials, in whatever order they arrived, merged in shard order. */
  method MergePartials(arrived: seq<Partial>, k: nat) returns (merged: seq<Aggregate>)
    requires forall p | p in arrived :: |p.clusters| == k
    ensures |merged| == k && (forall p | p in SortBy(arrived, ByShard) :: |p.clusters| == k)
    ensures forall c | 0 <= c < k :: merged[c] == MergedAt(SortBy(arrived, ByShard), k, c)
  {
    var partials := SortBy(arrived, ByShard);
    forall p | p in partials ensures |p.clusters| == k {
      assert p in multiset(partials);
      assert p in multiset(arrived);
    }
    merged := seq(k, i => NOTHING);
    for s := 0 to |partials|
      invariant |merged| == k && (forall p | p in partials[..s] :: |p.clusters| == k)
      invariant forall c | 0 <= c < k :: merged[c] == MergedAt(partials[..s], k, c)
    {
      assert partials[s] in partials && partials[..s + 1][..s] == partials[..s];
      merged := CombineAll(merged, partials[s].clusters);
    }
    assert partials[..|partials|] == partials;
  }

  method CombineAll(a: seq<Aggregate>, b: seq<Aggregate>) returns (r: seq<Aggregate>)
    requires |a| == |b|
    ensures |r| == |a| && forall c | 0 <= c < |a| :: r[c] == Combine(a[c], b[c])
  {
    r := [];
    for c := 0 to |a|
      invariant |r| == c && forall i | 0 <= i < c :: r[i] == Combine(a[i], b[i])
    {
      r := r + [Combine(a[c], b[c])];
    }
  }

  lemma CutClusters(points: seq<Point>, k: nat, size: nat, partials: seq<Partial>)
    requires size > 0 && Cut(points, k, size, partials)
    ensures forall p | p in partials :: |p.clusters| == k
  {
  }

  lemma ArrivalOrder(partials: seq<Partial>, arrived: seq<Partial>)
    requires (forall s | 0 <= s < |partials| :: partials[s].shard == s) && multiset(arrived) == multiset(partials)
    ensures SortBy(arrived, ByShard) == partials
  {
    SortByPermutes(partials, arrived, ByShard);
    SortByFixpoint(partials, ByShard);
  }

  lemma ChunksJoin(points: seq<Point>, size: nat, n: nat)
    requires size > 0
    ensures points[..Min((n + 1) * size, |points|)] == points[..Min(n * size, |points|)] + Chunk(points, size, n)
  {
    NextMultiple(n, size);
  }

  lemma {:induction false} MergedPrefix(points: seq<Point>, k: nat, size: nat, partials: seq<Partial>, n: nat, c: nat)
    requires size > 0 && c < k && n <= |partials| && Cut(points, k, size, partials) && forall p | p in partials[..n] :: |p.clusters| == k
    ensures MergedAt(partials[..n], k, c) == ClusterTotal(points[..Min(n * size, |points|)], c)
  {
    if n == 0 {
      assert points[..Min(0 * size, |points|)] == [];
    } else {
      var m := n - 1;
      assert partials[..n][..m] == partials[..m];
      assert forall p | p in partials[..m] :: p in partials[..n];
      MergedPrefix(points, k, size, partials, m, c);
      ChunksJoin(points, size, m);
      ClusterTotalSplits(points[..Min(m * size, |points|)], Chunk(points, size, m), c);
      assert partials[m].clusters[c] == ClusterTotal(Chunk(points, size, m), c);
    }
  }

  /** Whatever size the shards are cut to, and in whatever order their partials arrive, each cluster's
      merged aggregate is the aggregate of its rows in one pass. */
  lemma NeitherCutNorArrivalShows(points: seq<Point>, k: nat, size: nat, partials: seq<Partial>, arrived: seq<Partial>, c: nat)
    requires size > 0 && c < k && Cut(points, k, size, partials) && |points| <= |partials| * size && multiset(arrived) == multiset(partials)
    ensures forall p | p in SortBy(arrived, ByShard) :: |p.clusters| == k
    ensures MergedAt(SortBy(arrived, ByShard), k, c) == ClusterTotal(points, c)
  {
    ArrivalOrder(partials, arrived);
    CutClusters(points, k, size, partials);
    assert partials[..|partials|] == partials && points[..|points|] == points;
    MergedPrefix(points, k, size, partials, |partials|, c);
  }

  // --- counts and ids ---

  function Counts(points: seq<Point>, k: nat): seq<nat> {
    seq(k, c requires 0 <= c < k => |Filter(InCluster(c), points)|)
  }

  lemma {:induction false} CountsSum(points: seq<Point>, k: nat)
    requires Within(points, k)
    ensures Sum(Counts(points, k)) == |points|
  {
    if points == [] {
      NoCounts(k);
      assert Counts(points, k) == seq(k, c => 0);
    } else {
      var (front, last) := (points[..|points| - 1], points[|points| - 1]);
      assert points == front + [last] && last in points;
      assert forall p | p in front :: p in points;
      CountsSum(front, k);
      SumUpdate(Counts(front, k), last.cluster, Counts(front, k)[last.cluster] + 1);
      assert Counts(points, k) == Counts(front, k)[last.cluster := Counts(front, k)[last.cluster] + 1];
    }
  }

  function CountOf(a: Aggregate): nat {
    a.count
  }

  /** The clusters' counts account for every row, once. */
  lemma ReportedCountsSum(points: seq<Point>, merged: seq<Aggregate>)
    requires Within(points, |merged|) && Reduces(points, merged)
    ensures Sum(Map(CountOf, merged)) == |points|
  {
    CountsSum(points, |merged|);
    forall c | 0 <= c < |merged| ensures merged[c].count == |Filter(InCluster(c), points)| {
      TotalMeans(Filter(InCluster(c), points));
    }
    assert Map(CountOf, merged) == Counts(points, |merged|);
  }

  lemma {:induction false} NoCounts(k: nat)
    ensures Sum(seq(k, c => 0)) == 0
  {
    if k > 0 {
      assert seq(k, c => 0)[..k - 1] == seq(k - 1, c => 0);
      NoCounts(k - 1);
    }
  }

  /** The clusters that hold anything, in raw order. */
  function Populated(merged: seq<Aggregate>, n: nat): seq<nat>
    requires n <= |merged|
  {
    if n == 0 then [] else Populated(merged, n - 1) + if merged[n - 1].count > 0 then [n - 1] else []
  }

  /** Largest first; ties by the exemplar's id. */
  function BySize(merged: seq<Aggregate>): nat -> Key {
    (c: nat) =>
      if c < |merged| && merged[c].exemplar.Some? then Key(0.0 - merged[c].count as real, merged[c].exemplar.value.id)
      else Key(0.0, 0)
  }

  lemma {:induction false} PopulatedMeans(merged: seq<Aggregate>, n: nat)
    requires n <= |merged|
    ensures Distinct(Populated(merged, n))
    ensures forall c :: c in Populated(merged, n) <==> 0 <= c < n && merged[c].count > 0
  {
    if n > 0 {
      PopulatedMeans(merged, n - 1);
      var front := Populated(merged, n - 1);
      assert forall i | 0 <= i < |front| :: front[i] in front;
    }
  }

  /** The renumbering: raw clusters in contract order, and each one's place in it. */
  ghost predicate Renumbers(merged: seq<Aggregate>, ordered: seq<nat>, index: map<nat, nat>) {
    && (forall c :: c in index <==> 0 <= c < |merged| && merged[c].count > 0)
    && (forall c | c in index :: index[c] < |ordered| && ordered[index[c]] == c)
    && (forall i | 0 <= i < |ordered| :: ordered[i] in index && index[ordered[i]] == i)
    && Sorted(ordered, BySize(merged))
    && (forall i, j | 0 <= i < j < |ordered| :: NoSmaller(merged, ordered[i], ordered[j]))
  }

  /** Cluster `c` has more rows than `d`, or as many and an exemplar with no higher an id. */
  predicate NoSmaller(merged: seq<Aggregate>, c: nat, d: nat) {
    c < |merged| && d < |merged| && merged[c].exemplar.Some? && merged[d].exemplar.Some? ==>
      merged[c].count > merged[d].count
      || (merged[c].count == merged[d].count && merged[c].exemplar.value.id <= merged[d].exemplar.value.id)
  }

  lemma LargestFirst(merged: seq<Aggregate>, ordered: seq<nat>)
    requires Sorted(ordered, BySize(merged))
    ensures forall i, j | 0 <= i < j < |ordered| :: NoSmaller(merged, ordered[i], ordered[j])
  {
    forall i, j | 0 <= i < j < |ordered| ensures NoSmaller(merged, ordered[i], ordered[j]) {
      assert Leq(BySize(merged)(ordered[i]), BySize(merged)(ordered[j]));
    }
  }

  method Renumber(merged: seq<Aggregate>) returns (ordered: seq<nat>, index: map<nat, nat>)
    ensures Renumbers(merged, ordered, index)
  {
    var raws := FindPopulated(merged);
    PopulatedMeans(merged, |merged|);
    ordered := SortBy(raws, BySize(merged));
    SortBySorted(raws, BySize(merged));
    DistinctCounts(raws, ordered);
    SameElements(ordered, raws);
    LargestFirst(merged, ordered);
    index := map[];
    for i := 0 to |ordered|
      invariant forall c :: c in index <==> c in ordered[..i]
      invariant forall c | c in index :: index[c] < i && ordered[index[c]] == c
      invariant forall j | 0 <= j < i :: ordered[j] in index && index[ordered[j]] == j
    {
      index := index[ordered[i] := i];
    }
    assert ordered[..|ordered|] == ordered;
  }

  method FindPopulated(merged: seq<Aggregate>) returns (raws: seq<nat>)
    ensures raws == Populated(merged, |merged|)
  {
    raws := [];
    for c := 0 to |merged|
      invariant raws == Populated(merged, c)
    {
      if merged[c].count > 0 {
        raws := raws + [c];
      }
    }
  }

  function AssignedTo(index: map<nat, nat>, id: nat): Point -> bool {
    (p: Point) => p.cluster in index && index[p.cluster] == id
  }

  lemma {:induction false} FiltersAgree(p: Point -> bool, q: Point -> bool, s: seq<Point>)
    requires forall x | x in s :: p(x) == q(x)
    ensures Filter(p, s) == Filter(q, s)
  {
    if s != [] {
      var n := |s| - 1;
      assert s[n] in s && forall x | x in s[..n] :: x in s;
      assert p(s[n]) == q(s[n]);
      FiltersAgree(p, q, s[..n]);
    }
  }

  /** Every row is assigned a cluster that exists, and each cluster reports exactly as many rows as are
      assigned to it. */
  lemma AssignmentsMatchCounts(points: seq<Point>, merged: seq<Aggregate>, ordered: seq<nat>, index: map<nat, nat>)
    requires Within(points, |merged|) && Reduces(points, merged) && Renumbers(merged, ordered, index)
    ensures forall p | p in points :: p.cluster in index && index[p.cluster] < |ordered|
    ensures forall id | 0 <= id < |ordered| :: |Filter(AssignedTo(index, id), points)| == merged[ordered[id]].count
  {
    forall p | p in points ensures p.cluster in index && index[p.cluster] < |ordered| {
      FilterMultiset(InCluster(p.cluster), points, p);
      TotalMeans(Filter(InCluster(p.cluster), points));
      assert merged[p.cluster] == ClusterTotal(points, p.cluster);
      assert p in multiset(Filter(InCluster(p.cluster), points));
    }
    forall id | 0 <= id < |ordered| ensures |Filter(AssignedTo(index, id), points)| == merged[ordered[id]].count {
      var c := ordered[id];
      FiltersAgree(AssignedTo(index, id), InCluster(c), points);
      TotalMeans(Filter(InCluster(c), points));
      assert merged[c] == ClusterTotal(points, c);
    }
  }
}
