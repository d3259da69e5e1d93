/** From a candidate list to an answer: bound it, score it exactly, order, threshold, cut to `k`,
    hide tombstoned rows. Also the exactness of threshold queries. */
module Rerank {
  import opened Ordering
  import opened Lists
  import opened TopK
  import opened Scan
  import opened Fronts

  /** `maxVectors` is what the declared byte budget amounts to: its bytes over the bytes of one
      exact vector, rounded down. */
  datatype Query = Query(k: nat, candidates: nat, rerank: nat, threshold: Option<real>, maxVectors: Option<nat>)

  /** The measured overfetch margin and the state budget of threshold queries. */
  datatype Limits = Limits(epsilon: real, stateBudget: nat)

  /** The exact score of the vector stored at a candidate's `(part, row)`. */
  type Scorer = Candidate -> real

  datatype Hit = Hit(score: real, id: int)

  function ByScore(h: Hit): Key {
    Key(-h.score, h.id)
  }

  function HitOf(score: Scorer): Candidate -> Hit {
    (c: Candidate) => Hit(score(c), c.id)
  }

  function Clears(threshold: Option<real>): Hit -> bool {
    (h: Hit) => threshold.None? || h.score >= threshold.value
  }

  function Live(tombstones: set<int>): Hit -> bool {
    (h: Hit) => h.id !in tombstones
  }

  function Bound(q: Query, cs: seq<Candidate>): (r: seq<Candidate>) {
    var wide := if q.threshold.None? then Take(cs, q.rerank) else cs;
    if q.maxVectors.None? then wide else Take(wide, q.maxVectors.value)
  }

  function Finalize(q: Query, tombstones: set<int>, scored: seq<Hit>): (r: seq<Hit>) {
    Filter(Live(tombstones), Take(Filter(Clears(q.threshold), SortBy(scored, ByScore)), q.k))
  }

  function ExactBound(tau: real): real {
    2.0 * (1.0 - tau)
  }

  function RelaxedBound(q: Query, lim: Limits): real
    requires q.threshold.Some?
  {
    ExactBound(q.threshold.value) + lim.epsilon
  }

  /** More rows lie inside the relaxed bound than the state budget holds. */
  predicate Overfull(q: Query, lim: Limits, passing: seq<Candidate>)
    requires q.threshold.Some?
  {
    |Within(passing, RelaxedBound(q, lim))| > lim.stateBudget
  }

  /** The candidate phase over the rows the mask passes, or `None` when the query is refused. */
  function Collected(q: Query, lim: Limits, passing: seq<Candidate>): Option<seq<Candidate>> {
    if q.threshold.None? then Some(SortBy(OfferAll(q.candidates, passing), ByDistance))
    else if Overfull(q, lim, passing) then None
    else Some(SortBy(Within(passing, RelaxedBound(q, lim)), ByDistance))
  }

  function Answer(q: Query, lim: Limits, passing: seq<Candidate>, score: Scorer, tombstones: set<int>): Option<seq<Hit>> {
    var cs := Collected(q, lim, passing);
    if cs.None? then None
    else Some(Finalize(q, tombstones, Map(HitOf(score), Bound(q, cs.value))))
  }

  // --- the loops ---

  method PartCount(cs: seq<Candidate>) returns (parts: nat)
    ensures forall j | 0 <= j < |cs| :: cs[j].part < parts
  {
    parts := 0;
    for i := 0 to |cs|
      invariant forall j | 0 <= j < i :: cs[j].part < parts
    {
      if cs[i].part >= parts {
        parts := cs[i].part + 1;
      }
    }
  }

  method Place(byPart: seq<seq<Candidate>>, c: Candidate, ghost read: seq<Candidate>)
    returns (byPart': seq<seq<Candidate>>, ghost read': seq<Candidate>)
    requires c.part < |byPart| && multiset(Concat(byPart)) == multiset(read)
    ensures |byPart'| == |byPart| && read' == read + [c] && multiset(Concat(byPart')) == multiset(read')
  {
    ConcatUpdate(byPart, c.part, c);
    byPart', read' := byPart[c.part := byPart[c.part] + [c]], read + [c];
  }

  method GroupByPart(cs: seq<Candidate>) returns (byPart: seq<seq<Candidate>>)
    ensures multiset(Concat(byPart)) == multiset(cs)
  {
    var parts := PartCount(cs);
    byPart := seq(parts, _ => []);
    ConcatEmpty(byPart);
    ghost var read: seq<Candidate> := [];
    for i := 0 to |cs|
      invariant |byPart| == parts && read == cs[..i]
      invariant multiset(Concat(byPart)) == multiset(read)
    {
      byPart, read := Place(byPart, cs[i], read);
    }
    assert read == cs;
  }

  /** Fetches and scores part by part, so hits come out grouped by part, not in candidate order. */
  method RerankScores(cs: seq<Candidate>, score: Scorer) returns (scored: seq<Hit>)
    ensures multiset(scored) == multiset(Map(HitOf(score), cs))
  {
    var byPart := GroupByPart(cs);
    scored := [];
    for p := 0 to |byPart|
      invariant scored == Map(HitOf(score), Concat(byPart[..p]))
    {
      MapConcatStep(score, byPart, p);
      scored := scored + Map(HitOf(score), byPart[p]);
    }
    assert byPart[..|byPart|] == byPart;
    MapPermutes(HitOf(score), Concat(byPart), cs);
  }

  lemma MapConcatStep(score: Scorer, byPart: seq<seq<Candidate>>, p: nat)
    requires p < |byPart|
    ensures Map(HitOf(score), Concat(byPart[..p + 1]))
         == Map(HitOf(score), Concat(byPart[..p])) + Map(HitOf(score), byPart[p])
  {
    assert byPart[..p + 1] == byPart[..p] + [byPart[p]];
    ConcatAppend(byPart[..p], byPart[p]);
    MapAppend(HitOf(score), Concat(byPart[..p]), byPart[p]);
  }

  method FinalizeHits(q: Query, tombstones: set<int>, scored: seq<Hit>) returns (hits: seq<Hit>)
    ensures hits == Finalize(q, tombstones, scored)
  {
    var sorted := SortBy(scored, ByScore);
    var clearing := sorted;
    if q.threshold.Some? {
      clearing := Retain(Clears(q.threshold), sorted);
    } else {
      FilterFull(Clears(q.threshold), sorted);
    }
    hits := Take(clearing, q.k);
    if tombstones != {} {
      hits := Retain(Live(tombstones), hits);
    } else {
      FilterFull(Live(tombstones), hits);
    }
  }

  method Retain<T>(p: T -> bool, s: seq<T>) returns (r: seq<T>)
    ensures r == Filter(p, s)
  {
    r := [];
    for i := 0 to |s|
      invariant r == Filter(p, s[..i])
    {
      assert s[..i + 1][..i] == s[..i];
      if p(s[i]) {
        r := r + [s[i]];
      }
    }
    assert s[..|s|] == s;
  }

  datatype Response = Faulted | Refused | Hits(hits: seq<Hit>)

  method Collect(q: Query, lim: Limits) returns (col: Collector)
    ensures fresh(col) && (col.topk != null ==> fresh(col.topk)) && col.Current() == Empty(q, lim)
  {
    if q.threshold.Some? {
      col := new Collector.ByThreshold(ExactBound(q.threshold.value), lim.epsilon, lim.stateBudget);
    } else {
      col := new Collector.Ranked(q.candidates);
    }
  }

  method CandidatePhase(q: Query, lim: Limits, strategy: Strategy, adc: Adc, ranges: seq<seq<ScanRow>>)
    returns (ok: bool, cs: Option<seq<Candidate>>)
    ensures ok <==> !FaultShows(strategy, Empty(q, lim), adc, Concat(ranges))
    ensures ok ==> cs == Collected(q, lim, Judged(adc, Concat(ranges)))
  {
    var col := Collect(q, lim);
    ok := ScanAll(strategy, adc, ranges, col);
    AfterScan(q, lim, strategy, adc, Concat(ranges));
    if col.topk != null {
      cs := Some(SortBy(col.topk.heap, ByDistance));
    } else if col.overflowed {
      cs := None;
    } else {
      cs := Some(SortBy(col.kept, ByDistance));
    }
  }

  /** The collector a query starts from. */
  function Empty(q: Query, lim: Limits): State {
    match q.threshold
    case None => Bounded(q.candidates, [])
    case Some(tau) => Threshold(ExactBound(tau), ExactBound(tau) + lim.epsilon, lim.stateBudget, [], 0, false)
  }

  /** The rows the mask passes, where a row whose predicate fails is one it drops. */
  function Judged(adc: Adc, rows: seq<ScanRow>): seq<Candidate> {
    Passing(adc, WithoutFaults(rows))
  }

  /** Those are the rows whose predicate holds, each at its approximate distance. */
  lemma {:induction false} JudgedHolds(adc: Adc, rows: seq<ScanRow>, c: Candidate)
    ensures c in Judged(adc, rows) <==>
            exists i :: 0 <= i < |rows| && rows[i].verdict == Pass
                        && c.dist == adc(rows[i].code) && c.id == rows[i].id && c.part == rows[i].part && c.row == rows[i].row
  {
    if rows != [] {
      var n := |rows| - 1;
      JudgedHolds(adc, rows[..n], c);
      assert WithoutFaults(rows)[..n] == WithoutFaults(rows[..n]);
      if i :| 0 <= i < n && rows[..n][i].verdict == Pass && c == CandidateOf(adc, rows[..n][i]) {
        assert rows[i] == rows[..n][i];
      } else {
        assert forall i | 0 <= i < n :: rows[i] == rows[..n][i];
      }
    }
  }

  /** The collector after all of `passing`. */
  function Full(q: Query, lim: Limits, passing: seq<Candidate>): State {
    match q.threshold
    case None => Bounded(q.candidates, OfferAll(q.candidates, passing))
    case Some(tau) => Gathered(ExactBound(tau), ExactBound(tau) + lim.epsilon, lim.stateBudget, passing)
  }

  lemma AfterScan(q: Query, lim: Limits, strategy: Strategy, adc: Adc, rows: seq<ScanRow>)
    ensures Outcome(strategy, Empty(q, lim), adc, rows).None? <==> FaultShows(strategy, Empty(q, lim), adc, rows)
    ensures !FaultShows(strategy, Empty(q, lim), adc, rows) ==>
              Outcome(strategy, Empty(q, lim), adc, rows) == Some(Full(q, lim, Judged(adc, rows)))
  {
    OutcomeWithFaults(strategy, Empty(q, lim), adc, rows);
    match q.threshold
    case None => BoundedScanKeepsBest(q.candidates, adc, WithoutFaults(rows));
    case Some(tau) => ThresholdScanKeepsAll(ExactBound(tau), ExactBound(tau) + lim.epsilon, lim.stateBudget, adc, WithoutFaults(rows));
  }

  method RerankPhase(q: Query, cs: seq<Candidate>, score: Scorer, tombstones: set<int>) returns (hits: seq<Hit>)
    ensures hits == Finalize(q, tombstones, Map(HitOf(score), Bound(q, cs)))
  {
    var bounded := Bound(q, cs);
    var scored := RerankScores(bounded, score);
    FinalizePermutes(q, tombstones, scored, Map(HitOf(score), bounded));
    hits := FinalizeHits(q, tombstones, scored);
  }

  /** Scan, collect, bound, rerank, finalize. A fault is reported exactly when it shows; otherwise the answer
      is the same whatever the strategy, and it is refused exactly when a threshold query finds more rows
      inside its relaxed bound than the state budget holds. */
  method SearchAt(q: Query, lim: Limits, strategy: Strategy, adc: Adc, ranges: seq<seq<ScanRow>>,
                  score: Scorer, tombstones: set<int>) returns (r: Response)
    ensures r.Faulted? <==> FaultShows(strategy, Empty(q, lim), adc, Concat(ranges))
    ensures r.Refused? <==> !r.Faulted? && q.threshold.Some? && Crowd(q, lim, Judged(adc, Concat(ranges))) > lim.stateBudget
    ensures r.Hits? ==> Answer(q, lim, Judged(adc, Concat(ranges)), score, tombstones) == Some(r.hits)
    ensures r.Hits? ==> exists reranked :: Scores(q, lim, Judged(adc, Concat(ranges)), reranked) && Ranks(q, reranked, score, tombstones, r.hits)
  {
    var ok, cs := CandidatePhase(q, lim, strategy, adc, ranges);
    CrowdCounts(q, lim, Judged(adc, Concat(ranges)));
    if !ok {
      return Faulted;
    }
    if cs.None? {
      return Refused;
    }
    var hits := RerankPhase(q, cs.value, score, tombstones);
    ghost var reranked := AnswerMeans(q, lim, Judged(adc, Concat(ranges)), score, tombstones, hits);
    return Hits(hits);
  }

  // --- the order in which scored rows arrive is erased ---

  lemma HitsTotal(s: seq<Hit>)
    ensures Total(s, ByScore)
  {
    forall i, j | 0 <= i < |s| && 0 <= j < |s| && ByScore(s[i]) == ByScore(s[j]) ensures s[i] == s[j] {
      assert -s[i].score == -s[j].score;
    }
  }

  lemma FinalizePermutes(q: Query, tombstones: set<int>, a: seq<Hit>, b: seq<Hit>)
    requires multiset(a) == multiset(b)
    ensures Finalize(q, tombstones, a) == Finalize(q, tombstones, b)
  {
    HitsTotal(a);
    SortByPermutes(a, b, ByScore);
  }

  // --- what a search answers, by distances, scores and ids ---

  /** Rows nearer than `c`, equal distances going to the lower id. */
  function Nearer(cs: seq<Candidate>, c: Candidate): nat {
    if cs == [] then 0
    else
      var x := cs[|cs| - 1];
      Nearer(cs[..|cs| - 1], c) + if x.dist < c.dist || (x.dist == c.dist && x.id < c.id) then 1 else 0
  }

  /** Rows no farther than `c`, itself among them. */
  function NoFarther(cs: seq<Candidate>, c: Candidate): nat {
    if cs == [] then 0
    else
      var x := cs[|cs| - 1];
      NoFarther(cs[..|cs| - 1], c) + if x.dist < c.dist || (x.dist == c.dist && x.id <= c.id) then 1 else 0
  }

  /** Rows that score higher than `c`, equal scores going to the lower id, among those that reach the bar. */
  function Ahead(threshold: Option<real>, score: Scorer, cs: seq<Candidate>, c: Candidate): nat {
    if cs == [] then 0
    else
      var x := cs[|cs| - 1];
      Ahead(threshold, score, cs[..|cs| - 1], c)
      + if (threshold.None? || score(x) >= threshold.value) && (score(x) > score(c) || (score(x) == score(c) && x.id < c.id)) then 1 else 0
  }

  /** The candidates a query may score: inside twice the distance its threshold allows plus the margin. */
  predicate Inside(q: Query, lim: Limits, c: Candidate) {
    q.threshold.Some? ==> c.dist <= 2.0 * (1.0 - q.threshold.value) + lim.epsilon
  }

  /** How many rows lie inside. */
  function Crowd(q: Query, lim: Limits, cs: seq<Candidate>): nat {
    if cs == [] then 0 else Crowd(q, lim, cs[..|cs| - 1]) + if Inside(q, lim, cs[|cs| - 1]) then 1 else 0
  }

  lemma {:induction false} CrowdCounts(q: Query, lim: Limits, cs: seq<Candidate>)
    ensures q.threshold.Some? ==> Crowd(q, lim, cs) == |Within(cs, RelaxedBound(q, lim))|
  {
    if cs != [] {
      CrowdCounts(q, lim, cs[..|cs| - 1]);
      if q.threshold.Some? {
        CountLast(Near(RelaxedBound(q, lim)), cs);
      }
    }
  }

  /** How many it may score. */
  predicate Room(q: Query, n: nat) {
    && (q.threshold.None? ==> n <= q.candidates && n <= q.rerank)
    && (q.maxVectors.Some? ==> n <= q.maxVectors.value)
  }

  /** The rows a query scores exactly: passing rows inside its bound, the nearest of them as far as there is
      room. A row scored has room for itself and all nearer ones; a row with room for itself and all no
      farther is scored. */
  ghost predicate Scores(q: Query, lim: Limits, passing: seq<Candidate>, reranked: seq<Candidate>) {
    && (forall c :: multiset(reranked)[c] <= multiset(passing)[c])
    && (forall c | c in reranked :: Inside(q, lim, c) && Room(q, Nearer(passing, c) + 1))
    && (forall c | c in passing && Inside(q, lim, c) && Room(q, NoFarther(passing, c)) :: c in reranked)
  }

  ghost predicate OneRowEach(cs: seq<Candidate>) {
    forall i, j | 0 <= i < j < |cs| :: cs[i].id != cs[j].id
  }

  /** The hits of the rows scored: live ones that reach the bar, by score and then id; one left out has `k`
      ahead of it. */
  ghost predicate Ranks(q: Query, reranked: seq<Candidate>, score: Scorer, tombstones: set<int>, hits: seq<Hit>) {
    && |hits| <= q.k
    && (forall h | h in hits :: h.id !in tombstones && (q.threshold.Some? ==> h.score >= q.threshold.value))
    && (forall h | h in hits :: exists c :: c in reranked && score(c) == h.score && c.id == h.id)
    && (forall i, j | 0 <= i < j < |hits| :: hits[i].score > hits[j].score || (hits[i].score == hits[j].score && hits[i].id <= hits[j].id))
    && (OneRowEach(reranked) ==> forall i, j | 0 <= i < j < |hits| :: hits[i].id != hits[j].id)
    && (forall c | c in reranked && c.id !in tombstones && (q.threshold.Some? ==> score(c) >= q.threshold.value) ::
          Hit(score(c), c.id) in hits || Ahead(q.threshold, score, reranked, c) >= q.k)
  }

  lemma {:induction false} NearerCounts(cs: seq<Candidate>, c: Candidate)
    ensures Nearer(cs, c) == |Filter(Before(ByDistance, c), cs)|
    ensures NoFarther(cs, c) == |Filter(UpTo(ByDistance, c), cs)|
  {
    if cs != [] {
      var x := cs[|cs| - 1];
      NearerCounts(cs[..|cs| - 1], c);
      CountLast(Before(ByDistance, c), cs);
      CountLast(UpTo(ByDistance, c), cs);
      assert Before(ByDistance, c)(x) <==> Less(ByDistance(x), ByDistance(c));
      assert UpTo(ByDistance, c)(x) <==> Leq(ByDistance(x), ByDistance(c));
    }
  }

  lemma AheadOne(threshold: Option<real>, score: Scorer, front: seq<Candidate>, x: Candidate, before: Hit -> bool)
    ensures |Filter(before, Filter(Clears(threshold), Map(HitOf(score), front + [x])))|
         == |Filter(before, Filter(Clears(threshold), Map(HitOf(score), front)))|
            + if Clears(threshold)(HitOf(score)(x)) && before(HitOf(score)(x)) then 1 else 0
  {
    var h := HitOf(score)(x);
    var clearing := Filter(Clears(threshold), Map(HitOf(score), front));
    FilterMapStep(Clears(threshold), HitOf(score), front, x);
    if Clears(threshold)(h) {
      CountLast(before, clearing + [h]);
      assert (clearing + [h])[..|clearing|] == clearing;
    } else {
      assert clearing + [] == clearing;
    }
  }

  lemma {:induction false} AheadCounts(threshold: Option<real>, score: Scorer, cs: seq<Candidate>, c: Candidate, before: Hit -> bool)
    requires before == Before(ByScore, Hit(score(c), c.id))
    ensures Ahead(threshold, score, cs, c) == |Filter(before, Filter(Clears(threshold), Map(HitOf(score), cs)))|
  {
    if cs == [] {
      assert Map(HitOf(score), cs) == [];
    } else {
      var (front, x) := (cs[..|cs| - 1], cs[|cs| - 1]);
      AheadCounts(threshold, score, front, c, before);
      assert cs == front + [x];
      AheadOne(threshold, score, front, x, before);
      var h := Hit(score(x), x.id);
      assert before(h) <==> Less(ByScore(h), ByScore(Hit(score(c), c.id)));
    }
  }

  /** Only rows inside the bound can be nearer than one that is. */
  lemma {:induction false} WithinCounts(passing: seq<Candidate>, bound: real, c: Candidate)
    requires c.dist <= bound
    ensures Nearer(Within(passing, bound), c) == Nearer(passing, c)
    ensures NoFarther(Within(passing, bound), c) == NoFarther(passing, c)
  {
    if passing != [] {
      var front := passing[..|passing| - 1];
      WithinCounts(front, bound, c);
      var w := Within(passing, bound);
      assert w != Within(front, bound) ==> w[..|w| - 1] == Within(front, bound);
    }
  }

  // --- the rows scored are the nearest ---

  /** The candidate list is a front of the rows inside the bound, as wide as the query allows. */
  lemma CollectedFront(q: Query, lim: Limits, passing: seq<Candidate>, cs: seq<Candidate>) returns (rest: seq<Candidate>, w: nat)
    requires Collected(q, lim, passing) == Some(cs)
    ensures Sorted(cs, ByDistance)
    ensures q.threshold.None? ==> w == q.candidates && Front(cs, rest, passing, w, ByDistance)
    ensures q.threshold.Some? ==>
              var near := Within(passing, RelaxedBound(q, lim)); w == |near| && Front(cs, rest, near, w, ByDistance)
  {
    if q.threshold.None? {
      w := q.candidates;
      rest := OfferAllSelects(w, passing);
      SortBySorted(OfferAll(w, passing), ByDistance);
      HeapIsFront(w, passing, rest);
      FrontPermutes(OfferAll(w, passing), cs, rest, passing, w, ByDistance);
    } else {
      var near := Within(passing, RelaxedBound(q, lim));
      w, rest := |near|, [];
      SortBySorted(near, ByDistance);
      WholeFront(near, ByDistance);
      FrontPermutes(near, cs, [], near, w, ByDistance);
    }
  }

  lemma HeapIsFront(cap: nat, rows: seq<Candidate>, dropped: seq<Candidate>)
    requires Selects(OfferAll(cap, rows), cap, rows, dropped)
    ensures Front(OfferAll(cap, rows), dropped, rows, cap, ByDistance)
  {
  }

  /** The width after both cuts. */
  function Width(q: Query, w: nat): nat {
    var wide := if q.threshold.None? then Min(w, q.rerank) else w;
    if q.maxVectors.None? then wide else Min(wide, q.maxVectors.value)
  }

  lemma BoundedFront(q: Query, cs: seq<Candidate>, rest: seq<Candidate>, all: seq<Candidate>, w: nat) returns (rest': seq<Candidate>)
    requires Front(cs, rest, all, w, ByDistance) && Sorted(cs, ByDistance)
    ensures Front(Bound(q, cs), rest', all, Width(q, w), ByDistance)
  {
    var (wide, v) := (cs, w);
    rest' := rest;
    if q.threshold.None? {
      rest' := CutFront(cs, rest, all, w, q.rerank, ByDistance);
      wide, v := Take(cs, q.rerank), Min(w, q.rerank);
    }
    if q.maxVectors.Some? {
      rest' := CutFront(wide, rest', all, v, q.maxVectors.value, ByDistance);
    }
  }

  lemma FrontMembers(kept: seq<Candidate>, rest: seq<Candidate>, all: seq<Candidate>, w: nat, c: Candidate)
    requires Front(kept, rest, all, w, ByDistance)
    ensures multiset(kept)[c] <= multiset(all)[c]
    ensures c in kept ==> c in all && Nearer(all, c) < w
    ensures c in all && NoFarther(all, c) <= w ==> c in kept
  {
    NearerCounts(all, c);
    if c in kept {
      KeptHasFewBefore(kept, rest, all, w, ByDistance, c);
      assert c in multiset(kept);
      assert c in multiset(all);
    } else if c in all {
      LeftOutHasManyUpTo(kept, rest, all, w, ByDistance, c);
    }
  }

  lemma {:induction false} NoFartherWithin(cs: seq<Candidate>, c: Candidate)
    ensures NoFarther(cs, c) <= |cs|
  {
    if cs != [] {
      NoFartherWithin(cs[..|cs| - 1], c);
    }
  }

  lemma RankedScores(q: Query, lim: Limits, passing: seq<Candidate>, reranked: seq<Candidate>, rest: seq<Candidate>)
    requires q.threshold.None? && Front(reranked, rest, passing, Width(q, q.candidates), ByDistance)
    ensures Scores(q, lim, passing, reranked)
  {
    forall c: Candidate
      ensures multiset(reranked)[c] <= multiset(passing)[c]
      ensures c in reranked ==> Inside(q, lim, c) && Room(q, Nearer(passing, c) + 1)
      ensures c in passing && Room(q, NoFarther(passing, c)) ==> c in reranked
    {
      FrontMembers(reranked, rest, passing, Width(q, q.candidates), c);
    }
  }

  lemma ThresholdScores(q: Query, lim: Limits, passing: seq<Candidate>, reranked: seq<Candidate>, rest: seq<Candidate>, near: seq<Candidate>)
    requires q.threshold.Some? && near == Within(passing, RelaxedBound(q, lim))
    requires Front(reranked, rest, near, Width(q, |near|), ByDistance)
    ensures Scores(q, lim, passing, reranked)
  {
    forall c: Candidate
      ensures multiset(reranked)[c] <= multiset(passing)[c]
      ensures c in reranked ==> Inside(q, lim, c) && Room(q, Nearer(passing, c) + 1)
      ensures c in passing && Inside(q, lim, c) && Room(q, NoFarther(passing, c)) ==> c in reranked
    {
      ThresholdMember(q, lim, passing, reranked, rest, near, c);
    }
  }

  lemma ThresholdMember(q: Query, lim: Limits, passing: seq<Candidate>, reranked: seq<Candidate>, rest: seq<Candidate>, near: seq<Candidate>, c: Candidate)
    requires q.threshold.Some? && near == Within(passing, RelaxedBound(q, lim))
    requires Front(reranked, rest, near, Width(q, |near|), ByDistance)
    ensures multiset(reranked)[c] <= multiset(passing)[c]
    ensures c in reranked ==> Inside(q, lim, c) && Room(q, Nearer(passing, c) + 1)
    ensures c in passing && Inside(q, lim, c) && Room(q, NoFarther(passing, c)) ==> c in reranked
  {
    FrontMembers(reranked, rest, near, Width(q, |near|), c);
    FilterMultiset(Near(RelaxedBound(q, lim)), passing, c);
    if c.dist <= RelaxedBound(q, lim) {
      WithinCounts(passing, RelaxedBound(q, lim), c);
      NoFartherWithin(near, c);
      if c in passing {
        assert c in multiset(passing);
        assert c in multiset(near);
      }
    }
  }

  // --- the hits are the best of the rows scored ---

  lemma HitsComeFromRows(score: Scorer, reranked: seq<Candidate>, h: Hit)
    requires h in Map(HitOf(score), reranked)
    ensures exists c :: c in reranked && score(c) == h.score && c.id == h.id
  {
    var i :| 0 <= i < |reranked| && Map(HitOf(score), reranked)[i] == h;
    assert reranked[i] in reranked;
  }

  /** The hits that reach the bar, best first. */
  function Clearing(q: Query, score: Scorer, reranked: seq<Candidate>): seq<Hit> {
    SortBy(Filter(Clears(q.threshold), Map(HitOf(score), reranked)), ByScore)
  }

  lemma ClearingHolds(q: Query, score: Scorer, reranked: seq<Candidate>)
    ensures Sorted(Clearing(q, score, reranked), ByScore)
    ensures forall h | h in Clearing(q, score, reranked) ::
              h in Map(HitOf(score), reranked) && (q.threshold.Some? ==> h.score >= q.threshold.value)
  {
    var unsorted := Filter(Clears(q.threshold), Map(HitOf(score), reranked));
    SortBySorted(unsorted, ByScore);
    SameElements(Clearing(q, score, reranked), unsorted);
  }

  lemma FilterKept<T>(p: T -> bool, s: seq<T>, x: T)
    requires x in s && p(x)
    ensures x in Filter(p, s)
  {
    FilterMultiset(p, s, x);
    assert x in multiset(s);
    assert x in multiset(Filter(p, s));
  }

  lemma LeftOutIsBehind(q: Query, score: Scorer, reranked: seq<Candidate>, c: Candidate)
    requires c in reranked && (q.threshold.Some? ==> score(c) >= q.threshold.value)
    requires Hit(score(c), c.id) !in Take(Clearing(q, score, reranked), q.k)
    ensures Ahead(q.threshold, score, reranked, c) >= q.k
  {
    var h := Hit(score(c), c.id);
    var unsorted := Filter(Clears(q.threshold), Map(HitOf(score), reranked));
    var sorted := Clearing(q, score, reranked);
    var i :| 0 <= i < |reranked| && reranked[i] == c;
    assert Map(HitOf(score), reranked)[i] == h;
    FilterKept(Clears(q.threshold), Map(HitOf(score), reranked), h);
    SortBySorted(unsorted, ByScore);
    WholeFront(unsorted, ByScore);
    FrontPermutes(unsorted, sorted, [], unsorted, |unsorted|, ByScore);
    var rest := CutFront(sorted, [], unsorted, |unsorted|, q.k, ByScore);
    HitsTotal(unsorted);
    LeftOutHasManyBefore(Take(sorted, q.k), rest, unsorted, Min(|unsorted|, q.k), ByScore, h);
    AheadCounts(q.threshold, score, reranked, c, Before(ByScore, h));
    NotAllBefore(unsorted, h);
  }

  /** A hit is not before itself, so not all hits are before one of them. */
  lemma NotAllBefore(s: seq<Hit>, h: Hit)
    requires h in s
    ensures |Filter(Before(ByScore, h), s)| < |s|
  {
    FilterFull(Before(ByScore, h), s);
    var i :| 0 <= i < |s| && s[i] == h;
    assert !Before(ByScore, h)(s[i]);
  }

  lemma HitsOnce(q: Query, reranked: seq<Candidate>, score: Scorer, cut: seq<Hit>, tombstones: set<int>)
    requires OneRowEach(reranked) && cut == Take(Clearing(q, score, reranked), q.k)
    ensures forall i, j | 0 <= i < j < |Filter(Live(tombstones), cut)| ::
              Filter(Live(tombstones), cut)[i].id != Filter(Live(tombstones), cut)[j].id
  {
    IdsOnce(Map(HitOf(score), reranked), Clears(q.threshold));
    var unsorted := Filter(Clears(q.threshold), Map(HitOf(score), reranked));
    IdsPermute(unsorted, Clearing(q, score, reranked));
    IdsOnce(cut, Live(tombstones));
  }

  ghost predicate OneHitEach(s: seq<Hit>) {
    forall i, j | 0 <= i < j < |s| :: s[i].id != s[j].id
  }

  lemma {:induction false} IdsOnce(s: seq<Hit>, p: Hit -> bool)
    requires OneHitEach(s)
    ensures OneHitEach(Filter(p, s))
  {
    if s != [] {
      var n := |s| - 1;
      IdsOnce(s[..n], p);
      forall h | h in Filter(p, s[..n]) ensures h.id != s[n].id {
        assert h in s[..n];
      }
    }
  }

  lemma IdsPermute(a: seq<Hit>, b: seq<Hit>)
    requires OneHitEach(a) && multiset(a) == multiset(b)
    ensures OneHitEach(b)
  {
    DistinctCounts(a, b);
    SameElements(a, b);
    forall i, j | 0 <= i < j < |b| ensures b[i].id != b[j].id {
      assert b[i] in a && b[j] in a && b[i] != b[j];
    }
  }

  lemma FinalizeRanks(q: Query, reranked: seq<Candidate>, score: Scorer, tombstones: set<int>, hits: seq<Hit>)
    requires hits == Finalize(q, tombstones, Map(HitOf(score), reranked))
    ensures Ranks(q, reranked, score, tombstones, hits)
  {
    var cut := Take(Clearing(q, score, reranked), q.k);
    FinalizeFiltersFirst(q, tombstones, Map(HitOf(score), reranked));
    ClearingHolds(q, score, reranked);
    CutRanks(q, reranked, score, tombstones, cut, hits);
  }

  lemma CutRanks(q: Query, reranked: seq<Candidate>, score: Scorer, tombstones: set<int>, cut: seq<Hit>, hits: seq<Hit>)
    requires cut == Take(Clearing(q, score, reranked), q.k) && hits == Filter(Live(tombstones), cut)
    requires Sorted(Clearing(q, score, reranked), ByScore)
    requires forall h | h in Clearing(q, score, reranked) ::
               h in Map(HitOf(score), reranked) && (q.threshold.Some? ==> h.score >= q.threshold.value)
    ensures Ranks(q, reranked, score, tombstones, hits)
  {
    FilterSorted(Live(tombstones), cut, ByScore);
    if OneRowEach(reranked) {
      HitsOnce(q, reranked, score, cut, tombstones);
    }
    forall i, j | 0 <= i < j < |hits|
      ensures hits[i].score > hits[j].score || (hits[i].score == hits[j].score && hits[i].id <= hits[j].id)
    {
      assert Leq(ByScore(hits[i]), ByScore(hits[j]));
    }
    forall h | h in hits ensures h in Clearing(q, score, reranked) && h.id !in tombstones {
      assert h in cut && Live(tombstones)(h);
    }
    forall h | h in hits ensures exists c :: c in reranked && score(c) == h.score && c.id == h.id {
      HitsComeFromRows(score, reranked, h);
    }
    forall c | c in reranked && c.id !in tombstones && (q.threshold.Some? ==> score(c) >= q.threshold.value)
      ensures Hit(score(c), c.id) in hits || Ahead(q.threshold, score, reranked, c) >= q.k
    {
      if Hit(score(c), c.id) in cut {
        FilterKept(Live(tombstones), cut, Hit(score(c), c.id));
      } else {
        LeftOutIsBehind(q, score, reranked, c);
      }
    }
  }

  /** An answer, whatever the query: which rows were scored, and which hits they gave. */
  lemma AnswerMeans(q: Query, lim: Limits, passing: seq<Candidate>, score: Scorer, tombstones: set<int>, hits: seq<Hit>)
    returns (reranked: seq<Candidate>)
    requires Answer(q, lim, passing, score, tombstones) == Some(hits)
    ensures Scores(q, lim, passing, reranked) && Ranks(q, reranked, score, tombstones, hits)
  {
    var cs := Collected(q, lim, passing).value;
    var rest, w := CollectedFront(q, lim, passing, cs);
    reranked := Bound(q, cs);
    FinalizeRanks(q, reranked, score, tombstones, hits);
    if q.threshold.None? {
      rest := BoundedFront(q, cs, rest, passing, w);
      RankedScores(q, lim, passing, reranked, rest);
    } else {
      var near := Within(passing, RelaxedBound(q, lim));
      rest := BoundedFront(q, cs, rest, near, w);
      ThresholdScores(q, lim, passing, reranked, rest, near);
    }
  }

  // --- threshold queries are exact ---

  function Dot(u: seq<real>, v: seq<real>): real
    requires |u| == |v|
  {
    if u == [] then 0.0 else u[0] * v[0] + Dot(u[1..], v[1..])
  }

  function L2Sq(u: seq<real>, v: seq<real>): real
    requires |u| == |v|
  {
    if u == [] then 0.0 else (u[0] - v[0]) * (u[0] - v[0]) + L2Sq(u[1..], v[1..])
  }

  ghost predicate Unit(v: seq<real>) {
    Dot(v, v) == 1.0
  }

  lemma {:induction false} L2Expands(u: seq<real>, v: seq<real>)
    requires |u| == |v|
    ensures L2Sq(u, v) == Dot(u, u) + Dot(v, v) - 2.0 * Dot(u, v)
  {
    if u != [] {
      L2Expands(u[1..], v[1..]);
      assert (u[0] - v[0]) * (u[0] - v[0]) == u[0] * u[0] + v[0] * v[0] - 2.0 * (u[0] * v[0]);
    }
  }

  /** A stored vector of unit length, scored by cosine, whose approximate squared distance is
      within `epsilon` of the exact one. */
  ghost predicate Faithful(query: seq<real>, v: seq<real>, score: real, dist: real, epsilon: real) {
    && |v| == |query| && Unit(query) && Unit(v)
    && score == Dot(query, v)
    && -epsilon <= dist - L2Sq(query, v) <= epsilon
  }

  ghost predicate Approximates(query: seq<real>, vector: Candidate -> seq<real>, score: Scorer, epsilon: real, cs: seq<Candidate>) {
    forall i | 0 <= i < |cs| :: Faithful(query, vector(cs[i]), score(cs[i]), cs[i].dist, epsilon)
  }

  lemma ExactScoreFromDistance(query: seq<real>, v: seq<real>)
    requires |v| == |query| && Unit(query) && Unit(v)
    ensures L2Sq(query, v) == 2.0 - 2.0 * Dot(query, v)
  {
    L2Expands(query, v);
  }

  /** Every candidate whose exact score clears `tau` lies inside `bound`. */
  ghost predicate Covers(score: Scorer, tau: real, bound: real, cs: seq<Candidate>) {
    forall i | 0 <= i < |cs| :: score(cs[i]) >= tau ==> cs[i].dist <= bound
  }

  /** No row whose exact score clears the bar is outside the relaxed bound. */
  lemma RelaxedBoundCovers(query: seq<real>, vector: Candidate -> seq<real>, score: Scorer, epsilon: real, tau: real, cs: seq<Candidate>)
    requires Approximates(query, vector, score, epsilon, cs)
    ensures Covers(score, tau, ExactBound(tau) + epsilon, cs)
  {
    forall i | 0 <= i < |cs| ensures score(cs[i]) >= tau ==> cs[i].dist <= ExactBound(tau) + epsilon {
      DistanceVersusScore(query, vector(cs[i]), score(cs[i]), cs[i].dist, epsilon, tau);
    }
  }

  /** Dropping the rows outside a covering bound loses nothing that survives the exact threshold. */
  lemma {:induction false} NothingClearingIsLost(score: Scorer, tau: real, bound: real, cs: seq<Candidate>)
    requires Covers(score, tau, bound, cs)
    ensures Filter(Clears(Some(tau)), Map(HitOf(score), Within(cs, bound))) == Filter(Clears(Some(tau)), Map(HitOf(score), cs))
  {
    if cs != [] {
      var (front, c) := (cs[..|cs| - 1], cs[|cs| - 1]);
      NothingClearingIsLost(score, tau, bound, front);
      FilterMapStep(Clears(Some(tau)), HitOf(score), front, c);
      FilterMapStep(Clears(Some(tau)), HitOf(score), Within(front, bound), c);
      assert cs == front + [c];
    }
  }

  /** The rows a threshold query must return: every passing row whose exact score clears the bar,
      best first, cut to `k`, less the tombstoned ones. */
  function ExactThreshold(q: Query, passing: seq<Candidate>, score: Scorer, tombstones: set<int>): seq<Hit> {
    Filter(Live(tombstones), Take(SortBy(Filter(Clears(q.threshold), Map(HitOf(score), passing)), ByScore), q.k))
  }

  /** A threshold query is refused exactly when more rows than the state budget lie inside the
      relaxed bound. */
  lemma ThresholdRefusal(q: Query, lim: Limits, passing: seq<Candidate>, score: Scorer, tombstones: set<int>)
    requires q.threshold.Some?
    ensures Answer(q, lim, passing, score, tombstones).None? <==> Overfull(q, lim, passing)
  {
  }

  /** A threshold query with no byte budget that is not refused is answered exactly. */
  lemma ThresholdIsExact(q: Query, lim: Limits, passing: seq<Candidate>, query: seq<real>, vector: Candidate -> seq<real>,
                         score: Scorer, tombstones: set<int>)
    requires q.threshold.Some? && q.maxVectors.None? && !Overfull(q, lim, passing)
    requires Approximates(query, vector, score, lim.epsilon, passing)
    ensures Answer(q, lim, passing, score, tombstones) == Some(ExactThreshold(q, passing, score, tombstones))
  {
    RelaxedThenExact(q, lim, passing, query, vector, score, tombstones);
    AnsweredPath(q, lim, passing, score, tombstones, ExactThreshold(q, passing, score, tombstones));
  }

  /** So its hits are the best of all the passing rows, not only of those it scored: each is a live passing
      row that reaches the bar, in order of score and then id, and a live passing row that reaches the bar is
      among them unless `k` passing rows that reach it are ahead. */
  lemma ThresholdRanksEverything(q: Query, lim: Limits, passing: seq<Candidate>, query: seq<real>, vector: Candidate -> seq<real>,
                                 score: Scorer, tombstones: set<int>, hits: seq<Hit>)
    requires q.threshold.Some? && q.maxVectors.None? && Answer(q, lim, passing, score, tombstones) == Some(hits)
    requires Approximates(query, vector, score, lim.epsilon, passing)
    ensures Ranks(q, passing, score, tombstones, hits)
  {
    ThresholdIsExact(q, lim, passing, query, vector, score, tombstones);
    FinalizeFiltersFirst(q, tombstones, Map(HitOf(score), passing));
    FinalizeRanks(q, passing, score, tombstones, hits);
  }

  lemma RelaxedThenExact(q: Query, lim: Limits, passing: seq<Candidate>, query: seq<real>, vector: Candidate -> seq<real>,
                         score: Scorer, tombstones: set<int>)
    requires q.threshold.Some?
    requires Approximates(query, vector, score, lim.epsilon, passing)
    ensures ExactThreshold(q, passing, score, tombstones)
         == Finalize(q, tombstones, Map(HitOf(score), SortBy(Within(passing, RelaxedBound(q, lim)), ByDistance)))
  {
    var near := Within(passing, RelaxedBound(q, lim));
    ReorderedFinalize(q, near, score, tombstones);
    FinalizeFiltersFirst(q, tombstones, Map(HitOf(score), near));
    assert Filter(Clears(q.threshold), Map(HitOf(score), near)) == Filter(Clears(q.threshold), Map(HitOf(score), passing)) by {
      RelaxedBoundCovers(query, vector, score, lim.epsilon, q.threshold.value, passing);
      NothingClearingIsLost(score, q.threshold.value, RelaxedBound(q, lim), passing);
      assert q.threshold == Some(q.threshold.value);
    }
  }

  lemma ReorderedFinalize(q: Query, near: seq<Candidate>, score: Scorer, tombstones: set<int>)
    ensures Finalize(q, tombstones, Map(HitOf(score), SortBy(near, ByDistance)))
         == Finalize(q, tombstones, Map(HitOf(score), near))
  {
    MapPermutes(HitOf(score), SortBy(near, ByDistance), near);
    FinalizePermutes(q, tombstones, Map(HitOf(score), SortBy(near, ByDistance)), Map(HitOf(score), near));
  }

  lemma AnsweredPath(q: Query, lim: Limits, passing: seq<Candidate>, score: Scorer, tombstones: set<int>, hits: seq<Hit>)
    requires q.threshold.Some? && q.maxVectors.None? && !Overfull(q, lim, passing)
    requires hits == Finalize(q, tombstones, Map(HitOf(score), SortBy(Within(passing, RelaxedBound(q, lim)), ByDistance)))
    ensures Answer(q, lim, passing, score, tombstones) == Some(hits)
  {
    var cs := SortBy(Within(passing, RelaxedBound(q, lim)), ByDistance);
    assert Collected(q, lim, passing) == Some(cs);
    assert Bound(q, cs) == cs;
  }

  lemma FinalizeFiltersFirst(q: Query, tombstones: set<int>, hits: seq<Hit>)
    ensures Finalize(q, tombstones, hits)
         == Filter(Live(tombstones), Take(SortBy(Filter(Clears(q.threshold), hits), ByScore), q.k))
  {
    HitsTotal(hits);
    FilterOfSort(Clears(q.threshold), hits, ByScore);
  }

  function ScoresAtLeast(score: Scorer, bar: real): Candidate -> bool {
    (c: Candidate) => score(c) >= bar
  }

  /** What a refusal means in exact terms: the count it compares with the state budget lies between
      the number of rows that clear `tau` and the number that clear `tau - epsilon`. */
  lemma RefusalBrackets(cs: seq<Candidate>, query: seq<real>, vector: Candidate -> seq<real>, score: Scorer, epsilon: real, tau: real)
    requires Approximates(query, vector, score, epsilon, cs)
    ensures |Filter(ScoresAtLeast(score, tau), cs)| <= |Within(cs, ExactBound(tau) + epsilon)|
         <= |Filter(ScoresAtLeast(score, tau - epsilon), cs)|
  {
    var relaxed := ExactBound(tau) + epsilon;
    forall i | 0 <= i < |cs|
      ensures ScoresAtLeast(score, tau)(cs[i]) ==> Near(relaxed)(cs[i])
      ensures Near(relaxed)(cs[i]) ==> ScoresAtLeast(score, tau - epsilon)(cs[i])
    {
      DistanceVersusScore(query, vector(cs[i]), score(cs[i]), cs[i].dist, epsilon, tau);
    }
    FilterMonotone(ScoresAtLeast(score, tau), Near(relaxed), cs);
    FilterMonotone(Near(relaxed), ScoresAtLeast(score, tau - epsilon), cs);
  }

  lemma DistanceVersusScore(query: seq<real>, v: seq<real>, score: real, dist: real, epsilon: real, tau: real)
    requires Faithful(query, v, score, dist, epsilon)
    ensures score >= tau ==> dist <= ExactBound(tau) + epsilon
    ensures dist <= ExactBound(tau) + epsilon ==> score >= tau - epsilon
  {
    ExactScoreFromDistance(query, v);
  }

  lemma {:induction false} FilterMonotone<T>(p: T -> bool, r: T -> bool, s: seq<T>)
    requires forall i | 0 <= i < |s| :: p(s[i]) ==> r(s[i])
    ensures |Filter(p, s)| <= |Filter(r, s)|
  {
    if s != [] {
      FilterMonotone(p, r, s[..|s| - 1]);
    }
  }

  // --- tombstones are hidden after the cut, not before ---

  function Rest<T>(s: seq<T>, n: nat): seq<T> {
    if n < |s| then s[n..] else []
  }

  ghost predicate AllLive(s: seq<Hit>, tombstones: set<int>) {
    forall i | 0 <= i < |s| :: Live(tombstones)(s[i])
  }

  ghost predicate NoneLive(s: seq<Hit>, tombstones: set<int>) {
    forall i | 0 <= i < |s| :: !Live(tombstones)(s[i])
  }

  /** Cutting to `k` and then hiding tombstones gives the first `k` live rows exactly when none of
      the first `k` is tombstoned, or nothing live was cut off. */
  lemma TombstonesAfterCut(s: seq<Hit>, k: nat, tombstones: set<int>)
    ensures Filter(Live(tombstones), Take(s, k)) == Take(Filter(Live(tombstones), s), k)
       <==> AllLive(Take(s, k), tombstones) || NoneLive(Rest(s, k), tombstones)
  {
    var live := Live(tombstones);
    var (a, b) := (Take(s, k), Rest(s, k));
    assert s == a + b;
    FilterAppend(live, a, b);
    FilterFull(live, a);
    FilterNone(live, b);
    TakePrefix(Filter(live, a), Filter(live, b), k);
    if |a| < k {
      assert b == [];
    }
  }

  lemma TakePrefix<T>(a: seq<T>, b: seq<T>, k: nat)
    requires |a| <= k
    ensures Take(a + b, k) == a <==> |a| == k || b == []
  {
  }

  /** One tombstoned row ahead of a live one: `k = 1` answers with nothing. */
  lemma TombstoneCanHideALiveRow(q: Query)
    requires q.threshold.None? && q.k == 1
    ensures Finalize(q, {7}, [Hit(0.9, 7), Hit(0.5, 8)]) == []
  {
    var s := [Hit(0.9, 7), Hit(0.5, 8)];
    assert Sorted(s, ByScore);
    SortByFixpoint(s, ByScore);
    FilterFull(Clears(q.threshold), s);
    assert Take(s, 1) == [s[0]];
    FilterNone(Live({7}), [s[0]]);
  }
}
