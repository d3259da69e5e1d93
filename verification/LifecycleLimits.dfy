/** What the catalog's operations conserve, and the two promises a rollback can break. */
module LifecycleLimits {
  import opened Lists
  import opened Merge
  import opened MergeCycles
  import opened Migration
  import opened Lifecycle
  import opened LifecycleSafety

  // --- conservation ---

  /** Operations that publish the same rows they found. Merges reconcile, redaction blanks and rollback
      reinstates, so they are not among them. */
  predicate Conserving(a: Action) {
    a.Reembed? || a.Create? || a.Canarying? || a.Migrate? || a.Promote? || a.Install? || a.Delete? || a.Retire?
  }

  /** Each partition a canary or migration step moves embeds entirely or not at all. */
  ghost predicate EmbedsWhole(a: Action) {
    match a
    case Canarying(_, take, embeds, _, todo) => Whole(todo, take, embeds)
    case Migrate(_, take, embeds, _, todo) => Whole(todo, take, embeds)
    case _ => true
  }

  /** A conserving operation publishes exactly the rows it found if and only if every partition it
      re-embeds goes over whole. */
  lemma ConservesExactly(scheme: Scheme, cat: Catalog, a: Action)
    requires Inv(scheme, cat) && Computes(scheme, cat, a) && Conserving(a) && Proposed(cat, a).Some?
    ensures multiset(AllRows(Proposed(cat, a).value.parts)) == multiset(AllRows(Live(cat).parts)) <==> EmbedsWhole(a)
  {
    var live := Live(cat);
    match a {
      case Canarying(g, take, embeds, keep, todo) => StepConservesExactly(live.parts, g, keep, todo, take, embeds);
      case Migrate(g, take, embeds, keep, todo) => StepConservesExactly(live.parts, g, keep, todo, take, embeds);
      case _ =>
    }
  }

  /** An ingest publishes what was there and the batch, and nothing else. */
  lemma IngestAddsTheBatch(scheme: Scheme, cat: Catalog, a: Action)
    requires Inv(scheme, cat) && Computes(scheme, cat, a) && a.Ingest? && Proposed(cat, a).Some?
    ensures multiset(AllRows(Proposed(cat, a).value.parts)) == multiset(AllRows(Live(cat).parts)) + multiset(a.batch)
  {
    AllRowsConcat(Live(cat).parts, NewEntries(a.written));
  }

  // --- the active generation ---

  /** New writes have a generation to encode under. */
  predicate ActiveOnRecord(cat: Catalog)
    requires cat.current in cat.snapshots
  {
    Live(cat).active.Some? ==> Live(cat).active.value in cat.records
  }

  predicate Publishes(cat: Catalog, a: Action, cut: Cut)
    requires cat.current in cat.snapshots
  {
    Proposed(cat, a).Some? && (cut.Committed? || cut.Finished?)
  }

  /** Only a rollback can leave the active generation off the record, and it does so exactly when its
      target's active generation has been retired. */
  lemma ActiveKeptExactly(scheme: Scheme, cat: Catalog, a: Action, cut: Cut)
    requires Inv(scheme, cat) && Computes(scheme, cat, a) && ActiveOnRecord(cat)
    ensures Step(cat, a, cut).current in Step(cat, a, cut).snapshots
    ensures ActiveOnRecord(Step(cat, a, cut)) <==>
            !(a.Rollback? && Publishes(cat, a, cut) && cat.snapshots[a.to].active.Some? && cat.snapshots[a.to].active.value !in cat.records)
  {
    StepKeepsCurrent(cat, a, cut);
  }

  /** Retirement looks only at generations parts are encoded under, so it may retire one that an older
      snapshot still names as active; rolling back to that snapshot then refuses every ingest. */
  lemma RetireThenRollbackRefusesIngest(scheme: Scheme, cat: Catalog, g: nat, to: nat, trained: nat, batch: seq<Row>, written: seq<Part>)
    requires Inv(scheme, cat) && to in cat.snapshots && to <= cat.current && cat.snapshots[to].active == Some(g)
    requires Live(cat).active != Some(g) && forall id | id in cat.snapshots :: !InUse(cat.snapshots[id], g)
    ensures var retired := Step(cat, Retire(g), Finished);
            && to in retired.snapshots && retired.current in retired.snapshots
            && var rolled := Step(retired, Rollback(to), Finished);
               && rolled.current in rolled.snapshots && !ActiveOnRecord(rolled)
               && Proposed(rolled, Ingest(trained, batch, written)).None?
  {
    var retired := Step(cat, Retire(g), Finished);
    assert retired.snapshots[to] == cat.snapshots[to];
    StepKeepsCurrent(cat, Retire(g), Finished);
    StepKeepsCurrent(retired, Rollback(to), Finished);
  }

  /** A generation marked active is the one new writes encode under. */
  ghost predicate StatesAgree(snap: Snapshot) {
    forall g | g in snap.states && snap.states[g] == Active :: snap.active == Some(g)
  }

  /** Promotion, installation and migration move the mark with the generation. Every operation keeps the
      marks in agreement except the two that change the active generation without touching them: a
      rollback or a re-embedding, exactly when the generation left behind was marked. */
  lemma StatesAgreeExactly(cat: Catalog, a: Action)
    requires cat.current in cat.snapshots && StatesAgree(Live(cat)) && Proposed(cat, a).Some?
    ensures var next := Proposed(cat, a).value;
            && ((a.Promote? || a.Install? || a.Migrate?) ==> next.active == Some(a.g) && a.g in next.states && next.states[a.g] == Active)
            && (StatesAgree(next) <==>
                !((a.Rollback? || a.Reembed?) && exists g :: g in Live(cat).states && Live(cat).states[g] == Active && next.active != Some(g)))
  {
  }

  // --- partitioning a batch ---

  lemma {:induction false} NewEntriesRows(a: seq<Part>, p: Part)
    ensures AllRows(NewEntries(a + [p])) == AllRows(NewEntries(a)) + p.rows
  {
    assert NewEntries(a + [p]) == NewEntries(a) + [Entry0(p)];
    assert NewEntries(a + [p])[..|a|] == NewEntries(a);
  }

  lemma {:induction false} GrownPart(parts: seq<Part>, i: nat, r: Row)
    requires i < |parts|
    ensures multiset(AllRows(NewEntries(parts[i := Part(parts[i].key, parts[i].rows + [r])]))) == multiset(AllRows(NewEntries(parts))) + multiset{r}
  {
    var n := |parts| - 1;
    var q := Part(parts[i].key, parts[i].rows + [r]);
    assert parts == parts[..n] + [parts[n]];
    NewEntriesRows(parts[..n], parts[n]);
    if i < n {
      assert parts[i := q] == parts[..n][i := q] + [parts[n]];
      NewEntriesRows(parts[..n][i := q], parts[n]);
      GrownPart(parts[..n], i, r);
    } else {
      assert parts[i := q] == parts[..n] + [q];
      NewEntriesRows(parts[..n], q);
    }
  }

  ghost predicate OnePerPartition(parts: seq<Part>) {
    forall i, j | 0 <= i < j < |parts| :: parts[i].key != parts[j].key
  }

  lemma BufferedOld(scheme: Scheme, g: nat, done: seq<Row>, parts: seq<Part>, i: nat, r: Row)
    requires Splits(scheme, g, done, parts) && i < |parts| && parts[i].key == KeyFor(scheme, g, r)
    ensures Splits(scheme, g, done + [r], parts[i := Part(parts[i].key, parts[i].rows + [r])])
  {
    GrownPart(parts, i, r);
    assert parts[i] in parts;
    var qs := parts[i := Part(parts[i].key, parts[i].rows + [r])];
    forall p | p in qs ensures p.key.generation == g && Pure(scheme, p) {
      var k :| 0 <= k < |qs| && qs[k] == p;
      assert parts[k] in parts;
    }
  }

  lemma BufferedNew(scheme: Scheme, g: nat, done: seq<Row>, parts: seq<Part>, r: Row)
    requires Splits(scheme, g, done, parts)
    ensures Splits(scheme, g, done + [r], parts + [Part(KeyFor(scheme, g, r), [r])])
  {
    NewEntriesRows(parts, Part(KeyFor(scheme, g, r), [r]));
  }

  /** The write path's buffering: each row goes to the part of its own partition. */
  method PartitionRows(scheme: Scheme, g: nat, rows: seq<Row>) returns (written: seq<Part>)
    ensures Splits(scheme, g, rows, written) && OnePerPartition(written)
  {
    written := [];
    ghost var done: seq<Row> := [];
    for k := 0 to |rows|
      invariant done == rows[..k]
      invariant Splits(scheme, g, done, written) && OnePerPartition(written)
    {
      written, done := Buffer(scheme, g, done, written, rows[k]);
    }
    assert rows[..|rows|] == rows;
  }

  method Buffer(scheme: Scheme, g: nat, ghost done: seq<Row>, parts: seq<Part>, r: Row)
    returns (written: seq<Part>, ghost done': seq<Row>)
    requires Splits(scheme, g, done, parts) && OnePerPartition(parts)
    ensures done' == done + [r] && Splits(scheme, g, done', written) && OnePerPartition(written)
  {
    done' := done + [r];
    var key := KeyFor(scheme, g, r);
    var i := 0;
    while i < |parts| && parts[i].key != key
      invariant i <= |parts| && forall k | 0 <= k < i :: parts[k].key != key
    {
      i := i + 1;
    }
    if i < |parts| {
      BufferedOld(scheme, g, done, parts, i, r);
      written := parts[i := Part(key, parts[i].rows + [r])];
    } else {
      BufferedNew(scheme, g, done, parts, r);
      written := parts + [Part(key, [r])];
    }
  }
}
