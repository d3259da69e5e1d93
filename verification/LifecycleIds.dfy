/** Which events the live snapshot answers with, over every history: where an id comes from, and what
    makes it disappear. */
module LifecycleIds {
  import opened Lists
  import opened Merge
  import opened MergeCycles
  import opened Migration
  import opened Lifecycle
  import opened LifecycleSafety

  ghost predicate InRows(rows: seq<Row>, id: int) {
    exists r :: r in rows && r.id == id
  }

  ghost predicate HasRow(snap: Snapshot, id: int) {
    InRows(AllRows(snap.parts), id)
  }

  /** A row is answered when it is stored and not tombstoned. */
  ghost predicate Shows(snap: Snapshot, id: int) {
    HasRow(snap, id) && id !in snap.tombstones
  }

  // --- rows, parts and entries ---

  lemma PartEntryRows(es: seq<PartEntry>, r: Row) returns (p: Part)
    requires r in AllRows(es)
    ensures p in Map(AsPart, es) && r in p.rows
  {
    var e := RowFrom(es, r);
    var i :| 0 <= i < |es| && es[i] == e;
    p := Map(AsPart, es)[i];
  }

  lemma PartRow(es: seq<PartEntry>, p: Part, r: Row)
    requires p in Map(AsPart, es) && r in p.rows
    ensures r in AllRows(es)
  {
    var i :| 0 <= i < |es| && Map(AsPart, es)[i] == p;
    RowIn(es, es[i], r);
  }

  /** What shows is what a merge would read. */
  lemma ShowsAsEntry(scheme: Scheme, snap: Snapshot, id: int)
    ensures Shows(snap, id) <==> exists e :: e in Entries(scheme, snap.tombstones, Map(AsPart, snap.parts)) && e.row.id == id
  {
    var (dead, parts) := (snap.tombstones, Map(AsPart, snap.parts));
    if Shows(snap, id) {
      var r :| r in AllRows(snap.parts) && r.id == id;
      var p := PartEntryRows(snap.parts, r);
      var e := Entry(KeyFor(scheme, p.key.generation, r), r);
      assert Stored(scheme, dead, p, e);
      Members(scheme, dead, parts, e);
    }
    if e :| e in Entries(scheme, dead, parts) && e.row.id == id {
      Members(scheme, dead, parts, e);
      var p :| p in parts && Stored(scheme, dead, p, e);
      PartRow(snap.parts, p, e.row);
    }
  }

  lemma WrittenRow(written: seq<Part>, r: Row) returns (p: Part)
    requires r in AllRows(NewEntries(written))
    ensures p in written && r in p.rows
  {
    p := PartEntryRows(NewEntries(written), r);
    assert Map(AsPart, NewEntries(written)) == written;
  }

  // --- what the merges do to ids ---

  lemma WrittenWasStored(es: seq<Entry>, written: seq<Part>, r: Row) returns (e: Entry)
    requires (forall p | p in written :: Holds(p, p.key, Merged(es))) && r in AllRows(NewEntries(written))
    ensures e in es && e.row == r
  {
    var p := WrittenRow(written, r);
    assert Holds(p, p.key, Merged(es));
    WinnersAreUnbeaten(es, (p.key, r.id));
    e := Entry(p.key, r);
  }

  lemma StoredIsWritten(es: seq<Entry>, written: seq<Part>, e: Entry) returns (r: Row)
    requires forall p | p in written :: Holds(p, p.key, Merged(es))
    requires (forall s | s in Merged(es) :: exists p :: p in written && p.key == s.0) && e in es
    ensures r in AllRows(NewEntries(written)) && r.id == e.row.id
  {
    var m := Merged(es);
    WinnersAreUnbeaten(es, SlotOf(e));
    r := m[SlotOf(e)];
    var p :| p in written && p.key == SlotOf(e).0;
    assert r in p.rows;
    assert Map(AsPart, NewEntries(written)) == written;
    PartRow(NewEntries(written), p, r);
  }

  /** A full merge answers with exactly the ids it found answered. */
  lemma FullMergeShowsTheSame(scheme: Scheme, live: Snapshot, written: seq<Part>, id: int)
    requires MergesAll(scheme, live, written)
    ensures InRows(AllRows(NewEntries(written)), id) <==> Shows(live, id)
  {
    var es := Entries(scheme, live.tombstones, Map(AsPart, live.parts));
    ShowsAsEntry(scheme, live, id);
    if r :| r in AllRows(NewEntries(written)) && r.id == id {
      var e := WrittenWasStored(es, written, r);
    }
    if e :| e in es && e.row.id == id {
      var r := StoredIsWritten(es, written, e);
    }
  }

  lemma AllLocatedPure(scheme: Scheme, cat: Catalog)
    requires Inv(scheme, cat) && forall e | e in Live(cat).parts :: e.Located?
    ensures AllPure(scheme, Map(AsPart, Live(cat).parts))
  {
    var parts := Live(cat).parts;
    forall p | p in Map(AsPart, parts) ensures Pure(scheme, p) {
      var i :| 0 <= i < |parts| && Map(AsPart, parts)[i] == p;
      assert Readable(scheme, cat.records, parts[i]);
    }
  }

  lemma AfterAsParts(kept: seq<PartEntry>, c: Cycle)
    requires c.kept == Map(AsPart, kept)
    ensures Map(AsPart, kept + NewEntries(Present(c.outs))) == After(c)
  {
  }

  /** So does a tiered one, though it reads only some of the parts and keeps the tombstones. */
  lemma TieredMergeShowsTheSame(scheme: Scheme, cat: Catalog, kept: seq<PartEntry>, c: Cycle, id: int)
    requires Inv(scheme, cat) && Computes(scheme, cat, TieredMerge(kept, c))
    ensures Shows(Live(cat).(parts := kept + NewEntries(Present(c.outs))), id) <==> Shows(Live(cat), id)
  {
    var live := Live(cat);
    var next := live.(parts := kept + NewEntries(Present(c.outs)));
    var dead := live.tombstones;
    AllLocatedPure(scheme, cat);
    AfterAsParts(kept, c);
    CycleCovers(scheme, dead, Map(AsPart, live.parts), c);
    ShowsAsEntry(scheme, live, id);
    ShowsAsEntry(scheme, next, id);
    if e :| e in Entries(scheme, dead, Map(AsPart, live.parts)) && e.row.id == id {
      assert Beats(Entries(scheme, dead, After(c)), e);
      var x :| x in Entries(scheme, dead, After(c)) && SlotOf(x) == SlotOf(e);
      assert x.row.id == id;
    }
  }

  // --- what re-embedding does to ids ---

  /** A row a step leaves: its batch is as it was, or the row embeds. */
  ghost predicate LeftIn(todo: seq<Batch>, take: nat, embeds: Row -> bool, i: nat, r: Row) {
    i < |todo| && r in AllRows(todo[i].parts) && (Idle(todo, take, embeds, i) || embeds(r))
  }

  lemma TakenRows(todo: seq<Batch>, take: nat, g: nat, embeds: Row -> bool, i: nat, r: Row)
    requires i < |todo|
    ensures r in AllRows(Taken(todo, i, take, g, embeds)) <==> LeftIn(todo, take, embeds, i, r)
  {
    var rows := Filter(embeds, AllRows(todo[i].parts));
    FilterMembers(embeds, AllRows(todo[i].parts), r);
    FilterShorter(embeds, AllRows(todo[i].parts));
    AllRowsOne(NewPart(todo[i], g, rows));
  }

  lemma {:induction false} FilterMembers(p: Row -> bool, s: seq<Row>, r: Row)
    ensures r in Filter(p, s) <==> r in s && p(r)
  {
    if s != [] {
      FilterMembers(p, s[..|s| - 1], r);
      assert s == s[..|s| - 1] + [s[|s| - 1]];
    }
  }

  lemma LeftInPrefix(todo: seq<Batch>, take: nat, embeds: Row -> bool, n: nat, i: nat, r: Row)
    requires i < n <= |todo|
    ensures LeftIn(todo[..n], take, embeds, i, r) <==> LeftIn(todo, take, embeds, i, r)
  {
    assert todo[..n][i] == todo[i];
  }

  ghost predicate Left(todo: seq<Batch>, take: nat, embeds: Row -> bool, r: Row) {
    exists i :: LeftIn(todo, take, embeds, i, r)
  }

  lemma LeftSplits(todo: seq<Batch>, take: nat, embeds: Row -> bool, r: Row)
    requires todo != []
    ensures Left(todo, take, embeds, r) <==> Left(todo[..|todo| - 1], take, embeds, r) || LeftIn(todo, take, embeds, |todo| - 1, r)
  {
    var n := |todo| - 1;
    if Left(todo[..n], take, embeds, r) {
      var i :| LeftIn(todo[..n], take, embeds, i, r);
      LeftInPrefix(todo, take, embeds, n, i, r);
    }
    if i: nat :| LeftIn(todo, take, embeds, i, r) && i < n {
      LeftInPrefix(todo, take, embeds, n, i, r);
    }
  }

  lemma {:induction false} ProcessedRow(todo: seq<Batch>, take: nat, g: nat, embeds: Row -> bool, r: Row)
    ensures r in AllRows(Processed(todo, take, g, embeds)) <==> Left(todo, take, embeds, r)
  {
    if todo != [] {
      var n := |todo| - 1;
      ProcessedRow(todo[..n], take, g, embeds, r);
      ProcessedRows(todo, take, g, embeds);
      TakenRows(todo, take, g, embeds, n, r);
      LeftSplits(todo, take, embeds, r);
    }
  }

  /** A canary or migration step keeps `id`: in a part it does not move, or in a row it leaves. */
  ghost predicate Retains(keep: seq<PartEntry>, todo: seq<Batch>, take: nat, embeds: Row -> bool, id: int) {
    InRows(AllRows(keep), id) || exists r :: Left(todo, take, embeds, r) && r.id == id
  }

  lemma MovedShows(live: Snapshot, g: nat, keep: seq<PartEntry>, todo: seq<Batch>, take: nat, embeds: Row -> bool, id: int)
    requires SortedOut(live.parts, g, keep, todo)
    ensures HasRow(live.(parts := keep + Processed(todo, take, g, embeds)), id) <==> Retains(keep, todo, take, embeds, id)
    ensures Retains(keep, todo, take, embeds, id) ==> HasRow(live, id)
  {
    var (stay, moved) := (AllRows(keep), AllRows(Processed(todo, take, g, embeds)));
    AllRowsConcat(keep, Processed(todo, take, g, embeds));
    forall r ensures r in moved <==> Left(todo, take, embeds, r) {
      ProcessedRow(todo, take, g, embeds, r);
    }
    InEither(stay, moved, id);
    AllRowsPermute(live.parts, keep + PartsOf(todo));
    AllRowsConcat(keep, PartsOf(todo));
    ProcessedAddsNothing(todo, take, g, embeds);
    Fewer(stay, moved, AllRows(PartsOf(todo)), AllRows(live.parts), id);
  }

  lemma InEither(a: seq<Row>, b: seq<Row>, id: int)
    ensures InRows(a + b, id) <==> InRows(a, id) || InRows(b, id)
  {
    if r :| r in a && r.id == id {
      assert r in a + b;
    }
    if r :| r in b && r.id == id {
      assert r in a + b;
    }
  }

  lemma Fewer(a: seq<Row>, b: seq<Row>, more: seq<Row>, all: seq<Row>, id: int)
    requires multiset(b) <= multiset(more) && multiset(a + more) == multiset(all)
    ensures InRows(a + b, id) ==> InRows(all, id)
  {
    if r :| r in a + b && r.id == id {
      assert r in multiset(a + b);
      assert r in multiset(a + more);
    }
  }

  ghost predicate SameIds(a: PartEntry, b: PartEntry) {
    |RowsOf(a)| == |RowsOf(b)| && forall k | 0 <= k < |RowsOf(a)| :: RowsOf(a)[k].id == RowsOf(b)[k].id
  }

  lemma BlankedBack(es: seq<PartEntry>, f: PartEntry -> PartEntry, id: int)
    requires forall e :: SameIds(e, f(e))
    ensures InRows(AllRows(Map(f, es)), id) ==> InRows(AllRows(es), id)
  {
    if r :| r in AllRows(Map(f, es)) && r.id == id {
      var e := RowFrom(Map(f, es), r);
      var i :| 0 <= i < |es| && Map(f, es)[i] == e;
      var k :| 0 <= k < |RowsOf(e)| && RowsOf(e)[k] == r;
      assert SameIds(es[i], f(es[i]));
      RowIn(es, es[i], RowsOf(es[i])[k]);
    }
  }

  lemma BlankedForth(es: seq<PartEntry>, f: PartEntry -> PartEntry, id: int)
    requires forall e :: SameIds(e, f(e))
    ensures InRows(AllRows(es), id) ==> InRows(AllRows(Map(f, es)), id)
  {
    if r :| r in AllRows(es) && r.id == id {
      var e := RowFrom(es, r);
      var i :| 0 <= i < |es| && es[i] == e;
      var k :| 0 <= k < |RowsOf(e)| && RowsOf(e)[k] == r;
      assert SameIds(e, f(e));
      RowIn(Map(f, es), Map(f, es)[i], RowsOf(f(e))[k]);
    }
  }

  /** Redaction changes no id. */
  lemma BlankedRows(es: seq<PartEntry>, expired: PartEntry -> bool, blank: Row -> Row, id: int)
    requires forall r :: blank(r).id == r.id
    ensures InRows(AllRows(Map(Blanked(expired, blank), es)), id) <==> InRows(AllRows(es), id)
  {
    var f := Blanked(expired, blank);
    forall e ensures SameIds(e, f(e)) {
      if e.Located? {
        assert forall k | 0 <= k < |e.part.rows| :: Map(blank, e.part.rows)[k] == blank(e.part.rows[k]);
        assert f(e) == e || RowsOf(f(e)) == Map(blank, e.part.rows);
      }
    }
    BlankedBack(es, f, id);
    BlankedForth(es, f, id);
  }

  // --- one operation ---

  lemma SameRows(a: seq<Row>, b: seq<Row>, id: int)
    requires multiset(a) == multiset(b)
    ensures InRows(a, id) <==> InRows(b, id)
  {
    if r :| r in a && r.id == id {
      assert r in multiset(a);
      assert r in multiset(b);
    }
    if r :| r in b && r.id == id {
      assert r in multiset(b);
      assert r in multiset(a);
    }
  }

  /** The operation brings `id` in: an ingest of it, or a rollback to a snapshot that stores it, while no
      tombstone hides it. */
  ghost predicate Appears(cat: Catalog, a: Action, id: int)
    requires cat.current in cat.snapshots
  {
    && id !in Live(cat).tombstones
    && match a
       case Ingest(_, batch, _) => InRows(batch, id)
       case Rollback(to) => to in cat.snapshots && HasRow(cat.snapshots[to], id)
       case _ => false
  }

  /** The operation takes `id` away: a deletion of it, a rollback to a snapshot without it, or a re-embedding
      that drops its last row. */
  ghost predicate Vanishes(cat: Catalog, a: Action, id: int) {
    match a
    case Delete(ids) => id in ids
    case Rollback(to) => !(to in cat.snapshots && HasRow(cat.snapshots[to], id))
    case Canarying(_, take, embeds, keep, todo) => !Retains(keep, todo, take, embeds, id)
    case Migrate(_, take, embeds, keep, todo) => !Retains(keep, todo, take, embeds, id)
    case _ => false
  }

  lemma IngestShows(scheme: Scheme, cat: Catalog, a: Action, id: int)
    requires Inv(scheme, cat) && Computes(scheme, cat, a) && a.Ingest? && Proposed(cat, a).Some?
    ensures HasRow(Proposed(cat, a).value, id) <==> HasRow(Live(cat), id) || InRows(a.batch, id)
  {
    var live := Live(cat);
    var brought := AllRows(NewEntries(a.written));
    AllRowsConcat(live.parts, NewEntries(a.written));
    SameRows(brought, a.batch, id);
    InEither(AllRows(live.parts), brought, id);
  }

  lemma ReembedShows(scheme: Scheme, cat: Catalog, a: Action, id: int)
    requires Inv(scheme, cat) && Computes(scheme, cat, a) && a.Reembed? && Proposed(cat, a).Some?
    ensures HasRow(Proposed(cat, a).value, id) <==> HasRow(Live(cat), id)
  {
    SameRows(AllRows(NewEntries(a.written)), AllRows(Live(cat).parts), id);
  }

  /** Every operation, for every id: it shows afterwards exactly when the operation brings it in, or it
      showed before and the operation does not take it away. */
  lemma OperationShowsExactly(scheme: Scheme, cat: Catalog, a: Action, id: int)
    requires Inv(scheme, cat) && Computes(scheme, cat, a) && Proposed(cat, a).Some?
    ensures Shows(Proposed(cat, a).value, id) <==> Appears(cat, a, id) || (Shows(Live(cat), id) && !Vanishes(cat, a, id))
  {
    var live := Live(cat);
    match a {
      case Ingest(_, _, _) => IngestShows(scheme, cat, a, id);
      case FullMerge(written) => FullMergeShowsTheSame(scheme, live, written, id);
      case TieredMerge(kept, c) => TieredMergeShowsTheSame(scheme, cat, kept, c, id);
      case Reembed(_, _) => ReembedShows(scheme, cat, a, id);
      case Canarying(g, take, embeds, keep, todo) => MovedShows(live, g, keep, todo, take, embeds, id);
      case Migrate(g, take, embeds, keep, todo) => MovedShows(live, g, keep, todo, take, embeds, id);
      case Redact(expired, blank) => BlankedRows(live.parts, expired, blank, id);
      case _ =>
    }
  }

  // --- every history ---

  ghost predicate PublishedAt(events: seq<Event>, i: nat) {
    i < |events| && Proposed(Play(events[..i]), events[i].action).Some? && !events[i].action.Collect?
    && (events[i].cut.Committed? || events[i].cut.Finished?)
  }

  ghost predicate AppearsAt(events: seq<Event>, i: nat, id: int) {
    PublishedAt(events, i) && Appears(Play(events[..i]), events[i].action, id)
  }

  ghost predicate VanishesAt(events: seq<Event>, i: nat, id: int) {
    PublishedAt(events, i) && Vanishes(Play(events[..i]), events[i].action, id)
  }

  /** `id` came in at `i` and nothing since has taken it away. */
  ghost predicate ShownSince(events: seq<Event>, i: nat, id: int) {
    AppearsAt(events, i, id) && forall j: nat | i < j < |events| :: !VanishesAt(events, j, id)
  }

  ghost predicate Shown(events: seq<Event>, id: int) {
    exists i: nat :: ShownSince(events, i, id)
  }

  ghost predicate DeletedAt(events: seq<Event>, i: nat, id: int) {
    PublishedAt(events, i) && events[i].action.Delete? && id in events[i].action.ids
  }

  ghost predicate ClearedAt(events: seq<Event>, i: nat) {
    PublishedAt(events, i) && events[i].action.FullMerge?
  }

  /** `id` was deleted at `i` and no full merge has cleared the tombstones since. */
  ghost predicate HiddenSince(events: seq<Event>, i: nat, id: int) {
    DeletedAt(events, i, id) && forall j: nat | i < j < |events| :: !ClearedAt(events, j)
  }

  ghost predicate Hidden(events: seq<Event>, id: int) {
    exists i: nat :: HiddenSince(events, i, id)
  }

  lemma LiveAfter(cat: Catalog, a: Action, cut: Cut)
    requires cat.current in cat.snapshots
    ensures Step(cat, a, cut).current in Step(cat, a, cut).snapshots
    ensures Live(Step(cat, a, cut)) ==
            if Proposed(cat, a).Some? && !a.Collect? && (cut.Committed? || cut.Finished?) then Proposed(cat, a).value else Live(cat)
  {
  }

  lemma PrefixAgrees(events: seq<Event>, n: nat, i: nat, id: int)
    requires i < n <= |events|
    ensures PublishedAt(events[..n], i) <==> PublishedAt(events, i)
    ensures AppearsAt(events[..n], i, id) <==> AppearsAt(events, i, id)
    ensures VanishesAt(events[..n], i, id) <==> VanishesAt(events, i, id)
    ensures DeletedAt(events[..n], i, id) <==> DeletedAt(events, i, id)
    ensures ClearedAt(events[..n], i) <==> ClearedAt(events, i)
  {
    assert events[..n][..i] == events[..i] && events[..n][i] == events[i];
  }

  lemma ShownPrefix(events: seq<Event>, i: nat, id: int)
    requires i < |events| - 1
    ensures var n := |events| - 1; ShownSince(events, i, id) <==> ShownSince(events[..n], i, id) && !VanishesAt(events, n, id)
  {
    var n := |events| - 1;
    PrefixAgrees(events, n, i, id);
    forall j: nat | i < j < n ensures VanishesAt(events[..n], j, id) <==> VanishesAt(events, j, id) {
      PrefixAgrees(events, n, j, id);
    }
  }

  lemma ShownSplits(events: seq<Event>, id: int)
    requires events != []
    ensures var n := |events| - 1;
            Shown(events, id) <==> AppearsAt(events, n, id) || (Shown(events[..n], id) && !VanishesAt(events, n, id))
  {
    var n := |events| - 1;
    forall i: nat | i < n ensures ShownSince(events, i, id) <==> ShownSince(events[..n], i, id) && !VanishesAt(events, n, id) {
      ShownPrefix(events, i, id);
    }
    if AppearsAt(events, n, id) {
      assert ShownSince(events, n, id);
    }
    if i: nat :| ShownSince(events[..n], i, id) {
      assert i < n;
    }
  }

  lemma HiddenPrefix(events: seq<Event>, i: nat, id: int)
    requires i < |events| - 1
    ensures var n := |events| - 1; HiddenSince(events, i, id) <==> HiddenSince(events[..n], i, id) && !ClearedAt(events, n)
  {
    var n := |events| - 1;
    PrefixAgrees(events, n, i, id);
    forall j: nat | i < j < n ensures ClearedAt(events[..n], j) <==> ClearedAt(events, j) {
      PrefixAgrees(events, n, j, id);
    }
  }

  lemma HiddenSplits(events: seq<Event>, id: int)
    requires events != []
    ensures var n := |events| - 1;
            Hidden(events, id) <==> DeletedAt(events, n, id) || (Hidden(events[..n], id) && !ClearedAt(events, n))
  {
    var n := |events| - 1;
    forall i: nat | i < n ensures HiddenSince(events, i, id) <==> HiddenSince(events[..n], i, id) && !ClearedAt(events, n) {
      HiddenPrefix(events, i, id);
    }
    if DeletedAt(events, n, id) {
      assert HiddenSince(events, n, id);
    }
    if i: nat :| HiddenSince(events[..n], i, id) {
      assert i < n;
    }
  }

  /** Over every history, crashes included: the live snapshot answers with `id` if and only if some
      published ingest or rollback brought it in while no tombstone hid it, and no published operation
      since has taken it away. Merges, promotions, retirements and collections never do. */
  lemma {:induction false} ShownExactly(scheme: Scheme, events: seq<Event>, id: int)
    requires History(scheme, events)
    ensures Shows(Live(Play(events)), id) <==> Shown(events, id)
  {
    if events != [] {
      var n := |events| - 1;
      var (cat, e) := (Play(events[..n]), events[n]);
      ShownExactly(scheme, events[..n], id);
      EverySnapshotStaysReadable(scheme, events[..n]);
      ShownSplits(events, id);
      LiveAfter(cat, e.action, e.cut);
      if PublishedAt(events, n) {
        OperationShowsExactly(scheme, cat, e.action, id);
      }
    }
  }

  lemma OperationTombstones(cat: Catalog, a: Action, id: int)
    requires cat.current in cat.snapshots && Proposed(cat, a).Some?
    ensures id in Proposed(cat, a).value.tombstones <==>
            (a.Delete? && id in a.ids) || (id in Live(cat).tombstones && !a.FullMerge?)
  {
  }

  /** Over every history, `id` is tombstoned if and only if it was deleted and no full merge has been
      published since. */
  lemma {:induction false} TombstonedExactly(events: seq<Event>, id: int)
    ensures id in Live(Play(events)).tombstones <==> Hidden(events, id)
  {
    if events != [] {
      var n := |events| - 1;
      var (cat, e) := (Play(events[..n]), events[n]);
      TombstonedExactly(events[..n], id);
      HiddenSplits(events, id);
      LiveAfter(cat, e.action, e.cut);
      if PublishedAt(events, n) {
        OperationTombstones(cat, e.action, id);
      }
    }
  }

  lemma PlayMore(events: seq<Event>, e: Event)
    ensures Play(events + [e]) == Step(Play(events), e.action, e.cut)
  {
    assert (events + [e])[..|events|] == events;
  }

  /** Every deletion of `id` was followed by a full merge. */
  ghost predicate AllCleared(events: seq<Event>, id: int) {
    forall i: nat | DeletedAt(events, i, id) :: exists j: nat :: i < j < |events| && ClearedAt(events, j)
  }

  lemma ClearedIsNotHidden(events: seq<Event>, id: int)
    ensures AllCleared(events, id) <==> !Hidden(events, id)
  {
    if Hidden(events, id) {
      var i: nat :| HiddenSince(events, i, id);
    } else {
      forall i: nat | DeletedAt(events, i, id) ensures exists j: nat :: i < j < |events| && ClearedAt(events, j) {
        assert !HiddenSince(events, i, id);
      }
    }
  }

  /** When a deleted event comes back: after any history, a rollback shows an id if and only if its target
      stores it and every deletion of it was followed by a full merge, which cleared the tombstone. */
  lemma RollbackShowsExactly(events: seq<Event>, to: nat, id: int)
    requires to in Play(events).snapshots
    ensures Shows(Live(Play(events + [Event(Rollback(to), Finished)])), id) <==>
            HasRow(Play(events).snapshots[to], id) && AllCleared(events, id)
  {
    PlayMore(events, Event(Rollback(to), Finished));
    RolledBack(Play(events), to, id);
    TombstonedExactly(events, id);
    ClearedIsNotHidden(events, id);
  }

  lemma RolledBack(cat: Catalog, to: nat, id: int)
    requires cat.current in cat.snapshots && to in cat.snapshots
    ensures Step(cat, Rollback(to), Finished).current in Step(cat, Rollback(to), Finished).snapshots
    ensures Shows(Live(Step(cat, Rollback(to), Finished)), id) <==> HasRow(cat.snapshots[to], id) && id !in Live(cat).tombstones
  {
    LiveAfter(cat, Rollback(to), Finished);
  }

  /** So a full merge between a deletion and a rollback brings the deleted event back. */
  lemma MergeThenRollbackUndeletes(cat: Catalog, written: seq<Part>, id: int)
    requires cat.current in cat.snapshots && OnRecord(cat.records, written)
    requires HasRow(Live(cat), id) && id in Live(cat).tombstones
    ensures !Shows(Live(cat), id)
    ensures var merged := Step(cat, FullMerge(written), Finished);
            && merged.current in merged.snapshots && cat.current in merged.snapshots
            && Shows(Proposed(merged, Rollback(cat.current)).value, id)
  {
    StepKeepsCurrent(cat, FullMerge(written), Finished);
  }

  // --- redact, merge, migrate ---

  lemma KeptEntry(es: seq<PartEntry>, g: nat, keep: seq<PartEntry>, todo: seq<Batch>, e: PartEntry)
    requires SortedOut(es, g, keep, todo) && e in es && !Migratable(e, g)
    ensures e in keep
  {
    assert e in multiset(es);
    assert e in multiset(keep + PartsOf(todo));
    if e in PartsOf(todo) {
      ListedIsMigratable(todo, g, e);
    }
  }

  lemma ListedIsMigratable(todo: seq<Batch>, g: nat, e: PartEntry)
    requires (forall i | 0 <= i < |todo| :: BatchOk(todo[i], g)) && e in PartsOf(todo)
    ensures Migratable(e, g)
  {
    var i := BatchOf(todo, e);
    assert BatchOk(todo[i], g);
  }

  /** Migration leaves a redacted part alone, so its events stay. */
  lemma RedactedIsKept(live: Snapshot, g: nat, keep: seq<PartEntry>, todo: seq<Batch>, take: nat, embeds: Row -> bool, e: PartEntry, r: Row)
    requires SortedOut(live.parts, g, keep, todo) && e in live.parts && e.Located? && e.redacted && r in e.part.rows
    ensures HasRow(live.(parts := keep + Processed(todo, take, g, embeds)), r.id)
  {
    KeptEntry(live.parts, g, keep, todo, e);
    RowIn(keep, e, r);
    MovedShows(live, g, keep, todo, take, embeds, r.id);
  }

  /** Among the winners `m`, `id` is only in partition `key`, where its row does not embed and another's does. */
  ghost predicate Exposed(m: map<Slot, Row>, embeds: Row -> bool, key: PartitionKey, id: int, other: int) {
    && (key, id) in m && !embeds(m[(key, id)])
    && (key, other) in m && embeds(m[(key, other)]) && m[(key, other)].id == other
    && forall k | (k, id) in m :: k == key
  }

  lemma WrittenUnder(m: map<Slot, Row>, written: seq<Part>, embeds: Row -> bool, key: PartitionKey, id: int, other: int, e: PartEntry, r: Row)
    requires (forall p | p in written :: Holds(p, p.key, m)) && Exposed(m, embeds, key, id, other)
    requires e in NewEntries(written) && r in RowsOf(e) && r.id == id
    ensures e.Located? && !e.redacted && e.part.key == key && r == m[(key, id)] && m[(key, other)] in e.part.rows
  {
    var i :| 0 <= i < |written| && NewEntries(written)[i] == e;
    var p := written[i];
    assert p in written && Holds(p, p.key, m);
    assert (p.key, r.id) in m;
  }

  lemma SortedOutEntry(es: seq<PartEntry>, g: nat, keep: seq<PartEntry>, todo: seq<Batch>, e: PartEntry)
    requires SortedOut(es, g, keep, todo) && e in keep
    ensures e in es && !Migratable(e, g)
  {
    assert e in multiset(keep + PartsOf(todo));
    assert e in multiset(es);
  }

  lemma ExposedIsDropped(es: seq<PartEntry>, m: map<Slot, Row>, written: seq<Part>, g: nat, keep: seq<PartEntry>, todo: seq<Batch>, take: nat,
                         embeds: Row -> bool, key: PartitionKey, id: int, other: int)
    requires (forall p | p in written :: Holds(p, p.key, m)) && Exposed(m, embeds, key, id, other) && key.generation != g
    requires es == NewEntries(written) && SortedOut(es, g, keep, todo) && take >= |todo|
    ensures !Retains(keep, todo, take, embeds, id)
  {
    if r :| r in AllRows(keep) && r.id == id {
      var e := RowFrom(keep, r);
      SortedOutEntry(es, g, keep, todo, e);
      WrittenUnder(m, written, embeds, key, id, other, e, r);
    }
    if r :| Left(todo, take, embeds, r) && r.id == id {
      var i: nat :| LeftIn(todo, take, embeds, i, r);
      var e := RowFrom(todo[i].parts, r);
      BatchEntry(es, g, keep, todo, i, e);
      WrittenUnder(m, written, embeds, key, id, other, e, r);
      RowIn(todo[i].parts, e, m[(key, other)]);
    }
  }

  /** A full merge clears the redaction mark, and with it the protection: a redacted event that every
      migration would have left alone is dropped by the first one after a full merge, when its row no
      longer embeds and another row of its partition does. */
  lemma MergeExposesRedacted(scheme: Scheme, live: Snapshot, written: seq<Part>, g: nat, keep: seq<PartEntry>, todo: seq<Batch>, take: nat,
                             embeds: Row -> bool, key: PartitionKey, id: int, other: int)
    requires MergesAll(scheme, live, written) && key.generation != g
    requires Exposed(Merged(Entries(scheme, live.tombstones, Map(AsPart, live.parts))), embeds, key, id, other)
    requires SortedOut(NewEntries(written), g, keep, todo) && take >= |todo|
    ensures Shows(live, id) && HasRow(live.(parts := NewEntries(written)), id)
    ensures !HasRow(live.(parts := keep + Processed(todo, take, g, embeds)), id)
  {
    var es := Entries(scheme, live.tombstones, Map(AsPart, live.parts));
    WinnersAreUnbeaten(es, (key, id));
    ShowsAsEntry(scheme, live, id);
    FullMergeShowsTheSame(scheme, live, written, id);
    ExposedIsDropped(NewEntries(written), Merged(es), written, g, keep, todo, take, embeds, key, id, other);
    MovedShows(live.(parts := NewEntries(written)), g, keep, todo, take, embeds, id);
  }
}
