/** What every operation of the catalog keeps, over every history. */
module LifecycleSafety {
  import opened Lists
  import opened Merge
  import opened MergeCycles
  import opened Migration
  import opened Lifecycle

  lemma ReadableGrows(scheme: Scheme, records: set<nat>, records': set<nat>, parts: seq<PartEntry>)
    requires AllReadable(scheme, records, parts) && records <= records'
    ensures AllReadable(scheme, records', parts)
  {
    forall e | e in parts ensures Readable(scheme, records', e) {
      assert Readable(scheme, records, e);
    }
  }

  lemma NewReadable(scheme: Scheme, records: set<nat>, written: seq<Part>)
    requires AllPure(scheme, written) && OnRecord(records, written)
    ensures AllReadable(scheme, records, NewEntries(written))
  {
    forall e | e in NewEntries(written) ensures Readable(scheme, records, e) {
      var i :| 0 <= i < |written| && NewEntries(written)[i] == e;
      assert e == Entry0(written[i]) && written[i] in written;
    }
  }

  lemma JoinReadable(scheme: Scheme, records: set<nat>, a: seq<PartEntry>, b: seq<PartEntry>)
    requires AllReadable(scheme, records, a) && AllReadable(scheme, records, b)
    ensures AllReadable(scheme, records, a + b)
  {
  }

  /** A winner of a full merge is filed under the partition it belongs to. */
  lemma MergedPure(scheme: Scheme, snap: Snapshot, p: Part)
    requires Holds(p, p.key, Merged(Entries(scheme, snap.tombstones, Map(AsPart, snap.parts))))
    ensures Pure(scheme, p)
  {
    var parts := Map(AsPart, snap.parts);
    var es := Entries(scheme, snap.tombstones, parts);
    forall r | r in p.rows ensures KeyFor(scheme, p.key.generation, r) == p.key {
      WinnersAreUnbeaten(es, (p.key, r.id));
      Members(scheme, snap.tombstones, parts, Entry(p.key, r));
    }
  }

  lemma TieredPure(scheme: Scheme, snap: Snapshot, c: Cycle)
    requires (forall e | e in snap.parts :: e.Located? && Pure(scheme, e.part)) && Runs(scheme, snap.tombstones, Map(AsPart, snap.parts), c)
    ensures AllPure(scheme, Present(c.outs))
  {
    var parts := Map(AsPart, snap.parts);
    forall p | p in parts ensures Pure(scheme, p) {
      var i :| 0 <= i < |parts| && parts[i] == p;
      assert snap.parts[i] in snap.parts && p == AsPart(snap.parts[i]);
    }
    CycleKeepsPure(scheme, snap.tombstones, parts, c);
    forall p | p in Present(c.outs) ensures Pure(scheme, p) {
      assert p in After(c);
    }
  }

  lemma {:induction false} BatchRows(scheme: Scheme, key: PartitionKey, parts: seq<PartEntry>, r: Row)
    requires (forall e | e in parts :: e.Located? && e.part.key == key && Pure(scheme, e.part)) && r in AllRows(parts)
    ensures KeyFor(scheme, key.generation, r) == key
  {
    var n := |parts| - 1;
    assert parts[n] in parts;
    if r in AllRows(parts[..n]) {
      BatchRows(scheme, key, parts[..n], r);
    }
  }

  /** Moving a partition to another generation keeps every row in its own partition. */
  lemma OutcomeReadable(scheme: Scheme, records: set<nat>, b: Batch, g: nat, embeds: Row -> bool)
    requires BatchOk(b, g) && AllReadable(scheme, records, b.parts) && g in records
    ensures AllReadable(scheme, records, Outcome(b, g, embeds))
  {
    var rows := Filter(embeds, AllRows(b.parts));
    if rows != [] {
      var p := NewPart(b, g, rows).part;
      forall r | r in p.rows ensures KeyFor(scheme, g, r) == p.key {
        assert r in AllRows(b.parts);
        forall e | e in b.parts ensures Pure(scheme, e.part) {
          assert Readable(scheme, records, e);
        }
        BatchRows(scheme, b.key, b.parts, r);
      }
    }
  }

  lemma {:induction false} ProcessedReadable(scheme: Scheme, records: set<nat>, todo: seq<Batch>, take: nat, g: nat, embeds: Row -> bool)
    requires (forall i | 0 <= i < |todo| :: BatchOk(todo[i], g) && AllReadable(scheme, records, todo[i].parts)) && g in records
    ensures AllReadable(scheme, records, Processed(todo, take, g, embeds))
  {
    if todo != [] {
      var n := |todo| - 1;
      assert forall i | 0 <= i < n :: todo[..n][i] == todo[i];
      ProcessedReadable(scheme, records, todo[..n], take, g, embeds);
      OutcomeReadable(scheme, records, todo[n], g, embeds);
    }
  }

  lemma MovedReadable(scheme: Scheme, records: set<nat>, parts: seq<PartEntry>, g: nat, keep: seq<PartEntry>, todo: seq<Batch>, take: nat, embeds: Row -> bool)
    requires AllReadable(scheme, records, parts) && SortedOut(parts, g, keep, todo) && g in records
    ensures AllReadable(scheme, records, keep + Processed(todo, take, g, embeds))
  {
    forall e | e in keep ensures Readable(scheme, records, e) {
      assert e in multiset(keep + PartsOf(todo));
      assert e in multiset(parts);
    }
    forall i | 0 <= i < |todo| ensures BatchOk(todo[i], g) && AllReadable(scheme, records, todo[i].parts) {
      forall e | e in todo[i].parts ensures Readable(scheme, records, e) {
        BatchParts(todo, i, e);
        assert e in multiset(keep + PartsOf(todo));
        assert e in multiset(parts);
      }
    }
    ProcessedReadable(scheme, records, todo, take, g, embeds);
    JoinReadable(scheme, records, keep, Processed(todo, take, g, embeds));
  }

  lemma BlankedReadable(scheme: Scheme, records: set<nat>, parts: seq<PartEntry>, expired: PartEntry -> bool, blank: Row -> Row)
    requires AllReadable(scheme, records, parts)
    requires forall r :: blank(r).tenant == r.tenant && blank(r).time == r.time
    ensures AllReadable(scheme, records, Map(Blanked(expired, blank), parts))
  {
    var out := Map(Blanked(expired, blank), parts);
    forall e | e in out ensures Readable(scheme, records, e) {
      var i :| 0 <= i < |out| && out[i] == e;
      assert parts[i] in parts && Readable(scheme, records, parts[i]);
      if e.Located? {
        forall r | r in e.part.rows ensures KeyFor(scheme, e.part.key.generation, r) == e.part.key {
          var j :| 0 <= j < |e.part.rows| && e.part.rows[j] == r;
          assert parts[i].part.rows[j] in parts[i].part.rows;
        }
      }
    }
  }

  /** Whatever an operation proposes, its parts are readable under the records it will find. */
  lemma ProposedReadable(scheme: Scheme, cat: Catalog, a: Action)
    requires Inv(scheme, cat) && Computes(scheme, cat, a) && Proposed(cat, a).Some?
    ensures AllReadable(scheme, RecordsFirst(cat, a), Proposed(cat, a).value.parts)
  {
    var live := Live(cat);
    var records := RecordsFirst(cat, a);
    ReadableGrows(scheme, cat.records, records, live.parts);
    match a {
      case Ingest(trained, batch, written) =>
        NewReadable(scheme, records, written);
        JoinReadable(scheme, records, live.parts, NewEntries(written));
      case FullMerge(written) =>
        forall p | p in written ensures Pure(scheme, p) {
          MergedPure(scheme, live, p);
        }
        NewReadable(scheme, records, written);
      case TieredMerge(kept, c) =>
        TieredReadable(scheme, cat, kept, c);
      case Reembed(g, written) =>
        NewReadable(scheme, records, written);
      case Canarying(g, take, embeds, keep, todo) =>
        MovedReadable(scheme, records, live.parts, g, keep, todo, take, embeds);
      case Migrate(g, take, embeds, keep, todo) =>
        MovedReadable(scheme, records, live.parts, g, keep, todo, take, embeds);
      case Redact(expired, blank) =>
        BlankedReadable(scheme, records, live.parts, expired, blank);
      case _ =>
    }
  }

  lemma TieredReadable(scheme: Scheme, cat: Catalog, kept: seq<PartEntry>, c: Cycle)
    requires Inv(scheme, cat) && Computes(scheme, cat, TieredMerge(kept, c)) && OnRecord(cat.records, Present(c.outs))
    ensures AllReadable(scheme, cat.records, kept + NewEntries(Present(c.outs)))
  {
    var live := Live(cat);
    forall e | e in live.parts ensures e.Located? && Pure(scheme, e.part) {
      assert Readable(scheme, cat.records, e);
    }
    TieredPure(scheme, live, c);
    NewReadable(scheme, cat.records, Present(c.outs));
    JoinReadable(scheme, cat.records, kept, NewEntries(Present(c.outs)));
  }

  /** Retiring a generation nobody's parts are in leaves everyone's parts readable. */
  lemma RetiredReadable(scheme: Scheme, records: set<nat>, snap: Snapshot, g: nat)
    requires AllReadable(scheme, records, snap.parts) && !InUse(snap, g)
    ensures AllReadable(scheme, records - {g}, snap.parts)
  {
    forall e | e in snap.parts ensures Readable(scheme, records - {g}, e) {
      assert Readable(scheme, records, e);
    }
  }

  lemma RetireKeeps(scheme: Scheme, cat: Catalog, g: nat)
    requires Inv(scheme, cat) && Proposed(cat, Retire(g)).Some?
    ensures Inv(scheme, Step(cat, Retire(g), Finished))
  {
    var cat' := Step(cat, Retire(g), Finished);
    forall id | id in cat'.snapshots ensures AllReadable(scheme, cat'.records, cat'.snapshots[id].parts) {
      var from := if id == cat.current + 1 then cat.current else id;
      assert !InUse(cat.snapshots[from], g);
      RetiredReadable(scheme, cat.records, cat.snapshots[from], g);
    }
  }

  /** Every operation, wherever it dies, leaves every snapshot readable. */
  lemma StepKeepsReadable(scheme: Scheme, cat: Catalog, a: Action, cut: Cut)
    requires Inv(scheme, cat) && Computes(scheme, cat, a)
    ensures Inv(scheme, Step(cat, a, cut))
  {
    var cat' := Step(cat, a, cut);
    if a.Collect? || Proposed(cat, a).None? || cut.Before? {
      forall id | id in cat'.snapshots ensures AllReadable(scheme, cat'.records, cat'.snapshots[id].parts) {
        assert id in cat.snapshots;
      }
    } else if a.Retire? && cut.Finished? {
      RetireKeeps(scheme, cat, a.g);
    } else {
      ProposedReadable(scheme, cat, a);
      forall id | id in cat'.snapshots ensures AllReadable(scheme, cat'.records, cat'.snapshots[id].parts) {
        if id in cat.snapshots {
          ReadableGrows(scheme, cat.records, cat'.records, cat.snapshots[id].parts);
        }
      }
    }
  }

  // --- what the operations leave, entry by entry ---

  /** A redaction's outcome for one entry: a located, unredacted part that has expired keeps its key and
      has each row blanked in its place; any other entry is untouched. */
  predicate Redacts(e: PartEntry, e': PartEntry, expired: PartEntry -> bool, blank: Row -> Row) {
    if e.Located? && !e.redacted && expired(e) then
      && e'.Located? && e'.redacted && e'.part.key == e.part.key && |e'.part.rows| == |e.part.rows|
      && forall k | 0 <= k < |e.part.rows| :: e'.part.rows[k] == blank(e.part.rows[k])
    else e' == e
  }

  /** The state an operation leaves generation `h` in, if any. `g` is marked `mark`; another generation that
      was active until then falls to deprecated, and one that was active but unknown is noted on the way. */
  function MarkAfter(before: Snapshot, a: Action, h: nat): Option<GenerationState> {
    var was := if h in before.states then Some(before.states[h]) else None;
    match a
    case Create(g) =>
      if was.Some? then was else if h == g then Some(Candidate) else if before.active == Some(h) then Some(Active) else None
    case Canarying(g, _, _, _, _) =>
      if h == g then Some(Canary) else if before.active == Some(h) && was.None? then Some(Deprecated) else was
    case Migrate(g, _, _, _, _) =>
      if h == g then Some(Active) else if before.active == Some(h) && (was.None? || was == Some(Active)) then Some(Deprecated) else was
    case Promote(g) => if h == g then Some(Active) else if before.active == Some(h) then Some(Deprecated) else was
    case Install(g) => if h == g then Some(Active) else if before.active == Some(h) then Some(Deprecated) else was
    case Retire(g) => if h == g then None else was
    case _ => was
  }

  /** The generation new writes encode under afterwards. */
  function ActiveAfter(cat: Catalog, a: Action): Option<nat>
    requires cat.current in cat.snapshots
  {
    var was := cat.snapshots[cat.current].active;
    match a
    case Ingest(trained, _, _) => if was.Some? then was else Some(trained)
    case Reembed(g, _) => Some(g)
    case Migrate(g, _, _, _, _) => Some(g)
    case Promote(g) => Some(g)
    case Install(g) => Some(g)
    case Rollback(to) => if to in cat.snapshots then cat.snapshots[to].active else was
    case _ => was
  }

  /** Which ids are deleted afterwards: a full merge has dropped their rows for good. */
  predicate DeadAfter(before: Snapshot, a: Action, id: int) {
    match a
    case FullMerge(_) => false
    case Delete(ids) => id in before.tombstones || id in ids
    case _ => id in before.tombstones
  }

  /** An entry after partitions `todo` moved to generation `g`, the first `take` of them: a part of one that
      did not move, or the one new, unredacted part of one that did, holding those of its rows that embed. */
  ghost predicate Moved(e: PartEntry, todo: seq<Batch>, take: nat, g: nat, embeds: Row -> bool, i: nat) {
    && i < |todo|
    && var embedding := exists r :: r in AllRows(todo[i].parts) && embeds(r);
       if i < take && embedding then
         && e.Located? && !e.redacted && e.part.key == PartitionKey(todo[i].key.bucket, todo[i].key.window, g)
         && forall r :: r in e.part.rows <==> r in AllRows(todo[i].parts) && embeds(r)
       else e in todo[i].parts
  }

  ghost predicate MovedSome(e: PartEntry, todo: seq<Batch>, take: nat, g: nat, embeds: Row -> bool) {
    exists i :: Moved(e, todo, take, g, embeds, i)
  }

  lemma FilterHas<T>(p: T -> bool, s: seq<T>, x: T)
    ensures x in Filter(p, s) <==> x in s && p(x)
  {
    FilterMultiset(p, s, x);
    assert x in s <==> x in multiset(s);
    assert x in Filter(p, s) <==> x in multiset(Filter(p, s));
  }

  lemma OutcomeMoved(todo: seq<Batch>, take: nat, g: nat, embeds: Row -> bool, i: nat, e: PartEntry)
    requires i < |todo| && e in if i < take then Outcome(todo[i], g, embeds) else todo[i].parts
    ensures Moved(e, todo, take, g, embeds, i)
  {
    var rows := AllRows(todo[i].parts);
    forall r ensures r in Filter(embeds, rows) <==> r in rows && embeds(r) {
      FilterHas(embeds, rows, r);
    }
    if Filter(embeds, rows) != [] {
      assert Filter(embeds, rows)[0] in Filter(embeds, rows);
    }
  }

  lemma {:induction false} ProcessedMoved(todo: seq<Batch>, take: nat, g: nat, embeds: Row -> bool, n: nat, e: PartEntry)
    requires n <= |todo| && e in Processed(todo[..n], take, g, embeds)
    ensures MovedSome(e, todo, take, g, embeds)
  {
    assert todo[..n][..n - 1] == todo[..n - 1];
    if e in Processed(todo[..n - 1], take, g, embeds) {
      ProcessedMoved(todo, take, g, embeds, n - 1, e);
    } else {
      OutcomeMoved(todo, take, g, embeds, n - 1, e);
    }
  }

  lemma AllMoved(todo: seq<Batch>, take: nat, g: nat, embeds: Row -> bool)
    ensures forall e | e in Processed(todo, take, g, embeds) :: MovedSome(e, todo, take, g, embeds)
  {
    assert todo[..|todo|] == todo;
    forall e | e in Processed(todo, take, g, embeds) ensures MovedSome(e, todo, take, g, embeds) {
      ProcessedMoved(todo, take, g, embeds, |todo|, e);
    }
  }

  lemma AllWritten(c: Cycle)
    ensures forall e | e in NewEntries(Present(c.outs)) :: exists i :: 0 <= i < |c.outs| && c.outs[i].Some? && e == Located(c.outs[i].value, false)
  {
    forall e | e in NewEntries(Present(c.outs))
      ensures exists i :: 0 <= i < |c.outs| && c.outs[i].Some? && e == Located(c.outs[i].value, false)
    {
      var k :| 0 <= k < |Present(c.outs)| && e == Entry0(Present(c.outs)[k]);
      PresentMembers(c.outs, Present(c.outs)[k]);
    }
  }

  /** What becomes of the parts. */
  ghost predicate PartsAfter(cat: Catalog, a: Action, parts: seq<PartEntry>)
    requires cat.current in cat.snapshots
  {
    var was := cat.snapshots[cat.current].parts;
    match a
    case Ingest(_, _, written) =>
      |parts| == |was| + |written| && parts[..|was|] == was && forall i | 0 <= i < |written| :: parts[|was| + i] == Located(written[i], false)
    case FullMerge(written) => |parts| == |written| && forall i | 0 <= i < |written| :: parts[i] == Located(written[i], false)
    case Reembed(_, written) => |parts| == |written| && forall i | 0 <= i < |written| :: parts[i] == Located(written[i], false)
    case Redact(expired, blank) => |parts| == |was| && forall i | 0 <= i < |was| :: Redacts(was[i], parts[i], expired, blank)
    case Rollback(to) => to in cat.snapshots && parts == cat.snapshots[to].parts
    case TieredMerge(kept, c) =>
      kept <= parts && forall e | e in parts[|kept|..] :: exists i :: 0 <= i < |c.outs| && c.outs[i].Some? && e == Located(c.outs[i].value, false)
    case Canarying(g, take, embeds, keep, todo) =>
      keep <= parts && forall e | e in parts[|keep|..] :: MovedSome(e, todo, take, g, embeds)
    case Migrate(g, take, embeds, keep, todo) =>
      keep <= parts && forall e | e in parts[|keep|..] :: MovedSome(e, todo, take, g, embeds)
    case _ => parts == was
  }

  /** Everything an operation commits, field by field. */
  ghost predicate Leaves(cat: Catalog, a: Action, after: Snapshot)
    requires cat.current in cat.snapshots
  {
    var before := cat.snapshots[cat.current];
    && (forall h :: (if h in after.states then Some(after.states[h]) else None) == MarkAfter(before, a, h))
    && after.active == ActiveAfter(cat, a)
    && (forall id :: id in after.tombstones <==> DeadAfter(before, a, id))
    && PartsAfter(cat, a, after.parts)
  }

  lemma ProposalParts(cat: Catalog, a: Action)
    requires cat.current in cat.snapshots && Proposed(cat, a).Some?
    ensures PartsAfter(cat, a, Proposed(cat, a).value.parts)
  {
    var parts := Proposed(cat, a).value.parts;
    match a {
      case Canarying(g, take, embeds, keep, todo) =>
        AllMoved(todo, take, g, embeds);
        assert parts[|keep|..] == Processed(todo, take, g, embeds);
      case Migrate(g, take, embeds, keep, todo) =>
        AllMoved(todo, take, g, embeds);
        assert parts[|keep|..] == Processed(todo, take, g, embeds);
      case TieredMerge(kept, c) =>
        AllWritten(c);
        assert parts[|kept|..] == NewEntries(Present(c.outs));
      case _ =>
    }
  }

  lemma ProposalMarks(cat: Catalog, a: Action)
    requires cat.current in cat.snapshots && Proposed(cat, a).Some?
    ensures var (before, after) := (cat.snapshots[cat.current], Proposed(cat, a).value);
            && (forall h :: (if h in after.states then Some(after.states[h]) else None) == MarkAfter(before, a, h))
            && after.active == ActiveAfter(cat, a)
            && forall id :: id in after.tombstones <==> DeadAfter(before, a, id)
  {
  }

  lemma ProposalLeaves(cat: Catalog, a: Action)
    requires cat.current in cat.snapshots && Proposed(cat, a).Some?
    ensures Leaves(cat, a, Proposed(cat, a).value)
  {
    ProposalParts(cat, a);
    ProposalMarks(cat, a);
  }

  // --- when an operation publishes nothing ---

  /** The active generation's record is gone. */
  predicate Orphaned(cat: Catalog)
    requires cat.current in cat.snapshots
  {
    var active := cat.snapshots[cat.current].active; active.Some? && active.value !in cat.records
  }

  predicate NamesParts(cat: Catalog, g: nat) {
    exists id | id in cat.snapshots :: exists e | e in cat.snapshots[id].parts :: e.Located? && e.part.key.generation == g
  }

  /** Each operation's reason to refuse, or to have nothing to do. */
  predicate Refuses(cat: Catalog, a: Action)
    requires cat.current in cat.snapshots
  {
    var (active, states) := (cat.snapshots[cat.current].active, cat.snapshots[cat.current].states);
    match a
    case Ingest(_, _, _) => Orphaned(cat)
    case FullMerge(written) => exists p | p in written :: p.key.generation !in cat.records
    case TieredMerge(_, c) => exists o | o in c.outs :: o.Some? && o.value.key.generation !in cat.records
    case Reembed(g, _) => active.None? || Orphaned(cat) || active.value == g
    case Create(g) => active == Some(g) || Orphaned(cat)
    case Canarying(g, _, _, _, _) => g !in cat.records || g !in states || states[g] == Active || states[g] == Deprecated
    case Migrate(g, _, _, _, _) => g !in cat.records
    case Promote(g) => g !in cat.records || g !in states || Orphaned(cat)
    case Install(g) => active == Some(g)
    case Redact(_, _) => false
    case Delete(ids) => ids <= cat.snapshots[cat.current].tombstones
    case Retire(g) => active == Some(g) || NamesParts(cat, g)
    case Rollback(to) => to !in cat.snapshots
    case Collect(_) => true
  }

  lemma PresentOnRecord(records: set<nat>, outs: seq<Option<Part>>)
    ensures OnRecord(records, Present(outs)) <==> !exists o | o in outs :: o.Some? && o.value.key.generation !in records
  {
    if p :| p in Present(outs) && p.key.generation !in records {
      PresentMembers(outs, p);
      assert Some(p) in outs;
    }
    if o :| o in outs && o.Some? && o.value.key.generation !in records {
      PresentMembers(outs, o.value);
    }
  }

  lemma RefusesExactly(cat: Catalog, a: Action)
    requires cat.current in cat.snapshots
    ensures Proposed(cat, a).None? <==> Refuses(cat, a)
  {
    match a {
      case TieredMerge(_, c) => PresentOnRecord(cat.records, c.outs);
      case Retire(g) => assert NamesParts(cat, g) <==> exists id | id in cat.snapshots :: InUse(cat.snapshots[id], g);
      case FullMerge(written) => assert OnRecord(cat.records, written) <==> !exists p | p in written :: p.key.generation !in cat.records;
      case _ =>
    }
  }

  /** A generation is on record after a published operation if it was before, or the operation names it for
      the first time, unless it is the one retired. */
  predicate RecordedAfter(cat: Catalog, a: Action, g: nat)
    requires cat.current in cat.snapshots
  {
    match a
    case Ingest(trained, _, _) => g in cat.records || (g == trained && cat.snapshots[cat.current].active.None?)
    case Reembed(named, _) => g in cat.records || g == named
    case Create(named) => g in cat.records || g == named
    case Install(named) => g in cat.records || g == named
    case Retire(gone) => g in cat.records && g != gone
    case _ => g in cat.records
  }

  lemma RecordsLeft(cat: Catalog, a: Action)
    requires cat.current in cat.snapshots && Proposed(cat, a).Some?
    ensures forall g :: g in Step(cat, a, Finished).records <==> RecordedAfter(cat, a, g)
  {
  }

  /** Collection keeps the snapshots asked for and the current one, each as it was, and nothing else. */
  lemma CollectKeepsExactly(cat: Catalog, retained: set<nat>, cut: Cut)
    requires cat.current in cat.snapshots
    ensures var after := Step(cat, Collect(retained), cut);
            && after.current == cat.current && after.records == cat.records
            && (forall id :: id in after.snapshots <==> id in cat.snapshots && (id in retained || id == cat.current))
            && forall id | id in after.snapshots :: after.snapshots[id] == cat.snapshots[id]
  {
  }

  // --- histories ---

  function Fresh(): Catalog {
    Catalog(map[0 := Snapshot([], None, map[], {})], 0, {})
  }

  datatype Event = Event(action: Action, cut: Cut)

  lemma StepKeepsCurrent(cat: Catalog, a: Action, cut: Cut)
    requires cat.current in cat.snapshots
    ensures Step(cat, a, cut).current in Step(cat, a, cut).snapshots
  {
  }

  ghost function Play(events: seq<Event>): (cat: Catalog)
    ensures cat.current in cat.snapshots
  {
    if events == [] then Fresh()
    else
      var e := events[|events| - 1];
      var cat := Play(events[..|events| - 1]);
      StepKeepsCurrent(cat, e.action, e.cut);
      Step(cat, e.action, e.cut)
  }

  ghost predicate History(scheme: Scheme, events: seq<Event>) {
    events == [] || (History(scheme, events[..|events| - 1]) && Computes(scheme, Play(events[..|events| - 1]), events[|events| - 1].action))
  }

  /** Over every history of ingests, merges, re-embeddings, promotions, migrations, redactions, deletions,
      retirements, rollbacks and collections, crashed or not: each part of each snapshot still there holds
      only rows of its own partition, and its generation is still on record. */
  lemma {:induction false} EverySnapshotStaysReadable(scheme: Scheme, events: seq<Event>)
    requires History(scheme, events)
    ensures Inv(scheme, Play(events))
  {
    if events == [] {
      assert AllReadable(scheme, {}, []);
    } else {
      var n := |events| - 1;
      EverySnapshotStaysReadable(scheme, events[..n]);
      StepKeepsReadable(scheme, Play(events[..n]), events[n].action, events[n].cut);
    }
  }

  // --- the catalog as it is written ---

  /** The catalog directory: every durable write is one method, and `trail` is the states they leave. */
  class CatalogStore {
    var snapshots: map<nat, Snapshot>
    var current: nat
    var records: set<nat>
    ghost var trail: seq<Catalog>

    function State(): Catalog
      reads this
    {
      Catalog(snapshots, current, records)
    }

    constructor ()
      ensures State() == Fresh() && trail == []
    {
      snapshots, current, records := map[0 := Snapshot([], None, map[], {})], 0, {};
      trail := [];
    }

    method PutRecords(more: set<nat>)
      modifies this
      ensures State() == old(State()).(records := more) && trail == old(trail) + [State()]
    {
      records := more;
      trail := trail + [Catalog(snapshots, current, records)];
    }

    method WriteSnapshot(id: nat, snap: Snapshot)
      modifies this
      ensures State() == old(State()).(snapshots := old(snapshots)[id := snap]) && trail == old(trail) + [State()]
    {
      snapshots := snapshots[id := snap];
      trail := trail + [Catalog(snapshots, current, records)];
    }

    method SwitchCurrent(id: nat)
      modifies this
      ensures State() == old(State()).(current := id) && trail == old(trail) + [State()]
    {
      current := id;
      trail := trail + [Catalog(snapshots, current, records)];
    }

    /** One publishing operation: the record, the snapshot file, the rename of `CURRENT`, and for a
        retirement the record's removal. Dying after any of them leaves a state a history covers. */
    method Publish(a: Action) returns (published: bool)
      requires current in snapshots && !a.Collect?
      modifies this
      ensures current in snapshots
      ensures published <==> !Refuses(old(State()), a)
      ensures published ==> forall g :: g in records <==> RecordedAfter(old(State()), a, g)
      ensures !published ==> records == old(records) && current == old(current) && snapshots == old(snapshots)
      ensures State() == Step(old(State()), a, Finished)
      ensures published ==> current == old(current) + 1 && Leaves(old(State()), a, snapshots[current])
      ensures forall id | id in old(snapshots) && (id != old(current) + 1 || !published) :: id in snapshots && snapshots[id] == old(snapshots)[id]
      ensures published ==>
                trail == old(trail) + [Step(old(State()), a, RecordWritten), Step(old(State()), a, SnapshotWritten),
                                       Step(old(State()), a, Committed), Step(old(State()), a, Finished)]
      ensures !published ==> trail == old(trail)
    {
      var (cat, next) := (State(), current + 1);
      published := Proposed(cat, a).Some?;
      RefusesExactly(cat, a);
      if published {
        ProposalLeaves(cat, a);
        RecordsLeft(cat, a);
        PutRecords(RecordsFirst(cat, a));
        WriteSnapshot(next, Proposed(cat, a).value);
        SwitchCurrent(next);
        PutRecords(if a.Retire? then records - {a.g} else records);
      }
    }
  }
}
