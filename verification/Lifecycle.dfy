/** The catalog over its whole life: every operation that publishes a snapshot, each of which may die
    part-way, and what stays true of every snapshot that is still there. */
module Lifecycle {
  import opened Lists
  import opened Merge
  import opened MergeCycles
  import opened Migration

  datatype GenerationState = Candidate | Canary | Active | Deprecated

  datatype Snapshot = Snapshot(parts: seq<PartEntry>, active: Option<nat>, states: map<nat, GenerationState>, tombstones: set<int>)

  /** The snapshot files by number, the one `CURRENT` names, and the generation records on disk. */
  datatype Catalog = Catalog(snapshots: map<nat, Snapshot>, current: nat, records: set<nat>)

  ghost predicate Readable(scheme: Scheme, records: set<nat>, e: PartEntry) {
    e.Located? ==> Pure(scheme, e.part) && e.part.key.generation in records
  }

  ghost predicate AllReadable(scheme: Scheme, records: set<nat>, parts: seq<PartEntry>) {
    forall e | e in parts :: Readable(scheme, records, e)
  }

  /** Every part of every snapshot holds only its own partition's rows, in a generation still on record. */
  ghost predicate Inv(scheme: Scheme, cat: Catalog) {
    && cat.current in cat.snapshots
    && forall id | id in cat.snapshots :: AllReadable(scheme, cat.records, cat.snapshots[id].parts)
  }

  predicate InUse(snap: Snapshot, g: nat) {
    exists e | e in snap.parts :: e.Located? && e.part.key.generation == g
  }

  function Live(cat: Catalog): Snapshot
    requires cat.current in cat.snapshots
  {
    cat.snapshots[cat.current]
  }

  function Entry0(p: Part): PartEntry {
    Located(p, false)
  }

  function NewEntries(parts: seq<Part>): seq<PartEntry> {
    Map(Entry0, parts)
  }

  /** How the merges read an entry: only its rows and its generation matter to them. */
  function AsPart(e: PartEntry): Part {
    match e
    case Located(part, _) => part
    case Legacy(g, rows) => Part(PartitionKey(Shared(0), 0, g), rows)
  }

  // --- the operations ---

  datatype Action =
    | Ingest(trained: nat, batch: seq<Row>, written: seq<Part>)
    | FullMerge(written: seq<Part>)
    | TieredMerge(kept: seq<PartEntry>, cycle: Cycle)
    | Reembed(g: nat, written: seq<Part>)
    | Create(g: nat)
    | Canarying(g: nat, take: nat, embeds: Row -> bool, keep: seq<PartEntry>, todo: seq<Batch>)
    | Migrate(g: nat, take: nat, embeds: Row -> bool, keep: seq<PartEntry>, todo: seq<Batch>)
    | Promote(g: nat)
    | Install(g: nat)
    | Redact(expired: PartEntry -> bool, blank: Row -> Row)
    | Delete(ids: set<int>)
    | Retire(g: nat)
    | Rollback(to: nat)
    | Collect(retained: set<nat>)

  /** One part per partition, each row in its own. */
  ghost predicate Splits(scheme: Scheme, g: nat, rows: seq<Row>, written: seq<Part>) {
    && (forall p | p in written :: p.key.generation == g && Pure(scheme, p))
    && multiset(AllRows(NewEntries(written))) == multiset(rows)
  }

  /** A full merge's output: one part per partition of the winners. */
  ghost predicate MergesAll(scheme: Scheme, snap: Snapshot, written: seq<Part>) {
    var m := Merged(Entries(scheme, snap.tombstones, Map(AsPart, snap.parts)));
    && (forall p | p in written :: Holds(p, p.key, m))
    && (forall s | s in m :: exists p :: p in written && p.key == s.0)
  }

  function ActiveOr(snap: Snapshot, trained: nat): nat {
    if snap.active.Some? then snap.active.value else trained
  }

  /** What each operation computes from the live snapshot before it commits. */
  ghost predicate Computes(scheme: Scheme, cat: Catalog, a: Action)
    requires cat.current in cat.snapshots
  {
    var live := Live(cat);
    match a
    case Ingest(trained, batch, written) => Splits(scheme, ActiveOr(live, trained), batch, written)
    case FullMerge(written) => MergesAll(scheme, live, written)
    case TieredMerge(kept, c) =>
      && (forall e | e in live.parts :: e.Located?) && (forall e | e in kept :: e in live.parts)
      && c.kept == Map(AsPart, kept) && Runs(scheme, live.tombstones, Map(AsPart, live.parts), c)
    case Reembed(g, written) => Splits(scheme, g, AllRows(live.parts), written)
    case Canarying(g, _, _, keep, todo) => SortedOut(live.parts, g, keep, todo)
    case Migrate(g, _, _, keep, todo) => SortedOut(live.parts, g, keep, todo)
    case Redact(_, blank) => forall r :: blank(r).id == r.id && blank(r).tenant == r.tenant && blank(r).time == r.time
    case _ => true
  }

  /** The generation record an operation writes before anything names it. */
  function RecordsFirst(cat: Catalog, a: Action): set<nat>
    requires cat.current in cat.snapshots
  {
    match a
    case Ingest(trained, _, _) => if Live(cat).active.None? then cat.records + {trained} else cat.records
    case Reembed(g, _) => cat.records + {g}
    case Create(g) => cat.records + {g}
    case Install(g) => cat.records + {g}
    case _ => cat.records
  }

  predicate OnRecord(records: set<nat>, written: seq<Part>) {
    forall p | p in written :: p.key.generation in records
  }

  function Blanked(expired: PartEntry -> bool, blank: Row -> Row): PartEntry -> PartEntry {
    (e: PartEntry) =>
      if e.Located? && !e.redacted && expired(e) then Located(Part(e.part.key, Map(blank, e.part.rows)), true) else e
  }

  function Demoted(snap: Snapshot, g: nat): map<nat, GenerationState> {
    (if snap.active.Some? && snap.active.value != g then snap.states[snap.active.value := Deprecated] else snap.states)[g := Active]
  }

  function Moving(snap: Snapshot, g: nat, state: GenerationState): map<nat, GenerationState> {
    var marked := snap.states[g := state];
    if snap.active.None? || snap.active.value == g then marked
    else
      var a := snap.active.value;
      if a !in marked || (marked[a] == Active && state == Active) then marked[a := Deprecated] else marked
  }

  /** The snapshot an operation would commit, or nothing when it refuses or has nothing to do. */
  function Proposed(cat: Catalog, a: Action): Option<Snapshot>
    requires cat.current in cat.snapshots
  {
    var live := Live(cat);
    match a
    case Ingest(trained, _, written) =>
      if live.active.Some? && live.active.value !in cat.records then None
      else Some(live.(parts := live.parts + NewEntries(written), active := Some(ActiveOr(live, trained))))
    case FullMerge(written) =>
      if OnRecord(cat.records, written) then Some(live.(parts := NewEntries(written), tombstones := {})) else None
    case TieredMerge(kept, c) =>
      if OnRecord(cat.records, Present(c.outs)) then Some(live.(parts := kept + NewEntries(Present(c.outs)))) else None
    case Reembed(g, written) =>
      if live.active.None? || live.active.value !in cat.records || live.active.value == g then None
      else Some(live.(parts := NewEntries(written), active := Some(g)))
    case Create(g) =>
      if live.active == Some(g) || (live.active.Some? && live.active.value !in cat.records) then None
      else
        var known := if g in live.states then live.states else live.states[g := Candidate];
        Some(live.(states := if live.active.Some? && live.active.value !in known then known[live.active.value := Active] else known))
    case Canarying(g, take, embeds, keep, todo) =>
      if g !in cat.records || g !in live.states || (live.states[g] != Candidate && live.states[g] != Canary) then None
      else Some(live.(parts := keep + Processed(todo, take, g, embeds), states := Moving(live, g, Canary)))
    case Migrate(g, take, embeds, keep, todo) =>
      if g !in cat.records then None
      else Some(live.(parts := keep + Processed(todo, take, g, embeds), states := Moving(live, g, Active), active := Some(g)))
    case Promote(g) =>
      if g !in cat.records || g !in live.states || (live.active.Some? && live.active.value !in cat.records) then None
      else Some(live.(states := Demoted(live, g), active := Some(g)))
    case Install(g) =>
      if live.active == Some(g) then None else Some(live.(states := Demoted(live, g), active := Some(g)))
    case Redact(expired, blank) => Some(live.(parts := Map(Blanked(expired, blank), live.parts)))
    case Delete(ids) => if ids <= live.tombstones then None else Some(live.(tombstones := live.tombstones + ids))
    case Retire(g) =>
      if live.active == Some(g) || exists id | id in cat.snapshots :: InUse(cat.snapshots[id], g) then None
      else Some(live.(states := live.states - {g}))
    case Rollback(to) =>
      if to !in cat.snapshots then None
      else Some(live.(parts := cat.snapshots[to].parts, active := cat.snapshots[to].active))
    case Collect(_) => None
  }

  /** How far an operation got before the process died. */
  datatype Cut = Before | RecordWritten | SnapshotWritten | Committed | Finished

  function Step(cat: Catalog, a: Action, cut: Cut): Catalog
    requires cat.current in cat.snapshots
  {
    var next := cat.current + 1;
    if a.Collect? then cat.(snapshots := map id | id in cat.snapshots && (id in a.retained || id == cat.current) :: cat.snapshots[id])
    else if Proposed(cat, a).None? || cut.Before? then cat
    else
      var put := cat.(records := RecordsFirst(cat, a));
      var written := put.(snapshots := put.snapshots[next := Proposed(cat, a).value]);
      match cut
      case RecordWritten => put
      case SnapshotWritten => written
      case Finished => written.(current := next, records := if a.Retire? then written.records - {a.g} else written.records)
      case _ => written.(current := next)
  }
}
