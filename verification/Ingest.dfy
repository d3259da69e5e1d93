/** The ingestion protocol: admission, durable log, publication, recovery. Every durable write is a
    step, and a crash may fall between any two of them. */
module Ingest {
  import opened Lists

  /** An event as the protocol sees it: its dedup key `(tenant, key)` and its content hash. The
      instant it was observed is not part of its identity. */
  datatype Event = Event(tenant: nat, key: nat, hash: nat)

  type DedupKey = (nat, nat)

  function KeyOf(e: Event): DedupKey {
    (e.tenant, e.key)
  }

  type Index = map<DedupKey, nat>

  /** A source and the offset to commit once a batch from it is published. */
  datatype Cursor = Cursor(source: nat, offset: nat)

  datatype WalRecord = WalRecord(id: nat, events: seq<Event>, cursor: Option<Cursor>)

  /** Everything that survives a crash. `marker` is the snapshot's applied-record marker; it and
      `visible` change in one rename. */
  datatype Disk = Disk(dead: seq<Event>, wal: seq<WalRecord>, nextId: nat, visible: seq<Event>,
                       marker: Option<nat>, index: Index, offsets: map<nat, nat>)

  datatype Write =
    | DeadLetter(event: Event)
    | AppendFrame(record: WalRecord)
    | SaveAllocator(nextId: nat)
    | Commit(kept: seq<Event>, marker: nat)
    | SaveIndex(index: Index)
    | CommitOffset(cursor: Cursor)
    | Compact(floor: nat)

  function Above(floor: nat): WalRecord -> bool {
    (r: WalRecord) => r.id > floor
  }

  function Apply(d: Disk, w: Write): Disk {
    match w
    case DeadLetter(e) => d.(dead := d.dead + [e])
    case AppendFrame(r) => d.(wal := d.wal + [r])
    case SaveAllocator(n) => d.(nextId := n)
    case Commit(kept, m) => d.(visible := d.visible + kept, marker := Some(m))
    case SaveIndex(ix) => d.(index := ix)
    case CommitOffset(c) => d.(offsets := d.offsets[c.source := c.offset])
    case Compact(floor) => d.(wal := Filter(Above(floor), d.wal))
  }

  /** Performing `ws` in order. A crash after `n` writes leaves `Run(d, ws[..n])`. */
  function Run(d: Disk, ws: seq<Write>): Disk {
    if ws == [] then d else Apply(Run(d, ws[..|ws| - 1]), ws[|ws| - 1])
  }

  // --- the pieces of the protocol ---

  /** The log as recovery reads it: one record per id, a later frame replacing an earlier one. */
  function Records(wal: seq<WalRecord>): map<nat, WalRecord> {
    if wal == [] then map[]
    else
      var last := wal[|wal| - 1];
      Records(wal[..|wal| - 1])[last.id := last]
  }

  function Recorded(ix: Index, events: seq<Event>): Index {
    if events == [] then ix
    else
      var e := events[|events| - 1];
      Recorded(ix, events[..|events| - 1])[KeyOf(e) := e.hash]
  }

  function IsNew(ix: Index): Event -> bool {
    (e: Event) => KeyOf(e) !in ix
  }

  function IsConflict(ix: Index): Event -> bool {
    (e: Event) => KeyOf(e) in ix && ix[KeyOf(e)] != e.hash
  }

  function Not(p: Event -> bool): Event -> bool {
    (e: Event) => !p(e)
  }

  function Letter(e: Event): Write {
    DeadLetter(e)
  }

  function DeadLetters(events: seq<Event>): seq<Write> {
    Map(Letter, events)
  }

  /** Index, then source offset: the client-facing half of publication. */
  function RecordWrites(d: Disk, r: WalRecord): seq<Write> {
    [SaveIndex(Recorded(d.index, r.events))] + (if r.cursor.Some? then [CommitOffset(r.cursor.value)] else [])
  }

  /** Dead letters, then the atomic commit, then the client-facing half. A record none of whose
      events embeds commits nothing, so the marker does not move. */
  function PublishWrites(d: Disk, r: WalRecord, embeds: Event -> bool): seq<Write> {
    var kept := Filter(embeds, r.events);
    DeadLetters(Filter(Not(embeds), r.events))
    + (if kept == [] then [] else [Commit(kept, r.id)])
    + RecordWrites(d, r)
  }

  function CompactWrites(marker: Option<nat>): seq<Write> {
    if marker.None? then [] else [Compact(marker.value)]
  }

  /** What admission, the model policy and the embedder decide about one batch. */
  datatype Decisions = Decisions(accepted: seq<Event>, rejected: seq<Event>, allows: Event -> bool, embeds: Event -> bool)

  /** The events the log will be asked to keep. */
  function Fresh(d: Disk, dec: Decisions): seq<Event> {
    Filter(dec.allows, Filter(IsNew(d.index), dec.accepted))
  }

  function Refused(d: Disk, dec: Decisions): seq<Event> {
    dec.rejected
    + Filter(IsConflict(d.index), dec.accepted)
    + Filter(Not(dec.allows), Filter(IsNew(d.index), dec.accepted))
  }

  function NewRecord(d: Disk, dec: Decisions, cursor: Option<Cursor>): WalRecord {
    WalRecord(d.nextId, Fresh(d, dec), cursor)
  }

  /** The append: the frame is fsynced before the id allocator is saved. */
  function AppendWrites(r: WalRecord): seq<Write> {
    [AppendFrame(r), SaveAllocator(r.id + 1)]
  }

  function MarkerAfter(d: Disk, r: WalRecord, embeds: Event -> bool): Option<nat> {
    if Filter(embeds, r.events) == [] then d.marker else Some(r.id)
  }

  /** Append, publish, compact. */
  function LogWrites(d: Disk, r: WalRecord, embeds: Event -> bool): seq<Write> {
    AppendWrites(r) + PublishWrites(d, r, embeds) + CompactWrites(MarkerAfter(d, r, embeds))
  }

  /** A batch with nothing fresh still advances its source: it was published before. */
  function BatchWrites(d: Disk, r: WalRecord, embeds: Event -> bool): seq<Write> {
    if r.events != [] then LogWrites(d, r, embeds)
    else if r.cursor.Some? then [CommitOffset(r.cursor.value)]
    else []
  }

  function IngestWrites(d: Disk, dec: Decisions, cursor: Option<Cursor>): seq<Write> {
    DeadLetters(Refused(d, dec)) + BatchWrites(d, NewRecord(d, dec, cursor), dec.embeds)
  }

  predicate Applied(floor: Option<nat>, id: nat) {
    floor.Some? && id <= floor.value
  }

  function RecoverOne(d: Disk, floor: Option<nat>, r: WalRecord, embeds: Event -> bool): seq<Write> {
    if Applied(floor, r.id) then RecordWrites(d, r) else PublishWrites(d, r, embeds)
  }

  function RecoverId(d: Disk, floor: Option<nat>, m: map<nat, WalRecord>, id: nat, embeds: Event -> bool): seq<Write> {
    if id in m then RecoverOne(d, floor, m[id], embeds) else []
  }

  /** Every record below `n`, oldest first. */
  function RecoverBelow(d: Disk, floor: Option<nat>, m: map<nat, WalRecord>, n: nat, embeds: Event -> bool): seq<Write> {
    if n == 0 then []
    else
      var ws := RecoverBelow(d, floor, m, n - 1, embeds);
      ws + RecoverId(Run(d, ws), floor, m, n - 1, embeds)
  }

  function HighestId(wal: seq<WalRecord>): nat {
    if wal == [] then 0
    else
      var h, last := HighestId(wal[..|wal| - 1]), wal[|wal| - 1].id;
      if last > h then last else h
  }

  /** Replays what the marker does not cover, reconciles what it does, oldest first, then compacts. */
  function RecoverWrites(d: Disk, embeds: Event -> bool): seq<Write> {
    var ws := RecoverBelow(d, d.marker, Records(d.wal), HighestId(d.wal) + 1, embeds);
    ws + CompactWrites(Run(d, ws).marker)
  }
}
