/** The ingestor as it runs: one object over the durable files, issuing one durable write at a time. Each
    operation is proved to issue exactly the writes the histories are about, in that order, so a crash
    inside it leaves a state those histories cover. */
module Ingestor {
  import opened Lists
  import opened Ingest
  import opened IngestInvariant
  import opened IngestRuns
  import opened IngestHistory
  import opened IngestOnce

  datatype Verdict = New | Replay | Conflict(stored: nat)

  function Check(ix: Index, e: Event): Verdict {
    if KeyOf(e) !in ix then New
    else if ix[KeyOf(e)] == e.hash then Replay
    else Conflict(ix[KeyOf(e)])
  }

  /** A batch splits three ways, and only new events and conflicts are carried on. */
  method Classify(accepted: seq<Event>, ix: Index) returns (news: seq<Event>, conflicts: seq<Event>, replays: nat)
    ensures news == Filter(IsNew(ix), accepted) && conflicts == Filter(IsConflict(ix), accepted)
    ensures |news| + |conflicts| + replays == |accepted|
  {
    news, conflicts, replays := [], [], 0;
    for i := 0 to |accepted|
      invariant news == Filter(IsNew(ix), accepted[..i]) && conflicts == Filter(IsConflict(ix), accepted[..i])
      invariant |news| + |conflicts| + replays == i
    {
      assert accepted[..i + 1][..i] == accepted[..i];
      match Check(ix, accepted[i]) {
        case New => news := news + [accepted[i]];
        case Replay => replays := replays + 1;
        case Conflict(_) => conflicts := conflicts + [accepted[i]];
      }
    }
    assert accepted[..|accepted|] == accepted;
  }

  method Split(p: Event -> bool, events: seq<Event>) returns (yes: seq<Event>, no: seq<Event>)
    ensures yes == Filter(p, events) && no == Filter(Not(p), events)
  {
    yes, no := [], [];
    for i := 0 to |events|
      invariant yes == Filter(p, events[..i]) && no == Filter(Not(p), events[..i])
    {
      assert events[..i + 1][..i] == events[..i];
      if p(events[i]) {
        yes := yes + [events[i]];
      } else {
        no := no + [events[i]];
      }
    }
    assert events[..|events|] == events;
  }

  /** The log keyed by record id, a later frame replacing an earlier one with the same id. */
  method AdmissionRecords(wal: seq<WalRecord>) returns (m: map<nat, WalRecord>, top: nat)
    ensures m == Records(wal) && top == HighestId(wal)
  {
    m, top := map[], 0;
    for i := 0 to |wal|
      invariant m == Records(wal[..i]) && top == HighestId(wal[..i])
    {
      assert wal[..i + 1][..i] == wal[..i];
      m := m[wal[i].id := wal[i]];
      if wal[i].id > top {
        top := wal[i].id;
      }
    }
    assert wal[..|wal|] == wal;
  }

  /** A file source reads at most `max` lines forward from its committed offset. */
  method Poll(lines: seq<Event>, committed: nat, max: nat) returns (events: seq<Event>, next: nat)
    ensures next <= |lines| && next <= committed + max && (next == |lines| || next == committed + max)
    ensures |events| == (if committed <= next then next - committed else 0)
    ensures forall i | committed <= i < next :: events[i - committed] == lines[i]
  {
    next := if committed + max < |lines| then committed + max else |lines|;
    events := [];
    var i := committed;
    while i < next
      invariant i == committed || committed < i <= next
      invariant |events| == i - committed
      invariant forall j | committed <= j < i :: events[j - committed] == lines[j]
    {
      events := events + [lines[i]];
      i := i + 1;
    }
  }

  /** What a poll delivers and admission splits is what a batch may commit an offset for. */
  lemma PolledBatch(src: Sources, d: Disk, source: nat, events: seq<Event>, next: nat, dec: Decisions)
    requires source in src && next <= |src[source]|
    requires var c := Committed(d, source);
             |events| == (if c <= next then next - c else 0) && forall i | c <= i < next :: events[i - c] == src[source][i]
    requires multiset(dec.accepted + dec.rejected) == multiset(events)
    ensures Polled(src, d, dec, Some(Cursor(source, next)))
  {
    var c := Committed(d, source);
    forall i | c <= i < next ensures src[source][i] in dec.accepted + dec.rejected {
      assert events[i - c] in multiset(events);
    }
  }

  /** Over an append-only source a poll never falls behind the committed offset. */
  lemma PollIsForward(src: Sources, d: Disk, source: nat, next: nat, max: nat)
    requires OffsetsSettled(src, d) && source in src
    requires next == |src[source]| || next == Committed(d, source) + max
    ensures Forward(d, Some(Cursor(source, next)))
  {
    if source in d.offsets {
      assert Covered(src, d, Cursor(source, d.offsets[source]), []);
    }
  }

  lemma SomethingFresh(d: Disk, dec: Decisions)
    ensures Fresh(d, dec) != [] <==> exists e :: e in dec.accepted && NewKey(d, e) && dec.allows(e)
  {
    if Fresh(d, dec) != [] {
      var e := Fresh(d, dec)[0];
      assert e in Fresh(d, dec);
      FilterKeeps(dec.allows, Filter(IsNew(d.index), dec.accepted), e);
      FilterKeeps(IsNew(d.index), dec.accepted, e);
    }
    if e :| e in dec.accepted && NewKey(d, e) && dec.allows(e) {
      FilterKeeps(IsNew(d.index), dec.accepted, e);
      FilterKeeps(dec.allows, Filter(IsNew(d.index), dec.accepted), e);
    }
  }

  class Store {
    var dead: seq<Event>
    var wal: seq<WalRecord>
    var nextId: nat
    var visible: seq<Event>
    var marker: Option<nat>
    var index: Index
    var offsets: map<nat, nat>
    ghost var log: seq<Write>

    function State(): Disk
      reads this
    {
      Disk(dead, wal, nextId, visible, marker, index, offsets)
    }

    constructor ()
      ensures State() == Empty().disk && log == []
    {
      dead, wal, nextId, visible, marker, index, offsets := [], [], 0, [], None, map[], map[];
      log := [];
    }

    method Put(w: Write)
      modifies this
      ensures State() == Apply(old(State()), w) && log == old(log) + [w]
    {
      match w {
        case DeadLetter(e) => dead := dead + [e];
        case AppendFrame(r) => wal := wal + [r];
        case SaveAllocator(n) => nextId := n;
        case Commit(kept, m) => visible, marker := visible + kept, Some(m);
        case SaveIndex(ix) => index := ix;
        case CommitOffset(c) => offsets := offsets[c.source := c.offset];
        case Compact(floor) => wal := Filter(Above(floor), wal);
      }
      log := log + [w];
    }

    method WriteDeadLetters(events: seq<Event>)
      modifies this
      ensures State() == old(State()).(dead := old(dead) + events) && log == old(log) + DeadLetters(events)
    {
      for i := 0 to |events|
        invariant State() == old(State()).(dead := old(dead) + events[..i]) && log == old(log) + DeadLetters(events[..i])
      {
        assert events[..i + 1][..i] == events[..i];
        Put(DeadLetter(events[i]));
      }
      assert events[..|events|] == events;
    }

    /** Keys, then the source offset: publication's second half, and all of reconciliation. */
    method ReconcileApplied(r: WalRecord)
      modifies this
      ensures State() == AfterRecord(old(State()), r) && log == old(log) + RecordWrites(old(State()), r)
    {
      var ix := index;
      for i := 0 to |r.events|
        invariant ix == Recorded(index, r.events[..i]) && State() == old(State()) && log == old(log)
      {
        assert r.events[..i + 1][..i] == r.events[..i];
        ix := ix[KeyOf(r.events[i]) := r.events[i].hash];
      }
      assert r.events[..|r.events|] == r.events;
      Put(SaveIndex(ix));
      if r.cursor.Some? {
        Put(CommitOffset(r.cursor.value));
      }
    }

    /** What cannot be embedded is dead-lettered, then the rest becomes visible with the marker. */
    method EmbedAndCommit(r: WalRecord, embeds: Event -> bool)
      modifies this
      ensures State() == AfterCommit(old(State()), r, embeds) && log == old(log) + CommitWrites(r, embeds)
    {
      var kept, lost := Split(embeds, r.events);
      WriteDeadLetters(lost);
      if kept != [] {
        Put(Commit(kept, r.id));
      }
    }

    method PublishWalRecord(r: WalRecord, embeds: Event -> bool)
      modifies this
      ensures State() == AfterPublish(old(State()), r, embeds) && log == old(log) + PublishWrites(old(State()), r, embeds)
    {
      ghost var d1 := AfterCommit(State(), r, embeds);
      PublishRuns(State(), r, embeds);
      Joined(log, CommitWrites(r, embeds), RecordWrites(d1, r));
      EmbedAndCommit(r, embeds);
      ReconcileApplied(r);
    }

    method Append(events: seq<Event>, cursor: Option<Cursor>) returns (id: nat)
      modifies this
      ensures id == old(nextId)
      ensures State() == Appended(old(State()), WalRecord(id, events, cursor))
      ensures log == old(log) + AppendWrites(WalRecord(id, events, cursor))
    {
      id := nextId;
      Put(AppendFrame(WalRecord(id, events, cursor)));
      Put(SaveAllocator(id + 1));
    }

    method CompactThrough(floor: Option<nat>)
      requires floor == marker
      modifies this
      ensures State() == AfterCompact(old(State())) && log == old(log) + CompactWrites(floor)
    {
      if floor.Some? {
        Put(Compact(floor.value));
      }
    }

    /** From the acknowledgement on. */
    method LogAndPublish(events: seq<Event>, cursor: Option<Cursor>, embeds: Event -> bool)
      modifies this
      ensures var r := WalRecord(old(nextId), events, cursor);
              && State() == AfterCompact(AfterPublish(Appended(old(State()), r), r, embeds))
              && log == old(log) + LogWrites(old(State()), r, embeds)
    {
      var id := Append(events, cursor);
      PublishWalRecord(WalRecord(id, events, cursor), embeds);
      CompactThrough(marker);
    }

    /** Everything decided before the acknowledgement; what it refuses is durable first. */
    method Refuse(dec: Decisions) returns (allowed: seq<Event>)
      modifies this
      ensures allowed == Fresh(old(State()), dec)
      ensures State() == old(State()).(dead := old(dead) + Refused(old(State()), dec))
      ensures log == old(log) + DeadLetters(Refused(old(State()), dec))
    {
      var news, conflicts, replays := Classify(dec.accepted, index);
      var denied;
      allowed, denied := Split(dec.allows, news);
      WriteDeadLetters(dec.rejected + conflicts + denied);
    }

    method Finish(allowed: seq<Event>, cursor: Option<Cursor>, embeds: Event -> bool)
      modifies this
      ensures var r := WalRecord(old(nextId), allowed, cursor);
              && State() == AfterBatch(old(State()), r, embeds)
              && log == old(log) + BatchWrites(old(State()), r, embeds)
    {
      if allowed != [] {
        LogAndPublish(allowed, cursor, embeds);
      } else if cursor.Some? {
        Put(CommitOffset(cursor.value));
      }
    }

    /** One batch issues exactly the batch's writes. */
    method Ingest(dec: Decisions, cursor: Option<Cursor>) returns (acknowledged: bool)
      modifies this
      ensures log == old(log) + IngestWrites(old(State()), dec, cursor)
      ensures State() == Run(old(State()), IngestWrites(old(State()), dec, cursor))
      ensures acknowledged <==> exists e :: e in dec.accepted && NewKey(old(State()), e) && dec.allows(e)
      ensures offsets == if cursor.Some? then old(offsets)[cursor.value.source := cursor.value.offset] else old(offsets)
      ensures forall e :: multiset(visible)[e] == multiset(old(visible))[e] + TimesShown(old(State()), dec, e)
      ensures forall e :: multiset(dead)[e] == multiset(old(dead))[e] + TimesRefused(old(State()), dec, e)
    {
      ghost var d := State();
      BatchCommitsItsOffset(d, dec, cursor);
      forall e ensures multiset(Run(d, IngestWrites(d, dec, cursor)).visible)[e] == multiset(d.visible)[e] + TimesShown(d, dec, e) {
        BatchPublishesExactly(d, dec, cursor, e);
      }
      forall e ensures multiset(Run(d, IngestWrites(d, dec, cursor)).dead)[e] == multiset(d.dead)[e] + TimesRefused(d, dec, e) {
        BatchDeadLettersExactly(d, dec, cursor, e);
      }
      SomethingFresh(d, dec);
      ghost var r := NewRecord(d, dec, cursor);
      IngestEnds(d, dec, cursor);
      DeadLettersAside(d, d.dead + Refused(d, dec), r, dec.embeds);
      Joined(log, DeadLetters(Refused(d, dec)), BatchWrites(d, r, dec.embeds));
      var allowed := Refuse(dec);
      acknowledged := allowed != [];
      Finish(allowed, cursor, dec.embeds);
    }

    method RecoverRecord(floor: Option<nat>, m: map<nat, WalRecord>, id: nat, embeds: Event -> bool)
      modifies this
      ensures State() == Run(old(State()), RecoverId(old(State()), floor, m, id, embeds))
      ensures log == old(log) + RecoverId(old(State()), floor, m, id, embeds)
    {
      if id in m {
        var r := m[id];
        if Applied(floor, r.id) {
          RecordRuns(State(), r);
          ReconcileApplied(r);
        } else {
          PublishRuns(State(), r, embeds);
          PublishWalRecord(r, embeds);
        }
      }
    }

    method RecoverRecords(floor: Option<nat>, m: map<nat, WalRecord>, n: nat, embeds: Event -> bool)
      modifies this
      ensures log == old(log) + RecoverBelow(old(State()), floor, m, n, embeds)
      ensures State() == Run(old(State()), RecoverBelow(old(State()), floor, m, n, embeds))
    {
      ghost var d := State();
      ghost var ws: seq<Write> := [];
      for id := 0 to n
        invariant ws == RecoverBelow(d, floor, m, id, embeds)
        invariant State() == Run(d, ws) && log == old(log) + ws
      {
        ghost var one := RecoverId(State(), floor, m, id, embeds);
        RunConcat(d, ws, one);
        Joined(old(log), ws, one);
        RecoverRecord(floor, m, id, embeds);
        ws := ws + one;
      }
    }

    /** One recovery issues exactly the recovery's writes. */
    method Recover(embeds: Event -> bool)
      modifies this
      ensures log == old(log) + RecoverWrites(old(State()), embeds)
      ensures State() == Run(old(State()), RecoverWrites(old(State()), embeds))
    {
      ghost var d := State();
      var m, top := AdmissionRecords(wal);
      ghost var ws := RecoverBelow(d, marker, m, top + 1, embeds);
      RecoverRecords(marker, m, top + 1, embeds);
      CompactRuns(State());
      RunConcat(d, ws, CompactWrites(marker));
      Joined(old(log), ws, CompactWrites(marker));
      CompactThrough(marker);
    }
  }
}
