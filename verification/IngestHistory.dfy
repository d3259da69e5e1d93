/** Whole histories: batches, crashes after any write, and recoveries that may themselves crash. */
module IngestHistory {
  import opened Lists
  import opened Ingest
  import opened IngestInvariant
  import opened IngestRuns

  // --- one batch ---

  /** No commit has reached the id the next record will take. */
  predicate AppendSafe(d: Disk) {
    !Applied(d.marker, d.nextId)
  }

  function Committed(d: Disk, source: nat): nat {
    if source in d.offsets then d.offsets[source] else 0
  }

  /** The batch holds every source event from the committed offset up to the cursor. */
  ghost predicate Polled(src: Sources, d: Disk, dec: Decisions, cursor: Option<Cursor>) {
    cursor.Some? ==>
      var c := cursor.value;
      && c.source in src && c.offset <= |src[c.source]|
      && forall i | Committed(d, c.source) <= i < c.offset :: src[c.source][i] in dec.accepted + dec.rejected
  }

  lemma FilterKeeps(p: Event -> bool, s: seq<Event>, e: Event)
    ensures e in Filter(p, s) <==> e in s && p(e)
  {
    FilterMultiset(p, s, e);
    assert e in Filter(p, s) <==> multiset(Filter(p, s))[e] > 0;
    assert e in s <==> multiset(s)[e] > 0;
  }

  /** Once the refused events are dead-lettered, every event of the batch is settled or fresh. */
  lemma BatchAccounted(src: Sources, d: Disk, dec: Decisions, e: Event)
    requires Inv(src, d) && e in dec.accepted + dec.rejected
    ensures Settled(d.(dead := d.dead + Refused(d, dec)), e) || e in Fresh(d, dec)
  {
    var news := Filter(IsNew(d.index), dec.accepted);
    FilterKeeps(IsNew(d.index), dec.accepted, e);
    FilterKeeps(IsConflict(d.index), dec.accepted, e);
    FilterKeeps(dec.allows, news, e);
    FilterKeeps(Not(dec.allows), news, e);
    if KeyOf(e) in d.index && d.index[KeyOf(e)] == e.hash {
      var k := KeyOf(e);
      assert Settled(d, Event(k.0, k.1, d.index[k]));
    }
  }

  lemma BatchCovered(src: Sources, d: Disk, dec: Decisions, cursor: Option<Cursor>)
    requires Inv(src, d) && Polled(src, d, dec, cursor) && cursor.Some?
    ensures Covered(src, d.(dead := d.dead + Refused(d, dec)), cursor.value, Fresh(d, dec))
  {
    var d1 := d.(dead := d.dead + Refused(d, dec));
    var c := cursor.value;
    forall i | 0 <= i < c.offset ensures Settled(d1, src[c.source][i]) || src[c.source][i] in Fresh(d, dec) {
      if i < Committed(d, c.source) {
        assert Covered(src, d, Cursor(c.source, d.offsets[c.source]), []);
      } else {
        BatchAccounted(src, d, dec, src[c.source][i]);
      }
    }
  }

  lemma CleanKept(d: Disk, d': Disk)
    requires Clean(d) && d'.wal == d.wal && d'.index == d.index && d'.visible == d.visible && d.dead <= d'.dead
    ensures Clean(d')
  {
    forall id, e | id in Records(d.wal) && e in Records(d.wal)[id].events ensures Indexed(d'.index, e) && Settled(d', e) {
      assert Settled(d, e);
    }
  }

  /** A record of new keys under the next id, over a log with nothing outstanding. */
  ghost predicate Next(src: Sources, d: Disk, r: WalRecord) {
    && Clean(d) && r.id == d.nextId
    && KeyDistinct(r.events) && (forall e | e in r.events :: KeyOf(e) !in d.index)
    && (r.cursor.Some? ==> Covered(src, d, r.cursor.value, r.events))
  }

  ghost predicate MayAppend(src: Sources, d: Disk, r: WalRecord) {
    Next(src, d, r) && !Applied(d.marker, r.id)
  }

  lemma AppendWritesSafe(src: Sources, d: Disk, r: WalRecord)
    requires Inv(src, d) && MayAppend(src, d, r)
    ensures CrashSafe(src, d, AppendWrites(r))
  {
    var (a, b) := (AppendFrame(r), SaveAllocator(r.id + 1));
    KeepsAppendFrame(src, d, r);
    SafeOne(src, d, a);
    var d1 := Apply(d, a);
    KeepsSaveAllocator(src, d1, r.id + 1);
    SafeOne(src, d1, b);
    SafeConcat(src, d, [a], [b]);
    assert AppendWrites(r) == [a] + [b];
  }

  lemma AppendedIsNewest(src: Sources, d: Disk, r: WalRecord)
    requires Inv(src, d) && MayAppend(src, d, r)
    ensures InLog(Appended(d, r), r) && OlderSettled(Appended(d, r), r.id)
  {
    AppendedRecord(d.wal, r);
    var d2 := Appended(d, r);
    forall a | a in Records(d2.wal) && a < r.id ensures AllSettled(d2, Records(d2.wal)[a].events) {
      var events := Records(d.wal)[a].events;
      forall e | e in events ensures Settled(d2, e) {
        assert Settled(d, e);
      }
    }
  }

  /** Publishing the record just appended leaves nothing outstanding. */
  lemma PublishedClean(src: Sources, d: Disk, r: WalRecord, embeds: Event -> bool, id: nat)
    requires Inv(src, d) && Next(src, d, r) && id in Records(d.wal + [r])
    requires AllSettled(AfterPublish(Appended(d, r), r, embeds), r.events)
    requires AllIndexed(AfterPublish(Appended(d, r), r, embeds).index, r.events)
    requires IndexGrows(d.index, AfterPublish(Appended(d, r), r, embeds).index)
    ensures AllSettled(AfterPublish(Appended(d, r), r, embeds), Records(d.wal + [r])[id].events)
    ensures AllIndexed(AfterPublish(Appended(d, r), r, embeds).index, Records(d.wal + [r])[id].events)
  {
    AppendedRecord(d.wal, r);
    var d' := AfterPublish(Appended(d, r), r, embeds);
    if id != r.id {
      forall e | e in Records(d.wal)[id].events ensures Settled(d', e) && Indexed(d'.index, e) {
        assert Settled(d, e) && Indexed(d.index, e);
      }
    }
  }

  lemma LogWritesSafe(src: Sources, d: Disk, r: WalRecord, embeds: Event -> bool)
    requires Inv(src, d) && MayAppend(src, d, r)
    ensures CrashSafe(src, d, LogWrites(d, r, embeds))
    ensures var d' := Run(d, LogWrites(d, r, embeds));
            && Clean(d') && AllSettled(d', r.events) && d' == AfterPublish(Appended(d, r), r, embeds).(wal := d'.wal)
  {
    AppendWritesSafe(src, d, r);
    AppendRuns(d, r);
    AppendedIsNewest(src, d, r);
    SafeEnd(src, d, AppendWrites(r));
    var d2 := Appended(d, r);
    PublishSafe(src, d2, r, embeds);
    var pub := PublishWrites(d2, r, embeds);
    SafeEnd(src, d2, pub);
    var d3 := AfterPublish(d2, r, embeds);
    forall id | id in Records(d3.wal) ensures AllSettled(d3, Records(d3.wal)[id].events) && AllIndexed(d3.index, Records(d3.wal)[id].events) {
      PublishedClean(src, d, r, embeds, id);
    }
    CompactSafe(src, d3);
    SafeConcat(src, d, AppendWrites(r), pub);
    RunConcat(d, AppendWrites(r), pub);
    SafeConcat(src, d, AppendWrites(r) + pub, CompactWrites(d3.marker));
    RunConcat(d, AppendWrites(r) + pub, CompactWrites(d3.marker));
    assert pub == PublishWrites(d, r, embeds) && d3.marker == MarkerAfter(d, r, embeds);
  }

  /** A batch may crash anywhere; when it completes, nothing is outstanding. */
  lemma IngestSafe(src: Sources, d: Disk, dec: Decisions, cursor: Option<Cursor>)
    requires Inv(src, d) && Clean(d) && Polled(src, d, dec, cursor) && KeyDistinct(Fresh(d, dec))
    requires AppendSafe(d) || Fresh(d, dec) == []
    ensures CrashSafe(src, d, IngestWrites(d, dec, cursor))
    ensures Clean(Run(d, IngestWrites(d, dec, cursor)))
  {
    var refused := DeadLetters(Refused(d, dec));
    var d1 := d.(dead := d.dead + Refused(d, dec));
    var r := NewRecord(d, dec, cursor);
    DeadLettersSafe(src, d, Refused(d, dec));
    DeadLettersRun(d, Refused(d, dec));
    SafeEnd(src, d, refused);
    if r.events == [] {
      EmptyBatchSafe(src, d, dec, cursor);
    } else {
      FreshIsNext(src, d, dec, cursor);
      LogWritesSafe(src, d1, r, dec.embeds);
    }
    DeadLettersAside(d, d1.dead, r, dec.embeds);
    SafeConcat(src, d, refused, BatchWrites(d1, r, dec.embeds));
    RunConcat(d, refused, BatchWrites(d1, r, dec.embeds));
  }

  lemma OffsetWriteSafe(src: Sources, d: Disk, c: Cursor)
    requires Inv(src, d) && Clean(d) && Covered(src, d, c, [])
    ensures CrashSafe(src, d, [CommitOffset(c)]) && Clean(Run(d, [CommitOffset(c)]))
  {
    KeepsCommitOffset(src, d, c);
    SafeOne(src, d, CommitOffset(c));
    CleanKept(d, Apply(d, CommitOffset(c)));
  }

  lemma EmptyBatchSafe(src: Sources, d: Disk, dec: Decisions, cursor: Option<Cursor>)
    requires Inv(src, d) && Clean(d) && Polled(src, d, dec, cursor) && Fresh(d, dec) == []
    requires Inv(src, d.(dead := d.dead + Refused(d, dec)))
    ensures var d1 := d.(dead := d.dead + Refused(d, dec));
            var rest := BatchWrites(d1, NewRecord(d, dec, cursor), dec.embeds);
            CrashSafe(src, d1, rest) && Clean(Run(d1, rest))
  {
    var d1 := d.(dead := d.dead + Refused(d, dec));
    CleanKept(d, d1);
    if cursor.Some? {
      BatchCovered(src, d, dec, cursor);
      assert Covered(src, d1, cursor.value, []);
      OffsetWriteSafe(src, d1, cursor.value);
    } else {
      SafeEmpty(src, d1);
    }
  }

  lemma FreshIsNext(src: Sources, d: Disk, dec: Decisions, cursor: Option<Cursor>)
    requires Inv(src, d) && Clean(d) && Polled(src, d, dec, cursor) && KeyDistinct(Fresh(d, dec))
    ensures Next(src, d.(dead := d.dead + Refused(d, dec)), NewRecord(d, dec, cursor))
  {
    var r := NewRecord(d, dec, cursor);
    var news := Filter(IsNew(d.index), dec.accepted);
    forall e | e in r.events ensures KeyOf(e) !in d.index {
      FilterKeeps(dec.allows, news, e);
      FilterKeeps(IsNew(d.index), dec.accepted, e);
    }
    CleanKept(d, d.(dead := d.dead + Refused(d, dec)));
    if cursor.Some? {
      BatchCovered(src, d, dec, cursor);
    }
  }

  // --- a batch taken while the marker covers its id ---

  lemma {:induction false} Filed(wal: seq<WalRecord>, i: nat)
    requires i < |wal|
    ensures wal[i].id in Records(wal)
  {
    var n := |wal| - 1;
    if i < n {
      Filed(wal[..n], i);
    }
  }

  lemma WholeLogCompacts(wal: seq<WalRecord>, floor: nat)
    requires forall id | id in Records(wal) :: id <= floor
    ensures Filter(Above(floor), wal) == []
  {
    forall i | 0 <= i < |wal| ensures !Above(floor)(wal[i]) {
      Filed(wal, i);
    }
    FilterNone(Above(floor), wal);
  }

  /** The commit that publishes a record under a covered id settles it: from there on nothing is at risk. */
  lemma CoveredCommit(src: Sources, d: Disk, r: WalRecord, embeds: Event -> bool)
    requires Inv(src, d) && Next(src, d, r) && Applied(d.marker, r.id)
    ensures var d2 := AfterCommit(Appended(d, r), r, embeds);
            Inv(src, d2) && InLog(d2, r) && AllSettled(d2, r.events) && KeepsPromises(d, d2)
  {
    var d2 := AfterCommit(Appended(d, r), r, embeds);
    AppendedRecord(d.wal, r);
    FilterSplits(embeds, r.events);
    CoveredCommitOnce(src, d, r, embeds);
    var (m, m2) := (Records(d.wal), Records(d2.wal));
    assert Grows(d, d2);
    forall id | id in m2 && Applied(d2.marker, id) ensures AllSettled(d2, m2[id].events) {
      assert id != r.id ==> forall e | e in m[id].events :: Settled(d, e);
    }
    forall s | s in d.offsets ensures Covered(src, d2, Cursor(s, d.offsets[s]), []) {
      CoveredGrows(src, d, d2, Cursor(s, d.offsets[s]), []);
    }
    forall id | id in m2 && m2[id].cursor.Some? ensures Covered(src, d2, m2[id].cursor.value, m2[id].events) {
      CoveredGrows(src, d, d2, m2[id].cursor.value, m2[id].events);
    }
    forall e | Promised(d, e) ensures Promised(d2, e) {
      assert Held(d, e) ==> Settled(d, e);
    }
  }

  lemma CoveredCommitOnce(src: Sources, d: Disk, r: WalRecord, embeds: Event -> bool)
    requires Once(d) && Next(src, d, r)
    ensures Once(AfterCommit(Appended(d, r), r, embeds))
  {
    AppendedRecord(d.wal, r);
    AppendKeepsOnce(d, r);
    NewKeysApart(d, r);
    assert Once(Appended(d, r));
    CommitNewestOnce(Appended(d, r), r, embeds);
  }

  lemma CommitNewestOnce(d: Disk, r: WalRecord, embeds: Event -> bool)
    requires Once(d) && InLog(d, r) && KeysApart(r.events, d.visible) && forall a | a in Records(d.wal) :: a <= r.id
    ensures Once(AfterCommit(d, r, embeds))
  {
    var (kept, lost) := (Filter(embeds, r.events), Filter(Not(embeds), r.events));
    var d1 := d.(dead := d.dead + lost);
    assert Once(d1);
    if kept == [] {
      assert d.visible + kept == d.visible;
    } else {
      FilterDistinct(embeds, r.events);
      CommitKeepsOnce(d1, r.id, kept);
    }
  }

  /** What follows the commit of a batch: keys, offset, compaction. */
  function TailWrites(d: Disk, r: WalRecord): seq<Write> {
    RecordWrites(d, r) + CompactWrites(d.marker)
  }

  lemma CoveredTail(src: Sources, d: Disk, r: WalRecord, embeds: Event -> bool)
    requires Inv(src, d) && Next(src, d, r) && Applied(d.marker, r.id)
    ensures var d2 := AfterCommit(Appended(d, r), r, embeds);
            CrashSafe(src, d2, TailWrites(d2, r)) && Clean(Run(d2, TailWrites(d2, r)))
  {
    var d2 := AfterCommit(Appended(d, r), r, embeds);
    var d3 := AfterRecord(d2, r);
    CoveredCommit(src, d, r, embeds);
    RecordSafe(src, d2, r);
    SafeEnd(src, d2, RecordWrites(d2, r));
    forall id | id in Records(d3.wal) ensures AllSettled(d3, Records(d3.wal)[id].events) && AllIndexed(d3.index, Records(d3.wal)[id].events) {
      PublishedClean(src, d, r, embeds, id);
    }
    CompactSafe(src, d3);
    SafeConcat(src, d2, RecordWrites(d2, r), CompactWrites(d3.marker));
    RunConcat(d2, RecordWrites(d2, r), CompactWrites(d3.marker));
  }

  /** Everything up to and including the commit. */
  function HeadWrites(d: Disk, dec: Decisions, r: WalRecord): seq<Write> {
    DeadLetters(Refused(d, dec)) + (AppendWrites(r) + CommitWrites(r, dec.embeds))
  }

  function Published(d: Disk, dec: Decisions, cursor: Option<Cursor>): Disk {
    AfterCommit(Appended(d.(dead := d.dead + Refused(d, dec)), NewRecord(d, dec, cursor)), NewRecord(d, dec, cursor), dec.embeds)
  }

  lemma HeadThenTail(d: Disk, dec: Decisions, cursor: Option<Cursor>)
    requires Fresh(d, dec) != []
    ensures var r := NewRecord(d, dec, cursor);
            IngestWrites(d, dec, cursor) == HeadWrites(d, dec, r) + TailWrites(Published(d, dec, cursor), r)
  {
    var r := NewRecord(d, dec, cursor);
    var d2 := Published(d, dec, cursor);
    PublishRuns(d, r, dec.embeds);
    assert RecordWrites(AfterCommit(d, r, dec.embeds), r) == RecordWrites(d2, r) && d2.marker == MarkerAfter(d, r, dec.embeds);
    Regrouped(DeadLetters(Refused(d, dec)), AppendWrites(r), CommitWrites(r, dec.embeds), RecordWrites(d2, r), CompactWrites(d2.marker));
  }

  lemma Regrouped<T>(a: seq<T>, b: seq<T>, c: seq<T>, e: seq<T>, f: seq<T>)
    ensures a + (b + (c + e) + f) == a + (b + c) + (e + f)
  {
  }

  lemma HeadRuns(d: Disk, dec: Decisions, cursor: Option<Cursor>)
    ensures Run(d, HeadWrites(d, dec, NewRecord(d, dec, cursor))) == Published(d, dec, cursor)
  {
    var r := NewRecord(d, dec, cursor);
    var d1 := d.(dead := d.dead + Refused(d, dec));
    DeadLettersRun(d, Refused(d, dec));
    RunConcat(d, DeadLetters(Refused(d, dec)), AppendWrites(r) + CommitWrites(r, dec.embeds));
    AppendRuns(d1, r);
    RunConcat(d1, AppendWrites(r), CommitWrites(r, dec.embeds));
    CommitRuns(Appended(d1, r), r, dec.embeds);
  }

  lemma PrefixPast<T>(a: seq<T>, b: seq<T>, n: nat)
    requires |a| <= n <= |a + b|
    ensures (a + b)[..n] == a + b[..n - |a|]
  {
  }

  lemma CutPastCommit(d: Disk, dec: Decisions, cursor: Option<Cursor>, n: nat)
    requires Fresh(d, dec) != [] && |HeadWrites(d, dec, NewRecord(d, dec, cursor))| <= n <= |IngestWrites(d, dec, cursor)|
    ensures var d2 := Published(d, dec, cursor);
            var (tail, k) := (TailWrites(d2, NewRecord(d, dec, cursor)), n - |HeadWrites(d, dec, NewRecord(d, dec, cursor))|);
            k <= |tail| && Run(d, IngestWrites(d, dec, cursor)[..n]) == Run(d2, tail[..k])
            && (k == |tail| <==> n == |IngestWrites(d, dec, cursor)|)
  {
    var r := NewRecord(d, dec, cursor);
    var head := HeadWrites(d, dec, r);
    var tail := TailWrites(Published(d, dec, cursor), r);
    HeadThenTail(d, dec, cursor);
    HeadRuns(d, dec, cursor);
    PrefixPast(head, tail, n);
    RunConcat(d, head, tail[..n - |head|]);
  }

  lemma CoveredTailCut(src: Sources, d: Disk, r: WalRecord, embeds: Event -> bool, d2: Disk, k: nat)
    requires Inv(src, d) && Next(src, d, r) && Applied(d.marker, r.id)
    requires d2 == AfterCommit(Appended(d, r), r, embeds) && k <= |TailWrites(d2, r)|
    ensures var d' := Run(d2, TailWrites(d2, r)[..k]);
            Inv(src, d') && KeepsPromises(d, d') && (k == |TailWrites(d2, r)| ==> Clean(d'))
  {
    var tail := TailWrites(d2, r);
    CoveredCommit(src, d, r, embeds);
    CoveredTail(src, d, r, embeds);
    SafeCut(src, d2, tail, k);
    assert tail[..|tail|] == tail;
  }

  /** A batch under a covered id that reaches its commit keeps everything, wherever it dies afterwards, and
      leaves nothing outstanding if it completes. */
  lemma CommittedBatchRepairs(src: Sources, d: Disk, dec: Decisions, cursor: Option<Cursor>, n: nat)
    requires Inv(src, d) && Clean(d) && !AppendSafe(d) && Fresh(d, dec) != []
    requires Polled(src, d, dec, cursor) && KeyDistinct(Fresh(d, dec))
    requires |HeadWrites(d, dec, NewRecord(d, dec, cursor))| <= n <= |IngestWrites(d, dec, cursor)|
    ensures var d' := Run(d, IngestWrites(d, dec, cursor)[..n]);
            Inv(src, d') && KeepsPromises(d, d') && (n == |IngestWrites(d, dec, cursor)| ==> Clean(d'))
  {
    var r := NewRecord(d, dec, cursor);
    var d1 := d.(dead := d.dead + Refused(d, dec));
    CutPastCommit(d, dec, cursor, n);
    LettersKeep(src, d, Refused(d, dec));
    FreshIsNext(src, d, dec, cursor);
    CoveredTailCut(src, d1, r, dec.embeds, Published(d, dec, cursor), n - |HeadWrites(d, dec, r)|);
  }

  lemma LettersKeep(src: Sources, d: Disk, events: seq<Event>)
    requires Inv(src, d)
    ensures Inv(src, d.(dead := d.dead + events)) && KeepsPromises(d, d.(dead := d.dead + events))
  {
    DeadLettersSafe(src, d, events);
    DeadLettersRun(d, events);
    SafeEnd(src, d, DeadLetters(events));
  }

  lemma CutInLetters(d: Disk, dec: Decisions, cursor: Option<Cursor>, n: nat)
    requires n <= |Refused(d, dec)|
    ensures n <= |IngestWrites(d, dec, cursor)| && IngestWrites(d, dec, cursor)[..n] == DeadLetters(Refused(d, dec))[..n]
  {
  }

  // --- histories ---

  /** One operation and the number of its writes that reach the disk before the process dies. */
  datatype Op =
    | Ingested(dec: Decisions, cursor: Option<Cursor>, cut: nat)
    | Recovered(embeds: Event -> bool, cut: nat)

  /** `ready` once a recovery has completed and nothing has died since. */
  datatype Machine = Machine(disk: Disk, ready: bool)

  function Empty(): Machine {
    Machine(Disk([], [], 0, [], None, map[], map[]), false)
  }

  function WritesOf(d: Disk, op: Op): seq<Write> {
    match op
    case Ingested(dec, cursor, _) => IngestWrites(d, dec, cursor)
    case Recovered(embeds, _) => RecoverWrites(d, embeds)
  }

  predicate Completes(d: Disk, op: Op) {
    op.cut >= |WritesOf(d, op)|
  }

  function Step(m: Machine, op: Op): Machine {
    var ws := WritesOf(m.disk, op);
    if Completes(m.disk, op) then Machine(Run(m.disk, ws), op.Recovered? || m.ready)
    else Machine(Run(m.disk, ws[..op.cut]), false)
  }

  function Play(m: Machine, ops: seq<Op>): Machine {
    if ops == [] then m else Step(Play(m, ops[..|ops| - 1]), ops[|ops| - 1])
  }

  /** A batch that writes a frame under an id the marker covers, and dies before its commit. */
  predicate DiesCovered(d: Disk, dec: Decisions, cursor: Option<Cursor>, cut: nat) {
    !AppendSafe(d) && Fresh(d, dec) != [] && |Refused(d, dec)| < cut < |HeadWrites(d, dec, NewRecord(d, dec, cursor))|
  }

  /** What the protocol asks of its caller: recover before ingesting, poll from the committed offset,
      and offer no key twice in a batch. That no batch dies under a covered id is the id allocator's own
      obligation. */
  ghost predicate Allowed(src: Sources, m: Machine, op: Op) {
    match op
    case Ingested(dec, cursor, cut) =>
      m.ready && Polled(src, m.disk, dec, cursor) && KeyDistinct(Fresh(m.disk, dec)) && !DiesCovered(m.disk, dec, cursor, cut)
    case Recovered(_, _) => true
  }

  ghost predicate History(src: Sources, ops: seq<Op>) {
    ops == [] || (History(src, ops[..|ops| - 1]) && Allowed(src, Play(Empty(), ops[..|ops| - 1]), ops[|ops| - 1]))
  }

  lemma CoveredStepSafe(src: Sources, d: Disk, dec: Decisions, cursor: Option<Cursor>, cut: nat)
    requires Inv(src, d) && Clean(d) && Polled(src, d, dec, cursor) && KeyDistinct(Fresh(d, dec))
    requires !AppendSafe(d) && Fresh(d, dec) != [] && !DiesCovered(d, dec, cursor, cut)
    ensures var d' := Step(Machine(d, true), Ingested(dec, cursor, cut)).disk;
            && Inv(src, d') && KeepsPromises(d, d')
            && (cut >= |IngestWrites(d, dec, cursor)| ==> Clean(d'))
  {
    var ws := IngestWrites(d, dec, cursor);
    HeadThenTail(d, dec, cursor);
    if cut > |Refused(d, dec)| {
      CommittedBatchRepairs(src, d, dec, cursor, if cut < |ws| then cut else |ws|);
      assert ws[..|ws|] == ws;
    } else {
      CutInLetters(d, dec, cursor, cut);
      DeadLettersSafe(src, d, Refused(d, dec));
      SafeCut(src, d, DeadLetters(Refused(d, dec)), cut);
    }
  }

  lemma StepSafe(src: Sources, m: Machine, op: Op)
    requires Inv(src, m.disk) && (m.ready ==> Clean(m.disk)) && Allowed(src, m, op)
    ensures Inv(src, Step(m, op).disk) && (Step(m, op).ready ==> Clean(Step(m, op).disk))
    ensures KeepsPromises(m.disk, Step(m, op).disk)
  {
    var d := m.disk;
    var ws := WritesOf(d, op);
    if op.Ingested? && !AppendSafe(d) && Fresh(d, op.dec) != [] {
      CoveredStepSafe(src, d, op.dec, op.cursor, op.cut);
    } else {
      match op {
        case Ingested(dec, cursor, _) => IngestSafe(src, d, dec, cursor);
        case Recovered(embeds, _) => RecoverSafe(src, d, embeds);
      }
      if Completes(d, op) {
        SafeEnd(src, d, ws);
      } else {
        SafeCut(src, d, ws, op.cut);
      }
    }
  }

  /** Safety over every history: after any sequence of batches, crashes and recoveries each dedup key is
      visible at most once, committed offsets and index entries never run ahead of what is visible or
      dead-lettered, and whenever the store is ready nothing is outstanding. */
  lemma {:induction false} EveryHistoryIsSafe(src: Sources, ops: seq<Op>)
    requires History(src, ops)
    ensures var m := Play(Empty(), ops);
            && Inv(src, m.disk) && KeyDistinct(m.disk.visible)
            && OffsetsSettled(src, m.disk) && IndexSettled(m.disk)
            && (m.ready ==> Clean(m.disk))
  {
    if ops != [] {
      var n := |ops| - 1;
      EveryHistoryIsSafe(src, ops[..n]);
      StepSafe(src, Play(Empty(), ops[..n]), ops[n]);
    }
  }

  /** Nothing acknowledged is ever dropped: an event in the log at any point of a history is still in the
      log, visible or dead-lettered at every later point. */
  lemma {:induction false} AcknowledgedIsNeverLost(src: Sources, ops: seq<Op>, n: nat, e: Event)
    requires History(src, ops) && n <= |ops| && Promised(Play(Empty(), ops[..n]).disk, e)
    ensures Promised(Play(Empty(), ops).disk, e)
  {
    if n == |ops| {
      assert ops[..n] == ops;
    } else {
      var k := |ops| - 1;
      assert ops[..k][..n] == ops[..n];
      AcknowledgedIsNeverLost(src, ops[..k], n, e);
      EveryHistoryIsSafe(src, ops[..k]);
      StepSafe(src, Play(Empty(), ops[..k]), ops[k]);
    }
  }

  /** Once a recovery has completed, everything acknowledged before it is visible or dead-lettered. */
  lemma RecoveryResolves(src: Sources, ops: seq<Op>, n: nat, e: Event)
    requires History(src, ops) && n <= |ops| && Promised(Play(Empty(), ops[..n]).disk, e)
    requires Play(Empty(), ops).ready
    ensures Settled(Play(Empty(), ops).disk, e)
  {
    EveryHistoryIsSafe(src, ops);
    AcknowledgedIsNeverLost(src, ops, n, e);
  }
}
