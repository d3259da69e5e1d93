/** Where the ingestion protocol's promises stop: the exact conditions its callers and its id allocator
    must meet, and what is lost when they do not. */
module IngestLimits {
  import opened Lists
  import opened Ingest
  import opened IngestInvariant
  import opened IngestRuns
  import opened IngestHistory

  // --- the id allocator ---

  /** Every id the log or the marker has used is below the allocator. */
  ghost predicate Allocated(d: Disk) {
    && (d.marker.Some? ==> d.marker.value < d.nextId)
    && forall id | id in Records(d.wal) :: id < d.nextId
  }

  /** A write that takes no id and moves the marker only to one already allocated. */
  predicate Quiet(w: Write, nextId: nat) {
    match w
    case AppendFrame(_) => false
    case SaveAllocator(_) => false
    case Commit(_, m) => m < nextId
    case _ => true
  }

  ghost predicate AllQuiet(ws: seq<Write>, nextId: nat) {
    forall w | w in ws :: Quiet(w, nextId)
  }

  lemma QuietKeeps(d: Disk, w: Write)
    requires Allocated(d) && Quiet(w, d.nextId)
    ensures Allocated(Apply(d, w)) && Apply(d, w).nextId == d.nextId
  {
    if w.Compact? {
      var d' := Apply(d, w);
      forall id | id in Records(d'.wal) ensures id < d.nextId {
        CompactedRecords(d.wal, w.floor, id);
      }
    }
  }

  lemma {:induction false} QuietRun(d: Disk, ws: seq<Write>)
    requires Allocated(d) && AllQuiet(ws, d.nextId)
    ensures Allocated(Run(d, ws)) && Run(d, ws).nextId == d.nextId
  {
    if ws != [] {
      var n := |ws| - 1;
      assert AllQuiet(ws[..n], d.nextId);
      QuietRun(d, ws[..n]);
      assert ws[n] in ws;
      QuietKeeps(Run(d, ws[..n]), ws[n]);
    }
  }

  lemma PublishQuiet(d: Disk, r: WalRecord, embeds: Event -> bool, nextId: nat)
    requires r.id < nextId
    ensures AllQuiet(PublishWrites(d, r, embeds), nextId) && AllQuiet(RecordWrites(d, r), nextId)
  {
  }

  lemma {:induction false} RecoverQuiet(d: Disk, m: map<nat, WalRecord>, n: nat, embeds: Event -> bool, nextId: nat)
    requires forall id | id in m :: m[id].id < nextId
    ensures AllQuiet(RecoverBelow(d, d.marker, m, n, embeds), nextId)
  {
    if n > 0 {
      RecoverQuiet(d, m, n - 1, embeds, nextId);
      if n - 1 in m {
        PublishQuiet(Run(d, RecoverBelow(d, d.marker, m, n - 1, embeds)), m[n - 1], embeds, nextId);
      }
    }
  }

  /** The process dies between the frame reaching the log and the allocator being saved. */
  predicate InWindow(d: Disk, op: Op) {
    op.Ingested? && Fresh(d, op.dec) != [] && op.cut == |Refused(d, op.dec)| + 1
  }

  lemma RecoverKeepsAllocated(src: Sources, d: Disk, embeds: Event -> bool, n: nat)
    requires Inv(src, d) && Allocated(d) && n <= |RecoverWrites(d, embeds)|
    ensures Allocated(Run(d, RecoverWrites(d, embeds)[..n]))
  {
    var ws := RecoverWrites(d, embeds);
    forall id | id in Records(d.wal) ensures Records(d.wal)[id].id < d.nextId {
      assert Records(d.wal)[id].id == id;
    }
    RecoverQuiet(d, Records(d.wal), HighestId(d.wal) + 1, embeds, d.nextId);
    assert AllQuiet(ws, d.nextId);
    assert AllQuiet(ws[..n], d.nextId);
    QuietRun(d, ws[..n]);
  }

  /** Everything a batch writes after its append. */
  function AfterAppendWrites(d: Disk, r: WalRecord, embeds: Event -> bool): seq<Write> {
    PublishWrites(d, r, embeds) + CompactWrites(MarkerAfter(d, r, embeds))
  }

  lemma AfterAppendQuiet(d: Disk, r: WalRecord, embeds: Event -> bool)
    ensures AllQuiet(AfterAppendWrites(d, r, embeds), r.id + 1)
  {
    PublishQuiet(d, r, embeds, r.id + 1);
  }

  lemma IngestShape(d: Disk, dec: Decisions, cursor: Option<Cursor>)
    requires Fresh(d, dec) != []
    ensures var r := NewRecord(d, dec, cursor);
            IngestWrites(d, dec, cursor) == DeadLetters(Refused(d, dec)) + AppendWrites(r) + AfterAppendWrites(d, r, dec.embeds)
  {
    var r := NewRecord(d, dec, cursor);
    Regroup(DeadLetters(Refused(d, dec)), AppendWrites(r), PublishWrites(d, r, dec.embeds), CompactWrites(MarkerAfter(d, r, dec.embeds)));
  }

  lemma Regroup<T>(a: seq<T>, b: seq<T>, c: seq<T>, e: seq<T>)
    ensures a + (b + c + e) == a + b + (c + e)
  {
  }

  lemma AppendedAllocated(d: Disk, r: WalRecord)
    requires Allocated(d) && r.id == d.nextId
    ensures Allocated(Appended(d, r)) && !Allocated(Apply(d, AppendFrame(r)))
  {
    AppendedRecord(d.wal, r);
    assert r.id in Records(d.wal + [r]);
  }

  lemma PrefixThrough<T>(a: seq<T>, b: seq<T>, c: seq<T>, n: nat)
    requires |a| <= n <= |a + b + c|
    ensures n <= |a| + |b| ==> (a + b + c)[..n] == a + b[..n - |a|]
    ensures n >= |a| + |b| ==> (a + b + c)[..n] == a + b + c[..n - |a| - |b|]
  {
  }

  lemma CutBeforeAppend(d: Disk, dec: Decisions, cursor: Option<Cursor>, n: nat)
    requires Allocated(d) && Fresh(d, dec) != [] && n <= |Refused(d, dec)|
    ensures n <= |IngestWrites(d, dec, cursor)| && Allocated(Run(d, IngestWrites(d, dec, cursor)[..n]))
  {
    var dead := DeadLetters(Refused(d, dec));
    IngestShape(d, dec, cursor);
    assert |dead| == |Refused(d, dec)|;
    assert IngestWrites(d, dec, cursor)[..n] == dead[..n];
    assert AllQuiet(dead[..n], d.nextId);
    QuietRun(d, dead[..n]);
  }

  lemma WritesThroughFrame(d: Disk, dec: Decisions, cursor: Option<Cursor>)
    requires Fresh(d, dec) != []
    ensures var n := |Refused(d, dec)| + 1;
            && n < |IngestWrites(d, dec, cursor)|
            && IngestWrites(d, dec, cursor)[..n] == DeadLetters(Refused(d, dec)) + [AppendFrame(NewRecord(d, dec, cursor))]
  {
    var dead := DeadLetters(Refused(d, dec));
    var r := NewRecord(d, dec, cursor);
    IngestShape(d, dec, cursor);
    PrefixThrough(dead, AppendWrites(r), AfterAppendWrites(d, r, dec.embeds), |dead| + 1);
    assert AppendWrites(r)[..1] == [AppendFrame(r)];
  }

  /** Dying in the window leaves the frame in the log and the allocator where it was. */
  lemma CutInWindow(d: Disk, dec: Decisions, cursor: Option<Cursor>)
    requires Fresh(d, dec) != []
    ensures |Refused(d, dec)| + 1 < |IngestWrites(d, dec, cursor)|
    ensures Run(d, IngestWrites(d, dec, cursor)[..|Refused(d, dec)| + 1])
         == Apply(d.(dead := d.dead + Refused(d, dec)), AppendFrame(NewRecord(d, dec, cursor)))
  {
    WritesThroughFrame(d, dec, cursor);
    FrameRuns(d, Refused(d, dec), NewRecord(d, dec, cursor));
  }

  lemma FrameRuns(d: Disk, refused: seq<Event>, r: WalRecord)
    ensures Run(d, DeadLetters(refused) + [AppendFrame(r)]) == Apply(d.(dead := d.dead + refused), AppendFrame(r))
  {
    DeadLettersRun(d, refused);
    RunConcat(d, DeadLetters(refused), [AppendFrame(r)]);
    RunOne(Run(d, DeadLetters(refused)), AppendFrame(r));
  }

  lemma AppendTailAllocated(d: Disk, refused: seq<Event>, r: WalRecord, tail: seq<Write>)
    requires Allocated(d) && r.id == d.nextId && AllQuiet(tail, d.nextId + 1)
    ensures Allocated(Run(d, DeadLetters(refused) + AppendWrites(r) + tail))
  {
    var dead := DeadLetters(refused);
    DeadLettersRun(d, refused);
    var d1 := d.(dead := d.dead + refused);
    RunConcat(d, dead, AppendWrites(r));
    RunConcat(d, dead + AppendWrites(r), tail);
    AppendRuns(d1, r);
    AppendedAllocated(d1, r);
    QuietRun(Appended(d1, r), tail);
  }

  lemma QuietPrefix(ws: seq<Write>, n: nat, nextId: nat)
    requires AllQuiet(ws, nextId) && n <= |ws|
    ensures AllQuiet(ws[..n], nextId)
  {
  }

  lemma CutAfterAppend(d: Disk, dec: Decisions, cursor: Option<Cursor>, n: nat)
    requires Allocated(d) && Fresh(d, dec) != [] && |Refused(d, dec)| + 2 <= n <= |IngestWrites(d, dec, cursor)|
    ensures Allocated(Run(d, IngestWrites(d, dec, cursor)[..n]))
  {
    var r := NewRecord(d, dec, cursor);
    var dead := DeadLetters(Refused(d, dec));
    var rest := AfterAppendWrites(d, r, dec.embeds);
    IngestShape(d, dec, cursor);
    AfterAppendQuiet(d, r, dec.embeds);
    TailAfterAppend(d, Refused(d, dec), r, rest, n);
  }

  lemma TailAfterAppend(d: Disk, refused: seq<Event>, r: WalRecord, rest: seq<Write>, n: nat)
    requires Allocated(d) && r.id == d.nextId && AllQuiet(rest, d.nextId + 1)
    requires |refused| + 2 <= n <= |DeadLetters(refused) + AppendWrites(r) + rest|
    ensures Allocated(Run(d, (DeadLetters(refused) + AppendWrites(r) + rest)[..n]))
  {
    var dead := DeadLetters(refused);
    var k := n - |dead| - 2;
    PrefixThrough(dead, AppendWrites(r), rest, n);
    QuietPrefix(rest, k, d.nextId + 1);
    AppendTailAllocated(d, refused, r, rest[..k]);
  }

  lemma IngestCutInside(d: Disk, dec: Decisions, cursor: Option<Cursor>, n: nat)
    requires Allocated(d) && Fresh(d, dec) != [] && n <= |IngestWrites(d, dec, cursor)|
    ensures Allocated(Run(d, IngestWrites(d, dec, cursor)[..n])) <==> n != |Refused(d, dec)| + 1
  {
    if n <= |Refused(d, dec)| {
      CutBeforeAppend(d, dec, cursor, n);
    } else if n == |Refused(d, dec)| + 1 {
      CutInWindow(d, dec, cursor);
      AppendedAllocated(d.(dead := d.dead + Refused(d, dec)), NewRecord(d, dec, cursor));
    } else {
      CutAfterAppend(d, dec, cursor, n);
    }
  }

  lemma {:induction false} EmptyBatchQuiet(d: Disk, dec: Decisions, cursor: Option<Cursor>, n: nat)
    requires Allocated(d) && Fresh(d, dec) == [] && n <= |IngestWrites(d, dec, cursor)|
    ensures Allocated(Run(d, IngestWrites(d, dec, cursor)[..n]))
  {
    var ws := IngestWrites(d, dec, cursor);
    assert AllQuiet(ws[..n], d.nextId);
    QuietRun(d, ws[..n]);
  }

  /** From an allocated state, one operation leaves the allocator ahead of every used id if and only if
      it does not die between the log frame and the allocator save. */
  lemma AllocatorKeptExactly(src: Sources, m: Machine, op: Op)
    requires Inv(src, m.disk) && Allocated(m.disk)
    ensures Allocated(Step(m, op).disk) <==> !InWindow(m.disk, op)
  {
    var d := m.disk;
    var ws := WritesOf(d, op);
    var n := if Completes(d, op) then |ws| else op.cut;
    assert ws[..|ws|] == ws;
    match op {
      case Ingested(dec, cursor, _) =>
        if Fresh(d, dec) == [] {
          EmptyBatchQuiet(d, dec, cursor, n);
        } else {
          IngestShape(d, dec, cursor);
          IngestCutInside(d, dec, cursor, n);
        }
      case Recovered(embeds, _) => RecoverKeepsAllocated(src, d, embeds, n);
    }
  }

  /** What the callers owe: recover first, poll from the committed offset, no key twice in a batch. */
  ghost predicate CallersAllow(src: Sources, m: Machine, op: Op) {
    match op
    case Ingested(dec, cursor, _) => m.ready && Polled(src, m.disk, dec, cursor) && KeyDistinct(Fresh(m.disk, dec))
    case Recovered(_, _) => true
  }

  /** Callers keep their side, and no process dies between a log frame and its allocator save. */
  ghost predicate Disciplined(src: Sources, ops: seq<Op>) {
    ops == [] ||
    var (front, op) := (ops[..|ops| - 1], ops[|ops| - 1]);
    Disciplined(src, front) && CallersAllow(src, Play(Empty(), front), op) && !InWindow(Play(Empty(), front).disk, op)
  }

  /** With that window excluded, the allocator never falls behind and every guarantee over histories
      holds with no further assumption about it. */
  lemma {:induction false} OutsideTheWindowEveryHistoryIsSafe(src: Sources, ops: seq<Op>)
    requires Disciplined(src, ops)
    ensures History(src, ops) && Allocated(Play(Empty(), ops).disk)
  {
    if ops != [] {
      var (front, op) := (ops[..|ops| - 1], ops[|ops| - 1]);
      OutsideTheWindowEveryHistoryIsSafe(src, front);
      EveryHistoryIsSafe(src, front);
      AllocatorKeptExactly(src, Play(Empty(), front), op);
    }
  }

  // --- an acknowledged batch, a crash, a recovery ---

  /** Where a process that dies right after acknowledging leaves the disk. */
  function Acknowledged(d: Disk, dec: Decisions, cursor: Option<Cursor>): Disk {
    Appended(d.(dead := d.dead + Refused(d, dec)), NewRecord(d, dec, cursor))
  }

  function AfterRecovery(d: Disk, embeds: Event -> bool): Disk {
    Run(d, RecoverWrites(d, embeds))
  }

  lemma {:induction false} ReconcilingPublishesNothing(d: Disk, m: map<nat, WalRecord>, n: nat, embeds: Event -> bool)
    requires forall id | id in m :: Applied(d.marker, m[id].id)
    ensures var d' := Run(d, RecoverBelow(d, d.marker, m, n, embeds));
            d'.visible == d.visible && d'.dead == d.dead && d'.wal == d.wal && d'.marker == d.marker
  {
    if n > 0 {
      ReconcilingPublishesNothing(d, m, n - 1, embeds);
      var ws := RecoverBelow(d, d.marker, m, n - 1, embeds);
      var d1 := Run(d, ws);
      RunConcat(d, ws, RecoverId(d1, d.marker, m, n - 1, embeds));
      if n - 1 in m {
        RecordRuns(d1, m[n - 1]);
      }
    }
  }

  lemma CoveredLogIsOnlyReconciled(d: Disk, embeds: Event -> bool)
    requires forall id | id in Records(d.wal) :: Applied(d.marker, Records(d.wal)[id].id)
    ensures AfterRecovery(d, embeds).visible == d.visible && AfterRecovery(d, embeds).dead == d.dead
  {
    var n := HighestId(d.wal) + 1;
    var ws := RecoverBelow(d, d.marker, Records(d.wal), n, embeds);
    ReconcilingPublishesNothing(d, Records(d.wal), n, embeds);
    RunConcat(d, ws, CompactWrites(Run(d, ws).marker));
    CompactRuns(Run(d, ws));
  }

  lemma AckedInv(src: Sources, d: Disk, dec: Decisions, cursor: Option<Cursor>)
    requires Inv(src, d) && Clean(d) && AppendSafe(d) && Polled(src, d, dec, cursor) && KeyDistinct(Fresh(d, dec))
    ensures var d1 := Acknowledged(d, dec, cursor); Inv(src, d1) && InLog(d1, NewRecord(d, dec, cursor))
  {
    var r := NewRecord(d, dec, cursor);
    var d0 := d.(dead := d.dead + Refused(d, dec));
    DeadLettersSafe(src, d, Refused(d, dec));
    DeadLettersRun(d, Refused(d, dec));
    SafeEnd(src, d, DeadLetters(Refused(d, dec)));
    FreshIsNext(src, d, dec, cursor);
    AppendWritesSafe(src, d0, r);
    SafeEnd(src, d0, AppendWrites(r));
    AppendRuns(d0, r);
    AppendedIsNewest(src, d0, r);
  }

  /** The acknowledgement is kept if and only if the allocator was ahead of the marker: a fresh event
      that was not already dead-lettered is visible or dead-lettered after the crash and a complete
      recovery exactly when no commit had reached the id it was logged under. */
  lemma AcknowledgementKeptExactly(src: Sources, d: Disk, dec: Decisions, cursor: Option<Cursor>, embeds: Event -> bool, e: Event)
    requires Inv(src, d) && Clean(d) && Polled(src, d, dec, cursor) && KeyDistinct(Fresh(d, dec))
    requires e in Fresh(d, dec) && e !in d.dead + Refused(d, dec)
    ensures Settled(AfterRecovery(Acknowledged(d, dec, cursor), embeds), e) <==> AppendSafe(d)
  {
    var d1 := Acknowledged(d, dec, cursor);
    if AppendSafe(d) {
      AckedInv(src, d, dec, cursor);
      RecoverSafe(src, d1, embeds);
      assert AllSettled(AfterRecovery(d1, embeds), Records(d1.wal)[d.nextId].events);
    } else {
      CoveredLog(src, d, NewRecord(d, dec, cursor), d1);
      CoveredLogIsOnlyReconciled(d1, embeds);
      FreshIsUnseen(d, dec, e);
    }
  }

  // --- dying under a covered id ---

  predicate Bookkeeping(w: Write) {
    w.DeadLetter? || w.SaveAllocator?
  }

  lemma {:induction false} BookkeepingRuns(d: Disk, ws: seq<Write>)
    requires forall w | w in ws :: Bookkeeping(w)
    ensures var d' := Run(d, ws); d'.wal == d.wal && d'.visible == d.visible && d'.marker == d.marker
  {
    if ws != [] {
      var n := |ws| - 1;
      assert ws[n] in ws && forall w | w in ws[..n] :: w in ws;
      BookkeepingRuns(d, ws[..n]);
    }
  }

  lemma BeforeCommitIsBookkeeping(d: Disk, dec: Decisions, cursor: Option<Cursor>, cut: nat)
    requires Fresh(d, dec) != [] && |Refused(d, dec)| < cut < |HeadWrites(d, dec, NewRecord(d, dec, cursor))|
    ensures cut <= |IngestWrites(d, dec, cursor)|
    ensures var (ws, n) := (IngestWrites(d, dec, cursor), |Refused(d, dec)| + 1); forall w | w in ws[n..cut] :: Bookkeeping(w)
  {
    var (r, n) := (NewRecord(d, dec, cursor), |Refused(d, dec)| + 1);
    var head := HeadWrites(d, dec, r);
    HeadThenTail(d, dec, cursor);
    var ws := IngestWrites(d, dec, cursor);
    forall i | n <= i < cut ensures Bookkeeping(ws[i]) {
      assert ws[i] == head[i];
    }
  }

  /** Until its commit a batch under a covered id has changed only the log, the allocator and the dead letters. */
  lemma CutBeforeCommit(d: Disk, dec: Decisions, cursor: Option<Cursor>, cut: nat)
    requires Fresh(d, dec) != [] && |Refused(d, dec)| < cut < |HeadWrites(d, dec, NewRecord(d, dec, cursor))|
    ensures cut <= |IngestWrites(d, dec, cursor)|
    ensures var x := Run(d, IngestWrites(d, dec, cursor)[..cut]);
            x.wal == d.wal + [NewRecord(d, dec, cursor)] && x.visible == d.visible && x.marker == d.marker
  {
    var (ws, n) := (IngestWrites(d, dec, cursor), |Refused(d, dec)| + 1);
    BeforeCommitIsBookkeeping(d, dec, cursor, cut);
    CutInWindow(d, dec, cursor);
    Spliced(ws, n, cut);
    RunConcat(d, ws[..n], ws[n..cut]);
    BookkeepingRuns(Run(d, ws[..n]), ws[n..cut]);
  }

  lemma Spliced<T>(s: seq<T>, n: nat, m: nat)
    requires n <= m <= |s|
    ensures s[..m] == s[..n] + s[n..m]
  {
  }

  lemma FreshIsUnseen(d: Disk, dec: Decisions, e: Event)
    requires Clean(d) && e in Fresh(d, dec)
    ensures e !in d.visible
  {
    FilterKeeps(dec.allows, Filter(IsNew(d.index), dec.accepted), e);
    FilterKeeps(IsNew(d.index), dec.accepted, e);
    assert e in d.visible ==> Indexed(d.index, e);
  }

  lemma RecoveredPromise(src: Sources, d: Disk, embeds: Event -> bool, e: Event)
    requires Inv(src, d) && Promised(d, e)
    ensures Settled(AfterRecovery(d, embeds), e)
  {
    RecoverSafe(src, d, embeds);
    SafeEnd(src, d, RecoverWrites(d, embeds));
  }

  lemma PublishedIsPromised(d: Disk, dec: Decisions, cursor: Option<Cursor>, e: Event)
    requires e in Fresh(d, dec)
    ensures Settled(Published(d, dec, cursor), e)
  {
    FilterSplits(dec.embeds, Fresh(d, dec));
  }

  /** A batch taken under a covered id dies after its frame. An event of it that is not dead-lettered by then
      is resolved by the next recovery if and only if the batch had reached its commit. */
  lemma CoveredDeathKeepsExactly(src: Sources, d: Disk, dec: Decisions, cursor: Option<Cursor>, cut: nat, embeds: Event -> bool, e: Event)
    requires Inv(src, d) && Clean(d) && !AppendSafe(d) && Polled(src, d, dec, cursor) && KeyDistinct(Fresh(d, dec))
    requires |Refused(d, dec)| < cut <= |IngestWrites(d, dec, cursor)| && e in Fresh(d, dec)
    requires e !in Run(d, IngestWrites(d, dec, cursor)[..cut]).dead
    ensures Settled(AfterRecovery(Run(d, IngestWrites(d, dec, cursor)[..cut]), embeds), e) <==> !DiesCovered(d, dec, cursor, cut)
  {
    var x := Run(d, IngestWrites(d, dec, cursor)[..cut]);
    if DiesCovered(d, dec, cursor, cut) {
      CutBeforeCommit(d, dec, cursor, cut);
      CoveredLog(src, d, NewRecord(d, dec, cursor), x);
      CoveredLogIsOnlyReconciled(x, embeds);
      FreshIsUnseen(d, dec, e);
    } else {
      CommittedBatchRepairs(src, d, dec, cursor, cut);
      CommittedKeeps(src, d, dec, cursor, cut, e);
      RecoveredPromise(src, x, embeds, e);
    }
  }

  lemma CoveredLog(src: Sources, d: Disk, r: WalRecord, x: Disk)
    requires Inv(src, d) && !AppendSafe(d) && r.id == d.nextId && x.wal == d.wal + [r] && x.marker == d.marker
    ensures forall id | id in Records(x.wal) :: Applied(x.marker, Records(x.wal)[id].id)
  {
    AppendedRecord(d.wal, r);
  }

  lemma CommittedKeeps(src: Sources, d: Disk, dec: Decisions, cursor: Option<Cursor>, n: nat, e: Event)
    requires Inv(src, d) && Clean(d) && !AppendSafe(d) && Polled(src, d, dec, cursor) && KeyDistinct(Fresh(d, dec))
    requires |HeadWrites(d, dec, NewRecord(d, dec, cursor))| <= n <= |IngestWrites(d, dec, cursor)| && e in Fresh(d, dec)
    ensures Promised(Run(d, IngestWrites(d, dec, cursor)[..n]), e)
  {
    var r := NewRecord(d, dec, cursor);
    var d1 := d.(dead := d.dead + Refused(d, dec));
    var d2 := Published(d, dec, cursor);
    CutPastCommit(d, dec, cursor, n);
    LettersKeep(src, d, Refused(d, dec));
    FreshIsNext(src, d, dec, cursor);
    CoveredTail(src, d1, r, dec.embeds);
    SafeCut(src, d2, TailWrites(d2, r), n - |HeadWrites(d, dec, r)|);
    PublishedIsPromised(d, dec, cursor, e);
  }

  lemma {:induction false} NewestId(wal: seq<WalRecord>, top: nat)
    requires forall id | id in Records(wal) :: id <= top
    ensures HighestId(wal) <= top
  {
    if wal != [] {
      var (front, last) := (wal[..|wal| - 1], wal[|wal| - 1]);
      forall id | id in Records(front) ensures id <= top {
        assert id in Records(wal);
      }
      NewestId(front, top);
      assert last.id in Records(wal);
    }
  }

  lemma ReplayMovesMarker(src: Sources, d: Disk, r: WalRecord, embeds: Event -> bool)
    requires Inv(src, d) && InLog(d, r) && !Applied(d.marker, r.id) && Filter(embeds, r.events) != []
    ensures var d' := Run(d, RecoverBelow(d, d.marker, Records(d.wal), r.id + 1, embeds));
            d'.marker == Some(r.id) && d'.nextId == d.nextId
  {
    var ws := RecoverBelow(d, d.marker, Records(d.wal), r.id, embeds);
    RecoverBelowSafe(src, d, Records(d.wal), r.id, embeds);
    var d1 := Run(d, ws);
    PublishRuns(d1, r, embeds);
    RunConcat(d, ws, PublishWrites(d1, r, embeds));
  }

  /** Recovery ends by replaying the newest record, if the marker does not cover it. */
  lemma RecoveryReachesNewest(src: Sources, d: Disk, r: WalRecord, embeds: Event -> bool)
    requires Inv(src, d) && InLog(d, r) && r.id == d.nextId && !Applied(d.marker, r.id)
    requires Filter(embeds, r.events) != []
    ensures AfterRecovery(d, embeds).marker == Some(r.id) && AfterRecovery(d, embeds).nextId == d.nextId
  {
    NewestId(d.wal, r.id);
    IdsBelow(d.wal, r.id);
    ReplayMovesMarker(src, d, r, embeds);
    var ws := RecoverBelow(d, d.marker, Records(d.wal), r.id + 1, embeds);
    RunConcat(d, ws, CompactWrites(Run(d, ws).marker));
    CompactRuns(Run(d, ws));
  }

  /** How the allocator falls behind: a batch that dies inside the window and is then recovered leaves
      the marker at the very id the next batch will be logged under. */
  lemma WindowThenRecoveryReusesAnId(src: Sources, d: Disk, dec: Decisions, cursor: Option<Cursor>, embeds: Event -> bool)
    requires Inv(src, d) && Clean(d) && AppendSafe(d) && Polled(src, d, dec, cursor) && KeyDistinct(Fresh(d, dec))
    requires Filter(embeds, Fresh(d, dec)) != []
    ensures var cut := Step(Machine(d, true), Ingested(dec, cursor, |Refused(d, dec)| + 1)).disk;
            !AppendSafe(AfterRecovery(cut, embeds))
  {
    CutInWindow(d, dec, cursor);
    var r := NewRecord(d, dec, cursor);
    var cut := Apply(d.(dead := d.dead + Refused(d, dec)), AppendFrame(r));
    assert Inv(src, cut) by {
      IngestSafe(src, d, dec, cursor);
      SafeCut(src, d, IngestWrites(d, dec, cursor), |Refused(d, dec)| + 1);
    }
    AppendedRecord(d.wal, r);
    RecoveryReachesNewest(src, cut, r, embeds);
  }

  // --- ingesting without recovering first ---

  lemma FreshAreOffered(d: Disk, dec: Decisions, e: Event)
    requires e !in dec.accepted + dec.rejected
    ensures e !in Fresh(d, dec) && e !in Refused(d, dec)
    ensures e !in Filter(dec.embeds, Fresh(d, dec)) && e !in Filter(Not(dec.embeds), Fresh(d, dec))
  {
    var news := Filter(IsNew(d.index), dec.accepted);
    FilterKeeps(IsNew(d.index), dec.accepted, e);
    FilterKeeps(IsConflict(d.index), dec.accepted, e);
    FilterKeeps(dec.allows, news, e);
    FilterKeeps(Not(dec.allows), news, e);
    FilterKeeps(dec.embeds, Fresh(d, dec), e);
    FilterKeeps(Not(dec.embeds), Fresh(d, dec), e);
  }

  /** The frame that the next record would replace holds `e`. */
  predicate InNextFrame(d: Disk, e: Event) {
    d.nextId in Records(d.wal) && e in Records(d.wal)[d.nextId].events
  }

  /** A batch leaves an older record alone: it logs nothing, or it commits nothing and its frame replaces
      another record than the one that holds `e`. */
  predicate Spares(d: Disk, dec: Decisions, e: Event) {
    Fresh(d, dec) == [] || (Filter(dec.embeds, Fresh(d, dec)) == [] && !InNextFrame(d, e))
  }

  /** An unsettled event is held under an id the marker does not cover, so the next id is uncovered too. */
  lemma OutstandingIsUncovered(src: Sources, d: Disk, e: Event) returns (id: nat)
    requires Inv(src, d) && Promised(d, e) && !Settled(d, e)
    ensures id in Records(d.wal) && e in Records(d.wal)[id].events && id <= d.nextId && !Applied(d.marker, id)
    ensures AppendSafe(d) && (InNextFrame(d, e) <==> id == d.nextId)
  {
    var m := Records(d.wal);
    id :| id in m && e in m[id].events;
    assert Applied(d.marker, id) ==> AllSettled(d, m[id].events);
  }

  lemma BatchSettlesOnlyItsOwn(d: Disk, dec: Decisions, cursor: Option<Cursor>, e: Event)
    requires !Settled(d, e) && e !in dec.accepted + dec.rejected
    ensures !Settled(AfterIngest(d, dec, cursor), e)
  {
    FreshAreOffered(d, dec, e);
  }

  /** A batch that commits raises the marker to its own id and compacts everything at or below it. */
  lemma CommittingBatchClearsTheLog(src: Sources, d: Disk, dec: Decisions, cursor: Option<Cursor>)
    requires Inv(src, d) && Filter(dec.embeds, Fresh(d, dec)) != []
    ensures AfterIngest(d, dec, cursor).wal == []
  {
    var r := NewRecord(d, dec, cursor);
    AppendedRecord(d.wal, r);
    WholeLogCompacts(d.wal + [r], r.id);
  }

  /** One that commits nothing leaves every uncovered record in place, with its own under the next id. */
  lemma QuietBatchLog(d: Disk, dec: Decisions, cursor: Option<Cursor>, id: nat)
    requires Fresh(d, dec) != [] && Filter(dec.embeds, Fresh(d, dec)) == []
    ensures var m := Records(AfterIngest(d, dec, cursor).wal);
            && (id in m <==> (id in Records(d.wal) || id == d.nextId) && !Applied(d.marker, id))
            && (id in m ==> m[id] == if id == d.nextId then NewRecord(d, dec, cursor) else Records(d.wal)[id])
  {
    var r := NewRecord(d, dec, cursor);
    AppendedRecord(d.wal, r);
    if d.marker.Some? {
      CompactedRecords(d.wal + [r], d.marker.value, id);
    }
  }

  lemma QuietBatchKeepsExactly(src: Sources, d: Disk, dec: Decisions, cursor: Option<Cursor>, e: Event)
    requires Inv(src, d) && Promised(d, e) && !Settled(d, e) && e !in dec.accepted + dec.rejected
    requires Fresh(d, dec) != [] && Filter(dec.embeds, Fresh(d, dec)) == []
    ensures Held(AfterIngest(d, dec, cursor), e) <==> !InNextFrame(d, e)
  {
    var id := OutstandingIsUncovered(src, d, e);
    var m := Records(AfterIngest(d, dec, cursor).wal);
    FreshAreOffered(d, dec, e);
    QuietBatchLog(d, dec, cursor, id);
    if InNextFrame(d, e) {
      forall k | k in m ensures e !in m[k].events {
        QuietBatchLog(d, dec, cursor, k);
        assert k in Records(d.wal) && k != id ==> KeysApart(Records(d.wal)[k].events, Records(d.wal)[id].events);
      }
    }
  }

  /** Ingesting over an outstanding record. The marker is a maximum, not a set, so a batch that commits covers
      the record and compacts it away; and a batch that commits nothing still replaces a frame whose id the
      allocator has not passed. An acknowledged event that is neither settled nor offered again is kept if
      and only if the batch does neither. */
  lemma SkippingRecoveryKeepsExactly(src: Sources, d: Disk, dec: Decisions, cursor: Option<Cursor>, e: Event)
    requires Inv(src, d) && Promised(d, e) && !Settled(d, e) && e !in dec.accepted + dec.rejected
    ensures Promised(Run(d, IngestWrites(d, dec, cursor)), e) <==> Spares(d, dec, e)
  {
    IngestEnds(d, dec, cursor);
    BatchSettlesOnlyItsOwn(d, dec, cursor, e);
    if Filter(dec.embeds, Fresh(d, dec)) != [] {
      CommittingBatchClearsTheLog(src, d, dec, cursor);
      assert Records([]) == map[];
    } else if Fresh(d, dec) != [] {
      QuietBatchKeepsExactly(src, d, dec, cursor, e);
    }
  }

  // --- two histories that lose an acknowledged event ---

  function Offering(e: Event, publishes: bool): Decisions {
    Decisions([e], [], (x: Event) => true, (x: Event) => publishes)
  }

  /** A store is opened; a batch of `e` dies after `cut` of its writes. */
  function DiesAfter(e: Event, cut: nat): seq<Op> {
    [Recovered((x: Event) => true, 0), Ingested(Offering(e, true), None, cut)]
  }

  lemma OfferingIsFresh(d: Disk, e: Event, publishes: bool)
    requires KeyOf(e) !in d.index
    ensures Fresh(d, Offering(e, publishes)) == [e] && Refused(d, Offering(e, publishes)) == []
    ensures Filter(Offering(e, publishes).embeds, [e]) == if publishes then [e] else []
  {
    assert [e][..0] == [];
  }

  lemma OpenedEmpty(embeds: Event -> bool)
    ensures Step(Empty(), Recovered(embeds, 0)) == Machine(Empty().disk, true)
  {
    var d := Empty().disk;
    assert HighestId(d.wal) == 0 && Records(d.wal) == map[];
    assert RecoverBelow(d, None, map[], 0, embeds) == [];
    assert RecoverBelow(d, None, map[], 1, embeds) == [];
    assert RecoverWrites(d, embeds) == [];
  }

  lemma TwoSteps(src: Sources, a: Op, b: Op, m: Machine)
    requires m == Step(Empty(), a) && Allowed(src, Empty(), a) && Allowed(src, m, b)
    ensures History(src, [a, b]) && Play(Empty(), [a, b]) == Step(m, b)
  {
    assert [a, b][..1] == [a] && [a][..0] == [];
    assert Play(Empty(), []) == Empty() && Play(Empty(), [a]) == m;
    assert History(src, []) && History(src, [a]);
  }

  lemma ThenStep(ops: seq<Op>, op: Op)
    ensures Play(Empty(), ops + [op]) == Step(Play(Empty(), ops), op)
  {
    assert (ops + [op])[..|ops|] == ops;
  }

  lemma WritesThroughAppend(d: Disk, dec: Decisions, cursor: Option<Cursor>)
    requires Fresh(d, dec) != []
    ensures var n := |Refused(d, dec)| + 2;
            && n < |IngestWrites(d, dec, cursor)|
            && IngestWrites(d, dec, cursor)[..n] == DeadLetters(Refused(d, dec)) + AppendWrites(NewRecord(d, dec, cursor))
  {
    var dead := DeadLetters(Refused(d, dec));
    var r := NewRecord(d, dec, cursor);
    IngestShape(d, dec, cursor);
    PrefixThrough(dead, AppendWrites(r), AfterAppendWrites(d, r, dec.embeds), |dead| + 2);
  }

  lemma CutOnAcknowledging(d: Disk, dec: Decisions, cursor: Option<Cursor>)
    requires Fresh(d, dec) != []
    ensures |Refused(d, dec)| + 2 < |IngestWrites(d, dec, cursor)|
    ensures Run(d, IngestWrites(d, dec, cursor)[..|Refused(d, dec)| + 2]) == Acknowledged(d, dec, cursor)
  {
    WritesThroughAppend(d, dec, cursor);
    DeadLettersRun(d, Refused(d, dec));
    RunConcat(d, DeadLetters(Refused(d, dec)), AppendWrites(NewRecord(d, dec, cursor)));
    AppendRuns(d.(dead := d.dead + Refused(d, dec)), NewRecord(d, dec, cursor));
  }

  /** The disk the first batch leaves: its frame, and the allocator saved or not. */
  function Outstanding(e: Event, nextId: nat): Disk {
    Disk([], [WalRecord(0, [e], None)], nextId, [], None, map[], map[])
  }

  lemma StepCut(m: Machine, dec: Decisions, cursor: Option<Cursor>, cut: nat, x: Disk)
    requires cut < |IngestWrites(m.disk, dec, cursor)| && x == Run(m.disk, IngestWrites(m.disk, dec, cursor)[..cut])
    ensures Step(m, Ingested(dec, cursor, cut)) == Machine(x, false)
  {
  }

  lemma StepWhole(m: Machine, dec: Decisions, cursor: Option<Cursor>, cut: nat)
    requires cut >= |IngestWrites(m.disk, dec, cursor)|
    ensures Step(m, Ingested(dec, cursor, cut)).disk == Run(m.disk, IngestWrites(m.disk, dec, cursor))
  {
  }

  lemma FirstDies(m: Machine, e: Event, cut: nat)
    requires m.disk == Empty().disk && (cut == 1 || cut == 2)
    ensures Step(m, Ingested(Offering(e, true), None, cut)) == Machine(Outstanding(e, cut - 1), false)
  {
    var (d, dec) := (m.disk, Offering(e, true));
    OfferingIsFresh(d, e, true);
    FirstFrame(d, dec, e);
    if cut == 1 {
      CutInWindow(d, dec, None);
    } else {
      CutOnAcknowledging(d, dec, None);
    }
    StepCut(m, dec, None, |Refused(d, dec)| + cut, Outstanding(e, cut - 1));
  }

  lemma FirstFrame(d: Disk, dec: Decisions, e: Event)
    requires d == Empty().disk && Fresh(d, dec) == [e] && Refused(d, dec) == []
    ensures Acknowledged(d, dec, None) == Outstanding(e, 1)
    ensures Apply(d.(dead := d.dead + Refused(d, dec)), AppendFrame(NewRecord(d, dec, None))) == Outstanding(e, 0)
  {
  }

  lemma FirstAllowed(src: Sources, m: Machine, e: Event, cut: nat)
    requires m.ready && m.disk == Empty().disk
    ensures Allowed(src, m, Ingested(Offering(e, true), None, cut))
  {
    OfferingIsFresh(m.disk, e, true);
    assert AppendSafe(m.disk) && !DiesCovered(m.disk, Offering(e, true), None, cut);
  }

  lemma FirstHistory(src: Sources, e: Event, cut: nat)
    requires cut == 1 || cut == 2
    ensures History(src, DiesAfter(e, cut)) && Play(Empty(), DiesAfter(e, cut)) == Machine(Outstanding(e, cut - 1), false)
  {
    var (a, b) := (Recovered((x: Event) => true, 0), Ingested(Offering(e, true), None, cut));
    var m := Machine(Empty().disk, true);
    OpenedEmpty(a.embeds);
    FirstDies(m, e, cut);
    FirstAllowed(src, m, e, cut);
    TwoSteps(src, a, b, m);
    assert DiesAfter(e, cut) == [a, b];
  }

  lemma LogOfOne(r: WalRecord)
    ensures Records([r]) == map[r.id := r]
  {
    assert [r][..0] == [] && Records([]) == map[];
  }

  lemma FewWrites(d: Disk, f: Event, publishes: bool)
    requires KeyOf(f) !in d.index
    ensures |IngestWrites(d, Offering(f, publishes), None)| <= 6
  {
    OfferingIsFresh(d, f, publishes);
    var lost := Filter(Not(Offering(f, publishes).embeds), [f]);
    assert |lost| <= 1;
    IngestShape(d, Offering(f, publishes), None);
  }

  lemma SecondLoses(src: Sources, d: Disk, e: Event, f: Event, publishes: bool)
    requires KeyOf(e) != KeyOf(f) && d == Outstanding(e, if publishes then 1 else 0) && Inv(src, d)
    ensures Promised(d, e) && !Promised(Step(Machine(d, false), Ingested(Offering(f, publishes), None, 6)).disk, e)
  {
    OutstandingHolds(e, if publishes then 1 else 0);
    OfferingIsFresh(d, f, publishes);
    FewWrites(d, f, publishes);
    StepWhole(Machine(d, false), Offering(f, publishes), None, 6);
    SkippingRecoveryKeepsExactly(src, d, Offering(f, publishes), None, e);
  }

  lemma OutstandingHolds(e: Event, nextId: nat)
    ensures var d := Outstanding(e, nextId); Promised(d, e) && !Settled(d, e) && (nextId == 0 ==> InNextFrame(d, e))
  {
    LogOfOne(WalRecord(0, [e], None));
    assert 0 in Records(Outstanding(e, nextId).wal);
  }

  lemma LostBy(src: Sources, e: Event, f: Event, ops: seq<Op>, publishes: bool)
    requires KeyOf(e) != KeyOf(f) && ops == DiesAfter(e, if publishes then 2 else 1)
    ensures History(src, ops) && Promised(Play(Empty(), ops).disk, e)
    ensures !Promised(Play(Empty(), ops + [Ingested(Offering(f, publishes), None, 6)]).disk, e)
  {
    var cut := if publishes then 2 else 1;
    FirstHistory(src, e, cut);
    EveryHistoryIsSafe(src, ops);
    SecondLoses(src, Outstanding(e, cut - 1), e, f, publishes);
    ThenStep(ops, Ingested(Offering(f, publishes), None, 6));
  }

  /** A batch dies as soon as it is acknowledged. A second batch is taken without recovering: it publishes,
      and the first batch's event is nowhere. */
  lemma SkippedRecordIsCompacted(src: Sources, e: Event, f: Event)
    requires KeyOf(e) != KeyOf(f)
    ensures var ops := DiesAfter(e, 2);
            && History(src, ops) && Promised(Play(Empty(), ops).disk, e)
            && !Promised(Play(Empty(), ops + [Ingested(Offering(f, true), None, 6)]).disk, e)
  {
    LostBy(src, e, f, DiesAfter(e, 2), true);
  }

  /** A batch dies between its frame and the allocator save. A second batch is taken without recovering: it
      publishes nothing, and still its frame replaces the first. */
  lemma SkippedFrameIsReplaced(src: Sources, e: Event, f: Event)
    requires KeyOf(e) != KeyOf(f)
    ensures var ops := DiesAfter(e, 1);
            && History(src, ops) && Promised(Play(Empty(), ops).disk, e)
            && !Promised(Play(Empty(), ops + [Ingested(Offering(f, false), None, 6)]).disk, e)
  {
    LostBy(src, e, f, DiesAfter(e, 1), false);
  }

  // --- two equal keys in one batch ---

  lemma DistinctParts(a: seq<Event>, b: seq<Event>)
    requires KeyDistinct(a + b)
    ensures KeyDistinct(b)
  {
    forall i, j | 0 <= i < j < |b| ensures KeyOf(b[i]) != KeyOf(b[j]) {
      assert (a + b)[|a| + i] == b[i] && (a + b)[|a| + j] == b[j];
    }
  }

  /** The index is consulted as loaded, so keys are not compared within a batch: a completed batch keeps
      every key visible at most once if and only if the events it publishes have distinct keys. */
  lemma BatchKeysExactly(src: Sources, d: Disk, dec: Decisions, cursor: Option<Cursor>)
    requires Inv(src, d) && Clean(d)
    ensures KeyDistinct(Run(d, IngestWrites(d, dec, cursor)).visible) <==> KeyDistinct(Filter(dec.embeds, Fresh(d, dec)))
  {
    IngestEnds(d, dec, cursor);
    var kept := Filter(dec.embeds, Fresh(d, dec));
    assert Run(d, IngestWrites(d, dec, cursor)).visible == d.visible + kept;
    forall x, y | x in kept && y in d.visible ensures KeyOf(x) != KeyOf(y) {
      FilterKeeps(dec.embeds, Fresh(d, dec), x);
      FilterKeeps(dec.allows, Filter(IsNew(d.index), dec.accepted), x);
      FilterKeeps(IsNew(d.index), dec.accepted, x);
      assert Indexed(d.index, y);
    }
    if KeyDistinct(kept) {
      DistinctAppend(d.visible, kept);
    }
    if KeyDistinct(d.visible + kept) {
      DistinctParts(d.visible, kept);
    }
  }
}
