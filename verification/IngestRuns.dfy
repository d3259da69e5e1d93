/** Whole runs of the ingestion protocol: ingests, crashes after any write, and recoveries that may
    themselves crash. */
module IngestRuns {
  import opened Lists
  import opened Ingest
  import opened IngestInvariant

  // --- sequences of writes ---

  lemma {:induction false} RunConcat(d: Disk, a: seq<Write>, b: seq<Write>)
    ensures Run(d, a + b) == Run(Run(d, a), b)
    decreases |b|
  {
    if b == [] {
      assert a + b == a;
    } else {
      var n := |b| - 1;
      assert (a + b)[..|a + b| - 1] == a + b[..n];
      RunConcat(d, a, b[..n]);
    }
  }

  /** A crash after `n` of the writes leaves the invariant and every promise intact. */
  ghost predicate SafeAfter(src: Sources, d: Disk, ws: seq<Write>, n: nat)
    requires n <= |ws|
  {
    Inv(src, Run(d, ws[..n])) && KeepsPromises(d, Run(d, ws[..n]))
  }

  ghost predicate CrashSafe(src: Sources, d: Disk, ws: seq<Write>) {
    forall n: nat | n <= |ws| :: SafeAfter(src, d, ws, n)
  }

  lemma SafeEmpty(src: Sources, d: Disk)
    requires Inv(src, d)
    ensures CrashSafe(src, d, [])
  {
    assert Run(d, []) == d && SafeAfter(src, d, [], 0);
  }

  lemma SafeOne(src: Sources, d: Disk, w: Write)
    requires Inv(src, d) && Inv(src, Apply(d, w)) && KeepsPromises(d, Apply(d, w))
    ensures CrashSafe(src, d, [w]) && Run(d, [w]) == Apply(d, w)
  {
    assert [w][..0] == [] && [w][..1] == [w];
    assert Run(d, []) == d;
    assert SafeAfter(src, d, [w], 0) && SafeAfter(src, d, [w], 1);
  }

  lemma SafeConcatAt(src: Sources, d: Disk, a: seq<Write>, b: seq<Write>, n: nat)
    requires CrashSafe(src, d, a) && CrashSafe(src, Run(d, a), b) && n <= |a + b|
    ensures SafeAfter(src, d, a + b, n)
  {
    if n <= |a| {
      assert (a + b)[..n] == a[..n];
      assert SafeAfter(src, d, a, n);
    } else {
      assert (a + b)[..n] == a + b[..n - |a|];
      RunConcat(d, a, b[..n - |a|]);
      assert a[..|a|] == a;
      assert SafeAfter(src, d, a, |a|) && SafeAfter(src, Run(d, a), b, n - |a|);
    }
  }

  lemma SafeConcat(src: Sources, d: Disk, a: seq<Write>, b: seq<Write>)
    requires CrashSafe(src, d, a) && CrashSafe(src, Run(d, a), b)
    ensures CrashSafe(src, d, a + b)
  {
    forall n: nat | n <= |a + b| ensures SafeAfter(src, d, a + b, n) {
      SafeConcatAt(src, d, a, b, n);
    }
  }

  lemma SafeCut(src: Sources, d: Disk, ws: seq<Write>, n: nat)
    requires CrashSafe(src, d, ws) && n <= |ws|
    ensures Inv(src, Run(d, ws[..n])) && KeepsPromises(d, Run(d, ws[..n]))
  {
    assert SafeAfter(src, d, ws, n);
  }

  lemma SafeEnd(src: Sources, d: Disk, ws: seq<Write>)
    requires CrashSafe(src, d, ws)
    ensures Inv(src, Run(d, ws)) && KeepsPromises(d, Run(d, ws))
  {
    assert ws[..|ws|] == ws;
    SafeCut(src, d, ws, |ws|);
  }

  // --- where each piece of the protocol ends ---

  lemma RunOne(d: Disk, w: Write)
    ensures Run(d, [w]) == Apply(d, w)
  {
    assert [w][..0] == [];
    assert Run(d, []) == d;
  }

  lemma {:induction false} DeadLettersRun(d: Disk, events: seq<Event>)
    ensures Run(d, DeadLetters(events)) == d.(dead := d.dead + events)
  {
    if events == [] {
      assert DeadLetters(events) == [];
    } else {
      var (front, last) := (events[..|events| - 1], events[|events| - 1]);
      assert events == front + [last];
      DeadLettersRun(d, front);
      assert DeadLetters(events) == DeadLetters(front) + [DeadLetter(last)];
      assert d.dead + events == d.dead + front + [last];
    }
  }

  function AfterRecord(d: Disk, r: WalRecord): Disk {
    d.(index := Recorded(d.index, r.events),
       offsets := if r.cursor.Some? then d.offsets[r.cursor.value.source := r.cursor.value.offset] else d.offsets)
  }

  lemma RecordRuns(d: Disk, r: WalRecord)
    ensures Run(d, RecordWrites(d, r)) == AfterRecord(d, r)
  {
    var w := SaveIndex(Recorded(d.index, r.events));
    RunOne(d, w);
    if r.cursor.Some? {
      var c := CommitOffset(r.cursor.value);
      RunConcat(d, [w], [c]);
      RunOne(Apply(d, w), c);
    } else {
      assert RecordWrites(d, r) == [w];
    }
  }

  /** The dead letters and the commit. */
  function CommitWrites(r: WalRecord, embeds: Event -> bool): seq<Write> {
    var kept := Filter(embeds, r.events);
    DeadLetters(Filter(Not(embeds), r.events)) + (if kept == [] then [] else [Commit(kept, r.id)])
  }

  function AfterCommit(d: Disk, r: WalRecord, embeds: Event -> bool): Disk {
    d.(dead := d.dead + Filter(Not(embeds), r.events), visible := d.visible + Filter(embeds, r.events),
       marker := MarkerAfter(d, r, embeds))
  }

  lemma CommitRuns(d: Disk, r: WalRecord, embeds: Event -> bool)
    ensures Run(d, CommitWrites(r, embeds)) == AfterCommit(d, r, embeds)
  {
    var (kept, lost) := (Filter(embeds, r.events), Filter(Not(embeds), r.events));
    DeadLettersRun(d, lost);
    if kept == [] {
      assert CommitWrites(r, embeds) == DeadLetters(lost);
    } else {
      RunConcat(d, DeadLetters(lost), [Commit(kept, r.id)]);
      RunOne(Run(d, DeadLetters(lost)), Commit(kept, r.id));
    }
  }

  function AfterPublish(d: Disk, r: WalRecord, embeds: Event -> bool): Disk {
    AfterRecord(AfterCommit(d, r, embeds), r)
  }

  lemma PublishRuns(d: Disk, r: WalRecord, embeds: Event -> bool)
    ensures PublishWrites(d, r, embeds) == CommitWrites(r, embeds) + RecordWrites(AfterCommit(d, r, embeds), r)
    ensures Run(d, PublishWrites(d, r, embeds)) == AfterPublish(d, r, embeds)
  {
    var d1 := AfterCommit(d, r, embeds);
    CommitRuns(d, r, embeds);
    RunConcat(d, CommitWrites(r, embeds), RecordWrites(d1, r));
    RecordRuns(d1, r);
  }

  function Appended(d: Disk, r: WalRecord): Disk {
    d.(wal := d.wal + [r], nextId := r.id + 1)
  }

  lemma AppendRuns(d: Disk, r: WalRecord)
    ensures Run(d, AppendWrites(r)) == Appended(d, r)
  {
    var (a, b) := (AppendFrame(r), SaveAllocator(r.id + 1));
    assert AppendWrites(r) == [a] + [b];
    RunConcat(d, [a], [b]);
    RunOne(d, a);
    RunOne(Apply(d, a), b);
  }

  function AfterCompact(d: Disk): Disk {
    if d.marker.None? then d else d.(wal := Filter(Above(d.marker.value), d.wal))
  }

  lemma CompactRuns(d: Disk)
    ensures Run(d, CompactWrites(d.marker)) == AfterCompact(d)
  {
    if d.marker.Some? {
      RunOne(d, Compact(d.marker.value));
    }
  }

  lemma LogRuns(d: Disk, r: WalRecord, embeds: Event -> bool)
    ensures Run(d, LogWrites(d, r, embeds)) == AfterCompact(AfterPublish(Appended(d, r), r, embeds))
  {
    var d2 := Appended(d, r);
    var d3 := AfterPublish(d2, r, embeds);
    AppendRuns(d, r);
    PublishRuns(d2, r, embeds);
    CompactRuns(d3);
    assert PublishWrites(d, r, embeds) == PublishWrites(d2, r, embeds) && d3.marker == MarkerAfter(d, r, embeds);
    RunConcat(d, AppendWrites(r), PublishWrites(d, r, embeds));
    RunConcat(d, AppendWrites(r) + PublishWrites(d, r, embeds), CompactWrites(d3.marker));
  }

  function AfterBatch(d: Disk, r: WalRecord, embeds: Event -> bool): Disk {
    if r.events != [] then AfterCompact(AfterPublish(Appended(d, r), r, embeds))
    else if r.cursor.Some? then Apply(d, CommitOffset(r.cursor.value))
    else d
  }

  lemma BatchRuns(d: Disk, r: WalRecord, embeds: Event -> bool)
    ensures Run(d, BatchWrites(d, r, embeds)) == AfterBatch(d, r, embeds)
  {
    if r.events != [] {
      LogRuns(d, r, embeds);
    } else if r.cursor.Some? {
      RunOne(d, CommitOffset(r.cursor.value));
    }
  }

  /** Where a batch ends: the refused events dead-lettered and, unless nothing is fresh, the new record
      appended, published and compacted. */
  function AfterIngest(d: Disk, dec: Decisions, cursor: Option<Cursor>): Disk {
    AfterBatch(d.(dead := d.dead + Refused(d, dec)), NewRecord(d, dec, cursor), dec.embeds)
  }

  lemma DeadLettersAside(d: Disk, dead: seq<Event>, r: WalRecord, embeds: Event -> bool)
    ensures BatchWrites(d.(dead := dead), r, embeds) == BatchWrites(d, r, embeds)
  {
  }

  lemma IngestEnds(d: Disk, dec: Decisions, cursor: Option<Cursor>)
    ensures Run(d, IngestWrites(d, dec, cursor)) == AfterIngest(d, dec, cursor)
  {
    var d1 := d.(dead := d.dead + Refused(d, dec));
    var r := NewRecord(d, dec, cursor);
    DeadLettersRun(d, Refused(d, dec));
    RunConcat(d, DeadLetters(Refused(d, dec)), BatchWrites(d, r, dec.embeds));
    DeadLettersAside(d, d1.dead, r, dec.embeds);
    BatchRuns(d1, r, dec.embeds);
  }

  // --- what a completed batch leaves, field by field ---

  /** The batch's own offset is committed, whatever became of its events. */
  lemma BatchCommitsItsOffset(d: Disk, dec: Decisions, cursor: Option<Cursor>)
    ensures Run(d, IngestWrites(d, dec, cursor)).offsets
         == if cursor.Some? then d.offsets[cursor.value.source := cursor.value.offset] else d.offsets
  {
    IngestEnds(d, dec, cursor);
  }

  predicate NewKey(d: Disk, e: Event) {
    (e.tenant, e.key) !in d.index
  }

  predicate OtherContent(d: Disk, e: Event) {
    (e.tenant, e.key) in d.index && d.index[(e.tenant, e.key)] != e.hash
  }

  lemma CountTwice(p: Event -> bool, q: Event -> bool, s: seq<Event>, e: Event)
    ensures multiset(Filter(p, Filter(q, s)))[e] == if p(e) && q(e) then multiset(s)[e] else 0
  {
    FilterMultiset(q, s, e);
    FilterMultiset(p, Filter(q, s), e);
  }

  /** How often a batch makes an event visible: as often as it accepted it, if its key is new, the policy
      allows it and it embeds. */
  function TimesShown(d: Disk, dec: Decisions, e: Event): nat {
    if NewKey(d, e) && dec.allows(e) && dec.embeds(e) then multiset(dec.accepted)[e] else 0
  }

  /** How often it dead-letters it: as often as it rejected it, and as often as it accepted it if its key is
      known with other content, or is new and the policy or the embedder turns it away. */
  function TimesRefused(d: Disk, dec: Decisions, e: Event): nat {
    multiset(dec.rejected)[e]
    + if OtherContent(d, e) || (NewKey(d, e) && !(dec.allows(e) && dec.embeds(e))) then multiset(dec.accepted)[e] else 0
  }

  lemma BatchPublishesExactly(d: Disk, dec: Decisions, cursor: Option<Cursor>, e: Event)
    ensures multiset(Run(d, IngestWrites(d, dec, cursor)).visible)[e] == multiset(d.visible)[e] + TimesShown(d, dec, e)
  {
    IngestEnds(d, dec, cursor);
    CountTwice(dec.allows, IsNew(d.index), dec.accepted, e);
    FilterMultiset(dec.embeds, Fresh(d, dec), e);
    VisibleAfter(d, dec, cursor);
  }

  lemma VisibleAfter(d: Disk, dec: Decisions, cursor: Option<Cursor>)
    ensures AfterIngest(d, dec, cursor).visible == d.visible + Filter(dec.embeds, Fresh(d, dec))
    ensures AfterIngest(d, dec, cursor).dead == d.dead + Refused(d, dec) + Filter(Not(dec.embeds), Fresh(d, dec))
  {
    if Fresh(d, dec) == [] {
      assert d.visible + [] == d.visible;
      assert d.dead + Refused(d, dec) + [] == d.dead + Refused(d, dec);
    }
  }

  lemma BatchDeadLettersExactly(d: Disk, dec: Decisions, cursor: Option<Cursor>, e: Event)
    ensures multiset(Run(d, IngestWrites(d, dec, cursor)).dead)[e]
         == multiset(d.dead)[e] + TimesRefused(d, dec, e)
  {
    var news := Filter(IsNew(d.index), dec.accepted);
    IngestEnds(d, dec, cursor);
    VisibleAfter(d, dec, cursor);
    FilterMultiset(IsConflict(d.index), dec.accepted, e);
    CountTwice(Not(dec.allows), IsNew(d.index), dec.accepted, e);
    CountTwice(dec.allows, IsNew(d.index), dec.accepted, e);
    FilterMultiset(Not(dec.embeds), Fresh(d, dec), e);
    SumOfParts(dec.rejected, Filter(IsConflict(d.index), dec.accepted), Filter(Not(dec.allows), news), e);
  }

  lemma SumOfParts(a: seq<Event>, b: seq<Event>, c: seq<Event>, e: Event)
    ensures multiset(a + b + c)[e] == multiset(a)[e] + multiset(b)[e] + multiset(c)[e]
  {
  }

  // --- the pieces ---

  lemma {:induction false} DeadLettersSafe(src: Sources, d: Disk, events: seq<Event>)
    requires Inv(src, d)
    ensures CrashSafe(src, d, DeadLetters(events))
  {
    if events == [] {
      SafeEmpty(src, d);
      assert DeadLetters(events) == [];
    } else {
      var (front, last) := (events[..|events| - 1], events[|events| - 1]);
      DeadLettersSafe(src, d, front);
      assert DeadLetters(events) == DeadLetters(front) + [DeadLetter(last)];
      SafeEnd(src, d, DeadLetters(front));
      var d' := Run(d, DeadLetters(front));
      KeepsDeadLetter(src, d', last);
      SafeOne(src, d', DeadLetter(last));
      SafeConcat(src, d, DeadLetters(front), [DeadLetter(last)]);
    }
  }

  ghost predicate IndexGrows(a: Index, b: Index) {
    forall e | Indexed(a, e) :: Indexed(b, e)
  }

  ghost predicate AllIndexed(ix: Index, events: seq<Event>) {
    forall e | e in events :: Indexed(ix, e)
  }

  lemma RecordedIndexes(ix: Index, events: seq<Event>)
    requires KeyDistinct(events) && Agrees(ix, events)
    ensures AllIndexed(Recorded(ix, events), events) && IndexGrows(ix, Recorded(ix, events))
  {
    forall e | e in events ensures Indexed(Recorded(ix, events), e) {
      RecordedLookup(ix, events, KeyOf(e));
    }
    forall e | Indexed(ix, e) ensures Indexed(Recorded(ix, events), e) {
      RecordedLookup(ix, events, KeyOf(e));
    }
  }

  ghost predicate InLog(d: Disk, r: WalRecord) {
    r.id in Records(d.wal) && Records(d.wal)[r.id] == r
  }

  lemma IndexSafe(src: Sources, d: Disk, r: WalRecord)
    requires Inv(src, d) && InLog(d, r) && AllSettled(d, r.events)
    ensures var w := SaveIndex(Recorded(d.index, r.events));
            && CrashSafe(src, d, [w]) && Run(d, [w]) == Apply(d, w)
            && Inv(src, Apply(d, w)) && InLog(Apply(d, w), r) && AllSettled(Apply(d, w), r.events)
  {
    KeepsSaveIndex(src, d, r);
    SafeOne(src, d, SaveIndex(Recorded(d.index, r.events)));
  }

  /** Recording a settled record's keys and offset, as publication and reconciliation both do. */
  lemma RecordSafe(src: Sources, d: Disk, r: WalRecord)
    requires Inv(src, d) && InLog(d, r) && AllSettled(d, r.events)
    ensures CrashSafe(src, d, RecordWrites(d, r))
    ensures Run(d, RecordWrites(d, r)) == AfterRecord(d, r)
    ensures AllIndexed(AfterRecord(d, r).index, r.events) && IndexGrows(d.index, AfterRecord(d, r).index)
  {
    RecordRuns(d, r);
    RecordingIndexes(src, d, r);
    RecordWritesSafe(src, d, r);
  }

  lemma RecordWritesSafe(src: Sources, d: Disk, r: WalRecord)
    requires Inv(src, d) && InLog(d, r) && AllSettled(d, r.events)
    ensures CrashSafe(src, d, RecordWrites(d, r))
  {
    var w := SaveIndex(Recorded(d.index, r.events));
    IndexSafe(src, d, r);
    if r.cursor.Some? {
      var c := CommitOffset(r.cursor.value);
      OffsetSafe(src, Apply(d, w), r);
      SafeConcat(src, d, [w], [c]);
      assert RecordWrites(d, r) == [w] + [c];
    } else {
      assert RecordWrites(d, r) == [w];
    }
  }

  lemma RecordingIndexes(src: Sources, d: Disk, r: WalRecord)
    requires Inv(src, d) && InLog(d, r)
    ensures AllIndexed(Recorded(d.index, r.events), r.events) && IndexGrows(d.index, Recorded(d.index, r.events))
  {
    assert Agrees(d.index, Records(d.wal)[r.id].events);
    RecordedIndexes(d.index, r.events);
  }

  lemma OffsetSafe(src: Sources, d: Disk, r: WalRecord)
    requires Inv(src, d) && InLog(d, r) && AllSettled(d, r.events) && r.cursor.Some?
    ensures CrashSafe(src, d, [CommitOffset(r.cursor.value)])
    ensures Run(d, [CommitOffset(r.cursor.value)]) == Apply(d, CommitOffset(r.cursor.value))
  {
    var c := r.cursor.value;
    assert Covered(src, d, c, r.events);
    KeepsCommitOffset(src, d, c);
    SafeOne(src, d, CommitOffset(c));
  }

  lemma FilterSplits(p: Event -> bool, s: seq<Event>)
    ensures forall e | e in s :: e in Filter(p, s) || e in Filter(Not(p), s)
  {
    forall e | e in s ensures e in Filter(p, s) || e in Filter(Not(p), s) {
      FilterMultiset(p, s, e);
      FilterMultiset(Not(p), s, e);
      assert multiset(s)[e] > 0;
      assert multiset(Filter(p, s))[e] > 0 || multiset(Filter(Not(p), s))[e] > 0;
    }
  }

  lemma {:induction false} FilterDistinct(p: Event -> bool, s: seq<Event>)
    requires KeyDistinct(s)
    ensures KeyDistinct(Filter(p, s))
  {
    if s != [] {
      var (front, last) := (s[..|s| - 1], s[|s| - 1]);
      FilterDistinct(p, front);
      var f := Filter(p, front);
      forall i | 0 <= i < |f| ensures KeyOf(f[i]) != KeyOf(last) {
        assert f[i] in f;
        assert f[i] in front;
        var j :| 0 <= j < |front| && front[j] == f[i];
        assert s[j] == f[i];
      }
    }
  }

  /** Every uncovered record older than `id` is settled: what makes raising the marker to `id` safe. */
  ghost predicate OlderSettled(d: Disk, id: nat) {
    forall a | a in Records(d.wal) && a < id && !Applied(d.marker, a) :: AllSettled(d, Records(d.wal)[a].events)
  }

  lemma CommitSafe(src: Sources, d: Disk, r: WalRecord, embeds: Event -> bool)
    requires Inv(src, d) && InLog(d, r) && !Applied(d.marker, r.id) && OlderSettled(d, r.id)
    ensures CrashSafe(src, d, CommitWrites(r, embeds))
    ensures AllSettled(AfterCommit(d, r, embeds), r.events)
  {
    var (kept, lost) := (Filter(embeds, r.events), Filter(Not(embeds), r.events));
    FilterSplits(embeds, r.events);
    DeadLettersSafe(src, d, lost);
    DeadLettersRun(d, lost);
    SafeEnd(src, d, DeadLetters(lost));
    var d1 := Run(d, DeadLetters(lost));
    if kept == [] {
      assert CommitWrites(r, embeds) == DeadLetters(lost);
    } else {
      FilterDistinct(embeds, r.events);
      assert MayCommit(d1, r, kept) by {
        forall id | id in Records(d.wal) && id < r.id && !Applied(d.marker, id) ensures AllSettled(d1, Records(d.wal)[id].events) {
          assert AllSettled(d, Records(d.wal)[id].events);
        }
      }
      KeepsCommit(src, d1, r, kept);
      SafeOne(src, d1, Commit(kept, r.id));
      SafeConcat(src, d, DeadLetters(lost), [Commit(kept, r.id)]);
    }
  }

  /** Publication of one record is crash-safe, and afterwards its events are settled and recorded. */
  lemma PublishSafe(src: Sources, d: Disk, r: WalRecord, embeds: Event -> bool)
    requires Inv(src, d) && InLog(d, r) && !Applied(d.marker, r.id) && OlderSettled(d, r.id)
    ensures CrashSafe(src, d, PublishWrites(d, r, embeds))
    ensures Run(d, PublishWrites(d, r, embeds)) == AfterPublish(d, r, embeds)
    ensures AllSettled(AfterPublish(d, r, embeds), r.events)
    ensures AllIndexed(AfterPublish(d, r, embeds).index, r.events) && IndexGrows(d.index, AfterPublish(d, r, embeds).index)
  {
    CommitSafe(src, d, r, embeds);
    CommitRuns(d, r, embeds);
    var d1 := AfterCommit(d, r, embeds);
    SafeEnd(src, d, CommitWrites(r, embeds));
    RecordSafe(src, d1, r);
    SafeConcat(src, d, CommitWrites(r, embeds), RecordWrites(d1, r));
    PublishRuns(d, r, embeds);
  }

  // --- recovery ---

  /** Everything below `n` in the log is settled and recorded. */
  ghost predicate DoneBelow(d: Disk, n: nat) {
    forall id | id in Records(d.wal) && id < n ::
      AllSettled(d, Records(d.wal)[id].events) && AllIndexed(d.index, Records(d.wal)[id].events)
  }

  /** Recovery has only moved the marker to a record it has replayed. */
  ghost predicate MarkerWithin(floor: Option<nat>, marker: Option<nat>, n: nat) {
    marker == floor || (marker.Some? && marker.value < n && !Applied(floor, marker.value))
  }

  lemma DoneGrows(d: Disk, d': Disk, n: nat)
    requires DoneBelow(d, n) && d'.wal == d.wal && Grows(d, d') && IndexGrows(d.index, d'.index)
    ensures DoneBelow(d', n)
  {
    forall id | id in Records(d.wal) && id < n
      ensures AllSettled(d', Records(d.wal)[id].events) && AllIndexed(d'.index, Records(d.wal)[id].events)
    {
      assert AllSettled(d, Records(d.wal)[id].events) && AllIndexed(d.index, Records(d.wal)[id].events);
    }
  }

  lemma DoneOne(d: Disk, n: nat)
    requires DoneBelow(d, n)
    requires n in Records(d.wal) ==>
               AllSettled(d, Records(d.wal)[n].events) && AllIndexed(d.index, Records(d.wal)[n].events)
    ensures DoneBelow(d, n + 1)
  {
  }

  /** What replaying the records below `n` has achieved. */
  ghost predicate Replayed(src: Sources, d: Disk, d': Disk, n: nat) {
    && Inv(src, d') && d'.wal == d.wal && d'.nextId == d.nextId
    && DoneBelow(d', n) && MarkerWithin(d.marker, d'.marker, n)
  }

  lemma RecoverOneSafe(src: Sources, d0: Disk, d: Disk, n: nat, r: WalRecord, ws: seq<Write>, embeds: Event -> bool)
    requires Replayed(src, d0, d, n) && n in Records(d.wal) && r == Records(d.wal)[n]
    requires ws == RecoverOne(d, d0.marker, r, embeds)
    ensures CrashSafe(src, d, ws) && Replayed(src, d0, Run(d, ws), n + 1)
  {
    assert r.id == n && InLog(d, r);
    if Applied(d0.marker, n) {
      assert AllSettled(d, r.events) by {
        assert Applied(d.marker, n);
      }
      RecordSafe(src, d, r);
    } else {
      PublishSafe(src, d, r, embeds);
    }
    SafeEnd(src, d, ws);
    var d' := Run(d, ws);
    assert Grows(d, d');
    DoneGrows(d, d', n);
    DoneOne(d', n);
  }

  ghost predicate RecoversTo(src: Sources, d: Disk, ws: seq<Write>, n: nat) {
    CrashSafe(src, d, ws) && Replayed(src, d, Run(d, ws), n)
  }

  lemma RecoverNone(src: Sources, d: Disk)
    requires Inv(src, d)
    ensures RecoversTo(src, d, [], 0)
  {
    SafeEmpty(src, d);
  }

  lemma RecoverIdSafe(src: Sources, d: Disk, m: map<nat, WalRecord>, ws: seq<Write>, one: seq<Write>, n: nat, embeds: Event -> bool)
    requires m == Records(d.wal) && n > 0 && RecoversTo(src, d, ws, n - 1)
    requires one == RecoverId(Run(d, ws), d.marker, m, n - 1, embeds)
    ensures RecoversTo(src, d, ws + one, n)
  {
    if n - 1 in m {
      RecoverOneSafe(src, d, Run(d, ws), n - 1, m[n - 1], one, embeds);
      RecoveredJoin(src, d, Run(d, ws), ws, one, n);
    } else {
      RecoverSkipSafe(src, d, m, ws, n);
      NothingMore(ws);
    }
  }

  lemma RecoveredJoin(src: Sources, d: Disk, d1: Disk, ws: seq<Write>, one: seq<Write>, n: nat)
    requires CrashSafe(src, d, ws) && d1 == Run(d, ws) && CrashSafe(src, d1, one) && Replayed(src, d, Run(d1, one), n)
    ensures RecoversTo(src, d, ws + one, n)
  {
    SafeConcat(src, d, ws, one);
    RunConcat(d, ws, one);
  }

  lemma RecoverSkipSafe(src: Sources, d: Disk, m: map<nat, WalRecord>, ws: seq<Write>, n: nat)
    requires m == Records(d.wal) && n > 0 && n - 1 !in m && RecoversTo(src, d, ws, n - 1)
    ensures RecoversTo(src, d, ws, n)
  {
    DoneOne(Run(d, ws), n - 1);
  }

  lemma NothingMore<T>(s: seq<T>)
    ensures s + [] == s
  {
  }

  lemma {:induction false} RecoverBelowSafe(src: Sources, d: Disk, m: map<nat, WalRecord>, n: nat, embeds: Event -> bool)
    requires Inv(src, d) && m == Records(d.wal)
    ensures RecoversTo(src, d, RecoverBelow(d, d.marker, m, n, embeds), n)
  {
    if n == 0 {
      RecoverNone(src, d);
    } else {
      var ws := RecoverBelow(d, d.marker, m, n - 1, embeds);
      RecoverBelowSafe(src, d, m, n - 1, embeds);
      RecoverIdSafe(src, d, m, ws, RecoverId(Run(d, ws), d.marker, m, n - 1, embeds), n, embeds);
    }
  }

  lemma {:induction false} IdsBelow(wal: seq<WalRecord>, id: nat)
    requires id in Records(wal)
    ensures id <= HighestId(wal)
  {
    if id != wal[|wal| - 1].id {
      IdsBelow(wal[..|wal| - 1], id);
    }
  }

  lemma CompactSafe(src: Sources, d: Disk)
    requires Inv(src, d)
    requires forall id | id in Records(d.wal) :: AllSettled(d, Records(d.wal)[id].events) && AllIndexed(d.index, Records(d.wal)[id].events)
    ensures var d' := Run(d, CompactWrites(d.marker));
            && CrashSafe(src, d, CompactWrites(d.marker)) && Inv(src, d') && Clean(d')
            && d' == d.(wal := d'.wal)
            && forall id | id in Records(d'.wal) :: !Applied(d'.marker, id)
  {
    assert forall e | e in d.visible :: Indexed(d.index, e);
    if d.marker.None? {
      SafeEmpty(src, d);
    } else {
      KeepsCompact(src, d);
      SafeOne(src, d, Compact(d.marker.value));
      var d' := Apply(d, Compact(d.marker.value));
      forall id | id in Records(d'.wal)
        ensures id in Records(d.wal) && Records(d'.wal)[id] == Records(d.wal)[id] && !Applied(d.marker, id)
      {
        CompactedRecords(d.wal, d.marker.value, id);
      }
    }
  }

  lemma RecoverEnd(src: Sources, d: Disk, m: map<nat, WalRecord>, ws: seq<Write>)
    requires m == Records(d.wal) && RecoversTo(src, d, ws, HighestId(d.wal) + 1)
    ensures var ws' := ws + CompactWrites(Run(d, ws).marker);
            CrashSafe(src, d, ws') && Clean(Run(d, ws')) && forall id | id in m :: AllSettled(Run(d, ws'), m[id].events)
  {
    var d1 := Run(d, ws);
    forall id | id in m ensures AllSettled(d1, m[id].events) && AllIndexed(d1.index, m[id].events) {
      IdsBelow(d.wal, id);
    }
    CompactSafe(src, d1);
    SafeConcat(src, d, ws, CompactWrites(d1.marker));
    RunConcat(d, ws, CompactWrites(d1.marker));
    var d2 := Run(d1, CompactWrites(d1.marker));
    forall id | id in m ensures AllSettled(d2, m[id].events) {
      assert AllSettled(d1, m[id].events);
    }
  }

  /** A recovery may crash anywhere; when it completes, every record the log held is settled and
      recorded, and nothing the marker covers is left in the log. */
  lemma RecoverSafe(src: Sources, d: Disk, embeds: Event -> bool)
    requires Inv(src, d)
    ensures CrashSafe(src, d, RecoverWrites(d, embeds))
    ensures Clean(Run(d, RecoverWrites(d, embeds)))
    ensures forall id | id in Records(d.wal) :: AllSettled(Run(d, RecoverWrites(d, embeds)), Records(d.wal)[id].events)
  {
    var m := Records(d.wal);
    RecoverBelowSafe(src, d, m, HighestId(d.wal) + 1, embeds);
    RecoverEnd(src, d, m, RecoverBelow(d, d.marker, m, HighestId(d.wal) + 1, embeds));
  }
}
