/** What every durable write of the ingestion protocol keeps, so that it holds after any crash. */
module IngestInvariant {
  import opened Lists
  import opened Ingest

  /** The immutable logs the sources deliver from. */
  type Sources = map<nat, seq<Event>>

  predicate Settled(d: Disk, e: Event) {
    e in d.visible || e in d.dead
  }

  predicate Indexed(ix: Index, e: Event) {
    KeyOf(e) in ix && ix[KeyOf(e)] == e.hash
  }

  ghost predicate KeyDistinct(s: seq<Event>) {
    forall i, j | 0 <= i < j < |s| :: KeyOf(s[i]) != KeyOf(s[j])
  }

  ghost predicate KeysApart(a: seq<Event>, b: seq<Event>) {
    forall x, y | x in a && y in b :: KeyOf(x) != KeyOf(y)
  }

  /** Ids are filed under themselves and never pass the allocator; keys repeat neither inside a
      record nor between records. */
  ghost predicate LogOk(m: map<nat, WalRecord>, nextId: nat) {
    && (forall id | id in m :: m[id].id == id && id <= nextId && KeyDistinct(m[id].events))
    && (forall a, b | a in m && b in m && a != b :: KeysApart(m[a].events, m[b].events))
  }

  /** Nothing the marker does not cover is visible yet. */
  ghost predicate PendingUnseen(m: map<nat, WalRecord>, marker: Option<nat>, visible: seq<Event>) {
    forall id | id in m && !Applied(marker, id) :: KeysApart(m[id].events, visible)
  }

  ghost predicate AllSettled(d: Disk, events: seq<Event>) {
    forall e | e in events :: Settled(d, e)
  }

  /** Everything the marker covers is visible or dead-lettered. */
  ghost predicate AppliedSettled(d: Disk) {
    forall id | id in Records(d.wal) && Applied(d.marker, id) :: AllSettled(d, Records(d.wal)[id].events)
  }

  ghost predicate Agrees(ix: Index, events: seq<Event>) {
    forall e | e in events && KeyOf(e) in ix :: ix[KeyOf(e)] == e.hash
  }

  ghost predicate IndexAgrees(m: map<nat, WalRecord>, ix: Index) {
    forall id | id in m :: Agrees(ix, m[id].events)
  }

  /** A recorded key belongs to an event that is visible or dead-lettered. */
  ghost predicate IndexSettled(d: Disk) {
    forall k | k in d.index :: Settled(d, Event(k.0, k.1, d.index[k]))
  }

  /** Every source event before `c` is visible, dead-lettered, or in `extra`. */
  ghost predicate Covered(src: Sources, d: Disk, c: Cursor, extra: seq<Event>) {
    && c.source in src && c.offset <= |src[c.source]|
    && forall i | 0 <= i < c.offset :: Settled(d, src[c.source][i]) || src[c.source][i] in extra
  }

  /** Offsets may lag what is settled; they never lead it. */
  ghost predicate OffsetsSettled(src: Sources, d: Disk) {
    forall s | s in d.offsets :: Covered(src, d, Cursor(s, d.offsets[s]), [])
  }

  ghost predicate CursorsCovered(src: Sources, d: Disk, m: map<nat, WalRecord>) {
    forall id | id in m && m[id].cursor.Some? :: Covered(src, d, m[id].cursor.value, m[id].events)
  }

  ghost predicate InAppliedRecord(m: map<nat, WalRecord>, marker: Option<nat>, e: Event) {
    exists id :: id in m && Applied(marker, id) && e in m[id].events
  }

  /** A visible event's key is in the index, or about to be put there by recovery. */
  ghost predicate VisibleKnown(d: Disk) {
    forall e | e in d.visible :: Indexed(d.index, e) || InAppliedRecord(Records(d.wal), d.marker, e)
  }

  /** What keeps each key visible at most once. */
  ghost predicate Once(d: Disk) {
    var m := Records(d.wal);
    && KeyDistinct(d.visible)
    && LogOk(m, d.nextId)
    && PendingUnseen(m, d.marker, d.visible)
    && IndexAgrees(m, d.index)
    && VisibleKnown(d)
  }

  /** And what keeps everything acknowledged: whatever the marker, the index or an offset covers is settled. */
  ghost predicate Inv(src: Sources, d: Disk) {
    && Once(d)
    && AppliedSettled(d)
    && IndexSettled(d)
    && OffsetsSettled(src, d)
    && CursorsCovered(src, d, Records(d.wal))
  }

  /** Some record in the log holds `e`. */
  ghost predicate Held(d: Disk, e: Event) {
    exists id :: id in Records(d.wal) && e in Records(d.wal)[id].events
  }

  /** An acknowledged event is in the log until it is visible or dead-lettered. */
  ghost predicate Promised(d: Disk, e: Event) {
    Held(d, e) || Settled(d, e)
  }

  ghost predicate KeepsPromises(d: Disk, d': Disk) {
    forall e | Promised(d, e) :: Promised(d', e)
  }

  // --- one write at a time ---

  /** `d'` has everything `d` had, visible or dead-lettered. */
  ghost predicate Grows(d: Disk, d': Disk) {
    forall e | Settled(d, e) :: Settled(d', e)
  }

  lemma CoveredGrows(src: Sources, d: Disk, d': Disk, c: Cursor, extra: seq<Event>)
    requires Covered(src, d, c, extra) && Grows(d, d')
    ensures Covered(src, d', c, extra)
  {
  }

  lemma SettledParts(src: Sources, d: Disk, d': Disk)
    requires Grows(d, d') && d'.wal == d.wal && d'.index == d.index && d'.offsets == d.offsets
    requires IndexSettled(d) && OffsetsSettled(src, d) && CursorsCovered(src, d, Records(d.wal))
    ensures IndexSettled(d') && OffsetsSettled(src, d') && CursorsCovered(src, d', Records(d.wal))
  {
    var m := Records(d.wal);
    forall s | s in d.offsets ensures Covered(src, d', Cursor(s, d.offsets[s]), []) {
      CoveredGrows(src, d, d', Cursor(s, d.offsets[s]), []);
    }
    forall id | id in m && m[id].cursor.Some? ensures Covered(src, d', m[id].cursor.value, m[id].events) {
      CoveredGrows(src, d, d', m[id].cursor.value, m[id].events);
    }
  }

  lemma KeepsDeadLetter(src: Sources, d: Disk, e: Event)
    requires Inv(src, d)
    ensures Inv(src, Apply(d, DeadLetter(e)))
    ensures KeepsPromises(d, Apply(d, DeadLetter(e)))
  {
    var d' := Apply(d, DeadLetter(e));
    assert Grows(d, d');
    SettledParts(src, d, d');
    forall id | id in Records(d.wal) && Applied(d.marker, id) ensures AllSettled(d', Records(d.wal)[id].events) {
      assert AllSettled(d, Records(d.wal)[id].events);
    }
  }

  lemma AppendedRecord(wal: seq<WalRecord>, r: WalRecord)
    ensures Records(wal + [r]) == Records(wal)[r.id := r]
  {
    assert (wal + [r])[..|wal|] == wal;
  }

  /** Every key in the log or visible is in the index. */
  ghost predicate CaughtUp(d: Disk) {
    && (forall id, e | id in Records(d.wal) && e in Records(d.wal)[id].events :: Indexed(d.index, e))
    && (forall e | e in d.visible :: Indexed(d.index, e))
  }

  lemma NewKeysApart(d: Disk, r: WalRecord)
    requires CaughtUp(d) && forall e | e in r.events :: KeyOf(e) !in d.index
    ensures KeysApart(r.events, d.visible)
    ensures forall a | a in Records(d.wal) :: KeysApart(Records(d.wal)[a].events, r.events) && KeysApart(r.events, Records(d.wal)[a].events)
  {
    forall a, x | a in Records(d.wal) && x in Records(d.wal)[a].events ensures KeyOf(x) in d.index {
      assert Indexed(d.index, x);
    }
    forall y | y in d.visible ensures KeyOf(y) in d.index {
      assert Indexed(d.index, y);
    }
  }

  lemma AppendKeepsCover(src: Sources, d: Disk, d': Disk, r: WalRecord)
    requires OffsetsSettled(src, d) && CursorsCovered(src, d, Records(d.wal)) && d' == Apply(d, AppendFrame(r))
    requires r.cursor.Some? ==> Covered(src, d, r.cursor.value, r.events)
    ensures OffsetsSettled(src, d') && CursorsCovered(src, d', Records(d.wal)[r.id := r])
  {
    var m' := Records(d.wal)[r.id := r];
    forall s | s in d.offsets ensures Covered(src, d', Cursor(s, d.offsets[s]), []) {
      CoveredGrows(src, d, d', Cursor(s, d.offsets[s]), []);
    }
    forall id | id in m' && m'[id].cursor.Some? ensures Covered(src, d', m'[id].cursor.value, m'[id].events) {
      CoveredGrows(src, d, d', m'[id].cursor.value, m'[id].events);
    }
  }

  lemma AppendKeepsOnce(d: Disk, r: WalRecord)
    requires Once(d) && CaughtUp(d)
    requires r.id == d.nextId && KeyDistinct(r.events) && forall e | e in r.events :: KeyOf(e) !in d.index
    ensures Once(Apply(d, AppendFrame(r)))
  {
    AppendedRecord(d.wal, r);
    NewKeysApart(d, r);
  }

  /** The log may take a record whose id no marker covers and whose keys are new, once everything it
      refused is dead-lettered and everything it knows is in the index. */
  lemma KeepsAppendFrame(src: Sources, d: Disk, r: WalRecord)
    requires Inv(src, d) && Clean(d)
    requires r.id == d.nextId && !Applied(d.marker, r.id)
    requires KeyDistinct(r.events) && forall e | e in r.events :: KeyOf(e) !in d.index
    requires r.cursor.Some? ==> Covered(src, d, r.cursor.value, r.events)
    ensures Inv(src, Apply(d, AppendFrame(r)))
    ensures KeepsPromises(d, Apply(d, AppendFrame(r)))
  {
    var d' := Apply(d, AppendFrame(r));
    var (m, m') := (Records(d.wal), Records(d'.wal));
    AppendedRecord(d.wal, r);
    AppendKeepsOnce(d, r);
    AppendKeepsCover(src, d, d', r);
    forall id | id in m' && Applied(d.marker, id) ensures AllSettled(d', m'[id].events) {
      assert AllSettled(d, m[id].events);
    }
    forall e | Promised(d, e) ensures Promised(d', e) {
      assert Held(d, e) ==> Settled(d, e);
    }
  }

  /** Between operations that completed: the log is fully recorded, and so is everything visible. */
  ghost predicate Clean(d: Disk) {
    && (forall id, e | id in Records(d.wal) && e in Records(d.wal)[id].events :: Indexed(d.index, e) && Settled(d, e))
    && (forall e | e in d.visible :: Indexed(d.index, e))
  }

  lemma KeepsSaveAllocator(src: Sources, d: Disk, n: nat)
    requires Inv(src, d) && n >= d.nextId
    ensures Inv(src, Apply(d, SaveAllocator(n)))
    ensures KeepsPromises(d, Apply(d, SaveAllocator(n)))
  {
    var d' := Apply(d, SaveAllocator(n));
    SettledParts(src, d, d');
    forall id | id in Records(d.wal) && Applied(d.marker, id) ensures AllSettled(d', Records(d.wal)[id].events) {
      assert AllSettled(d, Records(d.wal)[id].events);
    }
  }

  /** The commit: legal when the record is not yet covered, what it drops is dead-lettered, and every
      older uncovered record is already settled. */
  ghost predicate MayCommit(d: Disk, r: WalRecord, kept: seq<Event>) {
    var m := Records(d.wal);
    && r.id in m && m[r.id] == r && !Applied(d.marker, r.id)
    && KeyDistinct(kept)
    && (forall e | e in kept :: e in r.events)
    && (forall e | e in r.events :: e in kept || Settled(d, e))
    && (forall id | id in m && id < r.id && !Applied(d.marker, id) :: AllSettled(d, m[id].events))
  }

  lemma DistinctAppend(a: seq<Event>, b: seq<Event>)
    requires KeyDistinct(a) && KeyDistinct(b) && KeysApart(b, a)
    ensures KeyDistinct(a + b)
  {
    forall i, j | 0 <= i < j < |a + b| ensures KeyOf((a + b)[i]) != KeyOf((a + b)[j]) {
      if i < |a| <= j {
        assert a[i] in a && b[j - |a|] in b;
      }
    }
  }

  /** Publishing part of a record's events keeps keys visible at most once, when none of its keys is visible
      and no later record is covered. */
  ghost predicate MayPublish(d: Disk, id: nat, kept: seq<Event>) {
    var m := Records(d.wal);
    && id in m && KeyDistinct(kept) && (forall e | e in kept :: e in m[id].events)
    && KeysApart(m[id].events, d.visible)
    && forall a | a in m && a > id :: !Applied(d.marker, a)
  }

  lemma CommitKeepsOnce(d: Disk, id: nat, kept: seq<Event>)
    requires Once(d) && MayPublish(d, id, kept)
    ensures Once(Apply(d, Commit(kept, id)))
  {
    var d' := Apply(d, Commit(kept, id));
    var m := Records(d.wal);
    DistinctAppend(d.visible, kept);
    forall a | a in m && !Applied(d'.marker, a) ensures KeysApart(m[a].events, d'.visible) {
      assert KeysApart(m[a].events, d.visible) && KeysApart(m[a].events, m[id].events);
    }
    forall e | e in d'.visible ensures Indexed(d'.index, e) || InAppliedRecord(m, d'.marker, e) {
      if e in d.visible {
        if !Indexed(d.index, e) {
          var a :| a in m && Applied(d.marker, a) && e in m[a].events;
          assert Applied(d'.marker, a);
        }
      } else {
        assert e in m[id].events && Applied(d'.marker, id);
      }
    }
  }

  lemma KeepsCommit(src: Sources, d: Disk, r: WalRecord, kept: seq<Event>)
    requires Inv(src, d) && MayCommit(d, r, kept)
    ensures Inv(src, Apply(d, Commit(kept, r.id)))
    ensures KeepsPromises(d, Apply(d, Commit(kept, r.id)))
  {
    var d' := Apply(d, Commit(kept, r.id));
    var m := Records(d.wal);
    CommitKeepsOnce(d, r.id, kept);
    SettledParts(src, d, d');
    forall id | id in m && Applied(d'.marker, id) ensures AllSettled(d', m[id].events) {
      if id != r.id {
        assert AllSettled(d, m[id].events);
      }
    }
  }

  lemma {:induction false} RecordedLookup(ix: Index, events: seq<Event>, k: DedupKey)
    requires KeyDistinct(events)
    ensures k in Recorded(ix, events) <==> k in ix || exists e :: e in events && KeyOf(e) == k
    ensures (forall e | e in events :: KeyOf(e) != k) && k in ix ==> Recorded(ix, events)[k] == ix[k]
    ensures forall e | e in events && KeyOf(e) == k :: k in Recorded(ix, events) && Recorded(ix, events)[k] == e.hash
  {
    if events != [] {
      var (front, last) := (events[..|events| - 1], events[|events| - 1]);
      assert events == front + [last];
      RecordedLookup(ix, front, k);
      forall e | e in front ensures KeyOf(e) != KeyOf(last) {
        var i :| 0 <= i < |front| && front[i] == e;
        assert events[i] == e;
      }
    }
  }

  lemma SaveIndexKeepsOnce(d: Disk, id: nat)
    requires Once(d) && id in Records(d.wal)
    ensures Once(Apply(d, SaveIndex(Recorded(d.index, Records(d.wal)[id].events))))
  {
    var m := Records(d.wal);
    var events := m[id].events;
    var ix := Recorded(d.index, events);
    forall a | a in m ensures Agrees(ix, m[a].events) {
      forall e | e in m[a].events && KeyOf(e) in ix ensures ix[KeyOf(e)] == e.hash {
        RecordedLookup(d.index, events, KeyOf(e));
        if a != id {
          assert KeysApart(m[a].events, m[id].events);
          assert Agrees(d.index, m[a].events);
        }
      }
    }
    forall e | e in d.visible ensures Indexed(ix, e) || InAppliedRecord(m, d.marker, e) {
      RecordedLookup(d.index, events, KeyOf(e));
      if Indexed(d.index, e) {
        if x :| x in events && KeyOf(x) == KeyOf(e) {
          assert Agrees(d.index, m[id].events);
        }
      }
    }
  }

  /** Saving the keys of a settled record in the log. */
  lemma KeepsSaveIndex(src: Sources, d: Disk, r: WalRecord)
    requires Inv(src, d)
    requires r.id in Records(d.wal) && Records(d.wal)[r.id] == r && AllSettled(d, r.events)
    ensures Inv(src, Apply(d, SaveIndex(Recorded(d.index, r.events))))
    ensures KeepsPromises(d, Apply(d, SaveIndex(Recorded(d.index, r.events))))
  {
    var ix := Recorded(d.index, r.events);
    var d' := Apply(d, SaveIndex(ix));
    var m := Records(d.wal);
    SaveIndexKeepsOnce(d, r.id);
    forall k | k in ix ensures Settled(d', Event(k.0, k.1, ix[k])) {
      RecordedLookup(d.index, r.events, k);
      if e :| e in r.events && KeyOf(e) == k {
        assert e == Event(k.0, k.1, ix[k]);
      } else {
        assert Settled(d, Event(k.0, k.1, d.index[k]));
      }
    }
    assert Grows(d, d');
    forall id | id in m && Applied(d.marker, id) ensures AllSettled(d', m[id].events) {
      assert AllSettled(d, m[id].events);
    }
    forall s | s in d.offsets ensures Covered(src, d', Cursor(s, d.offsets[s]), []) {
      CoveredGrows(src, d, d', Cursor(s, d.offsets[s]), []);
    }
    forall id | id in m && m[id].cursor.Some? ensures Covered(src, d', m[id].cursor.value, m[id].events) {
      CoveredGrows(src, d, d', m[id].cursor.value, m[id].events);
    }
  }

  lemma KeepsCommitOffset(src: Sources, d: Disk, c: Cursor)
    requires Inv(src, d) && Covered(src, d, c, [])
    ensures Inv(src, Apply(d, CommitOffset(c)))
    ensures KeepsPromises(d, Apply(d, CommitOffset(c)))
  {
    var d' := Apply(d, CommitOffset(c));
    var m := Records(d.wal);
    forall id | id in m && Applied(d.marker, id) ensures AllSettled(d', m[id].events) {
      assert AllSettled(d, m[id].events);
    }
    forall s | s in d'.offsets ensures Covered(src, d', Cursor(s, d'.offsets[s]), []) {
      CoveredGrows(src, d, d', Cursor(s, d'.offsets[s]), []);
    }
    forall id | id in m && m[id].cursor.Some? ensures Covered(src, d', m[id].cursor.value, m[id].events) {
      CoveredGrows(src, d, d', m[id].cursor.value, m[id].events);
    }
  }

  lemma {:induction false} CompactedRecords(wal: seq<WalRecord>, floor: nat, id: nat)
    ensures id in Records(Filter(Above(floor), wal)) <==> id in Records(wal) && id > floor
    ensures id in Records(Filter(Above(floor), wal)) ==> Records(Filter(Above(floor), wal))[id] == Records(wal)[id]
  {
    if wal != [] {
      var (front, last) := (wal[..|wal| - 1], wal[|wal| - 1]);
      CompactedRecords(front, floor, id);
      if last.id > floor {
        AppendedRecord(Filter(Above(floor), front), last);
      }
    }
  }

  /** Compaction drops only records whose keys are all in the index. */
  ghost predicate MayCompact(d: Disk, floor: nat) {
    forall id, e | id in Records(d.wal) && id <= floor && e in Records(d.wal)[id].events :: Indexed(d.index, e)
  }

  lemma CompactKeepsOnce(d: Disk)
    requires Once(d) && d.marker.Some? && MayCompact(d, d.marker.value)
    ensures Once(Apply(d, Compact(d.marker.value)))
  {
    var d' := Apply(d, Compact(d.marker.value));
    var (m, m') := (Records(d.wal), Records(d'.wal));
    forall id: nat ensures id in m' <==> id in m && id > d.marker.value
              ensures id in m' ==> m'[id] == m[id] {
      CompactedRecords(d.wal, d.marker.value, id);
    }
    forall e | e in d.visible ensures Indexed(d.index, e) {
      assert InAppliedRecord(m, d.marker, e) ==> Indexed(d.index, e);
    }
  }

  lemma KeepsCompact(src: Sources, d: Disk)
    requires Inv(src, d) && d.marker.Some? && MayCompact(d, d.marker.value)
    ensures Inv(src, Apply(d, Compact(d.marker.value)))
    ensures KeepsPromises(d, Apply(d, Compact(d.marker.value)))
  {
    var floor := d.marker.value;
    var d' := Apply(d, Compact(floor));
    var (m, m') := (Records(d.wal), Records(d'.wal));
    forall id ensures id in m' <==> id in m && id > floor
              ensures id in m' ==> m'[id] == m[id] {
      CompactedRecords(d.wal, floor, id);
    }
    forall s | s in d.offsets ensures Covered(src, d', Cursor(s, d.offsets[s]), []) {
      CoveredGrows(src, d, d', Cursor(s, d.offsets[s]), []);
    }
    forall id | id in m' && m'[id].cursor.Some? ensures Covered(src, d', m'[id].cursor.value, m'[id].events) {
      CoveredGrows(src, d, d', m[id].cursor.value, m[id].events);
    }
    CompactKeepsOnce(d);
    forall e | Promised(d, e) ensures Promised(d', e) {
      if !Settled(d, e) {
        var id :| id in m && e in m[id].events;
        assert Applied(d.marker, id) ==> AllSettled(d, m[id].events);
        assert id in m' && e in m'[id].events;
      }
    }
  }
}
