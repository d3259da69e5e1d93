/** Merging stores: reading parts, one tiered operation, whole cycles, and the full merge they lead to. */
module MergeCycles {
  import opened Lists
  import opened Merge

  /** The rows of a part that are not tombstoned, each with the partition it belongs to. */
  function RowEntries(scheme: Scheme, dead: set<int>, generation: nat, rows: seq<Row>): seq<Entry> {
    if rows == [] then []
    else
      var (front, r) := (RowEntries(scheme, dead, generation, rows[..|rows| - 1]), rows[|rows| - 1]);
      if r.id in dead then front else front + [Entry(KeyFor(scheme, generation, r), r)]
  }

  function Entries(scheme: Scheme, dead: set<int>, parts: seq<Part>): seq<Entry> {
    if parts == [] then []
    else
      var p := parts[|parts| - 1];
      Entries(scheme, dead, parts[..|parts| - 1]) + RowEntries(scheme, dead, p.key.generation, p.rows)
  }

  function RowCount(parts: seq<Part>): nat {
    if parts == [] then 0 else RowCount(parts[..|parts| - 1]) + |parts[|parts| - 1].rows|
  }

  ghost predicate Stored(scheme: Scheme, dead: set<int>, p: Part, e: Entry) {
    e.row in p.rows && e.row.id !in dead && e.key == KeyFor(scheme, p.key.generation, e.row)
  }

  lemma {:induction false} RowMembers(scheme: Scheme, dead: set<int>, generation: nat, rows: seq<Row>, e: Entry)
    ensures e in RowEntries(scheme, dead, generation, rows) <==>
            e.row in rows && e.row.id !in dead && e.key == KeyFor(scheme, generation, e.row)
  {
    if rows != [] {
      var (front, last) := (rows[..|rows| - 1], rows[|rows| - 1]);
      RowMembers(scheme, dead, generation, front, e);
      assert rows == front + [last];
    }
  }

  lemma {:induction false} Members(scheme: Scheme, dead: set<int>, parts: seq<Part>, e: Entry)
    ensures e in Entries(scheme, dead, parts) <==> exists p :: p in parts && Stored(scheme, dead, p, e)
  {
    if parts != [] {
      var (front, last) := (parts[..|parts| - 1], parts[|parts| - 1]);
      assert parts == front + [last];
      Members(scheme, dead, front, e);
      RowMembers(scheme, dead, last.key.generation, last.rows, e);
      if p :| p in front && Stored(scheme, dead, p, e) {
        assert p in parts;
      } else {
        assert last in parts;
        assert (exists p :: p in parts && Stored(scheme, dead, p, e)) ==> Stored(scheme, dead, last, e);
      }
    }
  }

  lemma NextRow(scheme: Scheme, dead: set<int>, generation: nat, rows: seq<Row>, i: nat)
    requires i < |rows|
    ensures RowEntries(scheme, dead, generation, rows[..i + 1])
         == RowEntries(scheme, dead, generation, rows[..i])
            + if rows[i].id in dead then [] else [Entry(KeyFor(scheme, generation, rows[i]), rows[i])]
  {
    assert rows[..i + 1][..i] == rows[..i];
  }

  // --- the merge loop ---

  /** One row joins the merge: the counters and the winners move together. */
  method Absorb(m: map<Slot, Row>, e: Entry, duplicates: nat) returns (m': map<Slot, Row>, duplicates': nat)
    ensures m' == Reconcile(m, e) && |m'| + duplicates' == |m| + duplicates + 1
  {
    m', duplicates' := m, duplicates;
    if SlotOf(e) in m {
      duplicates' := duplicates + 1;
      if Supersedes(e.row, m[SlotOf(e)]) {
        m' := m[SlotOf(e) := e.row];
      }
    } else {
      m' := m[SlotOf(e) := e.row];
    }
  }

  lemma MergedAppend(es: seq<Entry>, e: Entry)
    ensures Merged(es + [e]) == Reconcile(Merged(es), e)
  {
    assert (es + [e])[..|es|] == es;
  }

  method AbsorbPart(scheme: Scheme, dead: set<int>, p: Part, m: map<Slot, Row>, duplicates: nat, ghost es: seq<Entry>)
    returns (m': map<Slot, Row>, duplicates': nat, ghost es': seq<Entry>)
    requires m == Merged(es) && |m| + duplicates == |es|
    ensures es' == es + RowEntries(scheme, dead, p.key.generation, p.rows)
    ensures m' == Merged(es') && |m'| + duplicates' == |es'|
  {
    m', duplicates', es' := m, duplicates, es;
    ghost var read: seq<Entry> := [];
    for i := 0 to |p.rows|
      invariant read == RowEntries(scheme, dead, p.key.generation, p.rows[..i]) && es' == es + read
      invariant m' == Merged(es') && |m'| + duplicates' == |es'|
    {
      NextRow(scheme, dead, p.key.generation, p.rows, i);
      if p.rows[i].id !in dead {
        var e := Entry(KeyFor(scheme, p.key.generation, p.rows[i]), p.rows[i]);
        MergedAppend(es', e);
        m', duplicates' := Absorb(m', e, duplicates');
        read, es' := read + [e], es' + [e];
      }
    }
    assert p.rows[..|p.rows|] == p.rows;
  }

  // --- the winners, by their times and hashes ---

  /** `r` is stored in some part, not deleted, and belongs in `slot` by its tenant, its time and its part's
      generation. */
  ghost predicate Occupies(scheme: Scheme, dead: set<int>, parts: seq<Part>, slot: Slot, r: Row) {
    && r.id == slot.1 && r.id !in dead
    && exists p | p in parts :: r in p.rows && slot.0 == PartitionKey(scheme.bucketOf(r.tenant), scheme.windowOf(r.time), p.key.generation)
  }

  lemma OccupiesMeans(scheme: Scheme, dead: set<int>, parts: seq<Part>, slot: Slot, r: Row)
    ensures Occupies(scheme, dead, parts, slot, r) <==> Entry(slot.0, r) in Entries(scheme, dead, parts) && r.id == slot.1
  {
    var e := Entry(slot.0, r);
    Members(scheme, dead, parts, e);
    if Occupies(scheme, dead, parts, slot, r) {
      var p :| p in parts && r in p.rows && slot.0 == PartitionKey(scheme.bucketOf(r.tenant), scheme.windowOf(r.time), p.key.generation);
      assert Stored(scheme, dead, p, e);
    }
    if e in Entries(scheme, dead, parts) && r.id == slot.1 {
      var p :| p in parts && Stored(scheme, dead, p, e);
      assert r in p.rows && slot.0 == PartitionKey(scheme.bucketOf(r.tenant), scheme.windowOf(r.time), p.key.generation);
    }
  }

  /** A slot is filled exactly when an undeleted row belongs in it, and then by the latest such row, the
      highest content hash among rows of one time. */
  lemma NewestWins(scheme: Scheme, dead: set<int>, parts: seq<Part>, slot: Slot)
    ensures slot in Merged(Entries(scheme, dead, parts)) <==> exists r :: Occupies(scheme, dead, parts, slot, r)
    ensures slot in Merged(Entries(scheme, dead, parts)) ==>
              var w := Merged(Entries(scheme, dead, parts))[slot];
              && Occupies(scheme, dead, parts, slot, w)
              && forall r | Occupies(scheme, dead, parts, slot, r) :: r.time < w.time || (r.time == w.time && r.hash <= w.hash)
  {
    var es := Entries(scheme, dead, parts);
    forall r: Row ensures Occupies(scheme, dead, parts, slot, r) <==> Entry(slot.0, r) in es && r.id == slot.1 {
      OccupiesMeans(scheme, dead, parts, slot, r);
    }
    if r :| Occupies(scheme, dead, parts, slot, r) {
      assert SlotOf(Entry(slot.0, r)) == slot;
    }
    WinnersAreUnbeaten(es, slot);
    if slot in Merged(es) {
      var w := Merged(es)[slot];
      forall r | Occupies(scheme, dead, parts, slot, r) ensures r.time < w.time || (r.time == w.time && r.hash <= w.hash) {
        assert SlotOf(Entry(slot.0, r)) == slot;
      }
    }
  }

  /** The full merge: winners of everything stored, and no row unaccounted for. */
  method MergeAll(scheme: Scheme, dead: set<int>, parts: seq<Part>)
    returns (m: map<Slot, Row>, rowsIn: nat, duplicates: nat, dropped: nat)
    ensures m == Merged(Entries(scheme, dead, parts))
    ensures forall slot :: slot in m <==> exists r :: Occupies(scheme, dead, parts, slot, r)
    ensures forall slot | slot in m :: Occupies(scheme, dead, parts, slot, m[slot])
    ensures forall slot, r | slot in m && Occupies(scheme, dead, parts, slot, r) ::
              r.time < m[slot].time || (r.time == m[slot].time && r.hash <= m[slot].hash)
    ensures rowsIn == RowCount(parts) && rowsIn == |m| + duplicates + dropped
    ensures dropped == RowCount(parts) - |Entries(scheme, dead, parts)|
  {
    m, rowsIn, duplicates := map[], 0, 0;
    ghost var es: seq<Entry> := [];
    for i := 0 to |parts|
      invariant es == Entries(scheme, dead, parts[..i]) && rowsIn == RowCount(parts[..i])
      invariant m == Merged(es) && |m| + duplicates == |es|
    {
      assert parts[..i + 1][..i] == parts[..i];
      rowsIn := rowsIn + |parts[i].rows|;
      m, duplicates, es := AbsorbPart(scheme, dead, parts[i], m, duplicates, es);
    }
    assert parts[..|parts|] == parts;
    EntriesBounded(scheme, dead, parts);
    dropped := rowsIn - |m| - duplicates;
    forall slot: Slot
      ensures slot in m <==> exists r :: Occupies(scheme, dead, parts, slot, r)
      ensures slot in m ==> Occupies(scheme, dead, parts, slot, m[slot])
      ensures slot in m ==> forall r | Occupies(scheme, dead, parts, slot, r) ::
                r.time < m[slot].time || (r.time == m[slot].time && r.hash <= m[slot].hash)
    {
      NewestWins(scheme, dead, parts, slot);
    }
  }

  lemma {:induction false} RowEntriesBounded(scheme: Scheme, dead: set<int>, generation: nat, rows: seq<Row>)
    ensures |RowEntries(scheme, dead, generation, rows)| <= |rows|
  {
    if rows != [] {
      RowEntriesBounded(scheme, dead, generation, rows[..|rows| - 1]);
    }
  }

  lemma {:induction false} EntriesBounded(scheme: Scheme, dead: set<int>, parts: seq<Part>)
    ensures |Entries(scheme, dead, parts)| <= RowCount(parts)
  {
    if parts != [] {
      var p := parts[|parts| - 1];
      EntriesBounded(scheme, dead, parts[..|parts| - 1]);
      RowEntriesBounded(scheme, dead, p.key.generation, p.rows);
    }
  }

  // --- one tiered operation ---

  function Filed(key: PartitionKey): Entry -> Entry {
    (e: Entry) => Entry(key, e.row)
  }

  /** A tiered operation reconciles by event id alone, so it files every row under one key: that of the
      first row it keeps. */
  function Refiled(es: seq<Entry>): seq<Entry> {
    if es == [] then [] else Map(Filed(es[0].key), es)
  }

  /** The part `p` holds exactly the rows `m` has under `key`. */
  ghost predicate Holds(p: Part, key: PartitionKey, m: map<Slot, Row>) {
    && p.key == key
    && (forall r: Row :: r in p.rows <==> (key, r.id) in m && m[(key, r.id)] == r)
    && (forall i, j | 0 <= i < j < |p.rows| :: p.rows[i].id < p.rows[j].id)
  }

  /** What one operation writes for its group of parts; nothing at all if every row was tombstoned. */
  ghost predicate Outputs(scheme: Scheme, dead: set<int>, group: seq<Part>, out: Option<Part>) {
    var es := Entries(scheme, dead, group);
    if es == [] then out.None? else out.Some? && Holds(out.value, es[0].key, Merged(Refiled(es)))
  }

  ghost predicate Pure(scheme: Scheme, p: Part) {
    forall r | r in p.rows :: KeyFor(scheme, p.key.generation, r) == p.key
  }

  ghost predicate AllPure(scheme: Scheme, parts: seq<Part>) {
    forall p | p in parts :: Pure(scheme, p)
  }

  ghost predicate OneKey(group: seq<Part>) {
    forall p, q | p in group && q in group :: p.key == q.key
  }

  /** Naming a tiered output after its first kept row, and reconciling by id alone, agrees with the full
      merge of the same rows if and only if they all belong to one partition. */
  lemma FirstRowNamesThePartition(es: seq<Entry>)
    ensures Merged(Refiled(es)) == Merged(es) <==> forall e | e in es :: e.key == es[0].key
  {
    if e :| e in es && e.key != es[0].key {
      WinnersAreUnbeaten(es, SlotOf(e));
      WinnersAreUnbeaten(Refiled(es), SlotOf(e));
      assert forall x | x in Refiled(es) :: x.key == es[0].key;
      assert SlotOf(e) in Merged(es) && SlotOf(e) !in Merged(Refiled(es));
    } else {
      assert Refiled(es) == es;
    }
  }

  lemma PureGroup(scheme: Scheme, dead: set<int>, group: seq<Part>, e: Entry)
    requires AllPure(scheme, group) && OneKey(group) && e in Entries(scheme, dead, group)
    ensures group != [] && e.key == group[0].key
  {
    Members(scheme, dead, group, e);
  }

  /** In a pure store an operation's output is pure, comes from its input, and beats all of it. */
  lemma OutputCovers(scheme: Scheme, dead: set<int>, group: seq<Part>, p: Part)
    requires AllPure(scheme, group) && OneKey(group) && Outputs(scheme, dead, group, Some(p))
    ensures Pure(scheme, p) && group != [] && p.key == group[0].key
    ensures forall e | Stored(scheme, dead, p, e) :: e in Entries(scheme, dead, group)
    ensures forall e | e in Entries(scheme, dead, group) :: exists x :: Stored(scheme, dead, p, x) && SlotOf(x) == SlotOf(e) && !Supersedes(e.row, x.row)
  {
    var es := Entries(scheme, dead, group);
    forall e | e in es ensures e.key == es[0].key {
      PureGroup(scheme, dead, group, e);
      PureGroup(scheme, dead, group, es[0]);
    }
    PureGroup(scheme, dead, group, es[0]);
    FirstRowNamesThePartition(es);
    var m := Merged(es);
    forall r | r in p.rows ensures Entry(p.key, r) in es && KeyFor(scheme, p.key.generation, r) == p.key && r.id !in dead {
      WinnersAreUnbeaten(es, (p.key, r.id));
      Members(scheme, dead, group, Entry(p.key, r));
    }
    forall e | e in es ensures exists x :: Stored(scheme, dead, p, x) && SlotOf(x) == SlotOf(e) && !Supersedes(e.row, x.row) {
      WinnersAreUnbeaten(es, SlotOf(e));
      var x := Entry(e.key, m[SlotOf(e)]);
      assert x.row in p.rows;
      assert Stored(scheme, dead, p, x);
    }
  }

  lemma {:induction false} LeastSlot(slots: set<Slot>) returns (least: Slot)
    requires slots != {}
    ensures least in slots && forall s | s in slots :: least.1 <= s.1
    decreases |slots|
  {
    var x :| x in slots;
    if slots == {x} {
      least := x;
    } else {
      var y := LeastSlot(slots - {x});
      least := if x.1 <= y.1 then x else y;
      assert forall s | s in slots :: s == x || s in slots - {x};
    }
  }

  /** Every slot of `m` is filed under `key` and under its row's own id. */
  ghost predicate FiledUnder(m: map<Slot, Row>, key: PartitionKey) {
    forall s | s in m :: s.0 == key && m[s].id == s.1
  }

  /** Some of `m` written as `rows`, lowest ids first, and the `rest` still to write. */
  ghost predicate Partway(m: map<Slot, Row>, key: PartitionKey, rest: map<Slot, Row>, rows: seq<Row>) {
    && |rest| + |rows| == |m|
    && (forall s | s in rest :: s in m && rest[s] == m[s])
    && (forall s | s in m :: s in rest || m[s] in rows)
    && (forall r | r in rows :: (key, r.id) in m && m[(key, r.id)] == r)
    && (forall i, s | 0 <= i < |rows| && s in rest :: rows[i].id < s.1)
    && (forall i, j | 0 <= i < j < |rows| :: rows[i].id < rows[j].id)
  }

  lemma WriteLeast(m: map<Slot, Row>, key: PartitionKey, rest: map<Slot, Row>, rows: seq<Row>, s: Slot)
    requires FiledUnder(m, key) && Partway(m, key, rest, rows) && s in rest && forall t | t in rest :: s.1 <= t.1
    ensures Partway(m, key, rest - {s}, rows + [rest[s]])
  {
    var r := rest[s];
    assert s == (key, r.id) && m[s] == r;
    LessOne(rest, s);
    LeastIsNext(m, key, rest, rows, s);
  }

  lemma LeastIsNext(m: map<Slot, Row>, key: PartitionKey, rest: map<Slot, Row>, rows: seq<Row>, s: Slot)
    requires FiledUnder(m, key) && Partway(m, key, rest, rows) && s in rest && forall t | t in rest :: s.1 <= t.1
    ensures forall i, t | 0 <= i < |rows + [rest[s]]| && t in rest - {s} :: (rows + [rest[s]])[i].id < t.1
  {
    forall t | t in rest - {s} ensures s.1 < t.1 {
      assert t.0 == key;
    }
  }

  lemma LessOne(m: map<Slot, Row>, s: Slot)
    requires s in m
    ensures |m - {s}| == |m| - 1
  {
    assert m == (m - {s})[s := m[s]];
  }

  lemma AllWritten(m: map<Slot, Row>, key: PartitionKey, rest: map<Slot, Row>, rows: seq<Row>)
    requires FiledUnder(m, key) && Partway(m, key, rest, rows) && rest.Keys == {}
    ensures Holds(Part(key, rows), key, m) && |rows| == |m|
  {
    assert |rest| == |rest.Keys|;
  }

  /** The winners leave the map in ascending id order. */
  method WritePart(m: map<Slot, Row>, key: PartitionKey) returns (p: Part)
    requires FiledUnder(m, key)
    ensures Holds(p, key, m) && |p.rows| == |m|
  {
    var (rest, rows: seq<Row>) := (m, []);
    while rest.Keys != {}
      invariant Partway(m, key, rest, rows)
      decreases |rest|
    {
      ghost var least := LeastSlot(rest.Keys);
      var s :| s in rest && forall t | t in rest :: s.1 <= t.1;
      WriteLeast(m, key, rest, rows, s);
      rows := rows + [rest[s]];
      rest := rest - {s};
    }
    AllWritten(m, key, rest, rows);
    p := Part(key, rows);
  }

  lemma RefiledAppend(es: seq<Entry>, e: Entry)
    ensures var key := if es == [] then e.key else es[0].key;
            Refiled(es + [e]) == Refiled(es) + [Filed(key)(e)]
  {
  }

  /** An operation's running state after the rows `es`: its key, its winners and its duplicate count. */
  ghost predicate Grouped(key: Option<PartitionKey>, m: map<Slot, Row>, duplicates: nat, es: seq<Entry>) {
    && m == Merged(Refiled(es)) && |m| + duplicates == |es|
    && (es == [] ==> key.None?)
    && (es != [] ==> key == Some(es[0].key))
  }

  method AbsorbGrouped(own: PartitionKey, r: Row, key: Option<PartitionKey>, m: map<Slot, Row>, duplicates: nat, ghost es: seq<Entry>)
    returns (key': Option<PartitionKey>, m': map<Slot, Row>, duplicates': nat, ghost es': seq<Entry>)
    requires Grouped(key, m, duplicates, es)
    ensures es' == es + [Entry(own, r)] && Grouped(key', m', duplicates', es')
  {
    key' := if key.None? then Some(own) else key;
    var e := Entry(key'.value, r);
    RefiledAppend(es, Entry(own, r));
    MergedAppend(Refiled(es), e);
    m', duplicates' := Absorb(m, e, duplicates);
    es' := es + [Entry(own, r)];
  }

  /** Reconciling one part into its operation's group. */
  method AbsorbGroupedPart(scheme: Scheme, dead: set<int>, p: Part, key: Option<PartitionKey>, m: map<Slot, Row>, duplicates: nat, ghost es: seq<Entry>)
    returns (key': Option<PartitionKey>, m': map<Slot, Row>, duplicates': nat, ghost es': seq<Entry>)
    requires Grouped(key, m, duplicates, es)
    ensures es' == es + RowEntries(scheme, dead, p.key.generation, p.rows) && Grouped(key', m', duplicates', es')
  {
    key', m', duplicates', es' := key, m, duplicates, es;
    ghost var read: seq<Entry> := [];
    for i := 0 to |p.rows|
      invariant read == RowEntries(scheme, dead, p.key.generation, p.rows[..i]) && es' == es + read
      invariant Grouped(key', m', duplicates', es')
    {
      NextRow(scheme, dead, p.key.generation, p.rows, i);
      if p.rows[i].id !in dead {
        var own := KeyFor(scheme, p.key.generation, p.rows[i]);
        key', m', duplicates', es' := AbsorbGrouped(own, p.rows[i], key', m', duplicates', es');
        Joined(es, read, [Entry(own, p.rows[i])]);
        read := read + [Entry(own, p.rows[i])];
      }
    }
    assert p.rows[..|p.rows|] == p.rows;
  }

  lemma RefiledUnder(es: seq<Entry>)
    requires es != []
    ensures FiledUnder(Merged(Refiled(es)), es[0].key)
  {
    var m := Merged(Refiled(es));
    forall s | s in m ensures s.0 == es[0].key && m[s].id == s.1 {
      WinnersAreUnbeaten(Refiled(es), s);
    }
  }

  /** `r` is an undeleted row of one of the parts. */
  ghost predicate Undeleted(dead: set<int>, group: seq<Part>, r: Row) {
    r.id !in dead && exists p :: p in group && r in p.rows
  }

  ghost predicate HasId(p: Part, id: int) {
    exists w :: w in p.rows && w.id == id
  }

  /** `p` holds one row for each undeleted id of the group, in id order: its latest, the highest content
      hash among those of one time. */
  ghost predicate KeepsNewest(dead: set<int>, group: seq<Part>, p: Part) {
    && (forall w | w in p.rows :: Undeleted(dead, group, w))
    && (forall w, r | w in p.rows && Undeleted(dead, group, r) && r.id == w.id ::
          r.time < w.time || (r.time == w.time && r.hash <= w.hash))
    && (forall r | Undeleted(dead, group, r) :: HasId(p, r.id))
    && (forall i, j | 0 <= i < j < |p.rows| :: p.rows[i].id < p.rows[j].id)
  }

  lemma UndeletedMeans(scheme: Scheme, dead: set<int>, group: seq<Part>, r: Row)
    ensures Undeleted(dead, group, r) <==> exists e :: e in Entries(scheme, dead, group) && e.row == r
  {
    if Undeleted(dead, group, r) {
      var p :| p in group && r in p.rows;
      var e := Entry(KeyFor(scheme, p.key.generation, r), r);
      assert Stored(scheme, dead, p, e);
      Members(scheme, dead, group, e);
    }
    if e :| e in Entries(scheme, dead, group) && e.row == r {
      Members(scheme, dead, group, e);
    }
  }

  lemma RefiledHas(es: seq<Entry>, r: Row)
    requires es != []
    ensures Entry(es[0].key, r) in Refiled(es) <==> exists e :: e in es && e.row == r
  {
    var key := es[0].key;
    if Entry(key, r) in Refiled(es) {
      var i :| 0 <= i < |Refiled(es)| && Refiled(es)[i] == Entry(key, r);
      assert es[i] in es && es[i].row == r;
    }
    if e :| e in es && e.row == r {
      var i :| 0 <= i < |es| && es[i] == e;
      assert Refiled(es)[i] == Entry(key, r);
    }
  }

  lemma RefiledWinner(es: seq<Entry>, r: Row)
    requires es != [] && exists e :: e in es && e.row == r
    ensures var (key, m) := (es[0].key, Merged(Refiled(es)));
            && (key, r.id) in m && m[(key, r.id)].id == r.id
            && (r.time < m[(key, r.id)].time || (r.time == m[(key, r.id)].time && r.hash <= m[(key, r.id)].hash))
  {
    var slot := (es[0].key, r.id);
    RefiledHas(es, r);
    WinnersAreUnbeaten(Refiled(es), slot);
    assert SlotOf(Entry(es[0].key, r)) == slot;
  }

  lemma OutputRowStored(es: seq<Entry>, w: Row)
    requires es != [] && (es[0].key, w.id) in Merged(Refiled(es)) && Merged(Refiled(es))[(es[0].key, w.id)] == w
    ensures exists e :: e in es && e.row == w
  {
    WinnersAreUnbeaten(Refiled(es), (es[0].key, w.id));
    RefiledHas(es, w);
  }

  /** What a tiered operation writes, by times and hashes alone; it writes nothing exactly when every row of
      its group is deleted. */
  lemma OutputKeepsNewest(scheme: Scheme, dead: set<int>, group: seq<Part>, out: Option<Part>)
    requires Outputs(scheme, dead, group, out)
    ensures out.None? <==> forall r :: !Undeleted(dead, group, r)
    ensures out.Some? ==> KeepsNewest(dead, group, out.value)
  {
    var es := Entries(scheme, dead, group);
    forall r ensures Undeleted(dead, group, r) <==> exists e :: e in es && e.row == r {
      UndeletedMeans(scheme, dead, group, r);
    }
    if es != [] {
      assert es[0] in es && Undeleted(dead, group, es[0].row);
      var p := out.value;
      forall w | w in p.rows ensures Undeleted(dead, group, w) {
        OutputRowStored(es, w);
      }
      forall r | Undeleted(dead, group, r)
        ensures HasId(p, r.id)
        ensures forall w | w in p.rows && w.id == r.id :: r.time < w.time || (r.time == w.time && r.hash <= w.hash)
      {
        RefiledWinner(es, r);
        var w := Merged(Refiled(es))[(es[0].key, r.id)];
        assert w in p.rows && w.id == r.id;
      }
    }
  }

  /** Reconciling one operation's parts, as the tiered merge does. */
  method MergeGroup(scheme: Scheme, dead: set<int>, group: seq<Part>)
    returns (out: Option<Part>, rowsIn: nat, rowsOut: nat, duplicates: nat, dropped: nat)
    ensures Outputs(scheme, dead, group, out)
    ensures out.None? <==> forall r :: !Undeleted(dead, group, r)
    ensures out.Some? ==> KeepsNewest(dead, group, out.value)
    ensures rowsIn == RowCount(group) && rowsIn == rowsOut + duplicates + dropped
    ensures dropped == RowCount(group) - |Entries(scheme, dead, group)|
    ensures rowsOut == if out.Some? then |out.value.rows| else 0
  {
    var key: Option<PartitionKey>, m: map<Slot, Row> := None, map[];
    rowsIn, duplicates := 0, 0;
    ghost var es: seq<Entry> := [];
    for i := 0 to |group|
      invariant es == Entries(scheme, dead, group[..i]) && rowsIn == RowCount(group[..i])
      invariant Grouped(key, m, duplicates, es)
    {
      assert group[..i + 1][..i] == group[..i];
      rowsIn := rowsIn + |group[i].rows|;
      key, m, duplicates, es := AbsorbGroupedPart(scheme, dead, group[i], key, m, duplicates, es);
    }
    assert group[..|group|] == group;
    EntriesBounded(scheme, dead, group);
    dropped := rowsIn - |m| - duplicates;
    out, rowsOut := None, 0;
    if key.Some? {
      RefiledUnder(es);
      var p := WritePart(m, key.value);
      out, rowsOut := Some(p), |p.rows|;
    }
    OutputKeepsNewest(scheme, dead, group, out);
  }

  // --- cycles ---

  /** One tiered cycle: the parts it leaves alone, the groups it consumes, and what each group becomes. */
  datatype Cycle = Cycle(kept: seq<Part>, groups: seq<seq<Part>>, outs: seq<Option<Part>>)

  function Present(outs: seq<Option<Part>>): seq<Part> {
    if outs == [] then []
    else
      var (front, last) := (Present(outs[..|outs| - 1]), outs[|outs| - 1]);
      if last.Some? then front + [last.value] else front
  }

  function After(c: Cycle): seq<Part> {
    c.kept + Present(c.outs)
  }

  /** The planner's disjoint groups of one partition each, consumed out of `parts`. */
  ghost predicate Runs(scheme: Scheme, dead: set<int>, parts: seq<Part>, c: Cycle) {
    && (forall p :: p in parts <==> p in c.kept || exists i :: 0 <= i < |c.groups| && p in c.groups[i])
    && |c.outs| == |c.groups|
    && forall i | 0 <= i < |c.groups| :: OneKey(c.groups[i]) && Outputs(scheme, dead, c.groups[i], c.outs[i])
  }

  lemma {:induction false} PresentMembers(outs: seq<Option<Part>>, p: Part)
    ensures p in Present(outs) <==> exists i :: 0 <= i < |outs| && outs[i] == Some(p)
  {
    if outs != [] {
      var n := |outs| - 1;
      PresentMembers(outs[..n], p);
      if outs[n] == Some(p) {
        assert p in Present(outs);
      } else if i :| 0 <= i < n && outs[..n][i] == Some(p) {
        assert outs[i] == Some(p);
      } else {
        forall i | 0 <= i < |outs| ensures outs[i] != Some(p) {
          assert i < n ==> outs[..n][i] == outs[i];
        }
      }
    }
  }

  lemma GroupIsPure(scheme: Scheme, dead: set<int>, parts: seq<Part>, c: Cycle, i: nat)
    requires AllPure(scheme, parts) && Runs(scheme, dead, parts, c) && i < |c.groups|
    ensures AllPure(scheme, c.groups[i])
  {
    forall p | p in c.groups[i] ensures Pure(scheme, p) {
      assert p in parts;
    }
  }

  lemma CycleKeepsPure(scheme: Scheme, dead: set<int>, parts: seq<Part>, c: Cycle)
    requires AllPure(scheme, parts) && Runs(scheme, dead, parts, c)
    ensures AllPure(scheme, After(c))
  {
    forall p | p in After(c) ensures Pure(scheme, p) {
      if p in c.kept {
        assert p in parts;
      } else {
        PresentMembers(c.outs, p);
        var i :| 0 <= i < |c.outs| && c.outs[i] == Some(p);
        GroupIsPure(scheme, dead, parts, c, i);
        OutputCovers(scheme, dead, c.groups[i], p);
      }
    }
  }

  lemma CycleAddsNothing(scheme: Scheme, dead: set<int>, parts: seq<Part>, c: Cycle, e: Entry)
    requires AllPure(scheme, parts) && Runs(scheme, dead, parts, c) && e in Entries(scheme, dead, After(c))
    ensures e in Entries(scheme, dead, parts)
  {
    Members(scheme, dead, After(c), e);
    Members(scheme, dead, parts, e);
    var p :| p in After(c) && Stored(scheme, dead, p, e);
    if p in c.kept {
      assert p in parts;
    } else {
      PresentMembers(c.outs, p);
      var i :| 0 <= i < |c.outs| && c.outs[i] == Some(p);
      GroupIsPure(scheme, dead, parts, c, i);
      OutputCovers(scheme, dead, c.groups[i], p);
      Members(scheme, dead, c.groups[i], e);
      var q :| q in c.groups[i] && Stored(scheme, dead, q, e);
      assert q in parts;
    }
  }

  lemma GroupKeepsBetter(scheme: Scheme, dead: set<int>, parts: seq<Part>, c: Cycle, i: nat, e: Entry) returns (x: Entry)
    requires AllPure(scheme, parts) && Runs(scheme, dead, parts, c) && i < |c.groups| && e in Entries(scheme, dead, c.groups[i])
    ensures c.outs[i].Some? && Stored(scheme, dead, c.outs[i].value, x) && SlotOf(x) == SlotOf(e) && !Supersedes(e.row, x.row)
  {
    GroupIsPure(scheme, dead, parts, c, i);
    assert Outputs(scheme, dead, c.groups[i], c.outs[i]);
    var out := c.outs[i].value;
    OutputCovers(scheme, dead, c.groups[i], out);
    x :| Stored(scheme, dead, out, x) && SlotOf(x) == SlotOf(e) && !Supersedes(e.row, x.row);
  }

  lemma CycleKeepsBetter(scheme: Scheme, dead: set<int>, parts: seq<Part>, c: Cycle, e: Entry)
    requires AllPure(scheme, parts) && Runs(scheme, dead, parts, c) && e in Entries(scheme, dead, parts)
    ensures Beats(Entries(scheme, dead, After(c)), e)
  {
    Members(scheme, dead, parts, e);
    var p :| p in parts && Stored(scheme, dead, p, e);
    if p in c.kept {
      assert p in After(c);
      Members(scheme, dead, After(c), e);
    } else {
      var i :| 0 <= i < |c.groups| && p in c.groups[i];
      Members(scheme, dead, c.groups[i], e);
      var x := GroupKeepsBetter(scheme, dead, parts, c, i, e);
      PresentMembers(c.outs, c.outs[i].value);
      assert c.outs[i].value in After(c);
      Members(scheme, dead, After(c), x);
    }
  }

  lemma CycleCovers(scheme: Scheme, dead: set<int>, parts: seq<Part>, c: Cycle)
    requires AllPure(scheme, parts) && Runs(scheme, dead, parts, c)
    ensures Covers(Entries(scheme, dead, After(c)), Entries(scheme, dead, parts))
  {
    forall e | e in Entries(scheme, dead, After(c)) ensures e in Entries(scheme, dead, parts) {
      CycleAddsNothing(scheme, dead, parts, c, e);
    }
    forall e | e in Entries(scheme, dead, parts) ensures Beats(Entries(scheme, dead, After(c)), e) {
      CycleKeepsBetter(scheme, dead, parts, c, e);
    }
  }

  function AfterAll(parts: seq<Part>, cs: seq<Cycle>): seq<Part> {
    if cs == [] then parts else After(cs[|cs| - 1])
  }

  /** Each cycle starts from the parts the one before it left. */
  ghost predicate RunsAll(scheme: Scheme, dead: set<int>, parts: seq<Part>, cs: seq<Cycle>) {
    cs == [] || (RunsAll(scheme, dead, parts, cs[..|cs| - 1]) && Runs(scheme, dead, AfterAll(parts, cs[..|cs| - 1]), cs[|cs| - 1]))
  }

  lemma {:induction false} CyclesCover(scheme: Scheme, dead: set<int>, parts: seq<Part>, cs: seq<Cycle>)
    requires AllPure(scheme, parts) && RunsAll(scheme, dead, parts, cs)
    ensures AllPure(scheme, AfterAll(parts, cs))
    ensures Covers(Entries(scheme, dead, AfterAll(parts, cs)), Entries(scheme, dead, parts))
  {
    var all := Entries(scheme, dead, parts);
    if cs == [] {
      SameEntries(all, all);
    } else {
      var (front, last) := (cs[..|cs| - 1], cs[|cs| - 1]);
      CyclesCover(scheme, dead, parts, front);
      var mid := AfterAll(parts, front);
      CycleKeepsPure(scheme, dead, mid, last);
      CycleCovers(scheme, dead, mid, last);
      CoversTransitive(Entries(scheme, dead, After(last)), Entries(scheme, dead, mid), all);
    }
  }

  /** However many tiered cycles ran, every row they leave was stored before them, and every row stored
      before them, with its slot, has one there that is later, or of the same time with no lower a hash. */
  lemma NewestSurvivesCycles(scheme: Scheme, dead: set<int>, parts: seq<Part>, cs: seq<Cycle>, slot: Slot, r: Row)
    requires AllPure(scheme, parts) && RunsAll(scheme, dead, parts, cs)
    ensures Occupies(scheme, dead, AfterAll(parts, cs), slot, r) ==> Occupies(scheme, dead, parts, slot, r)
    ensures Occupies(scheme, dead, parts, slot, r) ==>
              exists w :: Occupies(scheme, dead, AfterAll(parts, cs), slot, w)
                          && (r.time < w.time || (r.time == w.time && r.hash <= w.hash))
  {
    var left := Entries(scheme, dead, AfterAll(parts, cs));
    var e := Entry(slot.0, r);
    CyclesCover(scheme, dead, parts, cs);
    OccupiesMeans(scheme, dead, parts, slot, r);
    OccupiesMeans(scheme, dead, AfterAll(parts, cs), slot, r);
    if Occupies(scheme, dead, parts, slot, r) {
      assert Beats(left, e);
      var x :| x in left && SlotOf(x) == SlotOf(e) && !Supersedes(r, x.row);
      OccupiesMeans(scheme, dead, AfterAll(parts, cs), slot, x.row);
    }
  }

  /** Tiered merging is invisible to the full merge: any sequence of tiered cycles followed by a full
      merge keeps exactly the rows a full merge would have kept at once. */
  lemma TieredThenFull(scheme: Scheme, dead: set<int>, parts: seq<Part>, cs: seq<Cycle>)
    requires AllPure(scheme, parts) && RunsAll(scheme, dead, parts, cs)
    requires Tieless(Entries(scheme, dead, parts))
    ensures Merged(Entries(scheme, dead, AfterAll(parts, cs))) == Merged(Entries(scheme, dead, parts))
  {
    CyclesCover(scheme, dead, parts, cs);
    CoveringMergesAlike(Entries(scheme, dead, AfterAll(parts, cs)), Entries(scheme, dead, parts));
  }
}
