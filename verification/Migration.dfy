/** Re-embedding into a generation, partition by partition. */
module Migration {
  import opened Lists
  import opened Merge

  /** A catalog entry: a part whose partition is recorded, or one from before partitions were. */
  datatype PartEntry =
    | Located(part: Part, redacted: bool)
    | Legacy(generation: nat, rows: seq<Row>)

  function RowsOf(e: PartEntry): seq<Row> {
    match e
    case Located(part, _) => part.rows
    case Legacy(_, rows) => rows
  }

  function AllRows(es: seq<PartEntry>): seq<Row> {
    if es == [] then [] else AllRows(es[..|es| - 1]) + RowsOf(es[|es| - 1])
  }

  /** In another generation, and with its bodies still there to embed. */
  predicate Migratable(e: PartEntry, g: nat) {
    e.Located? && e.part.key.generation != g && !e.redacted
  }

  /** The parts of one partition that wait to be re-embedded. */
  datatype Batch = Batch(key: PartitionKey, parts: seq<PartEntry>)

  ghost predicate BatchOk(b: Batch, g: nat) {
    b.parts != [] && b.key.generation != g && forall e | e in b.parts :: Migratable(e, g) && e.part.key == b.key
  }

  function PartsOf(todo: seq<Batch>): seq<PartEntry> {
    if todo == [] then [] else PartsOf(todo[..|todo| - 1]) + todo[|todo| - 1].parts
  }

  /** Partitions in ascending order, each once. */
  ghost predicate Ordered(todo: seq<Batch>, rank: PartitionKey -> int) {
    forall i, j | 0 <= i < j < |todo| :: rank(todo[i].key) < rank(todo[j].key)
  }

  /** The order on partitions tells them apart. */
  ghost predicate Injective(rank: PartitionKey -> int) {
    forall a, b :: rank(a) == rank(b) ==> a == b
  }

  ghost predicate SortedOut(entries: seq<PartEntry>, g: nat, keep: seq<PartEntry>, todo: seq<Batch>) {
    && multiset(entries) == multiset(keep + PartsOf(todo))
    && (forall e | e in keep :: !Migratable(e, g))
    && (forall i | 0 <= i < |todo| :: BatchOk(todo[i], g))
  }

  function NewPart(b: Batch, g: nat, rows: seq<Row>): PartEntry {
    Located(Part(PartitionKey(b.key.bucket, b.key.window, g), rows), false)
  }

  /** One partition re-embedded: the rows that embed, in one new part; if none does, the old parts. */
  function Outcome(b: Batch, g: nat, embeds: Row -> bool): seq<PartEntry> {
    var rows := Filter(embeds, AllRows(b.parts));
    if rows == [] then b.parts else [NewPart(b, g, rows)]
  }

  function Processed(todo: seq<Batch>, take: nat, g: nat, embeds: Row -> bool): seq<PartEntry> {
    if todo == [] then []
    else
      var (n, b) := (|todo| - 1, todo[|todo| - 1]);
      Processed(todo[..n], take, g, embeds) + if n < take then Outcome(b, g, embeds) else b.parts
  }

  // --- the loops ---

  lemma {:induction false} PartsOfConcat(a: seq<Batch>, b: seq<Batch>)
    ensures PartsOf(a + b) == PartsOf(a) + PartsOf(b)
  {
    if b == [] {
      assert a + b == a;
    } else {
      var n := |b| - 1;
      assert (a + b)[..|a + b| - 1] == a + b[..n];
      PartsOfConcat(a, b[..n]);
    }
  }

  /** A batch between two runs of batches contributes exactly its own parts. */
  lemma PartsOfAround(left: seq<Batch>, b: Batch, right: seq<Batch>)
    ensures multiset(PartsOf(left + [b] + right)) == multiset(PartsOf(left)) + multiset(b.parts) + multiset(PartsOf(right))
  {
    PartsOfConcat(left + [b], right);
    PartsOfConcat(left, [b]);
    assert [b][..0] == [];
    assert PartsOf([b]) == b.parts;
  }

  lemma PartsOfReplace(todo: seq<Batch>, i: nat, b: Batch, e: PartEntry)
    requires i < |todo| && b.parts == todo[i].parts + [e]
    ensures multiset(PartsOf(todo[i := b])) == multiset(PartsOf(todo)) + multiset{e}
  {
    var (left, right) := (todo[..i], todo[i + 1..]);
    assert todo == left + [todo[i]] + right && todo[i := b] == left + [b] + right;
    PartsOfAround(left, todo[i], right);
    PartsOfAround(left, b, right);
  }

  lemma SplitAt(todo: seq<Batch>, i: nat)
    requires i <= |todo|
    ensures PartsOf(todo) == PartsOf(todo[..i]) + PartsOf(todo[i..])
  {
    PartsOfConcat(todo[..i], todo[i..]);
    assert todo == todo[..i] + todo[i..];
  }

  lemma PartsOfInsert(todo: seq<Batch>, i: nat, b: Batch)
    requires i <= |todo|
    ensures multiset(PartsOf(todo[..i] + [b] + todo[i..])) == multiset(PartsOf(todo)) + multiset(b.parts)
  {
    PartsOfAround(todo[..i], b, todo[i..]);
    SplitAt(todo, i);
  }

  ghost predicate Waiting(todo: seq<Batch>, g: nat, rank: PartitionKey -> int) {
    Ordered(todo, rank) && forall i | 0 <= i < |todo| :: BatchOk(todo[i], g)
  }

  lemma JoinedWaits(todo: seq<Batch>, i: nat, e: PartEntry, g: nat, rank: PartitionKey -> int)
    requires Waiting(todo, g, rank) && Migratable(e, g) && i < |todo| && todo[i].key == e.part.key
    ensures Waiting(todo[i := Batch(e.part.key, todo[i].parts + [e])], g, rank)
  {
    assert BatchOk(todo[i], g);
  }

  lemma InsertedWaits(todo: seq<Batch>, i: nat, e: PartEntry, g: nat, rank: PartitionKey -> int)
    requires Waiting(todo, g, rank) && Migratable(e, g) && i <= |todo|
    requires forall k | 0 <= k < i :: rank(todo[k].key) < rank(e.part.key)
    requires i < |todo| ==> rank(e.part.key) < rank(todo[i].key)
    ensures Waiting(todo[..i] + [Batch(e.part.key, [e])] + todo[i..], g, rank)
  {
    var all := todo[..i] + [Batch(e.part.key, [e])] + todo[i..];
    forall k | 0 <= k < |all| ensures all[k] == if k < i then todo[k] else if k == i then Batch(e.part.key, [e]) else todo[k - 1] {
    }
  }

  /** One waiting part joins its partition. */
  method Enlist(todo: seq<Batch>, e: PartEntry, g: nat, rank: PartitionKey -> int) returns (todo': seq<Batch>)
    requires Waiting(todo, g, rank) && Migratable(e, g)
    requires Injective(rank)
    ensures Waiting(todo', g, rank) && multiset(PartsOf(todo')) == multiset(PartsOf(todo)) + multiset{e}
  {
    var key := e.part.key;
    var i := 0;
    while i < |todo| && rank(todo[i].key) < rank(key)
      invariant i <= |todo| && forall k | 0 <= k < i :: rank(todo[k].key) < rank(key)
    {
      i := i + 1;
    }
    if i < |todo| && todo[i].key == key {
      PartsOfReplace(todo, i, Batch(key, todo[i].parts + [e]), e);
      JoinedWaits(todo, i, e, g, rank);
      todo' := todo[i := Batch(key, todo[i].parts + [e])];
    } else {
      PartsOfInsert(todo, i, Batch(key, [e]));
      InsertedWaits(todo, i, e, g, rank);
      todo' := todo[..i] + [Batch(key, [e])] + todo[i..];
    }
  }

  /** Sorting the catalog's entries into those that stay and those that wait, per partition. */
  method SortOut(entries: seq<PartEntry>, g: nat, rank: PartitionKey -> int) returns (keep: seq<PartEntry>, todo: seq<Batch>)
    requires Injective(rank)
    ensures SortedOut(entries, g, keep, todo) && Ordered(todo, rank)
  {
    keep, todo := [], [];
    for i := 0 to |entries|
      invariant multiset(entries[..i]) == multiset(keep) + multiset(PartsOf(todo))
      invariant (forall e | e in keep :: !Migratable(e, g)) && Waiting(todo, g, rank)
    {
      assert entries[..i + 1] == entries[..i] + [entries[i]];
      if Migratable(entries[i], g) {
        todo := Enlist(todo, entries[i], g, rank);
      } else {
        keep := keep + [entries[i]];
      }
    }
    assert entries[..|entries|] == entries;
  }

  method ReadPart(own: seq<Row>, embeds: Row -> bool) returns (rows: seq<Row>)
    ensures rows == Filter(embeds, own)
  {
    rows := [];
    for j := 0 to |own|
      invariant rows == Filter(embeds, own[..j])
    {
      assert own[..j + 1][..j] == own[..j];
      if embeds(own[j]) {
        rows := rows + [own[j]];
      }
    }
    assert own[..|own|] == own;
  }

  method ReadBatch(b: Batch, embeds: Row -> bool) returns (rows: seq<Row>)
    ensures rows == Filter(embeds, AllRows(b.parts))
  {
    rows := [];
    for i := 0 to |b.parts|
      invariant rows == Filter(embeds, AllRows(b.parts[..i]))
    {
      assert b.parts[..i + 1][..i] == b.parts[..i];
      FilterAppend(embeds, AllRows(b.parts[..i]), RowsOf(b.parts[i]));
      var more := ReadPart(RowsOf(b.parts[i]), embeds);
      rows := rows + more;
    }
    assert b.parts[..|b.parts|] == b.parts;
  }

  method ReembedBatch(b: Batch, g: nat, embeds: Row -> bool) returns (out: seq<PartEntry>)
    ensures out == Outcome(b, g, embeds)
  {
    var rows := ReadBatch(b, embeds);
    out := if rows == [] then b.parts else [NewPart(b, g, rows)];
  }

  method ReembedAll(todo: seq<Batch>, take: nat, g: nat, embeds: Row -> bool) returns (moved: seq<PartEntry>)
    ensures moved == Processed(todo, take, g, embeds)
  {
    moved := [];
    for i := 0 to |todo|
      invariant moved == Processed(todo[..i], take, g, embeds)
    {
      assert todo[..i + 1][..i] == todo[..i];
      var out := todo[i].parts;
      if i < take {
        out := ReembedBatch(todo[i], g, embeds);
      }
      moved := moved + out;
    }
    assert todo[..|todo|] == todo;
  }

  /** One canary or migrate step: at most `take` partitions move to generation `g`. */
  method ReembedParts(entries: seq<PartEntry>, g: nat, take: nat, embeds: Row -> bool, rank: PartitionKey -> int)
    returns (out: seq<PartEntry>, ghost keep: seq<PartEntry>, ghost todo: seq<Batch>)
    requires Injective(rank)
    ensures SortedOut(entries, g, keep, todo) && Ordered(todo, rank) && out == keep + Processed(todo, take, g, embeds)
  {
    var stay, work := SortOut(entries, g, rank);
    var moved := ReembedAll(work, take, g, embeds);
    out, keep, todo := stay + moved, stay, work;
  }

  // --- conservation ---

  lemma {:induction false} AllRowsConcat(a: seq<PartEntry>, b: seq<PartEntry>)
    ensures AllRows(a + b) == AllRows(a) + AllRows(b)
  {
    if b == [] {
      assert a + b == a;
    } else {
      var n := |b| - 1;
      assert (a + b)[..|a + b| - 1] == a + b[..n];
      AllRowsConcat(a, b[..n]);
    }
  }

  /** Every row of the partition embeds, or none does. */
  ghost predicate AllOrNone(b: Batch, embeds: Row -> bool) {
    (forall r | r in AllRows(b.parts) :: embeds(r)) || (forall r | r in AllRows(b.parts) :: !embeds(r))
  }

  lemma AllRowsOne(e: PartEntry)
    ensures AllRows([e]) == RowsOf(e)
  {
    assert [e][..0] == [];
    assert AllRows([]) == [];
  }

  lemma {:induction false} FilterShorter(p: Row -> bool, s: seq<Row>)
    ensures multiset(Filter(p, s)) <= multiset(s)
    ensures |Filter(p, s)| == |s| <==> forall r | r in s :: p(r)
    ensures Filter(p, s) == [] <==> forall r | r in s :: !p(r)
  {
    if s != [] {
      var (front, last) := (s[..|s| - 1], s[|s| - 1]);
      assert s == front + [last];
      FilterShorter(p, front);
    }
  }

  /** A re-embedded partition keeps its rows if and only if all of them embed or none of them does. */
  lemma OutcomeConservesExactly(b: Batch, g: nat, embeds: Row -> bool)
    ensures multiset(AllRows(Outcome(b, g, embeds))) <= multiset(AllRows(b.parts))
    ensures |AllRows(Outcome(b, g, embeds))| == |AllRows(b.parts)| <==> AllOrNone(b, embeds)
    ensures AllOrNone(b, embeds) ==> AllRows(Outcome(b, g, embeds)) == AllRows(b.parts)
  {
    var all := AllRows(b.parts);
    var rows := Filter(embeds, all);
    FilterShorter(embeds, all);
    AllRowsOne(NewPart(b, g, rows));
    if forall r | r in all :: embeds(r) {
      FilterFull(embeds, all);
    }
  }

  function Taken(todo: seq<Batch>, i: nat, take: nat, g: nat, embeds: Row -> bool): seq<PartEntry>
    requires i < |todo|
  {
    if i < take then Outcome(todo[i], g, embeds) else todo[i].parts
  }

  lemma ProcessedRows(todo: seq<Batch>, take: nat, g: nat, embeds: Row -> bool)
    requires todo != []
    ensures var n := |todo| - 1;
            && AllRows(Processed(todo, take, g, embeds)) == AllRows(Processed(todo[..n], take, g, embeds)) + AllRows(Taken(todo, n, take, g, embeds))
            && AllRows(PartsOf(todo)) == AllRows(PartsOf(todo[..n])) + AllRows(todo[n].parts)
  {
    var n := |todo| - 1;
    AllRowsConcat(Processed(todo[..n], take, g, embeds), Taken(todo, n, take, g, embeds));
    AllRowsConcat(PartsOf(todo[..n]), todo[n].parts);
  }

  lemma {:induction false} ProcessedAddsNothing(todo: seq<Batch>, take: nat, g: nat, embeds: Row -> bool)
    ensures multiset(AllRows(Processed(todo, take, g, embeds))) <= multiset(AllRows(PartsOf(todo)))
  {
    if todo != [] {
      var n := |todo| - 1;
      ProcessedAddsNothing(todo[..n], take, g, embeds);
      OutcomeConservesExactly(todo[n], g, embeds);
      ProcessedRows(todo, take, g, embeds);
    }
  }

  ghost predicate Whole(todo: seq<Batch>, take: nat, embeds: Row -> bool) {
    forall i | 0 <= i < |todo| && i < take :: AllOrNone(todo[i], embeds)
  }

  lemma WholeSplit(todo: seq<Batch>, take: nat, embeds: Row -> bool)
    requires todo != []
    ensures var n := |todo| - 1; Whole(todo, take, embeds) <==> Whole(todo[..n], take, embeds) && (n < take ==> AllOrNone(todo[n], embeds))
  {
    var n := |todo| - 1;
    assert forall i | 0 <= i < n :: todo[..n][i] == todo[i];
  }

  lemma {:induction false} ProcessedConservesExactly(todo: seq<Batch>, take: nat, g: nat, embeds: Row -> bool)
    ensures |AllRows(Processed(todo, take, g, embeds))| <= |AllRows(PartsOf(todo))|
    ensures |AllRows(Processed(todo, take, g, embeds))| == |AllRows(PartsOf(todo))| <==> Whole(todo, take, embeds)
  {
    if todo != [] {
      var n := |todo| - 1;
      ProcessedConservesExactly(todo[..n], take, g, embeds);
      OutcomeConservesExactly(todo[n], g, embeds);
      ProcessedRows(todo, take, g, embeds);
      WholeSplit(todo, take, embeds);
      ShorterIsFewer(AllRows(Taken(todo, n, take, g, embeds)), AllRows(todo[n].parts));
    }
  }

  lemma ShorterIsFewer(a: seq<Row>, b: seq<Row>)
    requires multiset(a) <= multiset(b)
    ensures |a| <= |b|
    ensures |a| == |b| ==> multiset(a) == multiset(b)
  {
    var rest := multiset(b) - multiset(a);
    assert multiset(b) == multiset(a) + rest;
    assert |multiset(a)| == |a| && |multiset(b)| == |b|;
  }

  lemma FoundIn(front: seq<PartEntry>, last: PartEntry, b: seq<PartEntry>) returns (l: seq<PartEntry>, r: seq<PartEntry>)
    requires multiset(front + [last]) == multiset(b)
    ensures b == l + [last] + r && multiset(front) == multiset(l + r)
  {
    assert last in multiset(b);
    var i :| 0 <= i < |b| && b[i] == last;
    l, r := b[..i], b[i + 1..];
    assert b == l + [last] + r;
    assert multiset(front) == multiset(front + [last]) - multiset{last};
    assert multiset(l + r) == multiset(b) - multiset{last};
  }

  lemma {:induction false} AllRowsPermute(a: seq<PartEntry>, b: seq<PartEntry>)
    requires multiset(a) == multiset(b)
    ensures multiset(AllRows(a)) == multiset(AllRows(b))
    decreases |a|
  {
    if a == [] {
      assert |multiset(b)| == |b| && b == [];
    } else {
      var n := |a| - 1;
      var (front, last) := (a[..n], a[n]);
      assert a == front + [last];
      var l, r := FoundIn(front, last, b);
      AllRowsPermute(front, l + r);
      AllRowsConcat(l + [last], r);
      AllRowsConcat(l, [last]);
      AllRowsConcat(l, r);
      AllRowsOne(last);
    }
  }

  /** A step keeps every row if and only if each partition it moves embeds entirely or not at all: a
      partition where some rows embed and others do not loses the others. */
  lemma StepConservesExactly(entries: seq<PartEntry>, g: nat, keep: seq<PartEntry>, todo: seq<Batch>, take: nat, embeds: Row -> bool)
    requires SortedOut(entries, g, keep, todo)
    ensures multiset(AllRows(keep + Processed(todo, take, g, embeds))) == multiset(AllRows(entries)) <==>
            Whole(todo, take, embeds)
  {
    var moved := Processed(todo, take, g, embeds);
    AllRowsPermute(entries, keep + PartsOf(todo));
    AllRowsConcat(keep, PartsOf(todo));
    AllRowsConcat(keep, moved);
    ProcessedAddsNothing(todo, take, g, embeds);
    ProcessedConservesExactly(todo, take, g, embeds);
    ShorterIsFewer(AllRows(moved), AllRows(PartsOf(todo)));
    if multiset(AllRows(keep + moved)) == multiset(AllRows(entries)) {
      assert |multiset(AllRows(keep + moved))| == |AllRows(keep + moved)|;
      assert |multiset(AllRows(entries))| == |AllRows(entries)|;
      assert |multiset(AllRows(keep + PartsOf(todo)))| == |AllRows(keep + PartsOf(todo))|;
    }
  }

  /** The smallest loss: one partition, one row that embeds and one that does not. */
  lemma PartialEmbeddingLosesARow(key: PartitionKey, g: nat, kept: Row, lost: Row, embeds: Row -> bool)
    requires key.generation != g && embeds(kept) && !embeds(lost)
    ensures var b := Batch(key, [Located(Part(key, [kept, lost]), false)]);
            BatchOk(b, g) && AllRows(Outcome(b, g, embeds)) == [kept]
  {
    var b := Batch(key, [Located(Part(key, [kept, lost]), false)]);
    AllRowsOne(b.parts[0]);
    OneOfTwo(embeds, kept, lost);
    AllRowsOne(NewPart(b, g, [kept]));
  }

  lemma OneOfTwo(p: Row -> bool, kept: Row, lost: Row)
    requires p(kept) && !p(lost)
    ensures Filter(p, [kept, lost]) == [kept]
  {
    assert [kept, lost][..1] == [kept] && [kept][..0] == [];
    assert Filter(p, [kept]) == [kept];
  }

  // --- convergence ---

  /** How many parts still wait. */
  function Outside(es: seq<PartEntry>, g: nat): nat {
    if es == [] then 0 else Outside(es[..|es| - 1], g) + if Migratable(es[|es| - 1], g) then 1 else 0
  }

  lemma {:induction false} OutsideConcat(a: seq<PartEntry>, b: seq<PartEntry>, g: nat)
    ensures Outside(a + b, g) == Outside(a, g) + Outside(b, g)
  {
    if b == [] {
      assert a + b == a;
    } else {
      var n := |b| - 1;
      assert (a + b)[..|a + b| - 1] == a + b[..n];
      OutsideConcat(a, b[..n], g);
    }
  }

  lemma {:induction false} OutsideAll(es: seq<PartEntry>, g: nat)
    ensures (forall e | e in es :: Migratable(e, g)) ==> Outside(es, g) == |es|
    ensures Outside(es, g) == 0 <==> forall e | e in es :: !Migratable(e, g)
  {
    if es != [] {
      var n := |es| - 1;
      assert es == es[..n] + [es[n]];
      OutsideAll(es[..n], g);
    }
  }

  lemma {:induction false} OutsidePermutes(a: seq<PartEntry>, b: seq<PartEntry>, g: nat)
    requires multiset(a) == multiset(b)
    ensures Outside(a, g) == Outside(b, g)
    decreases |a|
  {
    if a == [] {
      assert |multiset(b)| == |b| && b == [];
    } else {
      var n := |a| - 1;
      var (front, last) := (a[..n], a[n]);
      assert a == front + [last];
      var l, r := FoundIn(front, last, b);
      OutsidePermutes(front, l + r, g);
      OutsideConcat(l + [last], r, g);
      OutsideConcat(l, [last], g);
      OutsideConcat(l, r, g);
      OutsideConcat(front, [last], g);
    }
  }

  /** Some row of every waiting partition embeds. */
  ghost predicate SomeEmbeds(todo: seq<Batch>, embeds: Row -> bool) {
    forall i | 0 <= i < |todo| :: exists r :: r in AllRows(todo[i].parts) && embeds(r)
  }

  lemma OutcomeLeaves(b: Batch, g: nat, embeds: Row -> bool, r: Row)
    requires BatchOk(b, g) && r in AllRows(b.parts) && embeds(r)
    ensures Outside(Outcome(b, g, embeds), g) == 0 && Outside(b.parts, g) == |b.parts| >= 1
  {
    FilterShorter(embeds, AllRows(b.parts));
    OutsideAll(Outcome(b, g, embeds), g);
    OutsideAll(b.parts, g);
  }

  lemma {:induction false} ProcessedProgress(todo: seq<Batch>, take: nat, g: nat, embeds: Row -> bool)
    requires SomeEmbeds(todo, embeds) && forall i | 0 <= i < |todo| :: BatchOk(todo[i], g)
    ensures Outside(Processed(todo, take, g, embeds), g) + (if |todo| < take then |todo| else take) <= Outside(PartsOf(todo), g)
    ensures take >= |todo| ==> Outside(Processed(todo, take, g, embeds), g) == 0
  {
    if todo != [] {
      var (n, b) := (|todo| - 1, todo[|todo| - 1]);
      var front := todo[..n];
      assert forall i | 0 <= i < n :: front[i] == todo[i];
      ProcessedProgress(front, take, g, embeds);
      var r :| r in AllRows(b.parts) && embeds(r);
      OutcomeLeaves(b, g, embeds, r);
      OutsideConcat(Processed(front, take, g, embeds), if n < take then Outcome(b, g, embeds) else b.parts, g);
      OutsideConcat(PartsOf(front), b.parts, g);
    }
  }

  /** Progress: when the rows embed, a step lowers the number of waiting parts by at least one per
      partition it takes, and taking them all leaves none. */
  lemma StepConverges(entries: seq<PartEntry>, g: nat, keep: seq<PartEntry>, todo: seq<Batch>, take: nat, embeds: Row -> bool)
    requires SortedOut(entries, g, keep, todo) && SomeEmbeds(todo, embeds)
    ensures var out := keep + Processed(todo, take, g, embeds);
            && Outside(out, g) + (if |todo| < take then |todo| else take) <= Outside(entries, g)
            && (take >= |todo| ==> Outside(out, g) == 0)
  {
    OutsidePermutes(entries, keep + PartsOf(todo), g);
    OutsideConcat(keep, PartsOf(todo), g);
    OutsideConcat(keep, Processed(todo, take, g, embeds), g);
    OutsideAll(keep, g);
    ProcessedProgress(todo, take, g, embeds);
  }

  /** A part waits if and only if some partition does. */
  lemma NothingWaitsExactly(entries: seq<PartEntry>, g: nat, keep: seq<PartEntry>, todo: seq<Batch>)
    requires SortedOut(entries, g, keep, todo)
    ensures Outside(entries, g) == 0 <==> todo == []
  {
    OutsidePermutes(entries, keep + PartsOf(todo), g);
    OutsideConcat(keep, PartsOf(todo), g);
    OutsideAll(keep, g);
    if todo != [] {
      var (front, b) := (todo[..|todo| - 1], todo[|todo| - 1]);
      assert BatchOk(b, g);
      OutsideAll(b.parts, g);
      OutsideConcat(PartsOf(front), b.parts, g);
    }
  }

  // --- what survives ---

  /** A part as migration will leave it: only the rows that embed, if it has to move. */
  function Settled(g: nat, embeds: Row -> bool): PartEntry -> PartEntry {
    (e: PartEntry) => if Migratable(e, g) then Located(Part(e.part.key, Filter(embeds, e.part.rows)), e.redacted) else e
  }

  function Survivors(es: seq<PartEntry>, g: nat, embeds: Row -> bool): seq<Row> {
    AllRows(Map(Settled(g, embeds), es))
  }

  lemma SurvivorsConcat(a: seq<PartEntry>, b: seq<PartEntry>, g: nat, embeds: Row -> bool)
    ensures Survivors(a + b, g, embeds) == Survivors(a, g, embeds) + Survivors(b, g, embeds)
  {
    var f := Settled(g, embeds);
    assert Map(f, a + b) == Map(f, a) + Map(f, b);
    AllRowsConcat(Map(f, a), Map(f, b));
  }

  lemma SurvivorsPermute(a: seq<PartEntry>, b: seq<PartEntry>, g: nat, embeds: Row -> bool)
    requires multiset(a) == multiset(b)
    ensures multiset(Survivors(a, g, embeds)) == multiset(Survivors(b, g, embeds))
  {
    var f := Settled(g, embeds);
    MapPermutes(f, a, b);
    AllRowsPermute(Map(f, a), Map(f, b));
  }

  lemma {:induction false} WaitingSurvivors(es: seq<PartEntry>, g: nat, embeds: Row -> bool)
    requires forall e | e in es :: Migratable(e, g)
    ensures Survivors(es, g, embeds) == Filter(embeds, AllRows(es))
  {
    if es != [] {
      var (front, last) := (es[..|es| - 1], es[|es| - 1]);
      assert es == front + [last] && last in es;
      WaitingSurvivors(front, g, embeds);
      SurvivorsConcat(front, [last], g, embeds);
      FilterAppend(embeds, AllRows(front), RowsOf(last));
      OneSurvives(last, g, embeds);
    }
  }

  lemma OneSurvives(e: PartEntry, g: nat, embeds: Row -> bool)
    ensures Survivors([e], g, embeds) == if Migratable(e, g) then Filter(embeds, RowsOf(e)) else RowsOf(e)
  {
    assert Map(Settled(g, embeds), [e]) == [Settled(g, embeds)(e)];
    AllRowsOne(Settled(g, embeds)(e));
  }

  lemma OutcomeSurvivors(b: Batch, g: nat, embeds: Row -> bool)
    requires BatchOk(b, g)
    ensures Survivors(Outcome(b, g, embeds), g, embeds) == Survivors(b.parts, g, embeds)
  {
    var rows := Filter(embeds, AllRows(b.parts));
    WaitingSurvivors(b.parts, g, embeds);
    OneSurvives(NewPart(b, g, rows), g, embeds);
  }

  lemma {:induction false} ProcessedSurvivors(todo: seq<Batch>, take: nat, g: nat, embeds: Row -> bool)
    requires forall i | 0 <= i < |todo| :: BatchOk(todo[i], g)
    ensures Survivors(Processed(todo, take, g, embeds), g, embeds) == Survivors(PartsOf(todo), g, embeds)
  {
    if todo != [] {
      var n := |todo| - 1;
      assert forall i | 0 <= i < n :: todo[..n][i] == todo[i];
      ProcessedSurvivors(todo[..n], take, g, embeds);
      OutcomeSurvivors(todo[n], g, embeds);
      SurvivorsConcat(Processed(todo[..n], take, g, embeds), Taken(todo, n, take, g, embeds), g, embeds);
      SurvivorsConcat(PartsOf(todo[..n]), todo[n].parts, g, embeds);
    }
  }

  /** No step changes what will survive. */
  lemma StepKeepsSurvivors(entries: seq<PartEntry>, g: nat, keep: seq<PartEntry>, todo: seq<Batch>, take: nat, embeds: Row -> bool)
    requires SortedOut(entries, g, keep, todo)
    ensures multiset(Survivors(keep + Processed(todo, take, g, embeds), g, embeds)) == multiset(Survivors(entries, g, embeds))
  {
    SurvivorsPermute(entries, keep + PartsOf(todo), g, embeds);
    SurvivorsConcat(keep, PartsOf(todo), g, embeds);
    SurvivorsConcat(keep, Processed(todo, take, g, embeds), g, embeds);
    ProcessedSurvivors(todo, take, g, embeds);
  }

  lemma NothingWaitingSurvives(es: seq<PartEntry>, g: nat, embeds: Row -> bool)
    requires forall e | e in es :: !Migratable(e, g)
    ensures Survivors(es, g, embeds) == AllRows(es)
  {
    assert Map(Settled(g, embeds), es) == es;
  }

  /** Every row that has to move embeds. */
  ghost predicate AllEmbed(es: seq<PartEntry>, g: nat, embeds: Row -> bool) {
    forall e, r | e in es && Migratable(e, g) && r in RowsOf(e) :: embeds(r)
  }

  /** Everything survives if and only if every row that has to move embeds. */
  lemma {:induction false} AllSurviveExactly(es: seq<PartEntry>, g: nat, embeds: Row -> bool)
    ensures |Survivors(es, g, embeds)| <= |AllRows(es)|
    ensures |Survivors(es, g, embeds)| == |AllRows(es)| <==> AllEmbed(es, g, embeds)
    ensures AllEmbed(es, g, embeds) ==> Survivors(es, g, embeds) == AllRows(es)
  {
    if es != [] {
      var (front, last) := (es[..|es| - 1], es[|es| - 1]);
      assert es == front + [last];
      AllSurviveExactly(front, g, embeds);
      SurvivorsConcat(front, [last], g, embeds);
      OneSurvives(last, g, embeds);
      FilterShorter(embeds, RowsOf(last));
      ShorterIsFewer(Filter(embeds, RowsOf(last)), RowsOf(last));
      FilterFull(embeds, RowsOf(last));
      AllEmbedMore(front, last, g, embeds);
    }
  }

  lemma AllEmbedMore(front: seq<PartEntry>, last: PartEntry, g: nat, embeds: Row -> bool)
    ensures AllEmbed(front + [last], g, embeds) <==>
            AllEmbed(front, g, embeds) && (Migratable(last, g) ==> forall r | r in RowsOf(last) :: embeds(r))
  {
    var es := front + [last];
    assert last in es && forall e | e in front :: e in es;
    assert forall e | e in es :: e in front || e == last;
  }

  // --- when migration finishes ---

  /** Some row that waits in partition `key` embeds. */
  ghost predicate Moves(es: seq<PartEntry>, g: nat, embeds: Row -> bool, key: PartitionKey) {
    exists e, r :: e in es && Migratable(e, g) && e.part.key == key && r in e.part.rows && embeds(r)
  }

  ghost predicate Waits(es: seq<PartEntry>, g: nat, key: PartitionKey) {
    exists e :: e in es && Migratable(e, g) && e.part.key == key
  }

  /** Every partition with something waiting can move. */
  ghost predicate Movable(es: seq<PartEntry>, g: nat, embeds: Row -> bool) {
    forall key | Waits(es, g, key) :: Moves(es, g, embeds, key)
  }

  lemma {:induction false} RowFrom(es: seq<PartEntry>, r: Row) returns (e: PartEntry)
    requires r in AllRows(es)
    ensures e in es && r in RowsOf(e)
  {
    var n := |es| - 1;
    assert es == es[..n] + [es[n]];
    if r in AllRows(es[..n]) {
      e := RowFrom(es[..n], r);
    } else {
      e := es[n];
    }
  }

  lemma {:induction false} RowIn(es: seq<PartEntry>, e: PartEntry, r: Row)
    requires e in es && r in RowsOf(e)
    ensures r in AllRows(es)
  {
    var n := |es| - 1;
    assert es == es[..n] + [es[n]];
    if e in es[..n] {
      RowIn(es[..n], e, r);
    }
  }

  lemma {:induction false} BatchOf(todo: seq<Batch>, e: PartEntry) returns (i: nat)
    requires e in PartsOf(todo)
    ensures i < |todo| && e in todo[i].parts
  {
    var n := |todo| - 1;
    if e in todo[n].parts {
      i := n;
    } else {
      i := BatchOf(todo[..n], e);
    }
  }

  lemma {:induction false} BatchParts(todo: seq<Batch>, i: nat, e: PartEntry)
    requires i < |todo| && e in todo[i].parts
    ensures e in PartsOf(todo)
  {
    var n := |todo| - 1;
    if i < n {
      BatchParts(todo[..n], i, e);
    }
  }

  /** Batch `i` is as it was after a step: not reached, or nothing in it embeds. */
  ghost predicate Idle(todo: seq<Batch>, take: nat, embeds: Row -> bool, i: nat) {
    i < |todo| && (i >= take || forall r | r in AllRows(todo[i].parts) :: !embeds(r))
  }

  lemma IdleTaken(todo: seq<Batch>, take: nat, g: nat, embeds: Row -> bool, i: nat)
    requires i < |todo|
    ensures Idle(todo, take, embeds, i) ==> Taken(todo, i, take, g, embeds) == todo[i].parts
    ensures !Idle(todo, take, embeds, i) ==> forall e | e in Taken(todo, i, take, g, embeds) :: !Migratable(e, g)
  {
    FilterShorter(embeds, AllRows(todo[i].parts));
  }

  /** What still waits after a step is exactly what its idle batches hold. */
  lemma {:induction false} StillWaiting(todo: seq<Batch>, take: nat, g: nat, embeds: Row -> bool, e: PartEntry) returns (i: nat)
    requires e in Processed(todo, take, g, embeds) && Migratable(e, g)
    ensures Idle(todo, take, embeds, i) && e in todo[i].parts
  {
    var n := |todo| - 1;
    IdleTaken(todo, take, g, embeds, n);
    if e in Taken(todo, n, take, g, embeds) {
      i := n;
    } else {
      i := StillWaiting(todo[..n], take, g, embeds, e);
      assert todo[..n][i] == todo[i];
    }
  }

  lemma {:induction false} IdleStays(todo: seq<Batch>, take: nat, g: nat, embeds: Row -> bool, i: nat, e: PartEntry)
    requires Idle(todo, take, embeds, i) && e in todo[i].parts
    ensures e in Processed(todo, take, g, embeds)
  {
    var n := |todo| - 1;
    if i == n {
      IdleTaken(todo, take, g, embeds, n);
    } else {
      assert todo[..n][i] == todo[i];
      IdleStays(todo[..n], take, g, embeds, i, e);
    }
  }

  /** A step from `es` to `out`, over some sorting out of the entries. */
  ghost predicate SteppedBy(es: seq<PartEntry>, g: nat, take: nat, embeds: Row -> bool, rank: PartitionKey -> int,
                            keep: seq<PartEntry>, todo: seq<Batch>, out: seq<PartEntry>) {
    SortedOut(es, g, keep, todo) && Ordered(todo, rank) && out == keep + Processed(todo, take, g, embeds)
  }

  ghost predicate Stepped(es: seq<PartEntry>, g: nat, take: nat, embeds: Row -> bool, rank: PartitionKey -> int, out: seq<PartEntry>) {
    exists keep, todo :: SteppedBy(es, g, take, embeds, rank, keep, todo, out)
  }

  /** The batch a waiting part sits in. */
  lemma FindBatch(es: seq<PartEntry>, g: nat, keep: seq<PartEntry>, todo: seq<Batch>, e: PartEntry) returns (i: nat)
    requires SortedOut(es, g, keep, todo) && e in es && Migratable(e, g)
    ensures i < |todo| && e in todo[i].parts && todo[i].key == e.part.key
  {
    assert e in multiset(es);
    assert e in multiset(keep + PartsOf(todo));
    i := BatchOf(todo, e);
    assert BatchOk(todo[i], g);
  }

  lemma BatchEntry(es: seq<PartEntry>, g: nat, keep: seq<PartEntry>, todo: seq<Batch>, i: nat, e: PartEntry)
    requires SortedOut(es, g, keep, todo) && i < |todo| && e in todo[i].parts
    ensures e in es && Migratable(e, g) && e.part.key == todo[i].key
  {
    BatchParts(todo, i, e);
    assert BatchOk(todo[i], g);
    assert e in multiset(keep + PartsOf(todo));
    assert e in multiset(es);
  }

  /** A partition can move exactly when its batch has a row that embeds. */
  lemma BatchMovesExactly(es: seq<PartEntry>, g: nat, keep: seq<PartEntry>, todo: seq<Batch>, embeds: Row -> bool, rank: PartitionKey -> int, i: nat)
    requires SortedOut(es, g, keep, todo) && Ordered(todo, rank) && i < |todo|
    ensures Moves(es, g, embeds, todo[i].key) <==> exists r :: r in AllRows(todo[i].parts) && embeds(r)
  {
    if r :| r in AllRows(todo[i].parts) && embeds(r) {
      var e := RowFrom(todo[i].parts, r);
      BatchEntry(es, g, keep, todo, i, e);
    }
    if Moves(es, g, embeds, todo[i].key) {
      var e, r :| e in es && Migratable(e, g) && e.part.key == todo[i].key && r in e.part.rows && embeds(r);
      var j := FindBatch(es, g, keep, todo, e);
      assert j == i;
      RowIn(todo[i].parts, e, r);
    }
  }

  lemma MovableBatches(es: seq<PartEntry>, g: nat, keep: seq<PartEntry>, todo: seq<Batch>, embeds: Row -> bool, rank: PartitionKey -> int)
    requires SortedOut(es, g, keep, todo) && Ordered(todo, rank) && Movable(es, g, embeds)
    ensures SomeEmbeds(todo, embeds)
  {
    forall i | 0 <= i < |todo| ensures exists r :: r in AllRows(todo[i].parts) && embeds(r) {
      assert BatchOk(todo[i], g);
      BatchEntry(es, g, keep, todo, i, todo[i].parts[0]);
      assert Waits(es, g, todo[i].key);
      BatchMovesExactly(es, g, keep, todo, embeds, rank, i);
    }
  }

  /** What waits after a step waited before it, in a batch the step left alone. */
  lemma WaitedBefore(es: seq<PartEntry>, g: nat, take: nat, embeds: Row -> bool, rank: PartitionKey -> int,
                     keep: seq<PartEntry>, todo: seq<Batch>, out: seq<PartEntry>, e: PartEntry) returns (i: nat)
    requires SteppedBy(es, g, take, embeds, rank, keep, todo, out) && e in out && Migratable(e, g)
    ensures e in es && Idle(todo, take, embeds, i) && e in todo[i].parts && todo[i].key == e.part.key
  {
    i := StillWaiting(todo, take, g, embeds, e);
    BatchEntry(es, g, keep, todo, i, e);
  }

  lemma IdleKeepsWaiting(es: seq<PartEntry>, g: nat, take: nat, embeds: Row -> bool, rank: PartitionKey -> int,
                         keep: seq<PartEntry>, todo: seq<Batch>, out: seq<PartEntry>, i: nat, e: PartEntry)
    requires SteppedBy(es, g, take, embeds, rank, keep, todo, out) && Idle(todo, take, embeds, i) && e in todo[i].parts
    ensures e in out && Migratable(e, g) && e.part.key == todo[i].key
  {
    IdleStays(todo, take, g, embeds, i, e);
    BatchEntry(es, g, keep, todo, i, e);
  }

  /** A step leaves every partition that still waits as able to move as it was. */
  lemma StepMovesExactly(es: seq<PartEntry>, g: nat, take: nat, embeds: Row -> bool, rank: PartitionKey -> int,
                         keep: seq<PartEntry>, todo: seq<Batch>, out: seq<PartEntry>, key: PartitionKey)
    requires SteppedBy(es, g, take, embeds, rank, keep, todo, out) && Waits(out, g, key)
    ensures Waits(es, g, key) && (Moves(out, g, embeds, key) <==> Moves(es, g, embeds, key))
  {
    var e :| e in out && Migratable(e, g) && e.part.key == key;
    var i := WaitedBefore(es, g, take, embeds, rank, keep, todo, out, e);
    BatchMovesExactly(es, g, keep, todo, embeds, rank, i);
    if Moves(out, g, embeds, key) {
      var f, r :| f in out && Migratable(f, g) && f.part.key == key && r in f.part.rows && embeds(r);
      var j := WaitedBefore(es, g, take, embeds, rank, keep, todo, out, f);
    }
    if Moves(es, g, embeds, key) {
      var r :| r in AllRows(todo[i].parts) && embeds(r);
      var f := RowFrom(todo[i].parts, r);
      IdleKeepsWaiting(es, g, take, embeds, rank, keep, todo, out, i, f);
    }
  }

  /** A partition in which nothing embeds waits as long as migration runs. */
  lemma StepStaysStuck(es: seq<PartEntry>, g: nat, take: nat, embeds: Row -> bool, rank: PartitionKey -> int,
                       keep: seq<PartEntry>, todo: seq<Batch>, out: seq<PartEntry>, key: PartitionKey)
    requires SteppedBy(es, g, take, embeds, rank, keep, todo, out) && Waits(es, g, key) && !Moves(es, g, embeds, key)
    ensures Waits(out, g, key) && !Moves(out, g, embeds, key)
  {
    var e :| e in es && Migratable(e, g) && e.part.key == key;
    var i := FindBatch(es, g, keep, todo, e);
    BatchMovesExactly(es, g, keep, todo, embeds, rank, i);
    IdleKeepsWaiting(es, g, take, embeds, rank, keep, todo, out, i, e);
    StepMovesExactly(es, g, take, embeds, rank, keep, todo, out, key);
  }

  lemma StepStaysMovable(es: seq<PartEntry>, g: nat, take: nat, embeds: Row -> bool, rank: PartitionKey -> int,
                         keep: seq<PartEntry>, todo: seq<Batch>, out: seq<PartEntry>)
    requires SteppedBy(es, g, take, embeds, rank, keep, todo, out) && Movable(es, g, embeds)
    ensures Movable(out, g, embeds)
  {
    forall key | Waits(out, g, key) ensures Moves(out, g, embeds, key) {
      StepMovesExactly(es, g, take, embeds, rank, keep, todo, out, key);
    }
  }

  /** A run of steps, each from a store in which something waits. */
  ghost predicate Trace(states: seq<seq<PartEntry>>, g: nat, takes: nat -> nat, embeds: Row -> bool, rank: PartitionKey -> int) {
    && states != []
    && (forall i | 0 <= i < |states| - 1 :: Outside(states[i], g) > 0)
    && forall i | 0 <= i < |states| - 1 :: Stepped(states[i], g, takes(i), embeds, rank, states[i + 1])
  }

  /** Whatever the bounds, no run empties a store that has a partition in which nothing embeds. */
  lemma {:induction false} StuckNeverFinishes(states: seq<seq<PartEntry>>, g: nat, takes: nat -> nat, embeds: Row -> bool, rank: PartitionKey -> int, key: PartitionKey)
    requires Trace(states, g, takes, embeds, rank) && Waits(states[0], g, key) && !Moves(states[0], g, embeds, key)
    ensures Waits(states[|states| - 1], g, key) && !Moves(states[|states| - 1], g, embeds, key)
  {
    var n := |states| - 1;
    if n > 0 {
      var front := states[..n];
      assert forall i | 0 <= i < n :: front[i] == states[i];
      StuckNeverFinishes(front, g, takes, embeds, rank, key);
      assert Stepped(states[n - 1], g, takes(n - 1), embeds, rank, states[n]);
      var keep, todo :| SteppedBy(states[n - 1], g, takes(n - 1), embeds, rank, keep, todo, states[n]);
      StepStaysStuck(states[n - 1], g, takes(n - 1), embeds, rank, keep, todo, states[n], key);
    }
  }

  lemma TraceMore(states: seq<seq<PartEntry>>, g: nat, takes: nat -> nat, embeds: Row -> bool, rank: PartitionKey -> int, out: seq<PartEntry>)
    requires Trace(states, g, takes, embeds, rank)
    requires Outside(states[|states| - 1], g) > 0 && Stepped(states[|states| - 1], g, takes(|states| - 1), embeds, rank, out)
    ensures Trace(states + [out], g, takes, embeds, rank)
  {
  }

  /** A migration of `entries` that has reached `states`' last store. */
  ghost predicate Underway(entries: seq<PartEntry>, g: nat, takes: nat -> nat, embeds: Row -> bool, rank: PartitionKey -> int, states: seq<seq<PartEntry>>) {
    && Trace(states, g, takes, embeds, rank) && states[0] == entries
    && var out := states[|states| - 1];
       && Movable(out, g, embeds)
       && multiset(Survivors(out, g, embeds)) == multiset(Survivors(entries, g, embeds))
       && |states| - 1 + Outside(out, g) <= Outside(entries, g)
  }

  lemma UnderwayMore(entries: seq<PartEntry>, g: nat, takes: nat -> nat, embeds: Row -> bool, rank: PartitionKey -> int, states: seq<seq<PartEntry>>,
                     keep: seq<PartEntry>, todo: seq<Batch>, out: seq<PartEntry>)
    requires Underway(entries, g, takes, embeds, rank, states) && Outside(states[|states| - 1], g) > 0 && takes(|states| - 1) > 0
    requires SteppedBy(states[|states| - 1], g, takes(|states| - 1), embeds, rank, keep, todo, out)
    ensures Underway(entries, g, takes, embeds, rank, states + [out]) && Outside(out, g) < Outside(states[|states| - 1], g)
  {
    StepTowardsEnd(states[|states| - 1], g, takes(|states| - 1), embeds, rank, keep, todo, out);
    TraceMore(states, g, takes, embeds, rank, out);
  }

  method MigrateOnce(ghost entries: seq<PartEntry>, g: nat, takes: nat -> nat, embeds: Row -> bool, rank: PartitionKey -> int,
                     out: seq<PartEntry>, steps: nat, ghost states: seq<seq<PartEntry>>)
    returns (next: seq<PartEntry>, ghost states': seq<seq<PartEntry>>)
    requires Underway(entries, g, takes, embeds, rank, states) && states[|states| - 1] == out && |states| == steps + 1
    requires Outside(out, g) > 0 && takes(steps) > 0 && Injective(rank)
    ensures Underway(entries, g, takes, embeds, rank, states') && states'[|states'| - 1] == next && |states'| == steps + 2
    ensures Outside(next, g) < Outside(out, g)
  {
    ghost var keep, todo;
    next, keep, todo := ReembedParts(out, g, takes(steps), embeds, rank);
    UnderwayMore(entries, g, takes, embeds, rank, states, keep, todo, next);
    states' := states + [next];
  }

  /** Migration finishes: repeating a step with any positive bounds ends with nothing left to move, in no
      more steps than there were parts waiting, when in every partition that waits some row embeds. What is
      left is every row that embeds and every row that did not have to move. */
  method MigrateToEnd(entries: seq<PartEntry>, g: nat, takes: nat -> nat, embeds: Row -> bool, rank: PartitionKey -> int)
    returns (out: seq<PartEntry>, steps: nat, ghost states: seq<seq<PartEntry>>)
    requires (forall i :: takes(i) > 0) && Movable(entries, g, embeds) && Injective(rank)
    ensures Trace(states, g, takes, embeds, rank) && states[0] == entries && states[|states| - 1] == out && |states| == steps + 1
    ensures forall e | e in out :: !Migratable(e, g)
    ensures multiset(AllRows(out)) == multiset(Survivors(entries, g, embeds))
    ensures steps <= Outside(entries, g)
  {
    out, steps, states := entries, 0, [entries];
    assert Underway(entries, g, takes, embeds, rank, states);
    while Outside(out, g) > 0
      invariant Underway(entries, g, takes, embeds, rank, states) && states[|states| - 1] == out && |states| == steps + 1
    {
      out, states := MigrateOnce(entries, g, takes, embeds, rank, out, steps, states);
      steps := steps + 1;
    }
    NothingLeft(out, g, embeds);
  }

  lemma NothingLeft(out: seq<PartEntry>, g: nat, embeds: Row -> bool)
    requires Outside(out, g) == 0
    ensures (forall e | e in out :: !Migratable(e, g)) && Survivors(out, g, embeds) == AllRows(out)
  {
    OutsideAll(out, g);
    NothingWaitingSurvives(out, g, embeds);
  }

  lemma StepTowardsEnd(es: seq<PartEntry>, g: nat, take: nat, embeds: Row -> bool, rank: PartitionKey -> int,
                       keep: seq<PartEntry>, todo: seq<Batch>, out: seq<PartEntry>)
    requires SteppedBy(es, g, take, embeds, rank, keep, todo, out) && Movable(es, g, embeds) && Outside(es, g) > 0 && take > 0
    ensures Stepped(es, g, take, embeds, rank, out) && Movable(out, g, embeds) && Outside(out, g) < Outside(es, g)
    ensures multiset(Survivors(out, g, embeds)) == multiset(Survivors(es, g, embeds))
  {
    MovableBatches(es, g, keep, todo, embeds, rank);
    StepConverges(es, g, keep, todo, take, embeds);
    StepStaysMovable(es, g, take, embeds, rank, keep, todo, out);
    StepKeepsSurvivors(es, g, keep, todo, take, embeds);
    NothingWaitsExactly(es, g, keep, todo);
  }

  // --- which partitions finish ---

  /** The partitions ranked before `key` that wait and cannot move. A step counts them against its bound. */
  ghost function StuckBefore(es: seq<PartEntry>, g: nat, embeds: Row -> bool, rank: PartitionKey -> int, key: PartitionKey): set<PartitionKey> {
    set e | e in es && Migratable(e, g) && rank(e.part.key) < rank(key) && !Moves(es, g, embeds, e.part.key) :: e.part.key
  }

  lemma StuckMembers(es: seq<PartEntry>, g: nat, embeds: Row -> bool, rank: PartitionKey -> int, key: PartitionKey, k: PartitionKey)
    ensures k in StuckBefore(es, g, embeds, rank, key) <==> Waits(es, g, k) && rank(k) < rank(key) && !Moves(es, g, embeds, k)
  {
  }

  lemma StuckStay(es: seq<PartEntry>, g: nat, take: nat, embeds: Row -> bool, rank: PartitionKey -> int,
                  keep: seq<PartEntry>, todo: seq<Batch>, out: seq<PartEntry>, key: PartitionKey)
    requires SteppedBy(es, g, take, embeds, rank, keep, todo, out)
    ensures StuckBefore(out, g, embeds, rank, key) == StuckBefore(es, g, embeds, rank, key)
  {
    forall k ensures k in StuckBefore(out, g, embeds, rank, key) <==> k in StuckBefore(es, g, embeds, rank, key) {
      StuckMembers(es, g, embeds, rank, key, k);
      StuckMembers(out, g, embeds, rank, key, k);
      if Waits(es, g, k) && !Moves(es, g, embeds, k) {
        StepStaysStuck(es, g, take, embeds, rank, keep, todo, out, k);
      }
      if Waits(out, g, k) {
        StepMovesExactly(es, g, take, embeds, rank, keep, todo, out, k);
      }
    }
  }

  function FirstKeys(todo: seq<Batch>, n: nat): set<PartitionKey>
    requires n <= |todo|
  {
    if n == 0 then {} else FirstKeys(todo, n - 1) + {todo[n - 1].key}
  }

  lemma {:induction false} FirstKeysMember(todo: seq<Batch>, n: nat, k: PartitionKey)
    requires n <= |todo|
    ensures k in FirstKeys(todo, n) <==> exists j :: 0 <= j < n && todo[j].key == k
  {
    if n > 0 {
      FirstKeysMember(todo, n - 1, k);
    }
  }

  lemma {:induction false} FirstKeysCount(todo: seq<Batch>, n: nat, rank: PartitionKey -> int)
    requires n <= |todo| && Ordered(todo, rank)
    ensures |FirstKeys(todo, n)| == n
  {
    if n > 0 {
      FirstKeysCount(todo, n - 1, rank);
      FirstKeysMember(todo, n - 1, todo[n - 1].key);
    }
  }

  lemma Fewest(a: set<PartitionKey>, b: set<PartitionKey>)
    requires a <= b
    ensures |a| <= |b|
  {
    assert b == a + (b - a);
  }

  lemma BatchWaits(es: seq<PartEntry>, g: nat, keep: seq<PartEntry>, todo: seq<Batch>, j: nat)
    requires SortedOut(es, g, keep, todo) && j < |todo|
    ensures Waits(es, g, todo[j].key)
  {
    assert BatchOk(todo[j], g);
    BatchEntry(es, g, keep, todo, j, todo[j].parts[0]);
  }

  /** The stuck partitions before a waiting one all come before it in the list. */
  lemma StuckComeFirst(es: seq<PartEntry>, g: nat, keep: seq<PartEntry>, todo: seq<Batch>, embeds: Row -> bool, rank: PartitionKey -> int, i: nat)
    requires SortedOut(es, g, keep, todo) && Ordered(todo, rank) && i < |todo|
    ensures |StuckBefore(es, g, embeds, rank, todo[i].key)| <= i
  {
    var stuck := StuckBefore(es, g, embeds, rank, todo[i].key);
    FirstKeysCount(todo, i, rank);
    forall k | k in stuck ensures k in FirstKeys(todo, i) {
      var e :| e in es && Migratable(e, g) && e.part.key == k && rank(k) < rank(todo[i].key);
      var j := FindBatch(es, g, keep, todo, e);
      assert j < i;
      FirstKeysMember(todo, i, k);
    }
    Fewest(stuck, FirstKeys(todo, i));
  }

  /** With fewer stuck partitions before it than the bound, one of those a step takes first can move. */
  lemma SomeAheadMoves(es: seq<PartEntry>, g: nat, keep: seq<PartEntry>, todo: seq<Batch>, embeds: Row -> bool, rank: PartitionKey -> int,
                       take: nat, i: nat) returns (j: nat)
    requires SortedOut(es, g, keep, todo) && Ordered(todo, rank) && take <= i < |todo|
    requires |StuckBefore(es, g, embeds, rank, todo[i].key)| < take
    ensures j < take && Moves(es, g, embeds, todo[j].key)
  {
    var stuck := StuckBefore(es, g, embeds, rank, todo[i].key);
    FirstKeysCount(todo, take, rank);
    if forall k: nat | k < take :: !Moves(es, g, embeds, todo[k].key) {
      forall k | k in FirstKeys(todo, take) ensures k in stuck {
        FirstKeysMember(todo, take, k);
        var n: nat :| n < take && todo[n].key == k;
        BatchWaits(es, g, keep, todo, n);
        StuckMembers(es, g, embeds, rank, todo[i].key, k);
      }
      Fewest(FirstKeys(todo, take), stuck);
    }
    j :| j < take && Moves(es, g, embeds, todo[j].key);
  }

  lemma TakenNoMore(todo: seq<Batch>, i: nat, take: nat, g: nat, embeds: Row -> bool)
    requires i < |todo| && BatchOk(todo[i], g)
    ensures Outside(Taken(todo, i, take, g, embeds), g) <= Outside(todo[i].parts, g)
  {
    IdleTaken(todo, take, g, embeds, i);
    OutsideAll(Taken(todo, i, take, g, embeds), g);
  }

  lemma OutsideSplits(todo: seq<Batch>, take: nat, g: nat, embeds: Row -> bool)
    requires todo != []
    ensures var n := |todo| - 1;
            && Outside(Processed(todo, take, g, embeds), g) == Outside(Processed(todo[..n], take, g, embeds), g) + Outside(Taken(todo, n, take, g, embeds), g)
            && Outside(PartsOf(todo), g) == Outside(PartsOf(todo[..n]), g) + Outside(todo[n].parts, g)
  {
    var n := |todo| - 1;
    OutsideConcat(Processed(todo[..n], take, g, embeds), Taken(todo, n, take, g, embeds), g);
    OutsideConcat(PartsOf(todo[..n]), todo[n].parts, g);
  }

  lemma {:induction false} ProcessedNoMore(todo: seq<Batch>, take: nat, g: nat, embeds: Row -> bool)
    requires forall i | 0 <= i < |todo| :: BatchOk(todo[i], g)
    ensures Outside(Processed(todo, take, g, embeds), g) <= Outside(PartsOf(todo), g)
  {
    if todo != [] {
      var n := |todo| - 1;
      assert forall i | 0 <= i < n :: todo[..n][i] == todo[i];
      ProcessedNoMore(todo[..n], take, g, embeds);
      TakenNoMore(todo, n, take, g, embeds);
      OutsideSplits(todo, take, g, embeds);
    }
  }

  ghost predicate Shrinks(todo: seq<Batch>, take: nat, g: nat, embeds: Row -> bool) {
    Outside(Processed(todo, take, g, embeds), g) < Outside(PartsOf(todo), g)
  }

  ghost predicate AllOk(todo: seq<Batch>, g: nat) {
    forall i | 0 <= i < |todo| :: BatchOk(todo[i], g)
  }

  lemma LastShrinks(todo: seq<Batch>, take: nat, g: nat, embeds: Row -> bool, r: Row)
    requires AllOk(todo, g) && todo != [] && |todo| - 1 < take && r in AllRows(todo[|todo| - 1].parts) && embeds(r)
    ensures Shrinks(todo, take, g, embeds)
  {
    var n := |todo| - 1;
    OutcomeLeaves(todo[n], g, embeds, r);
    ProcessedNoMore(todo[..n], take, g, embeds);
    OutsideSplits(todo, take, g, embeds);
  }

  lemma MoreShrinks(todo: seq<Batch>, take: nat, g: nat, embeds: Row -> bool)
    requires AllOk(todo, g) && todo != [] && Shrinks(todo[..|todo| - 1], take, g, embeds)
    ensures Shrinks(todo, take, g, embeds)
  {
    TakenNoMore(todo, |todo| - 1, take, g, embeds);
    OutsideSplits(todo, take, g, embeds);
  }

  lemma {:induction false} ProcessedFewer(todo: seq<Batch>, take: nat, g: nat, embeds: Row -> bool, j: nat, r: Row)
    requires AllOk(todo, g) && j < |todo| && j < take && r in AllRows(todo[j].parts) && embeds(r)
    ensures Shrinks(todo, take, g, embeds)
  {
    if j == |todo| - 1 {
      LastShrinks(todo, take, g, embeds, r);
    } else {
      ProcessedFewer(todo[..|todo| - 1], take, g, embeds, j, r);
      MoreShrinks(todo, take, g, embeds);
    }
  }

  lemma StepFewer(es: seq<PartEntry>, g: nat, take: nat, embeds: Row -> bool, rank: PartitionKey -> int,
                  keep: seq<PartEntry>, todo: seq<Batch>, out: seq<PartEntry>, j: nat, r: Row)
    requires SteppedBy(es, g, take, embeds, rank, keep, todo, out)
    requires j < |todo| && j < take && r in AllRows(todo[j].parts) && embeds(r)
    ensures Outside(out, g) < Outside(es, g)
  {
    OutsidePermutes(es, keep + PartsOf(todo), g);
    OutsideConcat(keep, PartsOf(todo), g);
    OutsideConcat(keep, Processed(todo, take, g, embeds), g);
    ProcessedFewer(todo, take, g, embeds, j, r);
  }

  /** Behind as many stuck partitions as the bound, a partition is never reached. */
  lemma BlockedStays(es: seq<PartEntry>, g: nat, take: nat, embeds: Row -> bool, rank: PartitionKey -> int,
                     keep: seq<PartEntry>, todo: seq<Batch>, out: seq<PartEntry>, key: PartitionKey)
    requires SteppedBy(es, g, take, embeds, rank, keep, todo, out) && Waits(es, g, key)
    requires |StuckBefore(es, g, embeds, rank, key)| >= take
    ensures Waits(out, g, key)
  {
    var e :| e in es && Migratable(e, g) && e.part.key == key;
    var i := FindBatch(es, g, keep, todo, e);
    StuckComeFirst(es, g, keep, todo, embeds, rank, i);
    IdleKeepsWaiting(es, g, take, embeds, rank, keep, todo, out, i, e);
  }

  /** With fewer, every step it still waits after has moved something. */
  lemma WaitingMakesProgress(es: seq<PartEntry>, g: nat, take: nat, embeds: Row -> bool, rank: PartitionKey -> int,
                             keep: seq<PartEntry>, todo: seq<Batch>, out: seq<PartEntry>, key: PartitionKey)
    requires SteppedBy(es, g, take, embeds, rank, keep, todo, out) && Waits(out, g, key) && Moves(es, g, embeds, key)
    requires |StuckBefore(es, g, embeds, rank, key)| < take
    ensures Outside(out, g) < Outside(es, g)
  {
    var e :| e in out && Migratable(e, g) && e.part.key == key;
    var i := WaitedBefore(es, g, take, embeds, rank, keep, todo, out, e);
    BatchMovesExactly(es, g, keep, todo, embeds, rank, i);
    assert i >= take;
    var j := SomeAheadMoves(es, g, keep, todo, embeds, rank, take, i);
    BatchMovesExactly(es, g, keep, todo, embeds, rank, j);
    var r :| r in AllRows(todo[j].parts) && embeds(r);
    StepFewer(es, g, take, embeds, rank, keep, todo, out, j, r);
  }

  /** A partition will be reached: it can move, and fewer than `take` stuck ones come before it. */
  ghost predicate Reachable(es: seq<PartEntry>, g: nat, take: nat, embeds: Row -> bool, rank: PartitionKey -> int, key: PartitionKey) {
    Moves(es, g, embeds, key) && |StuckBefore(es, g, embeds, rank, key)| < take
  }

  /** One step of a run, seen from partition `key`. */
  lemma StepFrom(es: seq<PartEntry>, g: nat, take: nat, embeds: Row -> bool, rank: PartitionKey -> int, out: seq<PartEntry>, key: PartitionKey)
    requires Stepped(es, g, take, embeds, rank, out)
    ensures Waits(out, g, key) ==> Waits(es, g, key) && (Reachable(out, g, take, embeds, rank, key) <==> Reachable(es, g, take, embeds, rank, key))
    ensures Waits(out, g, key) && Reachable(es, g, take, embeds, rank, key) ==> Outside(out, g) < Outside(es, g)
    ensures Waits(es, g, key) && !Reachable(es, g, take, embeds, rank, key) ==> Waits(out, g, key)
  {
    var keep, todo :| SteppedBy(es, g, take, embeds, rank, keep, todo, out);
    StuckStay(es, g, take, embeds, rank, keep, todo, out, key);
    if Waits(out, g, key) {
      StepMovesExactly(es, g, take, embeds, rank, keep, todo, out, key);
      if Reachable(es, g, take, embeds, rank, key) {
        WaitingMakesProgress(es, g, take, embeds, rank, keep, todo, out, key);
      }
    }
    if Waits(es, g, key) && !Reachable(es, g, take, embeds, rank, key) {
      if Moves(es, g, embeds, key) {
        BlockedStays(es, g, take, embeds, rank, keep, todo, out, key);
      } else {
        StepStaysStuck(es, g, take, embeds, rank, keep, todo, out, key);
      }
    }
  }

  /** The store `es`, `n` steps on from `es0`, seen from a partition that waited in `es0`. */
  ghost predicate SeenFrom(es0: seq<PartEntry>, es: seq<PartEntry>, g: nat, take: nat, embeds: Row -> bool, rank: PartitionKey -> int, key: PartitionKey, n: nat) {
    if Waits(es, g, key) then
      && (Reachable(es, g, take, embeds, rank, key) <==> Reachable(es0, g, take, embeds, rank, key))
      && (Reachable(es0, g, take, embeds, rank, key) ==> Outside(es, g) + n <= Outside(es0, g))
    else Reachable(es0, g, take, embeds, rank, key)
  }

  lemma SeenOneStepOn(es0: seq<PartEntry>, es: seq<PartEntry>, out: seq<PartEntry>, g: nat, take: nat, embeds: Row -> bool, rank: PartitionKey -> int, key: PartitionKey, n: nat)
    requires SeenFrom(es0, es, g, take, embeds, rank, key, n) && Stepped(es, g, take, embeds, rank, out)
    ensures SeenFrom(es0, out, g, take, embeds, rank, key, n + 1)
  {
    StepFrom(es, g, take, embeds, rank, out, key);
  }

  lemma {:induction false} RunFrom(states: seq<seq<PartEntry>>, g: nat, takes: nat -> nat, take: nat, embeds: Row -> bool, rank: PartitionKey -> int, key: PartitionKey, n: nat)
    requires Trace(states, g, takes, embeds, rank) && (forall i :: takes(i) == take) && n < |states|
    requires Waits(states[0], g, key)
    ensures SeenFrom(states[0], states[n], g, take, embeds, rank, key, n)
  {
    if n > 0 {
      var k := n - 1;
      RunFrom(states, g, takes, take, embeds, rank, key, k);
      assert Stepped(states[k], g, takes(k), embeds, rank, states[k + 1]);
      SeenOneStepOn(states[0], states[k], states[n], g, take, embeds, rank, key, k);
    }
  }

  lemma WaitingIsOutside(es: seq<PartEntry>, g: nat, key: PartitionKey)
    requires Waits(es, g, key)
    ensures Outside(es, g) > 0
  {
    OutsideAll(es, g);
  }

  /** Which partitions finish. In any run of steps with one bound, that is at least as long as there were
      parts waiting or stops with none waiting, a partition still waits at the end if and only if nothing
      in it embeds or as many partitions in which nothing embeds as the bound come before it. */
  lemma FinishesExactly(states: seq<seq<PartEntry>>, g: nat, takes: nat -> nat, take: nat, embeds: Row -> bool, rank: PartitionKey -> int, key: PartitionKey)
    requires Trace(states, g, takes, embeds, rank) && (forall i :: takes(i) == take) && Waits(states[0], g, key)
    requires |states| - 1 >= Outside(states[0], g) || Outside(states[|states| - 1], g) == 0
    ensures Waits(states[|states| - 1], g, key) <==> !Reachable(states[0], g, take, embeds, rank, key)
  {
    var n := |states| - 1;
    RunFrom(states, g, takes, take, embeds, rank, key, n);
    if Waits(states[n], g, key) {
      WaitingIsOutside(states[n], g, key);
    }
  }
}
