/** Last-write-wins reconciliation: what a merge keeps, and when the order of its work shows. */
module Merge {
  /** A stored row. `rest` is everything the content hash leaves out: the observation instant, the
      idempotency key, the vector and its codes. */
  datatype Row = Row(id: int, tenant: nat, time: int, hash: nat, rest: nat)

  /** A tenant's own bucket, or one that small tenants share. */
  datatype Bucket = Dedicated(id: nat) | Shared(id: nat)

  datatype PartitionKey = PartitionKey(bucket: Bucket, window: int, generation: nat)

  datatype Scheme = Scheme(bucketOf: nat -> Bucket, windowOf: int -> int)

  datatype Part = Part(key: PartitionKey, rows: seq<Row>)

  /** A row and the partition it belongs to by its own tenant and time. */
  datatype Entry = Entry(key: PartitionKey, row: Row)

  type Slot = (PartitionKey, int)

  function KeyFor(scheme: Scheme, generation: nat, r: Row): PartitionKey {
    PartitionKey(scheme.bucketOf(r.tenant), scheme.windowOf(r.time), generation)
  }

  predicate Supersedes(a: Row, b: Row) {
    a.time > b.time || (a.time == b.time && a.hash > b.hash)
  }

  function SlotOf(e: Entry): Slot {
    (e.key, e.row.id)
  }

  function Reconcile(m: map<Slot, Row>, e: Entry): map<Slot, Row> {
    if SlotOf(e) in m && !Supersedes(e.row, m[SlotOf(e)]) then m else m[SlotOf(e) := e.row]
  }

  function Merged(es: seq<Entry>): map<Slot, Row> {
    if es == [] then map[] else Reconcile(Merged(es[..|es| - 1]), es[|es| - 1])
  }

  // --- what the merge computes, without its order of work ---

  /** Nothing in `es` supersedes `e` in its slot. */
  ghost predicate Unbeaten(es: seq<Entry>, e: Entry) {
    forall x | x in es && SlotOf(x) == SlotOf(e) :: !Supersedes(x.row, e.row)
  }

  /** The winner of a slot is unbeaten, and a slot has a winner exactly when some row occupies it. */
  lemma {:induction false} WinnersAreUnbeaten(es: seq<Entry>, slot: Slot)
    ensures slot in Merged(es) <==> exists e :: e in es && SlotOf(e) == slot
    ensures slot in Merged(es) ==>
              var w := Entry(slot.0, Merged(es)[slot]); w in es && SlotOf(w) == slot && Unbeaten(es, w)
  {
    if es != [] {
      var (front, last) := (es[..|es| - 1], es[|es| - 1]);
      assert es == front + [last];
      WinnersAreUnbeaten(front, slot);
      if SlotOf(last) == slot {
        assert last in es;
      }
    }
  }

  /** Rows of one slot that neither supersedes are the same row. */
  ghost predicate Tieless(es: seq<Entry>) {
    forall x, y | x in es && y in es && SlotOf(x) == SlotOf(y) && Unbeaten(es, x) && Unbeaten(es, y) :: x == y
  }

  ghost predicate Beats(es: seq<Entry>, e: Entry) {
    exists x :: x in es && SlotOf(x) == SlotOf(e) && !Supersedes(e.row, x.row)
  }

  /** `kept` comes from `all`, and everything dropped is no better than something kept in its slot. */
  ghost predicate Covers(kept: seq<Entry>, all: seq<Entry>) {
    && (forall e | e in kept :: e in all)
    && (forall e | e in all :: Beats(kept, e))
  }

  lemma NoBetter(a: Row, b: Row, c: Row)
    requires !Supersedes(a, b) && !Supersedes(b, c)
    ensures !Supersedes(a, c)
  {
  }

  lemma BeatsNoBetter(es: seq<Entry>, x: Entry, e: Entry)
    requires Beats(es, x) && SlotOf(x) == SlotOf(e) && !Supersedes(e.row, x.row)
    ensures Beats(es, e)
  {
    var y :| y in es && SlotOf(y) == SlotOf(x) && !Supersedes(x.row, y.row);
    NoBetter(e.row, x.row, y.row);
  }

  lemma CoversTransitive(a: seq<Entry>, b: seq<Entry>, c: seq<Entry>)
    requires Covers(a, b) && Covers(b, c)
    ensures Covers(a, c)
  {
    forall e | e in c ensures Beats(a, e) {
      assert Beats(b, e);
      var x :| x in b && SlotOf(x) == SlotOf(e) && !Supersedes(e.row, x.row);
      BeatsNoBetter(a, x, e);
    }
  }

  lemma UnbeatenLifts(kept: seq<Entry>, all: seq<Entry>, e: Entry)
    requires Covers(kept, all) && e in kept && Unbeaten(kept, e)
    ensures Unbeaten(all, e)
  {
    forall x | x in all && SlotOf(x) == SlotOf(e) ensures !Supersedes(x.row, e.row) {
      assert Beats(kept, x);
      NothingBeats(kept, x, e);
    }
  }

  lemma NothingBeats(es: seq<Entry>, x: Entry, e: Entry)
    requires Beats(es, x) && Unbeaten(es, e) && SlotOf(x) == SlotOf(e)
    ensures !Supersedes(x.row, e.row)
  {
    var y :| y in es && SlotOf(y) == SlotOf(x) && !Supersedes(x.row, y.row);
    NoBetter(x.row, y.row, e.row);
  }

  /** Dropping dominated rows first does not change what a merge computes. */
  lemma CoveringMergesAlike(kept: seq<Entry>, all: seq<Entry>)
    requires Covers(kept, all) && Tieless(all)
    ensures Merged(kept) == Merged(all)
  {
    forall slot: Slot ensures slot in Merged(kept) <==> slot in Merged(all)
                      ensures slot in Merged(kept) ==> Merged(kept)[slot] == Merged(all)[slot] {
      WinnersAreUnbeaten(kept, slot);
      WinnersAreUnbeaten(all, slot);
      if slot in Merged(all) {
        assert Beats(kept, Entry(slot.0, Merged(all)[slot]));
      }
      if slot in Merged(kept) {
        UnbeatenLifts(kept, all, Entry(slot.0, Merged(kept)[slot]));
      }
    }
  }

  lemma SameEntries(a: seq<Entry>, b: seq<Entry>)
    requires multiset(a) == multiset(b)
    ensures Covers(a, b)
  {
    forall e | e in a ensures e in b {
      assert e in multiset(a);
    }
    forall e | e in b ensures Beats(a, e) {
      assert e in multiset(b);
      assert e in a;
    }
  }

  ghost predicate OrderFree(es: seq<Entry>) {
    forall a: seq<Entry> | multiset(a) == multiset(es) :: Merged(a) == Merged(es)
  }

  lemma {:induction false} FirstUnbeatenWins(es: seq<Entry>, e: Entry)
    requires es != [] && es[0] == e && Unbeaten(es, e)
    ensures SlotOf(e) in Merged(es) && Merged(es)[SlotOf(e)] == e.row
  {
    var (front, last) := (es[..|es| - 1], es[|es| - 1]);
    assert last in es;
    if |es| == 1 {
      assert front == [];
      assert Merged(front) == map[];
    } else {
      assert forall x | x in front :: x in es;
      FirstUnbeatenWins(front, e);
    }
  }

  lemma BroughtForward(es: seq<Entry>, e: Entry) returns (a: seq<Entry>)
    requires e in es
    ensures a != [] && a[0] == e && multiset(a) == multiset(es)
  {
    var i :| 0 <= i < |es| && es[i] == e;
    a := [e] + es[..i] + es[i + 1..];
    assert es == es[..i] + [e] + es[i + 1..];
  }

  /** The merge depends only on which rows there are, whatever order they are read in, if and only if no
      slot's best (time, hash) is shared by two different rows. */
  lemma MergeIsConfluentExactly(es: seq<Entry>)
    ensures OrderFree(es) <==> Tieless(es)
  {
    if Tieless(es) {
      forall a: seq<Entry> | multiset(a) == multiset(es) ensures Merged(a) == Merged(es) {
        SameEntries(a, es);
        CoveringMergesAlike(a, es);
      }
    }
    if OrderFree(es) {
      forall x, y | x in es && y in es && SlotOf(x) == SlotOf(y) && Unbeaten(es, x) && Unbeaten(es, y) ensures x == y {
        WinnerIs(es, x);
        WinnerIs(es, y);
      }
    }
  }

  lemma WinnerIs(es: seq<Entry>, x: Entry)
    requires OrderFree(es) && x in es && Unbeaten(es, x)
    ensures SlotOf(x) in Merged(es) && Merged(es)[SlotOf(x)] == x.row
  {
    var a := BroughtForward(es, x);
    forall z | z in a ensures z in es {
      assert z in multiset(a);
    }
    FirstUnbeatenWins(a, x);
    assert Merged(a) == Merged(es);
  }

  /** Equal time and equal content hash do not make rows identical, because the hash leaves fields out:
      the two orders of such a pair keep different rows. */
  lemma EqualHashesAreNotIdentical(key: PartitionKey, id: int, tenant: nat, time: int, hash: nat, a: nat, b: nat)
    requires a != b
    ensures var (x, y) := (Entry(key, Row(id, tenant, time, hash, a)), Entry(key, Row(id, tenant, time, hash, b)));
            Merged([x, y])[(key, id)] == x.row && Merged([y, x])[(key, id)] == y.row && !OrderFree([x, y])
  {
    var (x, y) := (Entry(key, Row(id, tenant, time, hash, a)), Entry(key, Row(id, tenant, time, hash, b)));
    FirstUnbeatenWins([x, y], x);
    FirstUnbeatenWins([y, x], y);
    assert multiset([y, x]) == multiset([x, y]);
  }
}
