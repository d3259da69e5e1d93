/** Wrapping keys: rotation over live envelopes, and the cache in front of them. */
module Keys {
  import opened Lists

  /** A data key sealed under a wrapping key. The seal opens only with that key under that id. */
  datatype Envelope = Envelope(keyId: nat, sealedBy: nat, dek: nat)

  /** The key service. `retired` keys may still unwrap; a key that is gone from `keys` may not. */
  datatype Keystore = Keystore(keys: map<nat, nat>, active: nat, retired: set<nat>, revoked: set<nat>, faulty: bool)

  predicate Answers(ks: Keystore, id: nat) {
    !ks.faulty && id !in ks.revoked && id in ks.keys
  }

  function Unwrap(ks: Keystore, e: Envelope): Option<nat> {
    if Answers(ks, e.keyId) && ks.keys[e.keyId] == e.sealedBy then Some(e.dek) else None
  }

  /** An outage closes every envelope; it hides no key, so its end opens them again. */
  lemma OutageClosesEverything(ks: Keystore, e: Envelope)
    ensures Unwrap(ks.(faulty := true), e).None?
    ensures Unwrap(ks.(faulty := false), e) ==
            if e.keyId !in ks.revoked && e.keyId in ks.keys && ks.keys[e.keyId] == e.sealedBy then Some(e.dek) else None
  {
  }

  /** Revoking a key closes exactly the envelopes under it, held or not, and no new one is made under it. */
  lemma RevocationClosesExactly(ks: Keystore, id: nat, e: Envelope, dek: nat)
    ensures Unwrap(ks.(revoked := ks.revoked + {id}), e) == if e.keyId == id then None else Unwrap(ks, e)
    ensures Wrap(ks.(revoked := ks.revoked + {id}), dek) == if ks.active == id then None else Wrap(ks, dek)
  {
  }

  function Wrap(ks: Keystore, dek: nat): Option<Envelope> {
    if Answers(ks, ks.active) then Some(Envelope(ks.active, ks.keys[ks.active], dek)) else None
  }

  function Expand(ks: Keystore, id: nat, key: nat): Keystore {
    ks.(keys := ks.keys[id := key])
  }

  function Activate(ks: Keystore, id: nat): Keystore {
    if id !in ks.keys || id == ks.active then ks
    else ks.(active := id, retired := ks.retired + {ks.active})
  }

  function Retire(ks: Keystore, id: nat): Keystore {
    if id == ks.active then ks else ks.(retired := ks.retired - {id}, keys := ks.keys - {id})
  }

  /** The parts on disk by id, `None` for a plaintext part; the live snapshot's parts in order; the
      envelopes of the admission log's sealed records; and the store's tenant key, once it is minted. */
  datatype Store = Store(ks: Keystore, parts: map<nat, Option<Envelope>>, live: seq<nat>, log: seq<Envelope>, tenantKey: Option<Envelope>)

  /** Every live part is on disk. */
  predicate Linked(s: Store) {
    forall p | p in s.live :: p in s.parts
  }

  predicate Opens(ks: Keystore, e: Option<Envelope>) {
    e.Some? ==> Unwrap(ks, e.value) == Some(e.value.dek)
  }

  /** Every live part and every logged record opens to its own data key. */
  ghost predicate Readable(s: Store) {
    && (forall p | p in s.live :: p in s.parts && Opens(s.ks, s.parts[p]))
    && forall e | e in s.log :: Opens(s.ks, Some(e))
  }

  /** A store opened afresh can answer: a search opens the tenant key before it reads a part. */
  ghost predicate Answerable(s: Store) {
    Readable(s) && Opens(s.ks, s.tenantKey)
  }

  ghost predicate Healthy(s: Store) {
    Readable(s) && s.ks.active in s.ks.keys && !s.ks.faulty && s.ks.revoked == {}
  }

  /** No part's data key ever changes, and no part disappears. */
  ghost predicate SameDeks(a: Store, b: Store) {
    && a.live == b.live && a.log == b.log && a.tenantKey == b.tenantKey && a.parts.Keys == b.parts.Keys
    && forall p | p in a.parts :: a.parts[p].Some? == b.parts[p].Some? && (a.parts[p].Some? ==> a.parts[p].value.dek == b.parts[p].value.dek)
  }

  // --- rewrapping ---

  function Rewrapped(ks: Keystore, e: Envelope): Option<Envelope> {
    if e.keyId == ks.active then Some(e)
    else if Unwrap(ks, e).None? then None
    else Wrap(ks, Unwrap(ks, e).value)
  }

  /** The envelopes after rewrapping the first `n` live parts; it stops at the first it cannot open. */
  function RewrapThrough(s: Store, n: nat): (r: (map<nat, Option<Envelope>>, bool))
    requires n <= |s.live| && Linked(s)
    ensures s.parts.Keys == r.0.Keys
  {
    if n == 0 then (s.parts, true)
    else
      var (parts, ok) := RewrapThrough(s, n - 1);
      var p := s.live[n - 1];
      assert p in s.live;
      if !ok || parts[p].None? then (parts, ok)
      else
        var e := Rewrapped(s.ks, parts[p].value);
        if e.None? then (parts, false) else (parts[p := e], true)
  }

  lemma RewrappedOpens(ks: Keystore, e: Envelope)
    requires Opens(ks, Some(e)) && ks.active in ks.keys && !ks.faulty && ks.revoked == {}
    ensures Rewrapped(ks, e).Some?
    ensures var e' := Rewrapped(ks, e).value; Opens(ks, Some(e')) && e'.dek == e.dek && e'.keyId == ks.active
  {
  }

  /** Cut off after any number of parts, a rewrap leaves every live part opening to the key it had, and
      the parts it reached under the active key. */
  lemma {:induction false} RewrapKeeps(s: Store, n: nat)
    requires Healthy(s) && n <= |s.live|
    ensures var (parts, ok) := RewrapThrough(s, n);
            && ok && Healthy(s.(parts := parts)) && SameDeks(s, s.(parts := parts))
            && forall i | 0 <= i < n :: parts[s.live[i]].Some? ==> parts[s.live[i]].value.keyId == s.ks.active
  {
    if n > 0 {
      RewrapKeeps(s, n - 1);
      var (parts, ok) := RewrapThrough(s, n - 1);
      var p := s.live[n - 1];
      assert p in s.live;
      if parts[p].Some? {
        RewrappedOpens(s.ks, parts[p].value);
      }
    }
  }

  /** Nothing to do: every live envelope is under the active key. */
  ghost predicate Current(s: Store) {
    forall p | p in s.live :: p in s.parts && (s.parts[p].Some? ==> s.parts[p].value.keyId == s.ks.active)
  }

  /** A finished rewrap leaves only the active key on live parts, and running it again changes nothing. */
  lemma RewrapFinishes(s: Store)
    requires Healthy(s)
    ensures Current(s.(parts := RewrapThrough(s, |s.live|).0))
  {
    RewrapKeeps(s, |s.live|);
    var parts := RewrapThrough(s, |s.live|).0;
    forall p | p in s.live ensures p in parts && (parts[p].Some? ==> parts[p].value.keyId == s.ks.active) {
      var i :| 0 <= i < |s.live| && s.live[i] == p;
    }
  }

  lemma {:induction false} RewrapIsIdempotent(s: Store, n: nat)
    requires Current(s) && n <= |s.live|
    ensures RewrapThrough(s, n) == (s.parts, true)
  {
    if n > 0 {
      RewrapIsIdempotent(s, n - 1);
      var p := s.live[n - 1];
      assert p in s.live;
      assert s.parts[p].Some? ==> s.parts[p := s.parts[p]] == s.parts;
    }
  }

  // --- rotation ---

  /** What the retirability check counts: the live parts and the admission log. */
  predicate InUse(s: Store, id: nat)
    requires Linked(s)
  {
    || (exists e | e in s.log :: e.keyId == id)
    || exists p | p in s.live :: s.parts[p].Some? && s.parts[p].value.keyId == id
  }

  datatype Action =
    | Expanding(id: nat, key: nat)
    | Activating(id: nat)
    | Rewrapping(cut: nat)
    | Retiring(id: nat)

  function Step(s: Store, a: Action): (r: Store)
    requires Linked(s)
    ensures r.live == s.live && r.parts.Keys == s.parts.Keys
  {
    match a
    case Expanding(id, key) => s.(ks := Expand(s.ks, id, key))
    case Activating(id) => s.(ks := Activate(s.ks, id))
    case Rewrapping(cut) => s.(parts := RewrapThrough(s, if cut < |s.live| then cut else |s.live|).0)
    case Retiring(id) => if InUse(s, id) then s else s.(ks := Retire(s.ks, id))
  }

  /** Expansion does not replace a key that something still needs. */
  predicate Proper(s: Store, a: Action)
    requires Linked(s)
  {
    a.Expanding? && a.id in s.ks.keys && a.key != s.ks.keys[a.id] ==> !InUse(s, a.id)
  }

  /** Expanding over an id that is held overwrites its key: of the envelopes that opened, exactly those
      sealed with the old key under that id stop opening. */
  lemma ExpandOpensExactly(ks: Keystore, id: nat, key: nat, e: Envelope)
    requires Opens(ks, Some(e))
    ensures Opens(Expand(ks, id, key), Some(e)) <==> e.keyId != id || key == e.sealedBy
  {
  }

  lemma ExpandKeepsExactly(s: Store, id: nat, key: nat)
    requires Healthy(s)
    ensures Healthy(Step(s, Expanding(id, key))) <==> Proper(s, Expanding(id, key))
  {
    var ks := Expand(s.ks, id, key);
    forall e | Opens(s.ks, Some(e)) ensures Opens(ks, Some(e)) <==> e.keyId != id || key == e.sealedBy {
      ExpandOpensExactly(s.ks, id, key, e);
    }
    if e :| e in s.log && e.keyId == id {
      assert Opens(s.ks, Some(e));
    } else if p :| p in s.live && s.parts[p].Some? && s.parts[p].value.keyId == id {
      assert Opens(s.ks, s.parts[p]);
    } else {
      forall p | p in s.live ensures p in s.parts && Opens(ks, s.parts[p]) {
        assert Opens(s.ks, s.parts[p]);
      }
    }
  }

  lemma RetireKeeps(s: Store, id: nat)
    requires Healthy(s)
    ensures Healthy(Step(s, Retiring(id)))
  {
    if !InUse(s, id) {
      var ks := Retire(s.ks, id);
      forall p | p in s.live ensures p in s.parts && Opens(ks, s.parts[p]) {
        assert Opens(s.ks, s.parts[p]);
      }
    }
  }

  /** A rotation step keeps every live part and every logged record opening to the data key it always had,
      if and only if it does not expand over a key that one of them needs. */
  lemma RotationStepKeepsExactly(s: Store, a: Action)
    requires Healthy(s)
    ensures Healthy(Step(s, a)) <==> Proper(s, a)
    ensures SameDeks(s, Step(s, a))
  {
    match a {
      case Rewrapping(cut) => RewrapKeeps(s, if cut < |s.live| then cut else |s.live|);
      case Expanding(id, key) => ExpandKeepsExactly(s, id, key);
      case Retiring(id) => RetireKeeps(s, id);
      case _ =>
    }
  }

  function Run(s: Store, actions: seq<Action>): (r: Store)
    requires Linked(s)
    ensures r.live == s.live && r.parts.Keys == s.parts.Keys
  {
    if actions == [] then s else Step(Run(s, actions[..|actions| - 1]), actions[|actions| - 1])
  }

  ghost predicate ProperRun(s: Store, actions: seq<Action>)
    requires Linked(s)
  {
    actions == [] || (ProperRun(s, actions[..|actions| - 1]) && Proper(Run(s, actions[..|actions| - 1]), actions[|actions| - 1]))
  }

  lemma SameDeksTransitive(a: Store, b: Store, c: Store)
    requires SameDeks(a, b) && SameDeks(b, c)
    ensures SameDeks(a, c)
  {
    forall p | p in a.parts ensures a.parts[p].Some? == c.parts[p].Some? && (a.parts[p].Some? ==> a.parts[p].value.dek == c.parts[p].value.dek) {
      assert p in b.parts;
    }
  }

  /** Over every sequence of expansions, activations, rewraps cut off anywhere and retirements, the live
      parts and the logged records stay readable under the keys they were sealed with. */
  lemma {:induction false} RotationKeepsDataReadable(s: Store, actions: seq<Action>)
    requires Healthy(s) && ProperRun(s, actions)
    ensures Healthy(Run(s, actions)) && SameDeks(s, Run(s, actions))
  {
    if actions != [] {
      var n := |actions| - 1;
      RotationKeepsDataReadable(s, actions[..n]);
      var mid := Run(s, actions[..n]);
      RotationStepKeepsExactly(mid, actions[n]);
      SameDeksTransitive(s, mid, Step(mid, actions[n]));
    }
  }

  /** Without the check, retirement keeps the live parts and the log readable if and only if nothing there
      is under the key: for parts and records, the check is exact. */
  lemma RetireExactly(s: Store, id: nat)
    requires Healthy(s) && id != s.ks.active
    ensures Readable(s.(ks := Retire(s.ks, id))) <==> !InUse(s, id)
  {
    var ks := Retire(s.ks, id);
    if p :| p in s.live && s.parts[p].Some? && s.parts[p].value.keyId == id {
      assert !Opens(ks, s.parts[p]);
    } else if e :| e in s.log && e.keyId == id {
      assert !Opens(ks, Some(e));
    } else {
      RetireKeeps(s, id);
    }
  }

  // --- the tenant key ---

  /** What breaks the tenant key's seal: a retirement of its key that the check allows, or an expansion over
      it. No rewrap renews it and no check counts it. */
  predicate LosesTenantKey(s: Store, a: Action)
    requires Linked(s)
    requires s.tenantKey.Some?
  {
    || (a.Retiring? && a.id == s.tenantKey.value.keyId && a.id != s.ks.active && !InUse(s, a.id))
    || (a.Expanding? && a.id == s.tenantKey.value.keyId && a.key != s.tenantKey.value.sealedBy)
  }

  lemma TenantKeyStepExactly(s: Store, a: Action)
    requires Healthy(s) && s.tenantKey.Some? && Opens(s.ks, s.tenantKey)
    ensures Opens(Step(s, a).ks, s.tenantKey) <==> !LosesTenantKey(s, a)
  {
  }

  /** After a retirement the check permits, a reopened store answers if and only if its tenant key was not
      wrapped under the retired key. */
  lemma RetiredStoreAnswersExactly(s: Store, id: nat)
    requires Healthy(s) && Answerable(s) && id != s.ks.active && !InUse(s, id)
    ensures Answerable(Step(s, Retiring(id))) <==> s.tenantKey.None? || s.tenantKey.value.keyId != id
  {
    RetireKeeps(s, id);
  }

  /** The tenant key opens through every run that neither retires its key nor expands over it. */
  lemma {:induction false} TenantKeyLasts(s: Store, actions: seq<Action>)
    requires Healthy(s) && ProperRun(s, actions) && s.tenantKey.Some? && Opens(s.ks, s.tenantKey)
    requires forall a | a in actions :: (a.Retiring? || a.Expanding?) ==> a.id != s.tenantKey.value.keyId
    ensures Answerable(Run(s, actions))
  {
    RotationKeepsDataReadable(s, actions);
    if actions != [] {
      var n := |actions| - 1;
      assert actions == actions[..n] + [actions[n]];
      TenantKeyLasts(s, actions[..n]);
      RotationKeepsDataReadable(s, actions[..n]);
      TenantKeyStepExactly(Run(s, actions[..n]), actions[n]);
    }
  }

  function Rotation(s: Store, id: nat, key: nat): seq<Action> {
    [Expanding(id, key), Activating(id), Rewrapping(|s.live|), Retiring(s.ks.active)]
  }

  /** The documented rotation, expand, activate, rewrap, retire, of a store whose tenant key was minted under
      the key it replaces and whose log is drained. The check passes, every part opens under the new key,
      and the reopened store cannot answer. */
  lemma RotationLosesTheTenantKey(s: Store, id: nat, key: nat)
    requires Healthy(s) && id !in s.ks.keys && s.log == [] && s.tenantKey.Some? && s.tenantKey.value.keyId == s.ks.active
    ensures ProperRun(s, Rotation(s, id, key))
    ensures Healthy(Run(s, Rotation(s, id, key))) && Current(Run(s, Rotation(s, id, key)))
    ensures !Answerable(Run(s, Rotation(s, id, key)))
  {
    var actions := Rotation(s, id, key);
    var s1, s2, s3 := RotationStates(s, id, key);
    RetireReplaced(s3, s.ks.active);
    FourActions(s, actions, s1, s2, s3);
  }

  lemma FourActions(s: Store, actions: seq<Action>, s1: Store, s2: Store, s3: Store)
    requires |actions| == 4 && Linked(s) && Linked(s1) && Linked(s2) && Linked(s3)
    requires s1 == Step(s, actions[0]) && s2 == Step(s1, actions[1]) && s3 == Step(s2, actions[2])
    requires Proper(s, actions[0]) && Proper(s1, actions[1]) && Proper(s2, actions[2]) && Proper(s3, actions[3])
    ensures ProperRun(s, actions) && Run(s, actions) == Step(s3, actions[3])
  {
    RunNext(s, actions, 0, s);
    RunNext(s, actions, 1, s1);
    RunNext(s, actions, 2, s2);
    RunNext(s, actions, 3, s3);
    assert actions[..4] == actions;
  }

  lemma RotationStates(s: Store, id: nat, key: nat) returns (s1: Store, s2: Store, s3: Store)
    requires Healthy(s) && id !in s.ks.keys
    ensures Healthy(s1) && Healthy(s2) && Healthy(s3) && Current(s3)
    ensures s1 == Step(s, Expanding(id, key)) && s2 == Step(s1, Activating(id)) && s3 == Step(s2, Rewrapping(|s.live|))
    ensures s3.ks.active == id && s3.log == s.log && s3.tenantKey == s.tenantKey
  {
    s1 := Step(s, Expanding(id, key));
    RotationStepKeepsExactly(s, Expanding(id, key));
    s2 := Step(s1, Activating(id));
    RotationStepKeepsExactly(s1, Activating(id));
    s3 := Step(s2, Rewrapping(|s.live|));
    RotationStepKeepsExactly(s2, Rewrapping(|s.live|));
    RewrapFinishes(s2);
  }

  lemma RetireReplaced(s: Store, id: nat)
    requires Healthy(s) && Current(s) && s.log == [] && id != s.ks.active && s.tenantKey.Some? && s.tenantKey.value.keyId == id
    ensures var after := Step(s, Retiring(id)); Healthy(after) && Current(after) && !Answerable(after)
  {
    RetireKeeps(s, id);
  }

  /** One such store: one part, its key and the tenant key both under the first wrapping key. */
  lemma TenantKeyWitness()
    ensures var s := Store(Keystore(map[1 := 10], 1, {}, {}, false), map[0 := Some(Envelope(1, 10, 7))], [0], [], Some(Envelope(1, 10, 8)));
            Healthy(s) && Answerable(s) && !Answerable(Run(s, Rotation(s, 2, 20)))
  {
    var s := Store(Keystore(map[1 := 10], 1, {}, {}, false), map[0 := Some(Envelope(1, 10, 7))], [0], [], Some(Envelope(1, 10, 8)));
    RotationLosesTheTenantKey(s, 2, 20);
  }

  lemma RunNext(s: Store, actions: seq<Action>, n: nat, mid: Store)
    requires Linked(s) && n < |actions| && mid == Run(s, actions[..n])
    requires ProperRun(s, actions[..n]) && Proper(mid, actions[n])
    ensures ProperRun(s, actions[..n + 1]) && Run(s, actions[..n + 1]) == Step(mid, actions[n])
  {
    assert actions[..n + 1][..n] == actions[..n];
  }

  // --- older snapshots ---

  /** The check looks at the live snapshot only. A part that just an older snapshot names loses its key,
      so rolling back to that snapshot opens if and only if none of its parts is under the retired key. */
  lemma RolledBackOpensExactly(s: Store, id: nat, older: seq<nat>)
    requires Healthy(s) && id != s.ks.active && !InUse(s, id)
    requires forall p | p in older :: p in s.parts && Opens(s.ks, s.parts[p])
    ensures var after := Step(s, Retiring(id));
            Readable(after.(live := older)) <==> !exists p | p in older :: s.parts[p].Some? && s.parts[p].value.keyId == id
  {
    RetireKeeps(s, id);
    var after := Step(s, Retiring(id)).(live := older);
    if p :| p in older && s.parts[p].Some? && s.parts[p].value.keyId == id {
      assert !Opens(after.ks, s.parts[p]);
    } else {
      forall p | p in older ensures p in after.parts && Opens(after.ks, after.parts[p]) {
        assert Opens(s.ks, s.parts[p]);
      }
    }
  }

  /** Part 0 was merged, unsealed, into part 1 before the rotation: retiring its key passes, and the snapshot
      that names it no longer opens. */
  lemma RollbackAfterRetireFails()
    ensures var ks := Keystore(map[1 := 10, 2 := 20], 2, {1}, {}, false);
            var s := Store(ks, map[0 := Some(Envelope(1, 10, 7)), 1 := None], [1], [], None);
            && Healthy(s) && Readable(s.(live := [0])) && !InUse(s, 1)
            && Readable(Step(s, Retiring(1))) && !Readable(Step(s, Retiring(1)).(live := [0]))
  {
    var ks := Keystore(map[1 := 10, 2 := 20], 2, {1}, {}, false);
    var s := Store(ks, map[0 := Some(Envelope(1, 10, 7)), 1 := None], [1], [], None);
    assert !InUse(s, 1);
    assert 0 in s.(live := [0]).live;
  }

  // --- the rewrap and the cache as they run ---

  /** What one rewrap did, part by part. */
  datatype Report = Report(rewrapped: seq<nat>, alreadyCurrent: seq<nat>, plaintext: seq<nat>, failed: bool)

  /** Envelopes are rewritten one part at a time; a failure leaves the earlier ones rewritten. */
  method RewrapToActiveKey(s: Store) returns (parts: map<nat, Option<Envelope>>, report: Report)
    requires Linked(s)
    ensures (parts, !report.failed) == RewrapThrough(s, |s.live|)
    ensures !report.failed ==> |report.rewrapped| + |report.alreadyCurrent| + |report.plaintext| == |s.live|
  {
    parts, report := s.parts, Report([], [], [], false);
    for n := 0 to |s.live|
      invariant (parts, !report.failed) == RewrapThrough(s, n)
      invariant !report.failed ==> |report.rewrapped| + |report.alreadyCurrent| + |report.plaintext| == n
    {
      var p := s.live[n];
      assert p in s.live;
      if !report.failed {
        if parts[p].None? {
          report := report.(plaintext := report.plaintext + [p]);
        } else if parts[p].value.keyId == s.ks.active {
          assert parts[p := parts[p]] == parts;
          report := report.(alreadyCurrent := report.alreadyCurrent + [p]);
        } else {
          var dek := Unwrap(s.ks, parts[p].value);
          var e := if dek.Some? then Wrap(s.ks, dek.value) else None;
          if e.None? {
            report := report.(failed := true);
          } else {
            parts := parts[p := e];
            report := report.(rewrapped := report.rewrapped + [p]);
          }
        }
      }
    }
  }

  /** The key service's own state, changed in place. */
  class SoftwareKeystore {
    var keys: map<nat, nat>
    var active: nat
    var retired: set<nat>
    var revoked: set<nat>
    var faulty: bool

    function State(): Keystore
      reads this
    {
      Keystore(keys, active, retired, revoked, faulty)
    }

    constructor (id: nat, key: nat)
      ensures State() == Keystore(map[id := key], id, {}, {}, false)
    {
      keys, active, retired, revoked, faulty := map[id := key], id, {}, {}, false;
    }

    method AddKey(id: nat, key: nat)
      modifies this
      ensures State() == Expand(old(State()), id, key)
    {
      keys := keys[id := key];
    }

    method MakeActive(id: nat) returns (ok: bool)
      modifies this
      ensures State() == Activate(old(State()), id)
      ensures ok <==> id in old(keys)
      ensures ok ==> active == id && (old(active) == id || old(active) in retired)
    {
      ok := id in keys;
      if ok && active != id {
        retired := retired + {active};
        active := id;
      }
    }

    method Drop(id: nat) returns (ok: bool)
      modifies this
      ensures State() == Retire(old(State()), id)
      ensures ok <==> id != old(active)
      ensures ok ==> id !in keys
    {
      ok := id != active;
      if ok {
        retired := retired - {id};
        keys := keys - {id};
      }
    }

    /** A key used as named, with no other tried in its place. */
    method Open(e: Envelope) returns (dek: Option<nat>)
      ensures dek == Unwrap(State(), e)
      ensures dek.Some? <==> !faulty && e.keyId !in revoked && e.keyId in keys && keys[e.keyId] == e.sealedBy
      ensures dek.Some? ==> dek.value == e.dek
    {
      dek := if faulty || e.keyId in revoked || e.keyId !in keys || keys[e.keyId] != e.sealedBy then None else Some(e.dek);
    }
  }

  /** A bounded cache of opened data keys, oldest out first. An entry is keyed by its whole envelope. */
  class DekCache {
    var entries: seq<(Envelope, nat)>
    const capacity: nat

    ghost predicate Valid()
      reads this
    {
      capacity >= 1 && |entries| <= capacity && forall x | x in entries :: x.1 == x.0.dek
    }

    ghost predicate Holds(e: Envelope)
      reads this
    {
      exists x :: x in entries && x.0 == e
    }

    constructor (size: nat)
      ensures Valid() && entries == [] && capacity == if size == 0 then 1 else size
    {
      entries := [];
      capacity := if size == 0 then 1 else size;
    }

    /** The data key for an envelope: from the cache if it is there, from the key service if not. While
        the service answers, that is what a direct unwrap returns. */
    method GetOrOpen(e: Envelope, ks: Keystore) returns (dek: Option<nat>)
      requires Valid()
      modifies this`entries
      ensures Valid()
      ensures Unwrap(ks, e).Some? ==> dek == Unwrap(ks, e) && Holds(e)
      ensures dek.Some? <==> old(Holds(e)) || Unwrap(ks, e).Some?
      ensures dek.Some? ==> dek.value == e.dek
      ensures dek.None? ==> entries == old(entries)
    {
      for i := 0 to |entries|
        invariant entries == old(entries) && forall k | 0 <= k < i :: entries[k].0 != e
      {
        if entries[i].0 == e {
          assert entries[i] in entries;
          return Some(entries[i].1);
        }
      }
      dek := Unwrap(ks, e);
      if dek.Some? {
        Remember(e, dek.value);
      }
    }

    method Remember(e: Envelope, dek: nat)
      requires Valid() && dek == e.dek
      modifies this`entries
      ensures Valid() && Holds(e)
    {
      entries := entries + [(e, dek)];
      while |entries| > capacity
        invariant forall x | x in entries :: x.1 == x.0.dek
        invariant entries != [] && entries[|entries| - 1] == (e, dek)
      {
        entries := entries[1..];
      }
      assert entries[|entries| - 1] in entries;
    }

    method Clear()
      modifies this`entries
      ensures entries == []
    {
      entries := [];
    }
  }
}
