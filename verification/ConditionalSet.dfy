/**
 The stable conditional set: an identity key remembers the fingerprint of the payload that was
 stored under the target key, and both expire together. Attempts of many callers interleave;
 a lost reply changes nothing on the server, so a run is a sequence of scripts and clock ticks.
 */
module ConditionalSet {
  import opened Basics

  type Key = string

  datatype Mutation = Mutation(identity: Key, target: Key, payload: Bytes, retention: nat) {
    /** What the constructor in the source admits. */
    predicate Valid() { identity != "" && target != "" && target != identity && retention > 0 && payload != [] }
  }

  datatype Cell = Cell(value: Bytes, expires: nat)

  datatype State = State(keys: map<Key, Cell>, now: nat)

  datatype Outcome = Applied | Replayed | Conflict

  type Hash = Bytes -> Bytes

  function Get(s: State, key: Key): Option<Cell> {
    if key in s.keys && s.now < s.keys[key].expires then Some(s.keys[key]) else None
  }

  function Put(s: State, key: Key, value: Bytes, retention: nat): State {
    s.(keys := s.keys[key := Cell(value, s.now + retention)])
  }

  function Store(hash: Hash, s: State, m: Mutation): State {
    Put(Put(s, m.target, m.payload, m.retention), m.identity, hash(m.payload), m.retention)
  }

  function ScriptOutcome(hash: Hash, s: State, m: Mutation): Outcome {
    var prior := Get(s, m.identity);
    if prior.None? then Applied else if prior.value.value == hash(m.payload) then Replayed else Conflict
  }

  function ScriptStep(hash: Hash, s: State, m: Mutation): State {
    if ScriptOutcome(hash, s, m) == Conflict then s else Store(hash, s, m)
  }

  /** The keyspace on the server, updated in place by the script. */
  class Server {
    const hash: Hash
    var state: State

    constructor (hash: Hash)
      ensures this.hash == hash && state == State(map[], 0)
    {
      this.hash := hash;
      state := State(map[], 0);
    }

    method PSetEx(key: Key, value: Bytes, retention: nat)
      modifies this
      ensures state == Put(old(state), key, value, retention)
    {
      state := state.(keys := state.keys[key := Cell(value, state.now + retention)]);
    }

    method Eval(m: Mutation) returns (outcome: Outcome)
      modifies this
      ensures outcome == ScriptOutcome(hash, old(state), m) && state == ScriptStep(hash, old(state), m)
      ensures outcome == Conflict ==> state == old(state)
      ensures outcome == Applied <==>
                m.identity !in old(state).keys || old(state).keys[m.identity].expires <= old(state).now
      ensures outcome != Applied ==>
                outcome == if old(state).keys[m.identity].value == hash(m.payload) then Replayed else Conflict
    {
      var fingerprint := hash(m.payload);
      var prior := Get(state, m.identity);
      if prior.Some? {
        if prior.value.value != fingerprint {
          return Conflict;
        }
        PSetEx(m.target, m.payload, m.retention);
        PSetEx(m.identity, fingerprint, m.retention);
        return Replayed;
      }
      PSetEx(m.target, m.payload, m.retention);
      PSetEx(m.identity, fingerprint, m.retention);
      return Applied;
    }
  }

  // ------------------------------------------------------------ runs

  datatype Op = Script(m: Mutation) | Tick(millis: nat)

  function Step(hash: Hash, s: State, op: Op): State {
    match op
    case Script(m) => ScriptStep(hash, s, m)
    case Tick(millis) => s.(now := s.now + millis)
  }

  function Run(hash: Hash, s: State, ops: seq<Op>): State
    decreases |ops|
  {
    if ops == [] then s else Run(hash, Step(hash, s, ops[0]), ops[1..])
  }

  /** Only mutations of the universe `u` are ever attempted. */
  predicate Within(u: set<Mutation>, ops: seq<Op>) {
    forall i :: 0 <= i < |ops| && ops[i].Script? ==> ops[i].m in u
  }

  /** Every mutation is one the constructor admits; their keys may coincide in any other way. */
  predicate Universe(u: set<Mutation>) { forall m | m in u :: m.Valid() }

  /** The identity of `m` is live with its own fingerprint. */
  predicate Holds(hash: Hash, s: State, m: Mutation) {
    var id := Get(s, m.identity);
    id.Some? && id.value.value == hash(m.payload)
  }

  /** While it is, the target holds a payload of that fingerprint until the same time. */
  ghost predicate Backed(hash: Hash, s: State, m: Mutation) {
    var id, target := Get(s, m.identity), Get(s, m.target);
    Holds(hash, s, m) ==>
      target.Some? && hash(target.value.value) == hash(m.payload) && target.value.expires == id.value.expires
  }

  ghost predicate OwnedBy(hash: Hash, u: set<Mutation>, s: State, m: Mutation, n: Mutation) {
    n in u && n.identity == m.identity && Holds(hash, s, n)
  }

  /** A live identity key holds the fingerprint of one of its own mutations. */
  ghost predicate Owned(hash: Hash, u: set<Mutation>, s: State, m: Mutation) {
    Get(s, m.identity).Some? ==> exists n :: OwnedBy(hash, u, s, m, n)
  }

  ghost predicate Sound(hash: Hash, u: set<Mutation>, s: State) {
    forall m :: m in u ==> Backed(hash, s, m) && Owned(hash, u, s, m)
  }

  // ------------------------------------------------------------ the exact condition

  /** Two mutations that can undo each other's target. */
  ghost predicate Clash(hash: Hash, m: Mutation, n: Mutation) {
    || (m.identity == n.identity && m.target != n.target && hash(m.payload) == hash(n.payload))
    || (m.identity != n.identity && m.target == n.target
        && !(hash(m.payload) == hash(n.payload) && m.retention == 1 && n.retention == 1))
  }

  ghost predicate ClashFree(hash: Hash, u: set<Mutation>) {
    forall m, n :: m in u && n in u ==> !Clash(hash, m, n)
  }

  /** `n` stores a fingerprint of `m`, and the keys of `m` are those of `n` the other way round. */
  ghost predicate MirrorOf(hash: Hash, u: set<Mutation>, n: Mutation, m: Mutation) {
    && m in u && m.identity == n.target && m.target == n.identity
    && hash(m.payload) == n.payload && hash(hash(n.payload)) == n.payload
  }

  ghost predicate Mirrored(hash: Hash, u: set<Mutation>, n: Mutation) { exists m :: MirrorOf(hash, u, n, m) }

  /** No target is another's identity key, unless the two mutations store each other's fingerprint. */
  ghost predicate Separate(hash: Hash, u: set<Mutation>) {
    forall m, n :: m in u && n in u && n.target == m.identity ==> Mirrored(hash, u, n)
  }

  /** Where no payload is the fingerprint of its own fingerprint, that is: no key is both. */
  lemma SeparateMeansSeparateKeys(hash: Hash, u: set<Mutation>)
    requires forall n :: n in u ==> hash(hash(n.payload)) != n.payload
    ensures Separate(hash, u) <==> forall m, n :: m in u && n in u ==> n.target != m.identity
  {
    forall m, n | m in u && n in u && n.target == m.identity
      ensures !Separate(hash, u)
    {
      assert !Mirrored(hash, u, n);
    }
  }

  // ------------------------------------------------------------ it keeps every run sound

  /** `n` wrote the identity of `m`, no longer ago than its retention. */
  ghost predicate RecentBy(hash: Hash, u: set<Mutation>, s: State, m: Mutation, n: Mutation) {
    && n in u
    && (|| (n.identity == m.identity && hash(n.payload) == hash(m.payload))
        || (n.target == m.identity && n.payload == hash(m.payload)))
    && m.identity in s.keys && s.keys[m.identity].expires <= s.now + n.retention
  }

  ghost predicate Recent(hash: Hash, u: set<Mutation>, s: State, m: Mutation) {
    Holds(hash, s, m) ==> exists n :: RecentBy(hash, u, s, m, n)
  }

  ghost predicate PairedBy(hash: Hash, u: set<Mutation>, s: State, m: Mutation, n: Mutation) {
    n in u && n.identity == m.target && n.target == m.identity && m.target in s.keys
    && s.keys[m.target].value == hash(n.payload)
  }

  /** Where the target is an identity key too, it holds the fingerprint of a mutation that points back. */
  ghost predicate Paired(hash: Hash, u: set<Mutation>, s: State, m: Mutation) {
    Holds(hash, s, m) && (exists y :: y in u && y.identity == m.target) ==> exists n :: PairedBy(hash, u, s, m, n)
  }

  ghost predicate Good(hash: Hash, u: set<Mutation>, s: State, m: Mutation) {
    Backed(hash, s, m) && Owned(hash, u, s, m) && Recent(hash, u, s, m) && Paired(hash, u, s, m)
  }

  ghost predicate Inv(hash: Hash, u: set<Mutation>, s: State) { forall m :: m in u ==> Good(hash, u, s, m) }

  ghost predicate Orderly(hash: Hash, u: set<Mutation>) { Universe(u) && ClashFree(hash, u) && Separate(hash, u) }

  /** The identity of `m` was just written as an identity. */
  lemma StoreSameIdentity(hash: Hash, u: set<Mutation>, s: State, w: Mutation, m: Mutation)
    requires Orderly(hash, u) && w in u && m in u && m.identity == w.identity
    ensures Good(hash, u, Store(hash, s, w), m)
  {
    var t := Store(hash, s, w);
    assert OwnedBy(hash, u, t, m, w);
    if hash(m.payload) == hash(w.payload) {
      assert !Clash(hash, m, w);
      assert RecentBy(hash, u, t, m, w);
      if y :| y in u && y.identity == m.target {
        assert Mirrored(hash, u, w);
        var n :| MirrorOf(hash, u, w, n);
        assert PairedBy(hash, u, t, m, n);
      }
    }
  }

  /** The identity of `m` was just written as a target. */
  lemma StoreOverIdentity(hash: Hash, u: set<Mutation>, s: State, w: Mutation, m: Mutation)
    requires Orderly(hash, u) && w in u && m in u && m.identity == w.target
    ensures Good(hash, u, Store(hash, s, w), m)
  {
    var t := Store(hash, s, w);
    assert Mirrored(hash, u, w);
    var n :| MirrorOf(hash, u, w, n);
    assert OwnedBy(hash, u, t, m, n);
    if w.payload == hash(m.payload) {
      assert !Clash(hash, m, n);
      assert RecentBy(hash, u, t, m, w);
      assert PairedBy(hash, u, t, m, w);
    }
  }

  /** A target that is an identity key too belongs to one identity only. */
  lemma OneIdentityPointsHere(hash: Hash, u: set<Mutation>, m: Mutation, w: Mutation, y: Mutation)
    requires Orderly(hash, u) && m in u && w in u && y in u && m.target == w.target == y.identity
    ensures m.identity == w.identity
  {
    assert !Clash(hash, m, w);
    assert Mirrored(hash, u, m) && Mirrored(hash, u, w);
    var a :| MirrorOf(hash, u, m, a);
    var b :| MirrorOf(hash, u, w, b);
    assert !Clash(hash, a, b);
  }

  /** Who may renew the target of `m` while it is an identity key, points back to `m`. */
  lemma RenewalPointsBack(hash: Hash, u: set<Mutation>, s: State, w: Mutation, m: Mutation)
    requires Orderly(hash, u) && w in u && m in u && Good(hash, u, s, m) && Holds(hash, s, m)
    requires m.target == w.identity && ScriptOutcome(hash, s, w) != Conflict
    ensures w.target == m.identity
  {
    var back :| PairedBy(hash, u, s, m, back);
    assert !Clash(hash, w, back);
  }

  /** A target shared by two identities: both were written within the same millisecond. */
  lemma StoreSharedTarget(hash: Hash, u: set<Mutation>, s: State, w: Mutation, m: Mutation)
    requires Orderly(hash, u) && w in u && m in u && Good(hash, u, s, m) && Holds(hash, s, m)
    requires m.identity != w.identity && m.identity != w.target && m.target == w.target
    ensures Good(hash, u, Store(hash, s, w), m)
  {
    var t := Store(hash, s, w);
    var o :| OwnedBy(hash, u, s, m, o);
    assert OwnedBy(hash, u, t, m, o);
    var n :| RecentBy(hash, u, s, m, n);
    assert RecentBy(hash, u, t, m, n);
    if n.target == m.identity && n.payload == hash(m.payload) {
      assert Mirrored(hash, u, n);
      var a :| MirrorOf(hash, u, n, a);
      assert !Clash(hash, m, a);
      OneIdentityPointsHere(hash, u, m, w, n);
    } else {
      assert !Clash(hash, m, w) && !Clash(hash, m, n) && !Clash(hash, n, w);
      if y :| y in u && y.identity == m.target {
        OneIdentityPointsHere(hash, u, m, w, y);
      }
    }
  }

  /** Neither key of `w` is the identity of `m`, nor its shared target. */
  lemma StoreElsewhere(hash: Hash, u: set<Mutation>, s: State, w: Mutation, m: Mutation)
    requires Orderly(hash, u) && w in u && m in u && Good(hash, u, s, m) && ScriptOutcome(hash, s, w) != Conflict
    requires m.identity != w.identity && m.identity != w.target && (Holds(hash, s, m) ==> m.target != w.target)
    ensures Good(hash, u, Store(hash, s, w), m)
  {
    var t := Store(hash, s, w);
    assert Get(t, m.identity) == Get(s, m.identity);
    if Get(s, m.identity).Some? {
      var o :| OwnedBy(hash, u, s, m, o);
      assert OwnedBy(hash, u, t, m, o);
    }
    if Holds(hash, s, m) {
      var n :| RecentBy(hash, u, s, m, n);
      assert RecentBy(hash, u, t, m, n);
      if m.target == w.identity {
        RenewalPointsBack(hash, u, s, w, m);
      } else if y :| y in u && y.identity == m.target {
        var back :| PairedBy(hash, u, s, m, back);
        assert PairedBy(hash, u, t, m, back);
      }
    }
  }

  lemma StoreKeepsGood(hash: Hash, u: set<Mutation>, s: State, w: Mutation, m: Mutation)
    requires Orderly(hash, u) && w in u && m in u && Good(hash, u, s, m) && ScriptOutcome(hash, s, w) != Conflict
    ensures Good(hash, u, Store(hash, s, w), m)
  {
    if m.identity == w.identity {
      StoreSameIdentity(hash, u, s, w, m);
    } else if m.identity == w.target {
      StoreOverIdentity(hash, u, s, w, m);
    } else if Holds(hash, s, m) && m.target == w.target {
      StoreSharedTarget(hash, u, s, w, m);
    } else {
      StoreElsewhere(hash, u, s, w, m);
    }
  }

  lemma TickKeepsGood(hash: Hash, u: set<Mutation>, s: State, millis: nat, m: Mutation)
    requires Good(hash, u, s, m)
    ensures Good(hash, u, s.(now := s.now + millis), m)
  {
    var t := s.(now := s.now + millis);
    if Get(t, m.identity).Some? {
      var o :| OwnedBy(hash, u, s, m, o);
      assert OwnedBy(hash, u, t, m, o);
    }
    if Holds(hash, t, m) {
      var n :| RecentBy(hash, u, s, m, n);
      assert RecentBy(hash, u, t, m, n);
      if y :| y in u && y.identity == m.target {
        var back :| PairedBy(hash, u, s, m, back);
        assert PairedBy(hash, u, t, m, back);
      }
    }
  }

  lemma StepKeepsInv(hash: Hash, u: set<Mutation>, s: State, op: Op)
    requires Orderly(hash, u) && Inv(hash, u, s) && (op.Script? ==> op.m in u)
    ensures Inv(hash, u, Step(hash, s, op))
  {
    hide Good, Orderly, Store;
    forall m | m in u
      ensures Good(hash, u, Step(hash, s, op), m)
    {
      match op {
        case Script(w) => if ScriptOutcome(hash, s, w) != Conflict { StoreKeepsGood(hash, u, s, w, m); }
        case Tick(millis) => TickKeepsGood(hash, u, s, millis, m);
      }
    }
  }

  lemma {:induction false} RunKeepsInv(hash: Hash, u: set<Mutation>, s: State, ops: seq<Op>)
    requires Orderly(hash, u) && Inv(hash, u, s) && Within(u, ops)
    ensures Inv(hash, u, Run(hash, s, ops))
    decreases |ops|
  {
    if ops != [] {
      StepKeepsInv(hash, u, s, ops[0]);
      RunKeepsInv(hash, u, Step(hash, s, ops[0]), ops[1..]);
    }
  }

  // ------------------------------------------------------------ and nothing less does

  const EMPTY := State(map[], 0)

  function Twice(m: Mutation, wait: nat, n: Mutation): seq<Op> { [Script(m), Tick(wait), Script(n)] }

  lemma RunTwice(hash: Hash, m: Mutation, wait: nat, n: Mutation)
    ensures Run(hash, EMPTY, Twice(m, wait, n)) ==
              ScriptStep(hash, State(Store(hash, EMPTY, m).keys, wait), n)
  {
    var ops := Twice(m, wait, n);
    assert ops[1..] == [Tick(wait), Script(n)] && ops[1..][1..] == [Script(n)];
    var s1 := ScriptStep(hash, EMPTY, m);
    assert s1 == Store(hash, EMPTY, m);
    var s2 := Step(hash, s1, Tick(wait));
    assert s2 == State(s1.keys, wait);
    assert Run(hash, s2, [Script(n)]) == ScriptStep(hash, s2, n);
  }

  /** One identity, two targets: the identity outlives its first target, or the other way round. */
  lemma TwoTargets(hash: Hash, m: Mutation, wait: nat, n: Mutation)
    requires m.Valid() && n.Valid()
    requires n.identity == m.identity && hash(n.payload) == hash(m.payload) && n.target != m.target
    requires wait + n.retention != m.retention
    ensures !Backed(hash, Run(hash, EMPTY, Twice(m, wait, n)), m)
  {
    RunTwice(hash, m, wait, n);
    var s := State(Store(hash, EMPTY, m).keys, wait);
    var t := Store(hash, s, n);
    assert ScriptOutcome(hash, s, n) != Conflict;
    hide Run;
    assert Get(t, m.identity) == Some(Cell(hash(m.payload), wait + n.retention));
    assert t.keys[m.target] == Cell(m.payload, m.retention);
  }

  /** Two identities, one target: the first identity is left with the second payload, or its expiry. */
  lemma TwoIdentities(hash: Hash, m: Mutation, wait: nat, n: Mutation)
    requires m.Valid() && n.Valid() && n.identity != m.identity && n.target == m.target && wait < m.retention
    requires wait + n.retention != m.retention || hash(n.payload) != hash(m.payload)
    ensures !Backed(hash, Run(hash, EMPTY, Twice(m, wait, n)), m)
  {
    RunTwice(hash, m, wait, n);
    var s := State(Store(hash, EMPTY, m).keys, wait);
    var t := Store(hash, s, n);
    assert n.identity !in s.keys;
    assert ScriptOutcome(hash, s, n) == Applied;
    hide Run;
    assert Get(t, m.identity) == Some(Cell(hash(m.payload), m.retention));
    assert Get(t, m.target) == Some(Cell(n.payload, wait + n.retention));
  }

  /** Two clashing mutations, one after the other, leave an identity without its target. */
  lemma ClashBreaks(hash: Hash, u: set<Mutation>, m: Mutation, n: Mutation) returns (ops: seq<Op>)
    requires Universe(u) && m in u && n in u && Clash(hash, m, n)
    ensures Within(u, ops) && !Backed(hash, Run(hash, EMPTY, ops), m)
  {
    // equal retentions need a later second write, while the first identity still lives
    var equal := m.retention == n.retention && (m.identity == n.identity || m.retention > 1);
    var wait := if equal then 1 else 0;
    ops := Twice(m, wait, n);
    hide Run, Backed;
    if m.identity == n.identity {
      TwoTargets(hash, m, wait, n);
    } else {
      TwoIdentities(hash, m, wait, n);
    }
  }

  /** One write to another's identity key leaves that key without an owner, or without its target. */
  lemma SharedKeyBreaks(hash: Hash, u: set<Mutation>, m: Mutation, n: Mutation) returns (ops: seq<Op>)
    requires Universe(u) && m in u && n in u && n.target == m.identity && !Mirrored(hash, u, n)
    ensures Within(u, ops) && !Sound(hash, u, Run(hash, EMPTY, ops))
  {
    ops := [Script(n)];
    var s := Store(hash, EMPTY, n);
    assert Run(hash, EMPTY, ops) == s by {
      assert ops[1..] == [] && Step(hash, EMPTY, ops[0]) == s;
    }
    assert Get(s, m.identity).Some?;
    forall o | OwnedBy(hash, u, s, m, o)
      ensures !Backed(hash, s, o)
    {
      assert !MirrorOf(hash, u, n, o);
    }
    assert Owned(hash, u, s, m) ==> exists o :: OwnedBy(hash, u, s, m, o) && o in u && !Backed(hash, s, o);
  }

  /**
   Over every run of every mix of attempts and expiry, every live identity key holds a fingerprint
   of its own, and its target a payload of it until the same time, exactly when no two mutations
   clash and no target is another's identity key, but for mirrored pairs.
   */
  lemma SoundIffClashFreeAndSeparate(hash: Hash, u: set<Mutation>)
    requires Universe(u)
    ensures (forall ops: seq<Op> :: Within(u, ops) ==> Sound(hash, u, Run(hash, EMPTY, ops)))
            <==> ClashFree(hash, u) && Separate(hash, u)
  {
    if !ClashFree(hash, u) {
      var m, n :| m in u && n in u && Clash(hash, m, n);
      var ops := ClashBreaks(hash, u, m, n);
    } else if !Separate(hash, u) {
      var m, n :| m in u && n in u && n.target == m.identity && !Mirrored(hash, u, n);
      var ops := SharedKeyBreaks(hash, u, m, n);
    } else {
      forall ops: seq<Op> | Within(u, ops)
        ensures Sound(hash, u, Run(hash, EMPTY, ops))
      {
        RunKeepsInv(hash, u, EMPTY, ops);
        assert forall m :: m in u ==> Good(hash, u, Run(hash, EMPTY, ops), m);
      }
    }
  }

  // ------------------------------------------------------------ retrying after a lost reply

  lemma {:induction false} NowGrows(hash: Hash, s: State, ops: seq<Op>)
    ensures s.now <= Run(hash, s, ops).now
    decreases |ops|
  {
    if ops != [] { NowGrows(hash, Step(hash, s, ops[0]), ops[1..]); }
  }

  /** No mutation with this identity and fingerprint has a shorter retention. */
  ghost predicate NoShorter(hash: Hash, u: set<Mutation>, m: Mutation) {
    forall n :: n in u && n.identity == m.identity && hash(n.payload) == hash(m.payload) ==> n.retention >= m.retention
  }

  /** And whatever is stored over the identity key is the fingerprint itself, for no shorter time. */
  ghost predicate NoOverwrite(hash: Hash, u: set<Mutation>, m: Mutation) {
    forall n :: n in u && n.target == m.identity ==> n.payload == hash(m.payload) && n.retention >= m.retention
  }

  /** The identity is live with the fingerprint at least until `until`: the attempt has landed. */
  predicate Landed(hash: Hash, s: State, m: Mutation, until: nat) {
    m.identity in s.keys && s.keys[m.identity].value == hash(m.payload) && s.now < until <= s.keys[m.identity].expires
  }

  lemma {:induction false} StaysLanded(hash: Hash, u: set<Mutation>, s: State, ops: seq<Op>, m: Mutation, until: nat)
    requires Universe(u) && Within(u, ops) && m in u && NoShorter(hash, u, m) && NoOverwrite(hash, u, m)
    requires Landed(hash, s, m, until) && Run(hash, s, ops).now < until <= s.now + m.retention
    ensures Landed(hash, Run(hash, s, ops), m, until)
    decreases |ops|
  {
    if ops != [] {
      NowGrows(hash, Step(hash, s, ops[0]), ops[1..]);
      StaysLanded(hash, u, Step(hash, s, ops[0]), ops[1..], m, until);
    }
  }

  /** Every retry before the retention runs out is replayed, whatever other callers do in between. */
  ghost predicate RetriesReplayed(hash: Hash, u: set<Mutation>, s: State, m: Mutation) {
    forall between: seq<Op> :: Within(u, between) && Run(hash, s, between).now < s.now + m.retention ==>
      ScriptOutcome(hash, Run(hash, s, between), m) == Replayed
  }

  lemma KeptRetriesAreReplayed(hash: Hash, u: set<Mutation>, s: State, m: Mutation)
    requires Universe(u) && m in u && Landed(hash, s, m, s.now + m.retention)
    requires NoShorter(hash, u, m) && NoOverwrite(hash, u, m)
    ensures RetriesReplayed(hash, u, s, m)
  {
    forall between: seq<Op> | Within(u, between) && Run(hash, s, between).now < s.now + m.retention
      ensures ScriptOutcome(hash, Run(hash, s, between), m) == Replayed
    {
      StaysLanded(hash, u, s, between, m, s.now + m.retention);
    }
  }

  lemma RunOnce(hash: Hash, s: State, n: Mutation, millis: nat)
    ensures Run(hash, s, [Script(n), Tick(millis)]) ==
              ScriptStep(hash, s, n).(now := s.now + millis)
  {
    var ops := [Script(n), Tick(millis)];
    assert ops[1..] == [Tick(millis)] && ops[1..][1..] == [];
    assert Run(hash, ScriptStep(hash, s, n), [Tick(millis)]) == ScriptStep(hash, s, n).(now := s.now + millis);
  }

  /** A replay with a shorter retention lets the identity expire before the retry. */
  lemma ShorterReplayBreaks(hash: Hash, u: set<Mutation>, s: State, m: Mutation, n: Mutation)
    requires Universe(u) && m in u && n in u && Landed(hash, s, m, s.now + m.retention)
    requires n.identity == m.identity && hash(n.payload) == hash(m.payload) && n.retention < m.retention
    ensures !RetriesReplayed(hash, u, s, m)
  {
    var between := [Script(n), Tick(n.retention)];
    RunOnce(hash, s, n, n.retention);
    assert Within(u, between) && ScriptOutcome(hash, Run(hash, s, between), m) == Applied;
  }

  /** So does a write to the identity key of another value, or for a shorter time. */
  lemma OverwriteBreaks(hash: Hash, u: set<Mutation>, s: State, m: Mutation, n: Mutation)
    requires Universe(u) && m in u && n in u && Landed(hash, s, m, s.now + m.retention)
    requires n.target == m.identity && (n.payload != hash(m.payload) || n.retention < m.retention)
    requires ScriptOutcome(hash, s, n) != Conflict
    ensures !RetriesReplayed(hash, u, s, m)
  {
    var wait := if n.payload != hash(m.payload) then 0 else n.retention;
    var between := [Script(n), Tick(wait)];
    RunOnce(hash, s, n, wait);
    assert Within(u, between) && ScriptOutcome(hash, Run(hash, s, between), m) != Replayed;
  }

  /** A state in which nothing but the identity of `m` is live. */
  function JustLanded(hash: Hash, m: Mutation): State {
    State(map[m.identity := Cell(hash(m.payload), m.retention)], 0)
  }

  /**
   From every state in which an attempt has landed, every retry within the retention is replayed,
   exactly when no mutation renews the identity for a shorter time or stores something else over it.
   */
  lemma RetryReplayedIffKept(hash: Hash, u: set<Mutation>, m: Mutation)
    requires Universe(u) && m in u
    ensures (forall s: State :: Landed(hash, s, m, s.now + m.retention) ==> RetriesReplayed(hash, u, s, m))
            <==> NoShorter(hash, u, m) && NoOverwrite(hash, u, m)
  {
    var s := JustLanded(hash, m);
    assert Landed(hash, s, m, s.now + m.retention);
    if !NoShorter(hash, u, m) {
      var n :| n in u && n.identity == m.identity && hash(n.payload) == hash(m.payload) && n.retention < m.retention;
      ShorterReplayBreaks(hash, u, s, m, n);
    } else if !NoOverwrite(hash, u, m) {
      var n :| n in u && n.target == m.identity && !(n.payload == hash(m.payload) && n.retention >= m.retention);
      OverwriteBreaks(hash, u, s, m, n);
    } else {
      forall t: State | Landed(hash, t, m, t.now + m.retention)
        ensures RetriesReplayed(hash, u, t, m)
      {
        KeptRetriesAreReplayed(hash, u, t, m);
      }
    }
  }

  /** An attempt that does not conflict, first or retried, stores both keys and has landed. */
  lemma StoredHasLanded(hash: Hash, s: State, m: Mutation)
    requires m.Valid() && ScriptOutcome(hash, s, m) != Conflict
    ensures Landed(hash, ScriptStep(hash, s, m), m, s.now + m.retention)
    ensures Get(ScriptStep(hash, s, m), m.target) == Some(Cell(m.payload, s.now + m.retention))
    ensures Get(ScriptStep(hash, s, m), m.identity) == Some(Cell(hash(m.payload), s.now + m.retention))
  {
  }

  /**
   The same after one given attempt that stored its payload, where nothing else in the keyspace
   blocks the mutations that would store over the identity key. Where no target is this key, the
   condition is `NoShorter` alone.
   */
  lemma RetryOfStoredIffKept(hash: Hash, u: set<Mutation>, s: State, m: Mutation)
    requires Universe(u) && m in u && ScriptOutcome(hash, s, m) != Conflict
    requires forall n :: n in u && n.target == m.identity ==> ScriptOutcome(hash, ScriptStep(hash, s, m), n) != Conflict
    ensures RetriesReplayed(hash, u, ScriptStep(hash, s, m), m) <==> NoShorter(hash, u, m) && NoOverwrite(hash, u, m)
    ensures (forall n :: n in u ==> n.target != m.identity) ==> NoOverwrite(hash, u, m)
  {
    var t := ScriptStep(hash, s, m);
    StoredHasLanded(hash, s, m);
    if !NoShorter(hash, u, m) {
      var n :| n in u && n.identity == m.identity && hash(n.payload) == hash(m.payload) && n.retention < m.retention;
      ShorterReplayBreaks(hash, u, t, m, n);
    } else if !NoOverwrite(hash, u, m) {
      var n :| n in u && n.target == m.identity && !(n.payload == hash(m.payload) && n.retention >= m.retention);
      OverwriteBreaks(hash, u, t, m, n);
    } else {
      KeptRetriesAreReplayed(hash, u, t, m);
    }
  }
}
