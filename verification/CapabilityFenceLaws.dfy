/** What an open fence, and an acknowledged commit, mean over every interleaving. */
module CapabilityFenceLaws {
  import opened Basics
  import opened CapabilityFence

  // ------------------------------------------------------------ reading the history

  /** Failures recorded from position `from` on. */
  ghost function Failures(h: seq<Action>, from: nat): nat
    decreases |h|
  {
    if |h| <= from then 0
    else Failures(h[..|h| - 1], from) + (if h[|h| - 1].Failure? then 1 else 0)
  }

  /** The pass actions from position `from` on, in order. */
  ghost function Trace(h: seq<Action>, from: nat): seq<Action>
    decreases |h|
  {
    if |h| <= from then []
    else Trace(h[..|h| - 1], from) + (if IsPassAction(h[|h| - 1]) then [h[|h| - 1]] else [])
  }

  lemma Appended(h: seq<Action>, a: Action, from: nat)
    requires from <= |h|
    ensures Failures(h + [a], from) == Failures(h, from) + (if a.Failure? then 1 else 0)
    ensures Trace(h + [a], from) == Trace(h, from) + (if IsPassAction(a) then [a] else [])
  {
    assert (h + [a])[..|h|] == h;
  }

  lemma {:induction false} FewerLater(h: seq<Action>, from: nat)
    ensures Failures(h, from) <= Failures(h, 0)
    ensures Failures(h, from) == 0 <==> forall i :: from <= i < |h| ==> !h[i].Failure?
    decreases |h|
  {
    if |h| > from {
      FewerLater(h[..|h| - 1], from);
      assert forall i :: from <= i < |h| - 1 ==> h[..|h| - 1][i] == h[i];
    }
  }

  lemma {:induction false} Earlier(h: seq<Action>, k: nat, from: nat)
    requires k <= |h|
    ensures Failures(h[..k], from) <= Failures(h, from)
    decreases |h|
  {
    if k < |h| {
      assert h[..|h| - 1][..k] == h[..k];
      Earlier(h[..|h| - 1], k, from);
      if |h| <= from {
        assert Failures(h[..k], from) == 0;
      }
    } else {
      assert h[..k] == h;
    }
  }

  // ------------------------------------------------------------ what a complete pass looks like

  ghost function Probes(roles: seq<Role>, n: nat): seq<Action>
    requires n <= |roles|
  {
    if n == 0 then [] else Probes(roles, n - 1) + [RequiredGood(roles[n - 1])] + [DenialsGood(roles[n - 1])]
  }

  ghost function Rebuilds(roles: seq<Role>, n: nat): seq<Action>
    requires n <= |roles|
  {
    if n == 0 then [] else Rebuilds(roles, n - 1) + [Rebuilt(roles[n - 1])]
  }

  ghost function UpToRoles(start: nat, roles: seq<Role>): seq<Action> {
    [Began(start)] + [BaseGood] + [RolesTaken(roles)]
  }

  ghost function UpToGate(start: nat, roles: seq<Role>): seq<Action> {
    UpToRoles(start, roles) + Probes(roles, |roles|) + [Gated]
  }

  /** Base probe, then both probes of every role, then every reconstruction, then open. */
  ghost function FullPass(start: nat, roles: seq<Role>): seq<Action> {
    UpToGate(start, roles) + Rebuilds(roles, |roles|) + [Opened]
  }

  /** Every role registered before position `b` is among `roles`. */
  ghost predicate Covers(h: seq<Action>, b: nat, roles: seq<Role>) {
    forall i :: 0 <= i < b && i < |h| && h[i].Registered? ==> h[i].role in roles
  }

  /** The pass that began at `b` with generation `start` was complete before position `e`. */
  ghost predicate Certificate(h: seq<Action>, b: nat, e: nat, start: nat, roles: seq<Role>) {
    b < e <= |h| && Trace(h[..e], b) == FullPass(start, roles) && Covers(h, b, roles)
  }

  /** A complete pass begun at this generation, with `WRAP` times some number of failures since it began. */
  ghost predicate CertifiedAt(h: seq<Action>, generation: nat, b: nat, e: nat, roles: seq<Role>) {
    Certificate(h, b, e, generation, roles) && Failures(h, b) % WRAP == 0
  }

  ghost predicate Certified(h: seq<Action>, generation: nat) {
    exists b: nat, e: nat, roles: seq<Role> :: CertifiedAt(h, generation, b, e, roles)
  }

  lemma CertifiedLater(h: seq<Action>, generation: nat, a: Action)
    requires Certified(h, generation) && !a.Failure?
    ensures Certified(h + [a], generation)
  {
    var b: nat, e: nat, roles: seq<Role> :| CertifiedAt(h, generation, b, e, roles);
    assert (h + [a])[..e] == h[..e];
    Appended(h, a, b);
    assert CertifiedAt(h + [a], generation, b, e, roles);
  }

  // ------------------------------------------------------------ the invariant

  ghost predicate Drift(h: seq<Action>, from: nat, start: nat, generation: nat) {
    start < WRAP && (start + Failures(h, from)) % WRAP == generation
  }

  ghost predicate Progress(h: seq<Action>, p: Pass) {
    match p
    case Free => true
    case BaseProbe(b, start) => Trace(h, b) == [Began(start)]
    case BasePassed(b, start) => Trace(h, b) == [Began(start)] + [BaseGood]
    case Probing(b, start, roles, next, required) =>
      && next <= |roles| && (required ==> next < |roles|) && Covers(h, b, roles)
      && Trace(h, b) == UpToRoles(start, roles) + Probes(roles, next)
                        + (if required then [RequiredGood(roles[next])] else [])
    case Rebuilding(b, start, roles, next) =>
      && next <= |roles| && Covers(h, b, roles)
      && Trace(h, b) == UpToGate(start, roles) + Rebuilds(roles, next)
  }

  ghost predicate PassInv(h: seq<Action>, generation: nat, p: Pass) {
    p.Free? || (p.begun < |h| && Drift(h, p.begun, p.start, generation) && Progress(h, p))
  }

  /** Reconstructing is seen only while a pass that holds the run lock is rebuilding. */
  ghost predicate FenceInv(h: seq<Action>, fence: Fence, generation: nat, p: Pass) {
    match fence
    case Closed => true
    case Open => Certified(h, generation) && !p.Rebuilding?
    case Reconstructing => p.Rebuilding? && p.start == generation
  }

  ghost predicate RolesInv(h: seq<Action>, roles: seq<Role>) {
    forall i :: 0 <= i < |h| && h[i].Registered? ==> h[i].role in roles
  }

  /** The script of `call` ran between positions `from` and `to`. */
  ghost predicate Ran(h: seq<Action>, call: CallId, from: nat, to: nat) {
    exists i :: from < i < to && i < |h| && h[i] == ScriptRan(call)
  }

  /** At position `j` a local fsync of at least one was proved for `call`. */
  ghost predicate Proved(h: seq<Action>, call: CallId, j: int) {
    0 <= j < |h| && h[j].FsyncProved? && h[j].call == call && h[j].count >= 1
  }

  /** It ran, and a local fsync was proved after that. */
  ghost predicate Durable(h: seq<Action>, call: CallId, from: nat, to: nat) {
    exists j :: from < j < to && Proved(h, call, j) && Ran(h, call, from, j)
  }

  ghost predicate CallInv(h: seq<Action>, generation: nat, call: CallId, c: Call) {
    c.Succeeded? || c.Errored? ||
    (&& c.since < |h| && h[c.since] == Admitted(call, c.generation)
     && Certified(h[..c.since], c.generation)
     && Drift(h, c.since, c.generation, generation)
     && (c.Proving? ==> Ran(h, call, c.since, |h|))
     && (c.Acknowledging? ==> Durable(h, call, c.since, |h|)))
  }

  /** Why position `k` may acknowledge: admitted at `since`, durable, and the fence still certified. */
  ghost predicate AckedSince(h: seq<Action>, k: nat, since: nat)
    requires k < |h| && h[k].Acknowledged?
  {
    && since < k && h[since].Admitted? && h[since].call == h[k].call
    && Certified(h[..since], h[since].generation)
    && Durable(h, h[k].call, since, k)
    && Failures(h[..k], since) % WRAP == 0
    && Certified(h[..k], h[since].generation)
  }

  ghost predicate Justified(h: seq<Action>, k: nat)
    requires k < |h| && h[k].Acknowledged?
  {
    exists since: nat :: AckedSince(h, k, since)
  }

  ghost predicate CallsInv(h: seq<Action>, generation: nat, calls: map<CallId, Call>) {
    forall call :: call in calls ==> CallInv(h, generation, call, calls[call])
  }

  ghost predicate AcksInv(h: seq<Action>) {
    forall k :: 0 <= k < |h| && h[k].Acknowledged? ==> Justified(h, k)
  }

  ghost predicate Inv(s: State) {
    && s.generation < WRAP
    && PassInv(s.history, s.generation, s.pass)
    && FenceInv(s.history, s.fence, s.generation, s.pass)
    && RolesInv(s.history, s.roles)
    && CallsInv(s.history, s.generation, s.calls)
    && AcksInv(s.history)
  }

  // ------------------------------------------------------------ appending keeps each part

  lemma DriftLater(h: seq<Action>, from: nat, start: nat, generation: nat, a: Action)
    requires from <= |h| && Drift(h, from, start, generation)
    ensures Drift(h + [a], from, start, if a.Failure? then (generation + 1) % WRAP else generation)
  {
    Appended(h, a, from);
    var f := start + Failures(h, from);
    assert (f + 1) % WRAP == (f % WRAP + 1) % WRAP;
  }

  lemma RanLater(h: seq<Action>, call: CallId, from: nat, to: nat, a: Action, later: nat)
    requires Ran(h, call, from, to) && to <= later
    ensures Ran(h + [a], call, from, later)
  {
    var i :| from < i < to && i < |h| && h[i] == ScriptRan(call);
    assert (h + [a])[i] == ScriptRan(call);
  }

  lemma DurableLater(h: seq<Action>, call: CallId, from: nat, to: nat, a: Action, later: nat)
    requires Durable(h, call, from, to) && to <= later
    ensures Durable(h + [a], call, from, later)
  {
    var j :| from < j < to && Proved(h, call, j) && Ran(h, call, from, j);
    RanLater(h, call, from, j, a, j);
    assert (h + [a])[j] == h[j];
  }

  lemma CallLater(h: seq<Action>, generation: nat, call: CallId, c: Call, a: Action)
    requires CallInv(h, generation, call, c)
    ensures CallInv(h + [a], if a.Failure? then (generation + 1) % WRAP else generation, call, c)
  {
    if !(c.Succeeded? || c.Errored?) {
      assert (h + [a])[..c.since] == h[..c.since];
      DriftLater(h, c.since, c.generation, generation, a);
      if c.Proving? { RanLater(h, call, c.since, |h|, a, |h| + 1); }
      if c.Acknowledging? { DurableLater(h, call, c.since, |h|, a, |h| + 1); }
    }
  }

  lemma CallsLater(h: seq<Action>, generation: nat, calls: map<CallId, Call>, a: Action)
    requires CallsInv(h, generation, calls)
    ensures CallsInv(h + [a], if a.Failure? then (generation + 1) % WRAP else generation, calls)
  {
    forall call | call in calls
      ensures CallInv(h + [a], if a.Failure? then (generation + 1) % WRAP else generation, call, calls[call])
    {
      CallLater(h, generation, call, calls[call], a);
    }
  }

  lemma JustifiedLater(h: seq<Action>, k: nat, a: Action)
    requires k < |h| && h[k].Acknowledged? && Justified(h, k)
    ensures Justified(h + [a], k)
  {
    var since: nat :| AckedSince(h, k, since);
    assert (h + [a])[..k] == h[..k] && (h + [a])[..since] == h[..since];
    DurableLater(h, h[k].call, since, k, a, k);
    assert AckedSince(h + [a], k, since);
  }

  lemma AcksLater(h: seq<Action>, a: Action)
    requires AcksInv(h) && (a.Acknowledged? ==> Justified(h + [a], |h|))
    ensures AcksInv(h + [a])
  {
    forall k | 0 <= k < |h + [a]| && (h + [a])[k].Acknowledged?
      ensures Justified(h + [a], k)
    {
      if k < |h| { JustifiedLater(h, k, a); }
    }
  }

  lemma PassLater(h: seq<Action>, generation: nat, p: Pass, a: Action)
    requires PassInv(h, generation, p) && !IsPassAction(a)
    ensures PassInv(h + [a], if a.Failure? then (generation + 1) % WRAP else generation, p)
  {
    if !p.Free? {
      DriftLater(h, p.begun, p.start, generation, a);
      Appended(h, a, p.begun);
    }
  }

  // ------------------------------------------------------------ every step keeps the invariant

  lemma FailureKeeps(s: State)
    requires Inv(s)
    ensures Inv(CloseWithFailure(s))
  {
    PassLater(s.history, s.generation, s.pass, Failure);
    CallsLater(s.history, s.generation, s.calls, Failure);
    AcksLater(s.history, Failure);
  }

  /** A step of the pass that appends its own action and leaves the fence as it is. */
  lemma PassActionKeeps(s: State, p: Pass, a: Action)
    requires Inv(s) && IsPassAction(a) && !p.Free? && p.begun <= |s.history|
    requires p.begun < |s.history| ==> Drift(s.history, p.begun, p.start, s.generation)
    requires p.begun == |s.history| ==> p.start == s.generation
    requires Progress(s.history + [a], p)
    requires FenceInv(s.history, s.fence, s.generation, p)
    ensures Inv(Record(s.(pass := p), a))
  {
    var h := s.history;
    if p.begun < |h| {
      DriftLater(h, p.begun, p.start, s.generation, a);
    } else {
      Appended(h, a, p.begun);
    }
    CallsLater(h, s.generation, s.calls, a);
    AcksLater(h, a);
    if s.fence == Open { CertifiedLater(h, s.generation, a); }
  }

  lemma BeginKeeps(s: State, good: bool)
    requires Inv(s) && s.pass.Free?
    ensures Inv(PassNext(s, good))
  {
    var b := |s.history|;
    Appended(s.history, Began(s.generation), b);
    assert Trace(s.history, b) == [];
    PassActionKeeps(s, BaseProbe(b, s.generation), Began(s.generation));
  }

  lemma BaseKeeps(s: State)
    requires Inv(s) && (s.pass.BaseProbe? || s.pass.BasePassed?)
    ensures Inv(PassNext(s, true))
  {
    var p := PassNext(s, true).pass;
    var a := if s.pass.BaseProbe? then BaseGood else RolesTaken(s.roles);
    Appended(s.history, a, p.begun);
    PassActionKeeps(s, p, a);
  }

  lemma ProbeKeeps(s: State)
    requires Inv(s) && s.pass.Probing? && s.pass.next < |s.pass.roles|
    ensures Inv(PassNext(s, true))
  {
    var p := PassNext(s, true).pass;
    var role := s.pass.roles[s.pass.next];
    var a := if s.pass.required then DenialsGood(role) else RequiredGood(role);
    Appended(s.history, a, p.begun);
    PassActionKeeps(s, p, a);
  }

  lemma RebuildKeeps(s: State)
    requires Inv(s) && s.pass.Rebuilding? && s.pass.next < |s.pass.roles|
    ensures Inv(PassNext(s, true))
  {
    var p := PassNext(s, true).pass;
    var a := Rebuilt(s.pass.roles[s.pass.next]);
    Appended(s.history, a, p.begun);
    PassActionKeeps(s, p, a);
  }

  /** Nothing but a rebuilding pass can be reconstructing, so the gate meets Open or Closed. */
  lemma GateKeeps(s: State)
    requires Inv(s) && s.pass.Probing? && s.pass.next == |s.pass.roles|
    ensures Inv(GateStep(s)) && s.fence != Reconstructing
  {
    if s.generation == s.pass.start && s.fence == Closed {
      var t := GateStep(s);
      Appended(s.history, Gated, s.pass.begun);
      DriftLater(s.history, s.pass.begun, s.pass.start, s.generation, Gated);
      CallsLater(s.history, s.generation, s.calls, Gated);
      AcksLater(s.history, Gated);
      assert Progress(t.history, t.pass);
    }
  }

  lemma NoDrift(h: seq<Action>, from: nat, start: nat)
    requires Drift(h, from, start, start)
    ensures Failures(h, from) % WRAP == 0
  {
    var f := Failures(h, from);
    var q := (start + f) / WRAP;
    assert f == q * WRAP;
    ModuloOfSum(q, 0);
  }

  lemma OpenKeeps(s: State)
    requires Inv(s) && s.pass.Rebuilding? && s.pass.next == |s.pass.roles|
    ensures Inv(OpenStep(s))
  {
    if s.generation == s.pass.start && s.fence == Reconstructing {
      var h, b, roles := s.history, s.pass.begun, s.pass.roles;
      var t := OpenStep(s);
      Appended(h, Opened, b);
      NoDrift(h, b, s.pass.start);
      CallsLater(h, s.generation, s.calls, Opened);
      AcksLater(h, Opened);
      assert t.history[..|t.history|] == t.history;
      assert CertifiedAt(t.history, t.generation, b, |t.history|, roles);
    }
  }

  lemma PassKeeps(s: State, good: bool)
    requires Inv(s)
    ensures Inv(PassNext(s, good))
  {
    match s.pass {
      case Free => BeginKeeps(s, good);
      case BaseProbe(_, _) => if good { BaseKeeps(s); } else { FailureKeeps(s); }
      case BasePassed(_, _) => BaseKeeps(s);
      case Probing(_, _, roles, next, _) =>
        if next >= |roles| { GateKeeps(s); } else if good { ProbeKeeps(s); } else { FailureKeeps(s); }
      case Rebuilding(_, _, roles, next) =>
        if next >= |roles| { OpenKeeps(s); } else if good { RebuildKeeps(s); } else { FailureKeeps(s); }
    }
  }

  /** Appending an action of a client or a registration. */
  lemma OtherActionKeeps(s: State, a: Action)
    requires Inv(s) && !IsPassAction(a) && !a.Failure?
    requires a.Acknowledged? ==> Justified(s.history + [a], |s.history|)
    requires a.Registered? ==> a.role in s.roles
    ensures Inv(Record(s, a))
  {
    PassLater(s.history, s.generation, s.pass, a);
    CallsLater(s.history, s.generation, s.calls, a);
    AcksLater(s.history, a);
    if s.fence == Open { CertifiedLater(s.history, s.generation, a); }
  }

  lemma AdmitKeeps(s: State, call: CallId)
    requires Inv(s)
    ensures Inv(AdmitStep(s, call))
  {
    if call !in s.calls && s.fence == Open {
      var a := Admitted(call, s.generation);
      OtherActionKeeps(s, a);
      Appended(s.history, a, |s.history|);
      assert (s.history + [a])[..|s.history|] == s.history;
      assert CallInv(s.history + [a], s.generation, call, Applying(s.generation, |s.history|, false));
    }
  }

  lemma CallStepKeeps(s: State, call: CallId, c: Call, a: Action)
    requires Inv(s) && (a.ScriptRan? || a.FsyncProved?)
    requires CallInv(s.history + [a], s.generation, call, c)
    ensures Inv(Record(SetCall(s, call, c), a))
  {
    OtherActionKeeps(s, a);
  }

  lemma ApplyKeeps(s: State, call: CallId, reply: Reply)
    requires Inv(s) && call in s.calls && s.calls[call].Applying? && (reply.Replied? || reply.Lost?)
    ensures Inv(ClientStep(s, call, reply))
  {
    var c, a := s.calls[call], ScriptRan(call);
    CallLater(s.history, s.generation, call, c, a);
    assert (s.history + [a])[|s.history|] == a;
    if reply.Replied? {
      CallStepKeeps(s, call, Proving(c.generation, c.since), a);
    } else {
      var t := if reply.ran then Record(s, a) else s;
      if reply.ran { OtherActionKeeps(s, a); }
      if c.retry { FailureKeeps(t); }
    }
  }

  lemma ProveKeeps(s: State, call: CallId, count: nat)
    requires Inv(s) && call in s.calls && s.calls[call].Proving? && count >= 1
    ensures Inv(ClientStep(s, call, Proof(count)))
  {
    var c, a := s.calls[call], FsyncProved(call, count);
    var h := s.history + [a];
    CallLater(s.history, s.generation, call, c, a);
    RanLater(s.history, call, c.since, |s.history|, a, |s.history|);
    assert h[|s.history|] == a;
    CallStepKeeps(s, call, Acknowledging(c.generation, c.since), a);
  }

  lemma AcknowledgeKeeps(s: State, call: CallId)
    requires Inv(s)
    ensures Inv(AcknowledgeStep(s, call))
  {
    if call in s.calls && s.calls[call].Acknowledging? && s.fence == Open && s.generation == s.calls[call].generation {
      var c := s.calls[call];
      var h, a := s.history, Acknowledged(call);
      NoDrift(h, c.since, c.generation);
      DurableLater(h, call, c.since, |h|, a, |h|);
      assert (h + [a])[..|h|] == h && (h + [a])[..c.since] == h[..c.since];
      assert AckedSince(h + [a], |h|, c.since);
      OtherActionKeeps(s, a);
    }
  }

  lemma ClientKeeps(s: State, call: CallId, reply: Reply)
    requires Inv(s)
    ensures Inv(ClientStep(s, call, reply))
  {
    FailureKeeps(s);
    hide PassInv, FenceInv, RolesInv, AcksInv;
    if call in s.calls {
      match s.calls[call] {
        case Applying(_, _, _) => if reply.Replied? || reply.Lost? { ApplyKeeps(s, call, reply); }
        case Proving(_, _) => if reply.Proof? && reply.count >= 1 { ProveKeeps(s, call, reply.count); }
        case Resolving(_, _) =>
        case _ =>
      }
    }
  }

  lemma StepKeepsInv(s: State, e: Event)
    requires Inv(s)
    ensures Inv(Step(s, e))
  {
    match e {
      case PassStep(good) => PassKeeps(s, good);
      case Report => FailureKeeps(s);
      case Register(role) =>
        if role !in s.roles { OtherActionKeeps(s.(roles := s.roles + [role]), Registered(role)); }
      case Admit(call) => AdmitKeeps(s, call);
      case Client(call, reply) => ClientKeeps(s, call, reply);
      case Acknowledge(call) => AcknowledgeKeeps(s, call);
    }
  }

  lemma {:induction false} RunKeepsInv(s: State, events: seq<Event>)
    requires Inv(s)
    ensures Inv(Run(s, events))
    decreases |events|
  {
    if events != [] {
      StepKeepsInv(s, events[0]);
      RunKeepsInv(Step(s, events[0]), events[1..]);
    }
  }

  // ------------------------------------------------------------ over every run

  ghost predicate Quiet(h: seq<Action>, from: nat) { forall i :: from <= i < |h| ==> !h[i].Failure? }

  ghost predicate QuietlyCertifiedAt(h: seq<Action>, generation: nat, b: nat, e: nat, roles: seq<Role>) {
    Certificate(h, b, e, generation, roles) && Quiet(h, b)
  }

  /** A complete pass begun at this generation, and no failure recorded since it began. */
  ghost predicate QuietlyCertified(h: seq<Action>, generation: nat) {
    exists b: nat, e: nat, roles: seq<Role> :: QuietlyCertifiedAt(h, generation, b, e, roles)
  }

  ghost predicate Sound(s: State) { s.fence == Open ==> QuietlyCertified(s.history, s.generation) }

  lemma FewFailuresMeanNone(h: seq<Action>, from: nat)
    requires Failures(h, 0) < WRAP && Failures(h, from) % WRAP == 0
    ensures Quiet(h, from)
  {
    FewerLater(h, from);
  }

  lemma FewFailuresCertify(h: seq<Action>, generation: nat)
    requires Failures(h, 0) < WRAP && Certified(h, generation)
    ensures QuietlyCertified(h, generation)
  {
    var b: nat, e: nat, roles: seq<Role> :| CertifiedAt(h, generation, b, e, roles);
    FewFailuresMeanNone(h, b);
    assert QuietlyCertifiedAt(h, generation, b, e, roles);
  }

  /** In every reachable state: reconstructing only under the run lock, and open only when certified. */
  lemma FenceIsSound(events: seq<Event>)
    ensures var s := Run(INITIAL, events);
            && (s.fence == Reconstructing ==> s.pass.Rebuilding? && s.pass.start == s.generation)
            && (s.pass.Probing? && s.pass.next == |s.pass.roles| ==> s.fence != Reconstructing)
            && (s.fence == Open ==> Certified(s.history, s.generation))
            && (Failures(s.history, 0) < WRAP ==> Sound(s))
  {
    RunKeepsInv(INITIAL, events);
    var s := Run(INITIAL, events);
    if s.fence == Open && Failures(s.history, 0) < WRAP {
      FewFailuresCertify(s.history, s.generation);
    }
  }

  lemma {:induction false} RunAppend(s: State, first: seq<Event>, rest: seq<Event>)
    ensures Run(s, first + rest) == Run(Run(s, first), rest)
    decreases |first|
  {
    if first == [] {
      assert first + rest == rest;
    } else {
      assert (first + rest)[1..] == first[1..] + rest;
      RunAppend(Step(s, first[0]), first[1..], rest);
    }
  }

  lemma {:induction false} ManyReports(s: State, k: nat)
    requires s.generation < WRAP
    ensures Run(s, seq(k, _ => Report)) ==
              State(if k == 0 then s.fence else Closed, (s.generation + k) % WRAP, s.roles, s.pass, s.calls,
                    s.history + seq(k, _ => Failure))
    decreases k
  {
    if k == 0 {
      assert s.history + seq(k, _ => Failure) == s.history;
    } else {
      var reports := seq(k, _ => Report);
      var t := CloseWithFailure(s);
      assert reports[1..] == seq(k - 1, _ => Report);
      ManyReports(t, k - 1);
      assert [Failure] + seq(k - 1, _ => Failure) == seq(k, _ => Failure);
      assert t.history + seq(k - 1, _ => Failure) == s.history + seq(k, _ => Failure);
      AddWrapped(s.generation + 1, k - 1);
    }
  }

  lemma AddWrapped(a: nat, b: nat)
    ensures (a % WRAP + b) % WRAP == (a + b) % WRAP
  {
    var q, r := a / WRAP, a % WRAP;
    assert a + b == q * WRAP + (r + b);
    ModuloOfSum(q, r + b);
  }

  lemma {:induction false} ModuloOfSum(q: nat, x: nat)
    ensures (q * WRAP + x) % WRAP == x % WRAP
  {
    if q > 0 {
      ModuloOfSum(q - 1, x);
      assert q * WRAP + x == ((q - 1) * WRAP + x) + WRAP;
    }
  }

  lemma {:induction false} AllFailures(h: seq<Action>, k: nat)
    requires Quiet(h, 0)
    ensures Failures(h + seq(k, _ => Failure), 0) == k
    decreases k
  {
    if k == 0 {
      assert h + seq(k, _ => Failure) == h;
      FewerLater(h, 0);
    } else {
      AllFailures(h, k - 1);
      assert seq(k, _ => Failure) == seq(k - 1, _ => Failure) + [Failure];
      assert h + seq(k, _ => Failure) == (h + seq(k - 1, _ => Failure)) + [Failure];
      Appended(h + seq(k - 1, _ => Failure), Failure, 0);
    }
  }

  /** After the base probe of a first pass without roles. */
  ghost const PROBED := State(Closed, 0, [], Probing(0, 0, [], 0, false), map[], [Began(0), BaseGood, RolesTaken([])])

  lemma FirstPassProbes()
    ensures Run(INITIAL, [PassStep(true), PassStep(true), PassStep(true)]) == PROBED
  {
    var front := [PassStep(true), PassStep(true), PassStep(true)];
    assert front[1..] == [PassStep(true), PassStep(true)] && front[1..][1..] == [PassStep(true)];
  }

  lemma FirstPassOpens(s: State)
    requires s.fence == Closed && s.generation == 0 && s.pass == Probing(0, 0, [], 0, false)
    ensures var t := Run(s, [PassStep(true), PassStep(true)]);
            t.fence == Open && t.history == s.history + [Gated, Opened]
  {
    var back := [PassStep(true), PassStep(true)];
    assert back[1..] == [PassStep(true)];
    assert Step(s, PassStep(true)) == GateStep(s);
    assert Step(GateStep(s), PassStep(true)) == OpenStep(GateStep(s));
  }

  /** A history whose only pass began at the start and saw a failure certifies nothing quietly. */
  lemma NoQuietCertificate(h: seq<Action>, generation: nat, k: nat)
    requires 0 < k < |h| && h[k].Failure? && forall i :: 0 < i < |h| ==> !h[i].Began?
    ensures !QuietlyCertified(h, generation)
  {
    forall b: nat, e: nat, roles: seq<Role> | Certificate(h, b, e, generation, roles)
      ensures !Quiet(h, b)
    {
      BeganInside(h, b, e, generation, roles);
    }
  }

  /** 2^64 failures during the probes bring the generation back, and the pass opens the fence. */
  lemma WrappedFence() returns (events: seq<Event>)
    ensures var s := Run(INITIAL, events);
            Failures(s.history, 0) == WRAP && s.fence == Open && !QuietlyCertified(s.history, s.generation)
  {
    hide Run, Step, Failures, QuietlyCertified;
    var front := [PassStep(true), PassStep(true), PassStep(true)];
    var reports := seq(WRAP, _ => Report);
    var back := [PassStep(true), PassStep(true)];
    events := front + (reports + back);
    FirstPassProbes();
    ManyReports(PROBED, WRAP);
    var s := Run(PROBED, reports);
    AllFailures(PROBED.history, WRAP);
    FirstPassOpens(s);
    RunAppend(INITIAL, front, reports + back);
    RunAppend(PROBED, reports, back);
    var h := s.history + [Gated, Opened];
    Appended(s.history, Gated, 0);
    Appended(s.history + [Gated], Opened, 0);
    assert s.history + [Gated] + [Opened] == h;
    assert h[3] == Failure;
    NoQuietCertificate(h, Run(INITIAL, events).generation, 3);
  }

  lemma BeganInside(h: seq<Action>, b: nat, e: nat, start: nat, roles: seq<Role>)
    requires Certificate(h, b, e, start, roles)
    ensures exists i :: b <= i < |h| && h[i].Began?
  {
    TraceStartsInside(h[..e], b);
    assert FullPass(start, roles)[0] == Began(start);
    assert Began(start) in Trace(h[..e], b);
    var i :| b <= i < e && h[..e][i] == Began(start);
    assert h[i].Began?;
  }

  /** Every pass action in a trace is somewhere in the history it was read from. */
  lemma {:induction false} TraceStartsInside(h: seq<Action>, from: nat)
    ensures forall a :: a in Trace(h, from) ==> exists i :: from <= i < |h| && h[i] == a
    decreases |h|
  {
    if |h| > from {
      TraceStartsInside(h[..|h| - 1], from);
      forall a | a in Trace(h, from)
        ensures exists i :: from <= i < |h| && h[i] == a
      {
        if a in Trace(h[..|h| - 1], from) {
          var i :| from <= i < |h| - 1 && h[..|h| - 1][i] == a;
          assert h[i] == a;
        } else {
          assert h[|h| - 1] == a;
        }
      }
    }
  }

  /** The fence may be trusted through `n` failures exactly when `n` stays below 2^64. */
  lemma FenceSoundIffBelowWrap(n: nat)
    ensures (forall events: seq<Event> ::
               Failures(Run(INITIAL, events).history, 0) <= n ==> Sound(Run(INITIAL, events)))
            <==> n < WRAP
  {
    if n < WRAP {
      forall events: seq<Event> | Failures(Run(INITIAL, events).history, 0) <= n
        ensures Sound(Run(INITIAL, events))
      {
        FenceIsSound(events);
      }
    } else {
      var events := WrappedFence();
      assert !Sound(Run(INITIAL, events));
    }
  }

  /**
   A commit that returned Ok was admitted after a complete pass at its generation, with no failure
   from the start of that pass; its script ran, then a local fsync was proved, and no failure was
   recorded up to the acknowledgement, where the fence was still certified.
   */
  lemma AcknowledgedCommitIsDurable(events: seq<Event>, k: nat)
    requires var h := Run(INITIAL, events).history; k < |h| && h[k].Acknowledged? && Failures(h, 0) < WRAP
    ensures var h := Run(INITIAL, events).history;
            exists since: nat ::
              && since < k && h[since].Admitted? && h[since].call == h[k].call
              && QuietlyCertified(h[..since], h[since].generation)
              && Durable(h, h[k].call, since, k)
              && Quiet(h[..k], since)
              && QuietlyCertified(h[..k], h[since].generation)
  {
    RunKeepsInv(INITIAL, events);
    var h := Run(INITIAL, events).history;
    assert Justified(h, k);
    var since: nat :| AckedSince(h, k, since);
    Earlier(h, k, 0);
    Earlier(h, since, 0);
    FewFailuresMeanNone(h[..k], since);
    FewFailuresCertify(h[..since], h[since].generation);
    FewFailuresCertify(h[..k], h[since].generation);
  }

  // ------------------------------------------------------------ progress

  function Good(k: nat): seq<Event> { seq(k, _ => PassStep(true)) }

  lemma {:induction false} ProbesFinish(s: State, k: nat)
    requires s.pass.Probing? && s.pass.next <= |s.pass.roles| && (s.pass.required ==> s.pass.next < |s.pass.roles|)
    requires k == 2 * (|s.pass.roles| - s.pass.next) - (if s.pass.required then 1 else 0)
    ensures var t := Run(s, Good(k));
            && t.fence == s.fence && t.generation == s.generation
            && t.pass == s.pass.(next := |s.pass.roles|, required := false)
    decreases k
  {
    if k > 0 {
      assert Good(k)[1..] == Good(k - 1);
      ProbesFinish(Step(s, PassStep(true)), k - 1);
    }
  }

  lemma {:induction false} RebuildsFinish(s: State, k: nat)
    requires s.pass.Rebuilding? && s.pass.next <= |s.pass.roles| && k == |s.pass.roles| - s.pass.next
    ensures var t := Run(s, Good(k));
            t.fence == s.fence && t.generation == s.generation && t.pass == s.pass.(next := |s.pass.roles|)
    decreases k
  {
    if k > 0 {
      assert Good(k)[1..] == Good(k - 1);
      RebuildsFinish(Step(s, PassStep(true)), k - 1);
    }
  }

  lemma GoodAppend(s: State, i: nat, j: nat)
    ensures Run(s, Good(i + j)) == Run(Run(s, Good(i)), Good(j))
  {
    assert Good(i + j) == Good(i) + Good(j);
    RunAppend(s, Good(i), Good(j));
  }

  lemma GoodOne(s: State)
    ensures Run(s, Good(1)) == Step(s, PassStep(true))
  {
    assert Good(1)[1..] == [];
  }

  /** A pass whose probes and reconstructions all succeed undisturbed opens a closed fence at its generation. */
  lemma UndisturbedPassOpens(s: State)
    requires s.pass.Free? && s.fence == Closed
    ensures var t := Run(s, Good(3 * |s.roles| + 5));
            t.fence == Open && t.generation == s.generation && t.pass.Free?
  {
    hide Run, Good;
    var n := |s.roles|;
    var s1 := Step(s, PassStep(true));
    var s2 := Step(s1, PassStep(true));
    var s3 := Step(s2, PassStep(true));
    GoodAppend(s, 1, 3 * n + 4); GoodOne(s);
    GoodAppend(s1, 1, 3 * n + 3); GoodOne(s1);
    GoodAppend(s2, 1, 3 * n + 2); GoodOne(s2);
    ProbesFinish(s3, 2 * n);
    var s4 := Run(s3, Good(2 * n));
    GoodAppend(s3, 2 * n, n + 2);
    var s5 := Step(s4, PassStep(true));
    GoodAppend(s4, 1, n + 1); GoodOne(s4);
    RebuildsFinish(s5, n);
    var s6 := Run(s5, Good(n));
    GoodAppend(s5, n, 1); GoodOne(s6);
  }

  /** While the fence is open an undisturbed pass changes nothing about it, and a bad answer closes it. */
  lemma PassAnswers(s: State, good: bool)
    requires Inv(s) && !s.pass.Free?
    ensures var t := PassNext(s, good);
            var asks := s.pass.BaseProbe? || ((s.pass.Probing? || s.pass.Rebuilding?) && s.pass.next < |s.pass.roles|);
            && (asks && !good ==> t.fence == Closed && t.generation == (s.generation + 1) % WRAP && t.pass.Free?)
            && (asks && good ==> t.fence == s.fence && t.generation == s.generation && !t.pass.Free?)
            && (s.fence == Open && !(asks && !good) ==> t.fence == Open && t.generation == s.generation)
  {
    hide Certified, CallsInv, AcksInv, Progress;
  }

  /** Own steps after which a pass that has its roles is over at the latest. */
  ghost function Left(p: Pass): int
    requires p.Probing? || p.Rebuilding?
  {
    match p
    case Probing(_, _, roles, next, required) => 2 * (|roles| - next) + |roles| + 2 - (if required then 1 else 0)
    case Rebuilding(_, _, roles, next) => |roles| - next + 1
  }

  function PassSteps(events: seq<Event>): nat {
    if events == [] then 0 else (if events[0].PassStep? then 1 else 0) + PassSteps(events[1..])
  }

  ghost predicate FreeWithin(s: State, events: seq<Event>) {
    exists i :: 0 <= i <= |events| && Run(s, events[..i]).pass.Free?
  }

  predicate HasRoles(p: Pass) {
    && (p.Probing? || p.Rebuilding?) && p.next <= |p.roles|
    && (p.Probing? && p.required ==> p.next < |p.roles|)
  }

  /** A pass moves only by its own steps, and every one of them is a step towards its end. */
  lemma PassAdvances(s: State, e: Event)
    requires HasRoles(s.pass)
    ensures var p := Step(s, e).pass;
            if e.PassStep? then p.Free? || (HasRoles(p) && Left(p) < Left(s.pass)) else p == s.pass
  {
    match e {
      case PassStep(good) => hide ClientStep, AdmitStep, AcknowledgeStep;
      case Client(_, _) => hide PassNext;
      case _ => hide PassNext, ClientStep;
    }
  }

  /** Every pass comes to its end, whatever it is answered and whatever reporters and commits do meanwhile. */
  lemma {:induction false} PassEnds(s: State, events: seq<Event>)
    requires HasRoles(s.pass) && PassSteps(events) >= Left(s.pass)
    ensures FreeWithin(s, events)
    decreases |events|
  {
    hide Step;
    PassAdvances(s, events[0]);
    var next, rest := Step(s, events[0]), events[1..];
    if next.pass.Free? {
      assert Run(s, events[..1]) == next;
    } else {
      PassEnds(next, rest);
      var i :| 0 <= i <= |rest| && Run(next, rest[..i]).pass.Free?;
      assert events[..i + 1][1..] == rest[..i];
      assert Run(s, events[..i + 1]).pass.Free?;
    }
  }

  // ------------------------------------------------------------ exactly when a commit succeeds

  /** The answers of Redis to one commit, in order. */
  function Clients(call: CallId, replies: seq<Reply>): seq<Event> {
    if replies == [] then [] else [Client(call, replies[0])] + Clients(call, replies[1..])
  }

  /** The script ran, and then at least one local fsync was proved. */
  predicate Durably(replies: seq<Reply>) {
    |replies| >= 2 && replies[0].Replied? && replies[1].Proof? && replies[1].count >= 1
  }

  /** At once, or after one lost reply and a recovery read without conflict. */
  predicate Succeeds(replies: seq<Reply>) {
    || Durably(replies)
    || (|replies| >= 2 && replies[0].Lost? && replies[1] == Known(false) && Durably(replies[2..]))
  }

  /** A first part of such a list: the commit is still waiting for an answer. */
  predicate Waits(replies: seq<Reply>) {
    || replies == [] || replies == [Replied]
    || (&& replies[0].Lost?
        && (|replies| == 1 || replies[1..] == [Known(false)] || replies[1..] == [Known(false), Replied]))
  }

  /** Nothing more is expected of a commit that waits for its acknowledgement or is over. */
  lemma {:induction false} NoMoreAnswers(s: State, call: CallId, replies: seq<Reply>)
    requires call in s.calls && (s.calls[call].Acknowledging? || s.calls[call].Succeeded? || s.calls[call].Errored?)
    ensures Run(s, Clients(call, replies)) == s
    decreases |replies|
  {
    if replies != [] {
      assert Clients(call, replies)[1..] == Clients(call, replies[1..]);
      NoMoreAnswers(s, call, replies[1..]);
    }
  }

  lemma FirstAnswer(s: State, call: CallId, replies: seq<Reply>)
    requires replies != []
    ensures Run(s, Clients(call, replies)) == Run(ClientStep(s, call, replies[0]), Clients(call, replies[1..]))
  {
    assert Clients(call, replies)[1..] == Clients(call, replies[1..]);
  }

  /** What one commit leaves of the fence. */
  ghost predicate Untouched(s: State, t: State) { t.fence == s.fence && t.generation == s.generation }

  ghost predicate ClosedBy(s: State, t: State) { t.fence == Closed && t.generation == (s.generation + 1) % WRAP }

  /** From a script attempt on, without a further retry. */
  lemma RetryAnswers(s: State, call: CallId, replies: seq<Reply>)
    requires call in s.calls && s.calls[call].Applying? && s.calls[call].retry && s.fence == Open
    ensures var t := Run(s, Clients(call, replies));
            && call in t.calls
            && (Durably(replies) ==>
                  t.calls[call] == Acknowledging(s.calls[call].generation, s.calls[call].since) && Untouched(s, t))
            && (!Durably(replies) && replies != [] && replies != [Replied] ==> t.calls[call].Errored? && ClosedBy(s, t))
            && (replies == [] || replies == [Replied] ==>
                  (t.calls[call].Applying? || t.calls[call].Proving?) && Untouched(s, t))
  {
    if replies != [] {
      FirstAnswer(s, call, replies);
      var s1 := ClientStep(s, call, replies[0]);
      if !replies[0].Replied? {
        NoMoreAnswers(s1, call, replies[1..]);
      } else if |replies| > 1 {
        FirstAnswer(s1, call, replies[1..]);
        NoMoreAnswers(ClientStep(s1, call, replies[1]), call, replies[1..][1..]);
      } else {
        assert replies[1..] == [];
      }
    }
  }

  lemma NoAnswers(s: State, call: CallId)
    ensures Run(s, Clients(call, [])) == s
  {
  }

  lemma FirstAttemptAnswers(s: State, call: CallId, replies: seq<Reply>)
    requires call in s.calls && s.calls[call].Applying? && !s.calls[call].retry && s.fence == Open
    ensures var t := Run(s, Clients(call, replies));
            && call in t.calls
            && (Succeeds(replies) ==>
                  t.calls[call] == Acknowledging(s.calls[call].generation, s.calls[call].since) && Untouched(s, t))
            && (!Succeeds(replies) && !Waits(replies) ==> t.calls[call].Errored? && ClosedBy(s, t))
            && (Waits(replies) ==>
                  (t.calls[call].Applying? || t.calls[call].Proving? || t.calls[call].Resolving?) && Untouched(s, t))
  {
    hide Run, Clients, PassNext, AdmitStep, AcknowledgeStep;
    if replies == [] {
      assert Run(s, Clients(call, replies)) == s by { NoAnswers(s, call); }
    } else {
      FirstAnswer(s, call, replies);
      var s1, rest := ClientStep(s, call, replies[0]), replies[1..];
      if replies[0].Lost? {
        if rest == [] {
          NoAnswers(s1, call);
        } else {
          FirstAnswer(s1, call, rest);
          var s2 := ClientStep(s1, call, rest[0]);
          assert replies[2..] == rest[1..];
          if rest[0] == Known(false) {
            RetryAnswers(s2, call, rest[1..]);
            assert rest == [rest[0]] + rest[1..];
          } else {
            NoMoreAnswers(s2, call, rest[1..]);
          }
        }
      } else if replies[0].Replied? {
        if rest != [] {
          FirstAnswer(s1, call, rest);
          NoMoreAnswers(ClientStep(s1, call, rest[0]), call, rest[1..]);
        } else {
          NoAnswers(s1, call);
          assert replies == [replies[0]];
        }
      } else {
        NoMoreAnswers(s1, call, rest);
      }
    }
  }

  /** One commit that nothing else disturbs, up to its acknowledgement. */
  function CommitEvents(call: CallId, replies: seq<Reply>): seq<Event> {
    [Admit(call)] + Clients(call, replies) + [Acknowledge(call)]
  }

  /**
   From an open fence, undisturbed, a commit succeeds exactly when Redis answers with a reply and a
   fsync, at once or after one lost reply and a recovery read without conflict. Every other answer
   fails the commit and closes the fence.
   */
  lemma CommitSucceedsIff(s: State, call: CallId, replies: seq<Reply>)
    requires s.fence == Open && call !in s.calls
    ensures var t := Run(s, CommitEvents(call, replies));
            && call in t.calls
            && (t.calls[call].Succeeded? <==> Succeeds(replies))
            && (Succeeds(replies) ==>
                  Untouched(s, t) && t.history != [] && t.history[|t.history| - 1] == Acknowledged(call))
            && (t.calls[call].Errored? <==> !Succeeds(replies) && !Waits(replies))
            && (t.calls[call].Errored? ==> ClosedBy(s, t))
  {
    var admit, last := [Admit(call)], [Acknowledge(call)];
    RunAppend(s, admit + Clients(call, replies), last);
    RunAppend(s, admit, Clients(call, replies));
    var s1 := Step(s, Admit(call));
    assert Run(s, admit) == s1 by { assert admit[1..] == []; }
    FirstAttemptAnswers(s1, call, replies);
    var s2 := Run(s1, Clients(call, replies));
    assert Run(s2, last) == Step(s2, Acknowledge(call)) by { assert last[1..] == []; }
    hide Run, Clients;
  }

  /** A closed or rebuilding fence admits nothing. */
  lemma AdmissionIffOpen(s: State, call: CallId)
    requires call !in s.calls
    ensures var t := Step(s, Admit(call));
            if s.fence == Open then
              && t.calls == s.calls[call := Applying(s.generation, |s.history|, false)] && Untouched(s, t)
              && t.history == s.history + [Admitted(call, s.generation)]
            else t == s
  {
  }

  /** A commit whose fence moved is refused at the acknowledgement, without closing anything. */
  lemma MovedFenceRefuses(s: State, call: CallId)
    requires call in s.calls && s.calls[call].Acknowledging?
    ensures var t := Step(s, Acknowledge(call));
            && call in t.calls && Untouched(s, t)
            && (t.calls[call].Errored? <==> s.fence != Open || s.generation != s.calls[call].generation)
            && (t.calls[call].Succeeded? <==> s.fence == Open && s.generation == s.calls[call].generation)
  {
  }
}
