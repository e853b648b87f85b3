/**
 The Redis capability generation fence and the durable commit that it guards.

 One recovery pass at a time holds the run lock; failure reporters, role registrations and any
 number of bus commits interleave with its steps. Every critical section under the state mutex,
 every probe, and every Redis round trip is one step. `history` records what happened.
 */
module CapabilityFence {
  import opened Basics

  type Role = nat
  type CallId = nat

  /** The generation is a wrapping 64-bit number. */
  const WRAP: nat := U64_LIMIT

  datatype Fence = Closed | Reconstructing | Open

  /** `BaseGood` is a base probe that answered with the admitted capability fingerprint. */
  datatype Action =
    | Began(generation: nat)
    | BaseGood
    | RolesTaken(roles: seq<Role>)
    | RequiredGood(role: Role)
    | DenialsGood(role: Role)
    | Gated
    | Rebuilt(role: Role)
    | Opened
    | Failure
    | Registered(role: Role)
    | Admitted(call: CallId, generation: nat)
    | ScriptRan(call: CallId)
    | FsyncProved(call: CallId, count: nat)
    | Acknowledged(call: CallId)

  predicate IsPassAction(a: Action) {
    a.Began? || a.BaseGood? || a.RolesTaken? || a.RequiredGood? || a.DenialsGood? || a.Gated? || a.Rebuilt? || a.Opened?
  }

  /** Where the pass that holds the run lock stands; `begun` is its first entry in the history. */
  datatype Pass =
    | Free
    | BaseProbe(begun: nat, start: nat)
    | BasePassed(begun: nat, start: nat)
    | Probing(begun: nat, start: nat, roles: seq<Role>, next: nat, required: bool)
    | Rebuilding(begun: nat, start: nat, roles: seq<Role>, next: nat)

  /** Where one bus commit stands; `since` is its admission in the history. */
  datatype Call =
    | Applying(generation: nat, since: nat, retry: bool)
    | Proving(generation: nat, since: nat)
    | Resolving(generation: nat, since: nat)
    | Acknowledging(generation: nat, since: nat)
    | Succeeded
    | Errored

  datatype State = State(
    fence: Fence,
    generation: nat,
    roles: seq<Role>,
    pass: Pass,
    calls: map<CallId, Call>,
    history: seq<Action>)

  datatype Reply =
    | Replied            // the script ran and its outcome arrived
    | Lost(ran: bool)    // timeout or transport error; the script may have run
    | Refused            // conflict, read-only, out of memory or rejected
    | Proof(count: nat)  // WAITAOF answered
    | Known(conflict: bool)

  datatype Event =
    | PassStep(good: bool)
    | Report
    | Register(role: Role)
    | Admit(call: CallId)
    | Client(call: CallId, reply: Reply)
    | Acknowledge(call: CallId)

  const INITIAL := State(Closed, 0, [], Free, map[], [])

  function Record(s: State, a: Action): State { s.(history := s.history + [a]) }

  /** Every recorded failure closes the fence and moves the wrapping generation. */
  function CloseWithFailure(s: State): State {
    Record(s.(generation := (s.generation + 1) % WRAP, fence := Closed), Failure)
  }

  /** After all probes: go on to reconstruction only from an unchanged, closed fence. */
  function GateStep(s: State): State
    requires s.pass.Probing?
  {
    if s.generation != s.pass.start then s.(pass := Free)
    else if s.fence == Open then s.(pass := Free)
    else if s.fence != Closed then s.(pass := Free)
    else Record(s.(fence := Reconstructing, pass := Rebuilding(s.pass.begun, s.pass.start, s.pass.roles, 0)), Gated)
  }

  /** After all reconstructions: open only an unchanged fence. */
  function OpenStep(s: State): State
    requires s.pass.Rebuilding?
  {
    if s.generation != s.pass.start || s.fence != Reconstructing then s.(pass := Free)
    else Record(s.(fence := Open, pass := Free), Opened)
  }

  /** The next step of the pass; `good` is what its probe or reconstruction answers. */
  function PassNext(s: State, good: bool): State {
    match s.pass
    case Free => Record(s.(pass := BaseProbe(|s.history|, s.generation)), Began(s.generation))
    case BaseProbe(begun, start) =>
      if !good then CloseWithFailure(s).(pass := Free)
      else Record(s.(pass := BasePassed(begun, start)), BaseGood)
    case BasePassed(begun, start) =>
      Record(s.(pass := Probing(begun, start, s.roles, 0, false)), RolesTaken(s.roles))
    case Probing(begun, start, roles, next, required) =>
      if next >= |roles| then GateStep(s)
      else if !good then CloseWithFailure(s).(pass := Free)
      else if !required then Record(s.(pass := s.pass.(required := true)), RequiredGood(roles[next]))
      else Record(s.(pass := s.pass.(next := next + 1, required := false)), DenialsGood(roles[next]))
    case Rebuilding(begun, start, roles, next) =>
      if next >= |roles| then OpenStep(s)
      else if !good then CloseWithFailure(s).(pass := Free)
      else Record(s.(pass := s.pass.(next := next + 1)), Rebuilt(roles[next]))
  }

  function SetCall(s: State, call: CallId, c: Call): State { s.(calls := s.calls[call := c]) }

  /** A failed commit reports its failure. */
  function ReportAndStop(s: State, call: CallId): State { SetCall(CloseWithFailure(s), call, Errored) }

  function AdmitStep(s: State, call: CallId): State {
    if call in s.calls || s.fence != Open then s
    else Record(SetCall(s, call, Applying(s.generation, |s.history|, false)), Admitted(call, s.generation))
  }

  /** One answer to the commit `call`. */
  function ClientStep(s: State, call: CallId, reply: Reply): State {
    if call !in s.calls then s else
    match s.calls[call]
    case Applying(generation, since, retry) =>
      (match reply
       case Replied => Record(SetCall(s, call, Proving(generation, since)), ScriptRan(call))
       case Lost(ran) =>
         var t := if ran then Record(s, ScriptRan(call)) else s;
         if retry then ReportAndStop(t, call) else SetCall(t, call, Resolving(generation, since))
       case _ => ReportAndStop(s, call))
    case Proving(generation, since) =>
      (match reply
       case Proof(count) =>
         if count < 1 then ReportAndStop(s, call)
         else Record(SetCall(s, call, Acknowledging(generation, since)), FsyncProved(call, count))
       case _ => ReportAndStop(s, call))
    case Resolving(generation, since) =>
      (match reply
       case Known(conflict) =>
         if conflict then ReportAndStop(s, call) else SetCall(s, call, Applying(generation, since, true))
       case _ => ReportAndStop(s, call))
    case _ => s
  }

  /** The acknowledgement check of a commit whose fsync is proved; it refuses without reporting. */
  function AcknowledgeStep(s: State, call: CallId): State {
    if call !in s.calls || !s.calls[call].Acknowledging? then s
    else if s.fence != Open || s.generation != s.calls[call].generation then SetCall(s, call, Errored)
    else Record(SetCall(s, call, Succeeded), Acknowledged(call))
  }

  function Step(s: State, e: Event): State {
    match e
    case PassStep(good) => PassNext(s, good)
    case Report => CloseWithFailure(s)
    case Register(role) => if role in s.roles then s else Record(s.(roles := s.roles + [role]), Registered(role))
    case Admit(call) => AdmitStep(s, call)
    case Client(call, reply) => ClientStep(s, call, reply)
    case Acknowledge(call) => AcknowledgeStep(s, call)
  }

  function Run(s: State, events: seq<Event>): State
    decreases |events|
  {
    if events == [] then s else Run(Step(s, events[0]), events[1..])
  }
}
