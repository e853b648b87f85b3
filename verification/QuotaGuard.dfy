/**
 Exact quota accounting: a usage counter beside a hash of accepted identities, kept equal by the
 accept and release scripts and compared by the audit script. Each script is one atomic step.
 */
module QuotaGuard {
  import opened Basics

  datatype Quota = Quota(used: int, accepted: map<string, nat>)

  datatype Disposition = Accepted | Replay | Fenced | IdentityConflict | Inconsistent
  datatype Release = Released | Missing | Refused

  ghost function Units(accepted: map<string, nat>): int { Sum(accepted, (n: nat) => n as int) }

  function AcceptStep(q: Quota, id: string, units: nat, hard: nat): (Disposition, Quota) {
    if id in q.accepted then (if q.accepted[id] == units then Replay else IdentityConflict, q)
    else if q.used < 0 then (Inconsistent, q)
    else if q.used + units > hard then (Fenced, q)
    else (Accepted, Quota(q.used + units, q.accepted[id := units]))
  }

  function ReleaseStep(q: Quota, id: string, expected: nat): (Release, Quota) {
    if id !in q.accepted then (Missing, q)
    else if q.accepted[id] != expected || q.used < expected then (Refused, q)
    else (Released, Quota(q.used - expected, q.accepted - {id}))
  }

  /** The counter is the exact sum of what is accepted, within the limit. */
  ghost predicate Exact(q: Quota, hard: nat) { q.used == Units(q.accepted) && q.used <= hard }

  /** The two keys of one guard, updated in place. */
  class Guard {
    const hard: nat
    var used: int
    var accepted: map<string, nat>

    ghost predicate Valid()
      reads this
    {
      Exact(View(), hard)
    }

    ghost function View(): Quota
      reads this
    {
      Quota(used, accepted)
    }

    constructor (hard: nat)
      ensures Valid() && this.hard == hard && View() == Quota(0, map[])
    {
      this.hard, used, accepted := hard, 0, map[];
    }

    method Accept(id: string, units: nat) returns (d: Disposition)
      requires Valid()
      modifies this
      ensures Valid() && (d, View()) == AcceptStep(old(View()), id, units, hard)
      ensures d != Inconsistent
    {
      AcceptKeepsExact(View(), id, units, hard);
      if id in accepted {
        return if accepted[id] == units then Replay else IdentityConflict;
      }
      if used < 0 {
        return Inconsistent;
      }
      if used + units > hard {
        return Fenced;
      }
      accepted := accepted[id := units];
      used := used + units;
      return Accepted;
    }

    method ReleaseAtBoundary(id: string, expected: nat) returns (r: Release)
      requires Valid()
      modifies this
      ensures Valid() && (r, View()) == ReleaseStep(old(View()), id, expected)
      ensures r == Refused <==> id in old(accepted) && old(accepted)[id] != expected
    {
      ReleaseKeepsExact(View(), id, expected, hard);
      if id !in accepted {
        return Missing;
      }
      if accepted[id] != expected || used < expected {
        return Refused;
      }
      accepted := accepted - {id};
      used := used - expected;
      return Released;
    }

    /** Adds up the accepted values, in whatever order the hash yields them. */
    method Audit() returns (consistent: bool, identities: nat)
      ensures consistent == (used == Units(accepted)) && identities == |accepted|
      ensures Valid() ==> consistent
    {
      var exact, left := 0, accepted;
      while left != map[]
        invariant exact + Units(left) == Units(accepted)
        decreases |left|
      {
        var id :| id in left;
        SumRemove(left, id, (n: nat) => n as int);
        assert (left - {id}).Keys == left.Keys - {id};
        exact := exact + left[id];
        left := left - {id};
      }
      consistent, identities := used == exact, |accepted|;
    }
  }

  // ------------------------------------------------------------ laws

  lemma AcceptKeepsExact(q: Quota, id: string, units: nat, hard: nat)
    requires Exact(q, hard)
    ensures Exact(AcceptStep(q, id, units, hard).1, hard) && AcceptStep(q, id, units, hard).0 != Inconsistent
    ensures AcceptStep(q, id, units, hard).0 == Fenced <==> id !in q.accepted && Units(q.accepted) + units > hard
  {
    SumNonNegative(q.accepted, (n: nat) => n as int);
    SumUpdate(q.accepted, id, units, (n: nat) => n as int);
  }

  lemma ReleaseKeepsExact(q: Quota, id: string, expected: nat, hard: nat)
    requires Exact(q, hard)
    ensures Exact(ReleaseStep(q, id, expected).1, hard)
    ensures ReleaseStep(q, id, expected).0 == Refused <==> id in q.accepted && q.accepted[id] != expected
  {
    SumNonNegative(q.accepted, (n: nat) => n as int);
    if id in q.accepted {
      SumRemove(q.accepted, id, (n: nat) => n as int);
    }
  }

  datatype Op = Accept(id: string, units: nat) | Release(id: string, expected: nat)

  function Step(q: Quota, op: Op, hard: nat): Quota {
    match op
    case Accept(id, units) => AcceptStep(q, id, units, hard).1
    case Release(id, expected) => ReleaseStep(q, id, expected).1
  }

  function Run(q: Quota, ops: seq<Op>, hard: nat): Quota
    decreases |ops|
  {
    if ops == [] then q else Run(Step(q, ops[0], hard), ops[1..], hard)
  }

  /** Units that accept calls added, less units that release calls took back. */
  ghost function NetFlow(q: Quota, ops: seq<Op>, hard: nat): int
    decreases |ops|
  {
    if ops == [] then 0
    else
      (match ops[0]
       case Accept(id, units) => if AcceptStep(q, id, units, hard).0 == Accepted then units else 0
       case Release(id, expected) => if ReleaseStep(q, id, expected).0 == Released then -(expected as int) else 0)
      + NetFlow(Step(q, ops[0], hard), ops[1..], hard)
  }

  /** Every run keeps the counter exact and bounded, and conserves units. */
  lemma {:induction false} RunKeepsExact(q: Quota, ops: seq<Op>, hard: nat)
    requires Exact(q, hard)
    ensures Exact(Run(q, ops, hard), hard)
    ensures Run(q, ops, hard).used == q.used + NetFlow(q, ops, hard)
    decreases |ops|
  {
    if ops != [] {
      match ops[0] {
        case Accept(id, units) => AcceptKeepsExact(q, id, units, hard);
        case Release(id, expected) => ReleaseKeepsExact(q, id, expected, hard);
      }
      RunKeepsExact(Step(q, ops[0], hard), ops[1..], hard);
    }
  }

  /** No call in between is the release that would end it. */
  ghost predicate NotReleased(id: string, units: nat, ops: seq<Op>) {
    forall i :: 0 <= i < |ops| ==> ops[i] != Release(id, units)
  }

  /** Retries, conflicting accepts and mismatched releases of a held identity change nothing about it. */
  lemma {:induction false} StaysHeld(q: Quota, ops: seq<Op>, hard: nat, id: string, units: nat)
    requires NotReleased(id, units, ops) && id in q.accepted && q.accepted[id] == units
    ensures id in Run(q, ops, hard).accepted && Run(q, ops, hard).accepted[id] == units
    decreases |ops|
  {
    if ops != [] {
      assert ops[0] != Release(id, units);
      StaysHeld(Step(q, ops[0], hard), ops[1..], hard, id, units);
    }
  }

  /**
   What accept took, release gives back: a retry in between is a replay, and the matching
   release frees exactly those units, whatever was called meanwhile short of that release.
   */
  lemma ReleaseUndoesAccept(q: Quota, id: string, units: nat, between: seq<Op>, hard: nat)
    requires Exact(q, hard) && AcceptStep(q, id, units, hard).0 == Accepted && NotReleased(id, units, between)
    ensures var held := Run(AcceptStep(q, id, units, hard).1, between, hard);
            && AcceptStep(held, id, units, hard) == (Replay, held)
            && (forall other: nat :: other != units ==>
                  && AcceptStep(held, id, other, hard) == (IdentityConflict, held)
                  && ReleaseStep(held, id, other) == (Refused, held))
            && ReleaseStep(held, id, units) == (Released, Quota(held.used - units, held.accepted - {id}))
            && (between == [] ==> ReleaseStep(held, id, units).1 == q)
  {
    var taken := AcceptStep(q, id, units, hard).1;
    AcceptKeepsExact(q, id, units, hard);
    RunKeepsExact(taken, between, hard);
    StaysHeld(taken, between, hard, id, units);
    ReleaseKeepsExact(Run(taken, between, hard), id, units, hard);
    assert taken.accepted - {id} == q.accepted;
  }

  // ------------------------------------------------------------ exactly what is held

  /** Every answer has its exact condition, and only an accepted or released identity changes anything. */
  lemma AcceptOutcome(q: Quota, id: string, units: nat, hard: nat)
    requires Exact(q, hard)
    ensures var (d, t) := AcceptStep(q, id, units, hard);
            && (d == Accepted <==> id !in q.accepted && Units(q.accepted) + units <= hard)
            && (d == Fenced <==> id !in q.accepted && Units(q.accepted) + units > hard)
            && (d == Replay <==> id in q.accepted && q.accepted[id] == units)
            && (d == IdentityConflict <==> id in q.accepted && q.accepted[id] != units)
            && t.accepted == (if d == Accepted then q.accepted[id := units] else q.accepted)
            && t.used == Units(t.accepted)
  {
    SumNonNegative(q.accepted, (n: nat) => n as int);
    SumUpdate(q.accepted, id, units, (n: nat) => n as int);
  }

  lemma ReleaseOutcome(q: Quota, id: string, expected: nat, hard: nat)
    requires Exact(q, hard)
    ensures var (r, t) := ReleaseStep(q, id, expected);
            && (r == Released <==> id in q.accepted && q.accepted[id] == expected)
            && (r == Missing <==> id !in q.accepted)
            && t.accepted == (if r == Released then q.accepted - {id} else q.accepted)
            && t.used == Units(t.accepted)
  {
    ReleaseKeepsExact(q, id, expected, hard);
  }

  const EMPTY := Quota(0, map[])

  lemma EmptyIsExact(hard: nat)
    ensures Exact(EMPTY, hard)
  {
  }

  /** Call `i` is an accept of `id` that finds it new and fitting. */
  ghost predicate AcceptedAt(ops: seq<Op>, hard: nat, id: string, units: nat, i: int) {
    && 0 <= i < |ops| && ops[i] == Accept(id, units)
    && (var q := Run(EMPTY, ops[..i], hard); id !in q.accepted && Units(q.accepted) + units <= hard)
  }

  /** It was accepted, and not released since. */
  ghost predicate HeldSince(ops: seq<Op>, hard: nat, id: string, units: nat, i: int) {
    AcceptedAt(ops, hard, id, units, i) && forall j :: i < j < |ops| ==> ops[j] != Release(id, units)
  }

  lemma {:induction false} RunSnoc(q: Quota, ops: seq<Op>, op: Op, hard: nat)
    ensures Run(q, ops + [op], hard) == Step(Run(q, ops, hard), op, hard)
    decreases |ops|
  {
    if ops == [] {
      assert (ops + [op])[1..] == [];
    } else {
      assert (ops + [op])[1..] == ops[1..] + [op];
      RunSnoc(Step(q, ops[0], hard), ops[1..], op, hard);
    }
  }

  /** What one more call does to `id`. */
  lemma StepHolds(q: Quota, op: Op, hard: nat, id: string, units: nat)
    requires Exact(q, hard)
    ensures var t := Step(q, op, hard);
            id in t.accepted && t.accepted[id] == units <==>
              || (op == Accept(id, units) && id !in q.accepted && Units(q.accepted) + units <= hard)
              || (id in q.accepted && q.accepted[id] == units && op != Release(id, units))
  {
    match op {
      case Accept(other, n) => AcceptOutcome(q, other, n, hard);
      case Release(other, n) => ReleaseOutcome(q, other, n, hard);
    }
    hide Units, AcceptStep, ReleaseStep;
  }

  lemma EarlierPart(ops: seq<Op>, op: Op, hard: nat, id: string, units: nat, i: int)
    requires 0 <= i < |ops|
    ensures AcceptedAt(ops + [op], hard, id, units, i) <==> AcceptedAt(ops, hard, id, units, i)
  {
    assert (ops + [op])[..i] == ops[..i];
  }

  /**
   From an empty guard, after any calls: an identity is held with some units exactly when one of the
   calls accepted it, new and fitting, with those units, and no later one released it.
   */
  lemma {:induction false} HeldIffAcceptedAndNotReleased(ops: seq<Op>, hard: nat, id: string, units: nat)
    ensures var q := Run(EMPTY, ops, hard);
            id in q.accepted && q.accepted[id] == units <==> exists i :: HeldSince(ops, hard, id, units, i)
    decreases |ops|
  {
    if ops != [] {
      var n := |ops| - 1;
      var init, op := ops[..n], ops[n];
      assert ops == init + [op];
      HeldIffAcceptedAndNotReleased(init, hard, id, units);
      EmptyIsExact(hard);
      RunKeepsExact(EMPTY, init, hard);
      RunSnoc(EMPTY, init, op, hard);
      StepHolds(Run(EMPTY, init, hard), op, hard, id, units);
      assert AcceptedAt(ops, hard, id, units, n) <==>
        op == Accept(id, units) && id !in Run(EMPTY, init, hard).accepted
        && Units(Run(EMPTY, init, hard).accepted) + units <= hard;
      hide Run, Step, Exact, Units;
      if i :| HeldSince(init, hard, id, units, i) && op != Release(id, units) {
        EarlierPart(init, op, hard, id, units, i);
        assert HeldSince(ops, hard, id, units, i);
      }
      if AcceptedAt(ops, hard, id, units, n) {
        assert HeldSince(ops, hard, id, units, n);
      }
      if i :| HeldSince(ops, hard, id, units, i) && i < n {
        EarlierPart(init, op, hard, id, units, i);
        assert HeldSince(init, hard, id, units, i) && ops[n] != Release(id, units);
      }
    }
  }
}
