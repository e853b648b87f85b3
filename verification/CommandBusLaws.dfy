/** What every run of the Command bus keeps, whatever the interleaving. */
module CommandBusLaws {
  import opened Basics
  import opened CommandLedger

  // ------------------------------------------------------------ hard limits

  /** Every open entry was reserved the largest payload. */
  ghost predicate Reserved(cfg: Config, s: Ledger) {
    forall id :: id in s.entries && s.entries[id].phase.Open?
                 ==> s.entries[id].phase.reserved == cfg.maxPayload
  }

  ghost predicate WithinBytes(cfg: Config, s: Ledger) {
    Usage(s.entries).usedBytes <= cfg.hardBytes
  }

  ghost predicate WithinRecords(cfg: Config, s: Ledger) {
    Usage(s.entries).Records() <= cfg.maxRecords
  }

  /** What a step must leave behind for both limits to be kept. */
  ghost predicate Keeps(cfg: Config, s: Ledger, entries: map<Uuid, Entry>) {
    && Reserved(cfg, s.(entries := entries))
    && Usage(entries).Records() <= cfg.maxRecords
    && (WithinBytes(cfg, s) && cfg.CannedRepliesFit() ==> Usage(entries).usedBytes <= cfg.hardBytes)
  }

  /** A reply never costs more records, nor more bytes when the canned replies fit. */
  lemma CommitKeeps(cfg: Config, s: Ledger, id: Uuid, response: Bytes, digest: string)
    requires Reserved(cfg, s) && WithinRecords(cfg, s)
    requires id in s.entries && s.entries[id].phase.Open?
    requires cfg.CannedRepliesFit() ==> |response| <= cfg.maxPayload
    ensures Keeps(cfg, s, Commit(cfg, s, id, response, digest).entries)
  {
    hide Sum;
    UsageAfterWrite(s.entries, id, Commit(cfg, s, id, response, digest).entries[id]);
  }

  lemma FileKeeps(cfg: Config, s: Ledger, id: Uuid, deadline: int, payload: Bytes, digest: string)
    requires Reserved(cfg, s) && id !in s.entries && Fits(cfg, Usage(s.entries), payload)
    ensures Keeps(cfg, s, File(cfg, s, id, deadline, payload, digest).entries)
  {
    hide Sum;
    UsageAfterWrite(s.entries, id, File(cfg, s, id, deadline, payload, digest).entries[id]);
  }

  lemma AdmitKeeps(cfg: Config, s: Ledger, op: Op)
    requires Reserved(cfg, s) && WithinRecords(cfg, s) && op.Admit?
    ensures Keeps(cfg, s, Step(cfg, s, op).0.entries)
  {
    hide Sum;
    if op.id !in s.entries && Fits(cfg, Usage(s.entries), op.payload) {
      FileKeeps(cfg, s, op.id, op.deadline, op.payload, op.digest);
    }
  }

  lemma ClaimKeeps(cfg: Config, s: Ledger, op: Op)
    requires Reserved(cfg, s) && WithinRecords(cfg, s) && op.ClaimEntry?
    ensures Keeps(cfg, s, Step(cfg, s, op).0.entries)
  {
    hide Sum;
    var (t, status) := Step(cfg, s, op);
    if status == Expired {
      CommitKeeps(cfg, s, op.id, cfg.expiredReply, cfg.expiredDigest);
    } else if status == Process {
      UsageAfterWrite(s.entries, op.id, t.entries[op.id]);
    }
  }

  lemma CleanupKeeps(cfg: Config, s: Ledger, op: Op)
    requires Reserved(cfg, s) && WithinRecords(cfg, s) && op.Cleanup?
    ensures Keeps(cfg, s, Step(cfg, s, op).0.entries)
  {
    hide Sum;
    var (t, status) := Step(cfg, s, op);
    if status == Expired {
      CommitKeeps(cfg, s, op.id, cfg.expiredReply, cfg.expiredDigest);
    } else if t != s {
      UsageWithout(s.entries, op.id);
    }
  }

  /** One step keeps the record limit always, and the byte limit when the replies fit. */
  lemma StepKeepsLimits(cfg: Config, s: Ledger, op: Op)
    requires Reserved(cfg, s) && WithinRecords(cfg, s)
    ensures Keeps(cfg, s, Step(cfg, s, op).0.entries)
  {
    hide Sum;
    match op {
      case Heartbeat(_, _) =>
      case RemoveConsumer(_) =>
      case Tick(_) =>
      case Admit(_, _, _, _, _) => AdmitKeeps(cfg, s, op);
      case ClaimEntry(_, _, _, _) => ClaimKeeps(cfg, s, op);
      case Reply(id, _, _, response, digest) =>
        if Step(cfg, s, op).1 == Answered {
          CommitKeeps(cfg, s, id, cfg.Offered(response), digest);
        }
      case Cleanup(_, _) => CleanupKeeps(cfg, s, op);
    }
  }

  lemma {:induction false} RunKeepsLimits(cfg: Config, s: Ledger, ops: seq<Op>)
    requires Reserved(cfg, s) && WithinRecords(cfg, s)
    ensures Reserved(cfg, Run(cfg, s, ops)) && WithinRecords(cfg, Run(cfg, s, ops))
    ensures WithinBytes(cfg, s) && cfg.CannedRepliesFit() ==> WithinBytes(cfg, Run(cfg, s, ops))
    decreases |ops|
  {
    hide Sum;
    if ops != [] {
      StepKeepsLimits(cfg, s, ops[0]);
      RunKeepsLimits(cfg, Step(cfg, s, ops[0]).0, ops[1..]);
    }
  }

  lemma EmptyUsesNothing()
    ensures Usage(map[]) == Quota(0, 0, 0, 0, 0)
  {
  }

  // ------------------------------------------------------------ lifetimes

  /** `id` is live in every state of the run: no step cleans it. */
  ghost predicate LivesThrough(cfg: Config, s: Ledger, ops: seq<Op>, id: Uuid)
    decreases |ops|
  {
    id in s.entries && (ops != [] ==> LivesThrough(cfg, Step(cfg, s, ops[0]).0, ops[1..], id))
  }

  /** `id` is absent in every state of the run: no step admits it again. */
  ghost predicate AbsentThrough(cfg: Config, s: Ledger, ops: seq<Op>, id: Uuid)
    decreases |ops|
  {
    id !in s.entries && (ops != [] ==> AbsentThrough(cfg, Step(cfg, s, ops[0]).0, ops[1..], id))
  }

  /** How many steps of the run commit a reply to `id`. */
  ghost function Commits(cfg: Config, s: Ledger, ops: seq<Op>, id: Uuid): nat
    decreases |ops|
  {
    if ops == [] then 0
    else
      var t := Step(cfg, s, ops[0]).0;
      (if id in s.entries && s.entries[id].phase.Open? && id in t.entries && t.entries[id].phase.Replied?
       then 1 else 0) + Commits(cfg, t, ops[1..], id)
  }

  /**
   Over one lifetime a correlation keeps its request identity, deadline and stream entry;
   at most one reply is committed, and a committed reply never changes again.
   */
  lemma {:induction false} OneReplyPerLifetime(cfg: Config, s: Ledger, ops: seq<Op>, id: Uuid)
    requires LivesThrough(cfg, s, ops, id)
    ensures var t := Run(cfg, s, ops);
            && id in t.entries
            && t.entries[id].requestDigest == s.entries[id].requestDigest
            && t.entries[id].deadline == s.entries[id].deadline
            && t.entries[id].streamId == s.entries[id].streamId
            && (s.entries[id].phase.Replied? ==> t.entries[id] == s.entries[id])
    ensures Commits(cfg, s, ops, id) ==
              if s.entries[id].phase.Open? && Run(cfg, s, ops).entries[id].phase.Replied? then 1 else 0
    decreases |ops|
  {
    if ops != [] {
      OneReplyPerLifetime(cfg, Step(cfg, s, ops[0]).0, ops[1..], id);
    }
  }

  // ------------------------------------------------------------ leases

  datatype Grant = Grant(owner: string, at: int, until: int)

  /** The `process` grants for `id` along a run, in order. */
  ghost function Grants(cfg: Config, s: Ledger, ops: seq<Op>, id: Uuid): seq<Grant>
    decreases |ops|
  {
    if ops == [] then []
    else
      GrantOf(cfg, s, ops[0], id) + Grants(cfg, Step(cfg, s, ops[0]).0, ops[1..], id)
  }

  ghost predicate Exclusive(previous: Option<Claim>, next: Grant) {
    previous.Some? && previous.value.owner != next.owner ==> previous.value.until <= next.at
  }

  ghost function ClaimOf(g: Grant): Option<Claim> { Some(Claim(g.owner, g.until)) }

  /** The grant of one step, if it makes one for `id`. */
  ghost function GrantOf(cfg: Config, s: Ledger, op: Op, id: Uuid): seq<Grant> {
    if Step(cfg, s, op).1 == Process && op.id == id
    then [Grant(op.owner, s.now, s.now + op.lease)] else []
  }

  lemma StepGrant(cfg: Config, s: Ledger, op: Op, id: Uuid)
    requires id in s.entries && id in Step(cfg, s, op).0.entries
    ensures var e, f := s.entries[id], Step(cfg, s, op).0.entries[id];
            && f.deadline == e.deadline
            && (e.phase.Replied? ==> f.phase.Replied? && GrantOf(cfg, s, op, id) == [])
            && (GrantOf(cfg, s, op, id) == [] ==> f.claim == e.claim)
            && (forall g :: GrantOf(cfg, s, op, id) == [g]
                            ==> f.claim == ClaimOf(g) && g.at < e.deadline && Exclusive(e.claim, g))
  {
  }

  /** Every grant falls before the deadline and never inside another owner's lease. */
  ghost predicate InOrder(previous: Option<Claim>, deadline: int, log: seq<Grant>)
    decreases |log|
  {
    log == [] ||
    (log[0].at < deadline && Exclusive(previous, log[0]) && InOrder(ClaimOf(log[0]), deadline, log[1..]))
  }

  ghost function LastClaim(previous: Option<Claim>, log: seq<Grant>): Option<Claim> {
    if log == [] then previous else ClaimOf(log[|log| - 1])
  }

  /**
   Over one lifetime every grant falls before the deadline, a grant to a new owner falls
   at or after the end of the previous owner's lease, nothing is granted after the reply,
   and the claim a reply is checked against is the last grant.
   */
  lemma {:induction false} GrantsNeverOverlap(cfg: Config, s: Ledger, ops: seq<Op>, id: Uuid)
    requires LivesThrough(cfg, s, ops, id)
    ensures InOrder(s.entries[id].claim, s.entries[id].deadline, Grants(cfg, s, ops, id))
    ensures id in Run(cfg, s, ops).entries
    ensures Run(cfg, s, ops).entries[id].claim == LastClaim(s.entries[id].claim, Grants(cfg, s, ops, id))
    ensures s.entries[id].phase.Replied? ==> Grants(cfg, s, ops, id) == []
    decreases |ops|
  {
    if ops != [] {
      var t := Step(cfg, s, ops[0]).0;
      StepGrant(cfg, s, ops[0], id);
      GrantsNeverOverlap(cfg, t, ops[1..], id);
      var head, rest := GrantOf(cfg, s, ops[0], id), Grants(cfg, t, ops[1..], id);
      if head == [] {
        assert head + rest == rest;
      } else {
        assert head == [head[0]] && (head + rest)[1..] == rest;
      }
    }
  }

  // ------------------------------------------------------------ lost acknowledgements

  lemma AdmittedIsFiled(cfg: Config, s: Ledger, admit: Op)
    requires admit.Admit? && Step(cfg, s, admit).1 == Admitted
    ensures var t := Step(cfg, s, admit).0;
            admit.id in t.entries && t.entries[admit.id].requestDigest == admit.digest
  {
  }

  /** Retrying an admission that landed changes nothing but the expired consumer leases. */
  lemma AdmitRetryIsNoOp(cfg: Config, s: Ledger, admit: Op, between: seq<Op>)
    requires admit.Admit? && Step(cfg, s, admit).1 == Admitted
    requires LivesThrough(cfg, Step(cfg, s, admit).0, between, admit.id)
    ensures var t := Run(cfg, Step(cfg, s, admit).0, between);
            var again := Step(cfg, t, admit.(retrying := true));
            && again.0 == Purged(t)
            && again.1 == (if Purged(t).consumers == map[] then Unavailable
                           else if admit.deadline <= t.now then Expired else Admitted)
  {
    AdmittedIsFiled(cfg, s, admit);
    var filed := Step(cfg, s, admit).0;
    OneReplyPerLifetime(cfg, filed, between, admit.id);
    FiledAdmitIsNoOp(cfg, Run(cfg, filed, between), admit);
  }

  lemma FiledAdmitIsNoOp(cfg: Config, t: Ledger, admit: Op)
    requires admit.Admit? && admit.id in t.entries && t.entries[admit.id].requestDigest == admit.digest
    ensures var again := Step(cfg, t, admit.(retrying := true));
            && again.0 == Purged(t)
            && again.1 == (if Purged(t).consumers == map[] then Unavailable
                           else if admit.deadline <= t.now then Expired else Admitted)
  {
  }

  /** Retrying a reply that landed is recognised and changes nothing at all. */
  lemma ReplyRetryIsNoOp(cfg: Config, s: Ledger, reply: Op, between: seq<Op>)
    requires reply.Reply? && Step(cfg, s, reply).1 in {Answered, Replayed}
    requires LivesThrough(cfg, Step(cfg, s, reply).0, between, reply.id)
    ensures var t := Run(cfg, Step(cfg, s, reply).0, between);
            Step(cfg, t, reply) == (t, Replayed)
  {
    OneReplyPerLifetime(cfg, Step(cfg, s, reply).0, between, reply.id);
  }

  lemma {:induction false} StaysAbsent(cfg: Config, s: Ledger, ops: seq<Op>, id: Uuid)
    requires AbsentThrough(cfg, s, ops, id)
    ensures id !in Run(cfg, s, ops).entries
    decreases |ops|
  {
    if ops != [] {
      StaysAbsent(cfg, Step(cfg, s, ops[0]).0, ops[1..], id);
    }
  }

  /** Retrying a cleanup that landed changes nothing, so no counter is lowered twice. */
  lemma CleanupRetryIsNoOp(cfg: Config, s: Ledger, cleanup: Op, between: seq<Op>)
    requires cleanup.Cleanup? && Step(cfg, s, cleanup).1 == Cleaned
    requires AbsentThrough(cfg, Step(cfg, s, cleanup).0, between, cleanup.id)
    ensures var t := Run(cfg, Step(cfg, s, cleanup).0, between);
            Step(cfg, t, cleanup) == (t, Cleaned)
  {
    StaysAbsent(cfg, Step(cfg, s, cleanup).0, between, cleanup.id);
  }

  // ------------------------------------------------------------ no quota is leaked

  /** Steps that need no client: the passing of time and the consumers' housekeeping. */
  predicate Housekeeping(op: Op) { op.Tick? || (op.Cleanup? && !op.delivered) }

  /** Four housekeeping steps clear any one correlation and touch no other. */
  lemma HousekeepingClearsOne(cfg: Config, s: Ledger, id: Uuid) returns (ops: seq<Op>)
    requires id in s.entries
    ensures forall op :: op in ops ==> Housekeeping(op)
    ensures Run(cfg, s, ops).entries == s.entries - {id}
  {
    var e := s.entries[id];
    var wait := Wait(e, s.now);
    var a, b := [Tick(wait), Cleanup(id, false)], [Tick(cfg.retention), Cleanup(id, false)];
    ops := a + b;
    RunAppend(cfg, s, a, b);
    var s1 := s.(now := s.now + wait);
    var s2 := CleanupStep(cfg, s1, id, false).0;
    assert Run(cfg, s, a) == s2 by {
      assert a[1..] == [Cleanup(id, false)] && a[1..][1..] == [];
      assert Run(cfg, s1, a[1..]) == Run(cfg, Step(cfg, s1, a[1..][0]).0, []);
    }
    var s3 := s2.(now := s2.now + cfg.retention);
    var s4 := CleanupStep(cfg, s3, id, false).0;
    assert Run(cfg, s2, b) == s4 by {
      assert b[1..] == [Cleanup(id, false)] && b[1..][1..] == [];
      assert Run(cfg, s3, b[1..]) == Run(cfg, Step(cfg, s3, b[1..][0]).0, []);
    }
  }

  /** Long enough for the deadline, the lease and the retention of `e` to have passed. */
  function Wait(e: Entry, now: int): nat {
    var until := if e.claim.Some? then e.claim.value.until else now;
    var at := if e.phase.Replied? then e.phase.cleanupAt else now;
    var latest := Max(e.deadline, Max(until, at));
    if latest > now then latest - now else 0
  }

  function Max(a: int, b: int): int { if a > b then a else b }

  /** From any state housekeeping alone returns every byte and every record. */
  lemma {:induction false} HousekeepingReturnsAllQuota(cfg: Config, s: Ledger) returns (ops: seq<Op>)
    ensures forall op :: op in ops ==> Housekeeping(op)
    ensures Run(cfg, s, ops).entries == map[]
    ensures Usage(Run(cfg, s, ops).entries) == Quota(0, 0, 0, 0, 0)
    decreases |s.entries|
  {
    if s.entries == map[] {
      ops := [];
    } else {
      var id :| id in s.entries;
      var first := HousekeepingClearsOne(cfg, s, id);
      assert (s.entries - {id}).Keys == s.entries.Keys - {id};
      var rest := HousekeepingReturnsAllQuota(cfg, Run(cfg, s, first));
      RunAppend(cfg, s, first, rest);
      ops := first + rest;
    }
  }
}
