/** For which configurations the Command bus keeps its hard byte limit in every run. */
module CommandBusLimit {
  import opened Basics
  import opened CommandLedger
  import opened CommandBusLaws

  // ------------------------------------------------------------ the condition

  /** The client refuses larger requests before it admits them. */
  ghost predicate Submitted(cfg: Config, ops: seq<Op>) {
    forall i :: 0 <= i < |ops| && ops[i].Admit? ==> |ops[i].payload| <= cfg.maxPayload
  }

  ghost predicate NeverOver(cfg: Config) {
    forall ops: seq<Op> :: Submitted(cfg, ops) ==> WithinBytes(cfg, Run(cfg, EMPTY, ops))
  }

  /** A correlation that waits for its reply, or has one, by the size of what it holds. */
  datatype Stay = Waiting(payload: nat) | Holding(response: nat)

  function Cost(cfg: Config, stay: Stay): nat {
    match stay
    case Waiting(payload) => CORRELATION_BYTES + cfg.maxPayload + payload
    case Holding(response) => CORRELATION_BYTES + response
  }

  function RecordsOf(stay: Stay): nat { if stay.Waiting? then 3 else 2 }

  function TotalBytes(cfg: Config, stays: seq<Stay>): nat {
    if stays == [] then 0 else TotalBytes(cfg, stays[..|stays| - 1]) + Cost(cfg, stays[|stays| - 1])
  }

  function TotalRecords(stays: seq<Stay>): nat {
    if stays == [] then 0 else TotalRecords(stays[..|stays| - 1]) + RecordsOf(stays[|stays| - 1])
  }

  /** Responses have an admissible size, or are one of the two the bus writes itself. */
  predicate Allowed(cfg: Config, stay: Stay) {
    match stay
    case Waiting(payload) => payload <= cfg.maxPayload
    case Holding(v) => v <= cfg.maxPayload || v == |cfg.expiredReply| || v == |cfg.oversizedReply|
  }

  function LargerCanned(cfg: Config): nat {
    if |cfg.expiredReply| > |cfg.oversizedReply| then |cfg.expiredReply| else |cfg.oversizedReply|
  }

  /** Beside these correlations one more request is admitted, and its canned reply exceeds the limit. */
  ghost predicate OverrunBeside(cfg: Config, others: seq<Stay>) {
    && (forall i :: 0 <= i < |others| ==> Allowed(cfg, others[i]))
    && TotalRecords(others) + 3 <= cfg.maxRecords
    && TotalBytes(cfg, others) + CORRELATION_BYTES + cfg.maxPayload <= cfg.hardBytes
    && cfg.hardBytes < TotalBytes(cfg, others) + CORRELATION_BYTES + LargerCanned(cfg)
  }

  ghost predicate CanOverrun(cfg: Config) { exists others :: OverrunBeside(cfg, others) }

  // ------------------------------------------------------------ what overruns must look like

  function StayOf(e: Entry): Stay {
    match e.phase
    case Open(payload, _) => Waiting(|payload|)
    case Replied(response, _, _) => Holding(|response|)
  }

  ghost predicate Shapely(cfg: Config, entries: map<Uuid, Entry>) {
    forall id :: id in entries ==>
      Allowed(cfg, StayOf(entries[id])) && (entries[id].phase.Open? ==> entries[id].phase.reserved == cfg.maxPayload)
  }

  lemma UsageWith(entries: map<Uuid, Entry>, id: Uuid)
    requires id in entries
    ensures var u, v, e := Usage(entries), Usage(entries - {id}), entries[id];
            && u.usedBytes == v.usedBytes + BytesOf(e)
            && u.Records() == v.Records() + RecordsOf(StayOf(e))
  {
    hide Sum;
    UsageAfterWrite(entries - {id}, id, entries[id]);
    assert (entries - {id})[id := entries[id]] == entries;
  }

  /** The live correlations as a list. */
  lemma {:induction false} Listed(cfg: Config, entries: map<Uuid, Entry>) returns (stays: seq<Stay>)
    requires Shapely(cfg, entries)
    ensures forall i :: 0 <= i < |stays| ==> Allowed(cfg, stays[i])
    ensures TotalBytes(cfg, stays) == Usage(entries).usedBytes && TotalRecords(stays) == Usage(entries).Records()
    decreases |entries|
  {
    hide Sum, Usage;
    if entries == map[] {
      stays := [];
      EmptyUsesNothing();
    } else {
      var id :| id in entries;
      assert (entries - {id}).Keys == entries.Keys - {id};
      var rest := Listed(cfg, entries - {id});
      stays := rest + [StayOf(entries[id])];
      UsageWith(entries, id);
      assert stays[..|rest|] == rest;
    }
  }

  /** A reply that exceeds the limit is a canned one beside the other live correlations. */
  lemma CommitStaysWithin(cfg: Config, s: Ledger, id: Uuid, response: Bytes, digest: string)
    requires !CanOverrun(cfg) && Shapely(cfg, s.entries) && WithinBytes(cfg, s) && WithinRecords(cfg, s)
    requires id in s.entries && s.entries[id].phase.Open? && Allowed(cfg, Holding(|response|))
    ensures WithinBytes(cfg, Commit(cfg, s, id, response, digest))
  {
    hide Sum, Usage;
    var others := s.entries - {id};
    var stays := Listed(cfg, others);
    UsageWith(s.entries, id);
    var t := Commit(cfg, s, id, response, digest);
    assert t.entries - {id} == others;
    UsageWith(t.entries, id);
    assert !OverrunBeside(cfg, stays);
  }

  ghost predicate Kept(cfg: Config, s: Ledger) {
    Reserved(cfg, s) && WithinRecords(cfg, s) && WithinBytes(cfg, s) && Shapely(cfg, s.entries)
  }

  lemma AdmitStaysWithin(cfg: Config, s: Ledger, op: Op)
    requires Kept(cfg, s) && op.Admit? && |op.payload| <= cfg.maxPayload
    ensures WithinBytes(cfg, Step(cfg, s, op).0) && Shapely(cfg, Step(cfg, s, op).0.entries)
  {
    hide Sum;
    var t := Step(cfg, s, op).0;
    if t.entries != s.entries {
      UsageAfterWrite(s.entries, op.id, t.entries[op.id]);
    }
  }

  lemma ClaimStaysWithin(cfg: Config, s: Ledger, op: Op)
    requires Kept(cfg, s) && op.ClaimEntry? && !CanOverrun(cfg)
    ensures WithinBytes(cfg, Step(cfg, s, op).0) && Shapely(cfg, Step(cfg, s, op).0.entries)
  {
    hide Sum, Usage;
    var (t, status) := Step(cfg, s, op);
    if status == Expired {
      CommitStaysWithin(cfg, s, op.id, cfg.expiredReply, cfg.expiredDigest);
    } else if status == Process {
      UsageWith(s.entries, op.id);
      UsageWith(t.entries, op.id);
      assert t.entries - {op.id} == s.entries - {op.id};
    }
  }

  lemma CleanupStaysWithin(cfg: Config, s: Ledger, op: Op)
    requires Kept(cfg, s) && op.Cleanup? && !CanOverrun(cfg)
    ensures WithinBytes(cfg, Step(cfg, s, op).0) && Shapely(cfg, Step(cfg, s, op).0.entries)
  {
    hide Sum, Usage;
    var (t, status) := Step(cfg, s, op);
    if status == Expired {
      CommitStaysWithin(cfg, s, op.id, cfg.expiredReply, cfg.expiredDigest);
    } else if t != s {
      UsageWith(s.entries, op.id);
    }
  }

  lemma ReplyStaysWithin(cfg: Config, s: Ledger, op: Op)
    requires Kept(cfg, s) && op.Reply? && !CanOverrun(cfg)
    ensures WithinBytes(cfg, Step(cfg, s, op).0) && Shapely(cfg, Step(cfg, s, op).0.entries)
  {
    hide Sum, Usage;
    if Step(cfg, s, op).1 == Answered {
      CommitStaysWithin(cfg, s, op.id, cfg.Offered(op.response), op.digest);
    }
  }

  lemma QuietStaysWithin(cfg: Config, s: Ledger, op: Op)
    requires Kept(cfg, s) && (op.Heartbeat? || op.RemoveConsumer? || op.Tick?)
    ensures WithinBytes(cfg, Step(cfg, s, op).0) && Shapely(cfg, Step(cfg, s, op).0.entries)
  {
    hide Sum, Usage;
  }

  lemma StepKeepsRest(cfg: Config, s: Ledger, op: Op)
    requires Kept(cfg, s)
    ensures Reserved(cfg, Step(cfg, s, op).0) && WithinRecords(cfg, Step(cfg, s, op).0)
  {
    StepKeepsLimits(cfg, s, op);
    hide Sum, Usage, Step;
  }

  lemma StepStaysWithin(cfg: Config, s: Ledger, op: Op)
    requires Kept(cfg, s) && !CanOverrun(cfg) && (op.Admit? ==> |op.payload| <= cfg.maxPayload)
    ensures Kept(cfg, Step(cfg, s, op).0)
  {
    hide Sum, Usage, CanOverrun, Shapely, Step, Reserved, WithinRecords, WithinBytes;
    StepKeepsRest(cfg, s, op);
    match op {
      case Admit(_, _, _, _, _) => AdmitStaysWithin(cfg, s, op);
      case ClaimEntry(_, _, _, _) => ClaimStaysWithin(cfg, s, op);
      case Reply(_, _, _, _, _) => ReplyStaysWithin(cfg, s, op);
      case Cleanup(_, _) => CleanupStaysWithin(cfg, s, op);
      case _ => QuietStaysWithin(cfg, s, op);
    }
  }

  lemma {:induction false} RunStaysWithin(cfg: Config, s: Ledger, ops: seq<Op>)
    requires Kept(cfg, s) && !CanOverrun(cfg) && Submitted(cfg, ops)
    ensures Kept(cfg, Run(cfg, s, ops))
    decreases |ops|
  {
    hide Kept, CanOverrun, Step;
    if ops != [] {
      StepStaysWithin(cfg, s, ops[0]);
      RunStaysWithin(cfg, Step(cfg, s, ops[0]).0, ops[1..]);
    }
  }

  // ------------------------------------------------------------ and that they all happen

  lemma RunOne(cfg: Config, s: Ledger, op: Op)
    ensures Run(cfg, s, [op]) == Step(cfg, s, op).0
  {
    assert [op][1..] == [];
  }

  lemma RunTwo(cfg: Config, s: Ledger, a: Op, b: Op)
    ensures Run(cfg, s, [a, b]) == Step(cfg, Step(cfg, s, a).0, b).0
  {
    hide Step;
    assert [a, b] == [a] + [b];
    RunAppend(cfg, s, [a], [b]);
    RunOne(cfg, s, a);
    RunOne(cfg, Step(cfg, s, a).0, b);
  }

  function Zeros(n: nat): Bytes { seq(n, _ => 0) }

  function Filed(cfg: Config, s: Ledger, payload: nat): Entry {
    Entry("", s.now + 1, s.nextStream, None, Open(Zeros(payload), cfg.maxPayload))
  }

  /** A live consumer and a request that fits: it is filed. */
  lemma AddWaiting(cfg: Config, s: Ledger, id: Uuid, payload: nat) returns (ops: seq<Op>)
    requires id !in s.entries && Fits(cfg, Usage(s.entries), Zeros(payload)) && payload <= cfg.maxPayload
    ensures Submitted(cfg, ops)
    ensures var t := Run(cfg, s, ops);
            t.entries == s.entries[id := Filed(cfg, s, payload)] && t.now == s.now
  {
    hide Sum, Usage;
    var beat, admit := Heartbeat("c", 1), Admit(id, s.now + 1, Zeros(payload), "", false);
    ops := [beat, admit];
    RunTwo(cfg, s, beat, admit);
    var t := Step(cfg, s, beat).0;
    assert "c" in t.consumers && t.consumers["c"] == s.now + 1;
    assert "c" in LiveConsumers(t.consumers, t.now);
  }

  /** The two ways a waiting request gets its reply: through a handler, or by expiry. */
  lemma AnswerOne(cfg: Config, s: Ledger, id: Uuid, v: nat) returns (ops: seq<Op>)
    requires id in s.entries && Allowed(cfg, Holding(v))
    requires s.entries[id].claim.None? && s.entries[id].phase.Open? && s.entries[id].deadline == s.now + 1
    ensures Submitted(cfg, ops)
    ensures var t := Run(cfg, s, ops);
            id in t.entries && t.entries == s.entries[id := t.entries[id]] && StayOf(t.entries[id]) == Holding(v)
  {
    if v <= cfg.maxPayload || v == |cfg.oversizedReply| {
      var response := Zeros(if v <= cfg.maxPayload then v else cfg.maxPayload + 1);
      var stream := s.entries[id].streamId;
      var claim, reply := ClaimEntry(id, stream, "c", 1), Reply(id, stream, "c", response, "");
      ops := [claim, reply];
      RunTwo(cfg, s, claim, reply);
    } else {
      ops := [Tick(1), Cleanup(id, false)];
      RunTwo(cfg, s, Tick(1), Cleanup(id, false));
    }
  }

  lemma AddStay(cfg: Config, s: Ledger, id: Uuid, stay: Stay) returns (ops: seq<Op>)
    requires id !in s.entries && Allowed(cfg, stay)
    requires Usage(s.entries).Records() + 3 <= cfg.maxRecords
    requires var held := if stay.Waiting? then stay.payload else 0;
             Usage(s.entries).usedBytes + CORRELATION_BYTES + cfg.maxPayload + held <= cfg.hardBytes
    ensures Submitted(cfg, ops)
    ensures var t := Run(cfg, s, ops);
            && t.entries.Keys == s.entries.Keys + {id}
            && Usage(t.entries).usedBytes == Usage(s.entries).usedBytes + Cost(cfg, stay)
            && Usage(t.entries).Records() == Usage(s.entries).Records() + RecordsOf(stay)
  {
    hide Sum, Usage, Run;
    var payload := if stay.Waiting? then stay.payload else 0;
    ops := AddWaiting(cfg, s, id, payload);
    var t := Run(cfg, s, ops);
    if stay.Holding? {
      var more := AnswerOne(cfg, t, id, stay.response);
      RunAppend(cfg, s, ops, more);
      ops := ops + more;
      t := Run(cfg, s, ops);
    }
    assert t.entries - {id} == s.entries;
    UsageWith(t.entries, id);
  }

  lemma {:induction false} Less(cfg: Config, stays: seq<Stay>)
    requires stays != []
    ensures TotalBytes(cfg, stays[..|stays| - 1]) <= TotalBytes(cfg, stays)
    ensures TotalRecords(stays[..|stays| - 1]) <= TotalRecords(stays)
  {
  }

  /** Any list of correlations that leaves room for one more request is reached. */
  lemma {:induction false} Filled(cfg: Config, stays: seq<Stay>) returns (ops: seq<Op>)
    requires forall i :: 0 <= i < |stays| ==> Allowed(cfg, stays[i])
    requires TotalRecords(stays) + 3 <= cfg.maxRecords
    requires TotalBytes(cfg, stays) + CORRELATION_BYTES + cfg.maxPayload <= cfg.hardBytes
    ensures Submitted(cfg, ops)
    ensures var s := Run(cfg, EMPTY, ops);
            && (forall id :: id in s.entries ==> id < |stays|)
            && Usage(s.entries).usedBytes == TotalBytes(cfg, stays) && Usage(s.entries).Records() == TotalRecords(stays)
    decreases |stays|
  {
    hide Sum, Usage, Step;
    if stays == [] {
      ops := [];
      EmptyUsesNothing();
    } else {
      var n := |stays| - 1;
      Less(cfg, stays);
      var first := Filled(cfg, stays[..n]);
      hide Run;
      var s := Run(cfg, EMPTY, first);
      var more := AddStay(cfg, s, n, stays[n]);
      RunAppend(cfg, EMPTY, first, more);
      ops := first + more;
    }
  }

  /** Beside such a list, one more request and its canned reply exceed the limit. */
  lemma OverrunHappens(cfg: Config, others: seq<Stay>) returns (ops: seq<Op>)
    requires OverrunBeside(cfg, others)
    ensures Submitted(cfg, ops) && !WithinBytes(cfg, Run(cfg, EMPTY, ops))
  {
    hide Sum, Usage, Step, Run;
    var first := Filled(cfg, others);
    var s := Run(cfg, EMPTY, first);
    var more := AddStay(cfg, s, |others|, Holding(LargerCanned(cfg)));
    RunAppend(cfg, EMPTY, first, more);
    ops := first + more;
  }

  /**
   A configuration keeps its hard byte limit in every run exactly when no list of correlations
   leaves room for one more request but not for a canned reply to it.
   */
  lemma NeverOverIffCannotOverrun(cfg: Config)
    ensures NeverOver(cfg) <==> !CanOverrun(cfg)
  {
    hide Sum, Usage, Run;
    if CanOverrun(cfg) {
      var others :| OverrunBeside(cfg, others);
      var ops := OverrunHappens(cfg, others);
    } else {
      forall ops: seq<Op> | Submitted(cfg, ops)
        ensures WithinBytes(cfg, Run(cfg, EMPTY, ops))
      {
        EmptyUsesNothing();
        RunStaysWithin(cfg, EMPTY, ops);
      }
    }
  }

  // ------------------------------------------------------------ whichever limits are configured

  function WithLimits(cfg: Config, hardBytes: nat, maxRecords: nat): Config {
    cfg.(hardBytes := hardBytes, maxRecords := maxRecords)
  }

  /** The hard byte limit holds in every run, whichever admissible limits are configured. */
  ghost predicate HardLimitHolds(cfg: Config) {
    forall hardBytes: nat, maxRecords: nat ::
      WithLimits(cfg, hardBytes, maxRecords).Valid() ==> NeverOver(WithLimits(cfg, hardBytes, maxRecords))
  }

  /**
   Under all admissible limits the byte limit is kept exactly when both canned replies fit the
   bytes reserved at admission. Configuration validation does not check the right-hand side.
   */
  lemma HardLimitIffCannedRepliesFit(cfg: Config)
    requires cfg.maxPayload >= 1 && cfg.retention >= 1
    ensures HardLimitHolds(cfg) <==> cfg.CannedRepliesFit()
  {
    hide NeverOver;
    if cfg.CannedRepliesFit() {
      forall hardBytes: nat, maxRecords: nat
        ensures NeverOver(WithLimits(cfg, hardBytes, maxRecords))
      {
        NeverOverIffCannotOverrun(WithLimits(cfg, hardBytes, maxRecords));
      }
    } else {
      var c := WithLimits(cfg, 2 * (CORRELATION_BYTES + cfg.maxPayload), 6);
      var one := [Waiting(0)];
      assert one[..0] == [] && TotalBytes(c, one) == Cost(c, one[0]) && TotalRecords(one) == 3;
      assert OverrunBeside(c, one);
      NeverOverIffCannotOverrun(c);
      assert c.Valid();
    }
  }
}
