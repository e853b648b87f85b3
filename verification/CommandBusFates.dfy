/** What may become of one correlation: exactly who files, claims, answers and removes it, and when. */
module CommandBusFates {
  import opened Basics
  import opened CommandLedger
  import opened CommandBusLaws

  // ------------------------------------------------------------ one step

  ghost predicate LiveConsumer(s: Ledger) { exists c :: c in s.consumers && s.consumers[c] > s.now }

  /** The payload, the largest reply and the correlation fit both hard limits. */
  ghost predicate Room(cfg: Config, s: Ledger, payload: Bytes) {
    var u := Usage(s.entries);
    && u.usedBytes + |payload| + cfg.maxPayload + CORRELATION_BYTES <= cfg.hardBytes
    && u.requestRecords + u.correlationRecords + u.replyRecords + u.replyReservations + 3 <= cfg.maxRecords
  }

  /** This step admits the absent `id`. */
  ghost predicate Files(cfg: Config, s: Ledger, op: Op, id: Uuid) {
    op.Admit? && op.id == id && op.deadline > s.now && LiveConsumer(s) && Room(cfg, s, op.payload)
  }

  /** This step grants the open `e` to its owner: in time, and in nobody else's lease. */
  predicate Claims(s: Ledger, e: Entry, op: Op, id: Uuid) {
    && op.ClaimEntry? && op.id == id && op.streamId == e.streamId && s.now < e.deadline
    && (e.claim.None? || e.claim.value.until <= s.now || e.claim.value.owner == op.owner)
  }

  /** This step is the reply of the owner of the claim. */
  predicate Handles(e: Entry, op: Op, id: Uuid) {
    && op.Reply? && op.id == id && op.streamId == e.streamId
    && e.claim.Some? && e.claim.value.owner == op.owner
  }

  /** This step finds the deadline passed; housekeeping also waits for the lease to end. */
  predicate Expires(s: Ledger, e: Entry, op: Op, id: Uuid) {
    && e.deadline <= s.now
    && (|| (op.ClaimEntry? && op.id == id && op.streamId == e.streamId)
        || (op.Cleanup? && op.id == id && (e.claim.None? || e.claim.value.until <= s.now)))
  }

  /** This step removes the replied `id`: its reply was delivered, or its retention is over. */
  predicate Removes(s: Ledger, op: Op, id: Uuid, cleanupAt: int) {
    op.Cleanup? && op.id == id && (op.delivered || cleanupAt <= s.now)
  }

  lemma LiveOnes(s: Ledger)
    ensures LiveConsumers(s.consumers, s.now) != map[] <==> LiveConsumer(s)
  {
    if c :| c in s.consumers && s.consumers[c] > s.now {
      assert c in LiveConsumers(s.consumers, s.now);
    }
  }

  /** An absent correlation appears exactly by an admission that fits, and as it was submitted. */
  lemma AbsentFate(cfg: Config, s: Ledger, op: Op, id: Uuid)
    requires id !in s.entries
    ensures var t := Step(cfg, s, op).0;
            && (id in t.entries <==> Files(cfg, s, op, id))
            && (id in t.entries ==>
                  && t.entries[id] ==
                       Entry(op.digest, op.deadline, s.nextStream, None, Open(op.payload, cfg.maxPayload))
                  && t.nextStream == s.nextStream + 1)
  {
    hide Sum, Usage;
    LiveOnes(s);
  }

  /** An open correlation stays; exactly its owner's reply or its expiry answers it, and only a grant claims it. */
  lemma OpenFate(cfg: Config, s: Ledger, op: Op, id: Uuid)
    requires id in s.entries && s.entries[id].phase.Open?
    ensures var t, e := Step(cfg, s, op).0, s.entries[id];
            && id in t.entries
            && (t.entries[id].phase.Replied? <==> Handles(e, op, id) || Expires(s, e, op, id))
            && (Handles(e, op, id) ==>
                  t.entries[id] == e.(phase := Phase.Replied(
                    if |op.response| > cfg.maxPayload then cfg.oversizedReply else op.response,
                    op.digest, s.now + cfg.retention)))
            && (Expires(s, e, op, id) ==>
                  t.entries[id] ==
                    e.(phase := Phase.Replied(cfg.expiredReply, cfg.expiredDigest, s.now + cfg.retention)))
            && (t.entries[id].phase.Open? ==>
                  t.entries[id] ==
                    if Claims(s, e, op, id) then e.(claim := Some(Claim(op.owner, s.now + op.lease))) else e)
  {
    hide Sum, Usage;
  }

  /** A replied correlation goes exactly when it was delivered or its retention is over, and never changes. */
  lemma RepliedFate(cfg: Config, s: Ledger, op: Op, id: Uuid)
    requires id in s.entries && s.entries[id].phase.Replied?
    ensures var t := Step(cfg, s, op).0;
            && (id !in t.entries <==> Removes(s, op, id, s.entries[id].phase.cleanupAt))
            && (id in t.entries ==> t.entries[id] == s.entries[id])
  {
    hide Sum, Usage;
  }

  /** A consumer is live exactly through its last heartbeat, its removal and the clock. */
  lemma ConsumerFate(cfg: Config, s: Ledger, op: Op, c: string)
    ensures var t := Step(cfg, s, op).0;
            && t.now == s.now + (if op.Tick? then op.millis else 0)
            && (op == RemoveConsumer(c) ==> c !in t.consumers)
            && (op.Heartbeat? && op.owner == c ==> c in t.consumers && t.consumers[c] == s.now + op.lease)
            && (!(op.Heartbeat? && op.owner == c) && op != RemoveConsumer(c) ==>
                  && (c in t.consumers ==> c in s.consumers && s.consumers[c] == t.consumers[c])
                  && (c in s.consumers && s.consumers[c] > t.now ==> c in t.consumers))
  {
    hide Sum, Usage;
  }

  /** The stream number moves exactly with an admission. */
  lemma StreamFate(cfg: Config, s: Ledger, op: Op)
    ensures var t := Step(cfg, s, op).0;
            t.nextStream == s.nextStream + (if t.entries.Keys != s.entries.Keys && op.Admit? then 1 else 0)
  {
    hide Sum, Usage;
    if op.Admit? && op.id !in s.entries {
      AbsentFate(cfg, s, op, op.id);
    }
  }

  // ------------------------------------------------------------ what the caller is told

  lemma AdmitAnswer(cfg: Config, s: Ledger, op: Op)
    requires op.Admit?
    ensures var r := Step(cfg, s, op).1;
            && (r == Unavailable <==> !LiveConsumer(s))
            && (r == Expired <==> LiveConsumer(s) && op.deadline <= s.now)
            && (LiveConsumer(s) && op.deadline > s.now && op.id in s.entries ==>
                  r == if op.retrying && s.entries[op.id].requestDigest == op.digest then Admitted else Duplicate)
            && (LiveConsumer(s) && op.deadline > s.now && op.id !in s.entries ==>
                  r == if Room(cfg, s, op.payload) then Admitted else Fenced)
  {
    hide Sum, Usage;
    LiveOnes(s);
  }

  /** The validated settings are exactly those under which an idle bus in use admits a request of one byte. */
  lemma ValidIffOneByteFits(cfg: Config, s: Ledger, op: Op)
    requires op.Admit? && |op.payload| == 1 && op.deadline > s.now
    requires s.entries == map[] && LiveConsumer(s)
    ensures cfg.Valid() <==> cfg.maxPayload >= 1 && cfg.retention >= 1 && Step(cfg, s, op).1 == Admitted
  {
    AdmitAnswer(cfg, s, op);
  }

  lemma ClaimAnswer(cfg: Config, s: Ledger, op: Op)
    requires op.ClaimEntry?
    ensures var r := Step(cfg, s, op).1;
            if op.id !in s.entries then r == Missing
            else
              var e := s.entries[op.id];
              && (r == Conflict <==> e.streamId != op.streamId)
              && (r == Answered <==> e.streamId == op.streamId && e.phase.Replied?)
              && (r == Expired <==> e.phase.Open? && Expires(s, e, op, op.id))
              && (r == Process <==> e.phase.Open? && Claims(s, e, op, op.id))
              && r in {Conflict, Answered, Expired, Process, Busy}
  {
    hide Sum, Usage;
  }

  lemma ReplyAnswer(cfg: Config, s: Ledger, op: Op)
    requires op.Reply?
    ensures var r := Step(cfg, s, op).1;
            if op.id !in s.entries then r == Missing
            else
              var e := s.entries[op.id];
              && (r == Answered <==> e.phase.Open? && Handles(e, op, op.id))
              && (r == Replayed <==> e.phase.Replied? && e.phase.responseDigest == op.digest)
              && r in {Answered, Replayed, Conflict}
  {
    hide Sum, Usage;
  }

  lemma CleanupAnswer(cfg: Config, s: Ledger, op: Op)
    requires op.Cleanup?
    ensures var (t, r) := Step(cfg, s, op);
            && (r == Cleaned <==> op.id !in t.entries)
            && (r == Active <==> op.id in t.entries && t.entries[op.id].phase.Open?)
            && (r == Expired <==>
                  op.id in s.entries && s.entries[op.id].phase.Open? && Expires(s, s.entries[op.id], op, op.id))
            && r in {Cleaned, Active, Expired, Retained}
  {
    hide Sum, Usage;
  }

  // ------------------------------------------------------------ over one lifetime

  lemma {:induction false} NowGrows(cfg: Config, s: Ledger, ops: seq<Op>)
    ensures s.now <= Run(cfg, s, ops).now
    decreases |ops|
  {
    hide Sum, Usage, Step;
    if ops != [] {
      ConsumerFate(cfg, s, ops[0], "");
      NowGrows(cfg, Step(cfg, s, ops[0]).0, ops[1..]);
    }
  }

  lemma {:induction false} PayloadIsKept(cfg: Config, s: Ledger, ops: seq<Op>, id: Uuid)
    requires LivesThrough(cfg, s, ops, id) && s.entries[id].phase.Open?
    ensures id in Run(cfg, s, ops).entries
    ensures Run(cfg, s, ops).entries[id].phase.Open? ==> Run(cfg, s, ops).entries[id].phase == s.entries[id].phase
    decreases |ops|
  {
    hide Sum, Usage, Step;
    if ops != [] {
      var t := Step(cfg, s, ops[0]).0;
      OpenFate(cfg, s, ops[0], id);
      if t.entries[id].phase.Open? {
        PayloadIsKept(cfg, t, ops[1..], id);
      } else {
        OneReplyPerLifetime(cfg, t, ops[1..], id);
      }
    }
  }

  /**
   From its admission until it is answered a correlation keeps what was submitted: this is what
   the stream hands to a consumer.
   */
  lemma AdmittedAsSubmitted(cfg: Config, s: Ledger, admit: Op, ops: seq<Op>)
    requires admit.Admit? && admit.id !in s.entries && Files(cfg, s, admit, admit.id)
    requires LivesThrough(cfg, Step(cfg, s, admit).0, ops, admit.id)
    ensures var t := Run(cfg, Step(cfg, s, admit).0, ops);
            && admit.id in t.entries
            && t.entries[admit.id].streamId == s.nextStream
            && t.entries[admit.id].deadline == admit.deadline && t.entries[admit.id].requestDigest == admit.digest
            && (t.entries[admit.id].phase.Open? ==> t.entries[admit.id].phase.payload == admit.payload)
  {
    hide Sum, Usage, Step, Run, LivesThrough;
    AbsentFate(cfg, s, admit, admit.id);
    OneReplyPerLifetime(cfg, Step(cfg, s, admit).0, ops, admit.id);
    PayloadIsKept(cfg, Step(cfg, s, admit).0, ops, admit.id);
  }

  /**
   An open correlation is answered by a reply exactly when that reply comes from the owner of the
   last grant, for the stream entry it was admitted with; the stored response is the offered one,
   or the oversized reply. Any other reply leaves everything as it is.
   */
  lemma AnsweredByLastGrant(cfg: Config, s: Ledger, ops: seq<Op>, reply: Op)
    requires reply.Reply? && LivesThrough(cfg, s, ops, reply.id)
    requires s.entries[reply.id].phase.Open? && s.entries[reply.id].claim.None?
    requires reply.id in Run(cfg, s, ops).entries && Run(cfg, s, ops).entries[reply.id].phase.Open?
    ensures var id, t, log := reply.id, Run(cfg, s, ops), CommandBusLaws.Grants(cfg, s, ops, reply.id);
            var next := Step(cfg, t, reply);
            if log != [] && log[|log| - 1].owner == reply.owner && reply.streamId == s.entries[id].streamId then
              && next.1 == Answered
              && id in next.0.entries
              && next.0.entries[id].phase == Phase.Replied(
                   if |reply.response| > cfg.maxPayload then cfg.oversizedReply else reply.response,
                   reply.digest, t.now + cfg.retention)
            else
              next == (t, Conflict)
  {
    hide Sum, Usage;
    var id, t := reply.id, Run(cfg, s, ops);
    GrantsNeverOverlap(cfg, s, ops, id);
    OneReplyPerLifetime(cfg, s, ops, id);
    OpenFate(cfg, t, reply, id);
    ReplyAnswer(cfg, t, reply);
    hide Run, LivesThrough;
  }

  ghost predicate NotDelivered(ops: seq<Op>, id: Uuid) {
    forall i :: 0 <= i < |ops| ==> ops[i] != Cleanup(id, true)
  }

  lemma {:induction false} RetainedUntil(cfg: Config, s: Ledger, ops: seq<Op>, id: Uuid)
    requires id in s.entries && s.entries[id].phase.Replied? && NotDelivered(ops, id)
    requires Run(cfg, s, ops).now < s.entries[id].phase.cleanupAt
    ensures id in Run(cfg, s, ops).entries && Run(cfg, s, ops).entries[id] == s.entries[id]
    decreases |ops|
  {
    hide Sum, Usage, Step;
    if ops != [] {
      var t := Step(cfg, s, ops[0]).0;
      ConsumerFate(cfg, s, ops[0], "");
      NowGrows(cfg, t, ops[1..]);
      assert ops[0] != Cleanup(id, true);
      RepliedFate(cfg, s, ops[0], id);
      RetainedUntil(cfg, t, ops[1..], id);
    }
  }

  /** A reply stays, byte for byte, through its retention, whatever runs short of a delivered cleanup. */
  lemma ReplyIsRetained(cfg: Config, s: Ledger, answer: Op, ops: seq<Op>, id: Uuid)
    requires id in s.entries && s.entries[id].phase.Open?
    requires id in Step(cfg, s, answer).0.entries && Step(cfg, s, answer).0.entries[id].phase.Replied?
    requires NotDelivered(ops, id) && Run(cfg, Step(cfg, s, answer).0, ops).now < s.now + cfg.retention
    ensures var t, end := Step(cfg, s, answer).0, Run(cfg, Step(cfg, s, answer).0, ops);
            id in end.entries && end.entries[id] == t.entries[id]
  {
    hide Sum, Usage, Step, Run;
    OpenFate(cfg, s, answer, id);
    RetainedUntil(cfg, Step(cfg, s, answer).0, ops, id);
  }

  /** An open correlation never disappears: whatever is gone had its reply first. */
  lemma {:induction false} NeverDroppedUnanswered(cfg: Config, s: Ledger, ops: seq<Op>, id: Uuid) returns (k: nat)
    requires id in s.entries && s.entries[id].phase.Open? && id !in Run(cfg, s, ops).entries
    ensures k < |ops| && id in Run(cfg, s, ops[..k]).entries && Run(cfg, s, ops[..k]).entries[id].phase.Replied?
    decreases |ops|
  {
    hide Sum, Usage, Step;
    var t := Step(cfg, s, ops[0]).0;
    OpenFate(cfg, s, ops[0], id);
    if t.entries[id].phase.Replied? {
      k := 1;
      assert ops[..1] == [ops[0]] && ops[..1][1..] == [];
      assert Run(cfg, s, ops[..1]) == t;
    } else {
      k := NeverDroppedUnanswered(cfg, t, ops[1..], id);
      k := k + 1;
      assert ops[..k][1..] == ops[1..][..k - 1];
    }
  }

  /** Housekeeping leaves alone every correlation whose deadline or lease is still ahead. */
  lemma {:induction false} HousekeepingSpares(cfg: Config, s: Ledger, ops: seq<Op>, id: Uuid)
    requires id in s.entries && s.entries[id].phase.Open? && forall i :: 0 <= i < |ops| ==> Housekeeping(ops[i])
    requires var e, now := s.entries[id], Run(cfg, s, ops).now;
             now < e.deadline || (e.claim.Some? && now < e.claim.value.until)
    ensures id in Run(cfg, s, ops).entries && Run(cfg, s, ops).entries[id] == s.entries[id]
    decreases |ops|
  {
    hide Sum, Usage, Step;
    if ops != [] {
      var t := Step(cfg, s, ops[0]).0;
      ConsumerFate(cfg, s, ops[0], "");
      NowGrows(cfg, t, ops[1..]);
      assert Housekeeping(ops[0]);
      OpenFate(cfg, s, ops[0], id);
      HousekeepingSpares(cfg, t, ops[1..], id);
    }
  }

  /** A consumer that is not removed stays live through its lease, so admission is not unavailable. */
  lemma {:induction false} HeartbeatKeepsAvailable(cfg: Config, s: Ledger, ops: seq<Op>, c: string, until: int)
    requires c in s.consumers && s.consumers[c] >= until && Run(cfg, s, ops).now < until
    requires forall i :: 0 <= i < |ops| ==> ops[i] != RemoveConsumer(c) && !(ops[i].Heartbeat? && ops[i].owner == c)
    ensures LiveConsumer(Run(cfg, s, ops))
    decreases |ops|
  {
    hide Sum, Usage, Step;
    if ops != [] {
      var t := Step(cfg, s, ops[0]).0;
      ConsumerFate(cfg, s, ops[0], c);
      NowGrows(cfg, t, ops[1..]);
      assert ops[0] != RemoveConsumer(c) && !(ops[0].Heartbeat? && ops[0].owner == c);
      HeartbeatKeepsAvailable(cfg, t, ops[1..], c, until);
    }
  }
}
