/**
 The Command bus as the script keeps it: a request stream with its pending list,
 correlation hashes, reply keys, a deadline index, consumer leases and five counters.

 Every method is one script call, statement by statement. Each is proved to keep the
 counters and indexes exact and to act on the correlations as `CommandLedger` says.
 */
module CommandBus {
  import opened Basics
  import opened CommandLedger

  datatype HashState = Pending | Processing | RepliedState

  /** A correlation hash; fields never set read as the script's defaults. */
  datatype Hash = Hash(
    requestDigest: string,
    deadline: int,
    requestBytes: int,
    reservedReplyBytes: int,
    streamId: nat,
    state: HashState,
    responseBytes: int,
    correlationBytes: int,
    processingOwner: Option<string>,
    processingUntil: int,
    responseDigest: Option<string>,
    cleanupAt: int)

  datatype StreamEntry = StreamEntry(correlation: Uuid, deadline: int, digest: string, payload: Bytes)

  /** The hash and the reply key of `id` say exactly what its ledger entry says. */
  ghost predicate Describes(h: Hash, reply: Option<Bytes>, e: Entry) {
    && h.requestDigest == e.requestDigest
    && h.deadline == e.deadline
    && h.streamId == e.streamId
    && h.correlationBytes == CORRELATION_BYTES
    && e.claim == (if h.processingOwner.Some? then Some(Claim(h.processingOwner.value, h.processingUntil)) else None)
    && match e.phase
       case Open(payload, reserved) =>
         && reply == None
         && h.state == (if e.claim.Some? then Processing else Pending)
         && h.requestBytes == |payload|
         && h.reservedReplyBytes == reserved
         && (e.claim.None? ==> h.processingUntil == 0)
       case Replied(response, digest, at) =>
         && reply == Some(response)
         && h.state == RepliedState
         && h.responseDigest == Some(digest)
         && h.responseBytes == |response|
         && h.cleanupAt == at
  }

  /** When a deadline-index score is due for housekeeping. */
  function Due(e: Entry): int { if e.phase.Open? then e.deadline else e.phase.cleanupAt }

  /** The hash, the reply key and the deadline score of `c` agree with the ledger. */
  ghost predicate Filed(correlations: map<Uuid, Hash>, replies: map<Uuid, Bytes>, deadlines: map<Uuid, int>,
                        book: map<Uuid, Entry>, c: Uuid)
    requires c in book && c in correlations && c in deadlines
  {
    && Describes(correlations[c], if c in replies then Some(replies[c]) else None, book[c])
    && deadlines[c] == Due(book[c])
  }

  /** The deadline index has exactly the live correlations, reply keys exactly the replied ones. */
  ghost predicate Indexed(correlations: map<Uuid, Hash>, replies: map<Uuid, Bytes>, deadlines: map<Uuid, int>,
                          book: map<Uuid, Entry>)
  {
    && correlations.Keys == book.Keys
    && deadlines.Keys == book.Keys
    && replies.Keys <= book.Keys
    && (forall c {:trigger Filed(correlations, replies, deadlines, book, c)} :: c in book ==>
          Filed(correlations, replies, deadlines, book, c))
  }

  /** An open correlation has its stream entry; a replied one has none. */
  ghost predicate Queued(requests: map<nat, StreamEntry>, nextStreamId: nat, book: map<Uuid, Entry>, c: Uuid)
    requires c in book
  {
    && book[c].streamId < nextStreamId
    && (book[c].phase.Open? <==> book[c].streamId in requests)
    && (book[c].phase.Open? ==>
          requests[book[c].streamId]
          == StreamEntry(c, book[c].deadline, book[c].requestDigest, book[c].phase.payload))
  }

  /** An undeleted stream entry belongs to a live correlation. */
  ghost predicate Linked(requests: map<nat, StreamEntry>, book: map<Uuid, Entry>, s: nat)
    requires s in requests
  {
    requests[s].correlation in book && book[requests[s].correlation].streamId == s
  }

  /** Undeleted stream entries and unreplied correlations correspond one to one. */
  ghost predicate Streamed(requests: map<nat, StreamEntry>, delivered: set<nat>, nextStreamId: nat,
                           book: map<Uuid, Entry>)
  {
    && delivered <= requests.Keys
    && (forall c {:trigger Queued(requests, nextStreamId, book, c)} :: c in book ==>
          Queued(requests, nextStreamId, book, c))
    && (forall s {:trigger Linked(requests, book, s)} :: s in requests ==> Linked(requests, book, s))
  }

  lemma IndexedWrite(correlations: map<Uuid, Hash>, replies: map<Uuid, Bytes>, deadlines: map<Uuid, int>,
                     book: map<Uuid, Entry>, id: Uuid, h: Hash, e: Entry)
    requires Indexed(correlations, replies, deadlines, book)
    requires e.phase.Open? ==> id !in replies
    requires Describes(h, if e.phase.Open? then None else Some(e.phase.response), e)
    ensures Indexed(correlations[id := h], if e.phase.Open? then replies else replies[id := e.phase.response],
                    deadlines[id := Due(e)], book[id := e])
  {
    forall c | c in book && c != id
      ensures Filed(correlations, replies, deadlines, book, c)
    {
    }
  }

  lemma IndexedRemove(correlations: map<Uuid, Hash>, replies: map<Uuid, Bytes>, deadlines: map<Uuid, int>,
                      book: map<Uuid, Entry>, id: Uuid)
    requires Indexed(correlations, replies, deadlines, book)
    ensures Indexed(correlations - {id}, replies - {id}, deadlines - {id}, book - {id})
  {
    forall c | c in book - {id}
      ensures Filed(correlations - {id}, replies - {id}, deadlines - {id}, book - {id}, c)
    {
      assert Filed(correlations, replies, deadlines, book, c);
    }
  }

  lemma StreamedAdmit(requests: map<nat, StreamEntry>, delivered: set<nat>, next: nat, book: map<Uuid, Entry>,
                      id: Uuid, e: Entry)
    requires Streamed(requests, delivered, next, book)
    requires id !in book && e.streamId == next && e.phase.Open?
    ensures Streamed(requests[next := StreamEntry(id, e.deadline, e.requestDigest, e.phase.payload)], delivered,
                     next + 1, book[id := e])
  {
    var r := requests[next := StreamEntry(id, e.deadline, e.requestDigest, e.phase.payload)];
    var after := book[id := e];
    forall c | c in after
      ensures Queued(r, next + 1, after, c)
    {
      assert c in book ==> Queued(requests, next, book, c);
    }
    forall s | s in r
      ensures Linked(r, after, s)
    {
      assert s in requests ==> Linked(requests, book, s);
      assert s in requests ==> Queued(requests, next, book, requests[s].correlation);
    }
  }

  /** Replying to an open correlation, or cleaning a replied one, leaves no stream entry behind. */
  lemma StreamedDelete(requests: map<nat, StreamEntry>, delivered: set<nat>, next: nat, book: map<Uuid, Entry>,
                       id: Uuid, after: map<Uuid, Entry>)
    requires Streamed(requests, delivered, next, book) && id in book
    requires after - {id} == book - {id}
    requires id in after ==> after[id].phase.Replied? && after[id].streamId == book[id].streamId
    ensures Streamed(requests - {book[id].streamId}, delivered - {book[id].streamId}, next, after)
  {
    var sid := book[id].streamId;
    assert Queued(requests, next, book, id);
    forall c | c in after
      ensures Queued(requests - {sid}, next, after, c)
    {
      if c != id {
        assert c in after - {id} && c in book && after[c] == book[c];
        assert Queued(requests, next, book, c);
      }
    }
    forall s | s in requests - {sid}
      ensures Linked(requests - {sid}, after, s)
    {
      assert Linked(requests, book, s);
      var c := requests[s].correlation;
      assert c in book - {id} && c in after && after[c] == book[c];
    }
  }

  lemma StreamedReclaim(requests: map<nat, StreamEntry>, delivered: set<nat>, next: nat, book: map<Uuid, Entry>,
                        id: Uuid, claim: Option<Claim>)
    requires Streamed(requests, delivered, next, book) && id in book
    ensures Streamed(requests, delivered, next, book[id := book[id].(claim := claim)])
  {
    var after := book[id := book[id].(claim := claim)];
    forall c | c in after
      ensures Queued(requests, next, after, c)
    {
      assert Queued(requests, next, book, c);
    }
    forall s | s in requests
      ensures Linked(requests, after, s)
    {
      assert Linked(requests, book, s);
    }
  }

  /** The keys of the bus in one Redis namespace, with the server's clock. */
  datatype Store = Store(
    requests: map<nat, StreamEntry>,
    delivered: set<nat>,
    nextStreamId: nat,
    correlations: map<Uuid, Hash>,
    replies: map<Uuid, Bytes>,
    deadlines: map<Uuid, int>,
    consumers: map<string, int>,
    quota: Quota,
    clock: int)

  /** Every index and every counter of the store is exactly what the ledger entries make it. */
  ghost predicate Agrees(k: Store, book: map<Uuid, Entry>) {
    && Indexed(k.correlations, k.replies, k.deadlines, book)
    && Streamed(k.requests, k.delivered, k.nextStreamId, book)
    && k.quota == Usage(book)
  }

  class Bus {
    const cfg: Config
    var store: Store
    ghost var book: map<Uuid, Entry>

    ghost function View(): Ledger
      reads this
    {
      Ledger(book, store.consumers, store.nextStreamId, store.clock)
    }

    ghost predicate Valid()
      reads this
    {
      Agrees(store, book)
    }

    constructor (cfg: Config)
      ensures Valid() && View() == EMPTY && this.cfg == cfg
    {
      this.cfg := cfg;
      store := Store(map[], {}, 0, map[], map[], map[], map[], Quota(0, 0, 0, 0, 0), 0);
      book := map[];
    }

    method Heartbeat(owner: string, lease: nat)
      requires Valid()
      modifies this
      ensures Valid() && View() == Step(cfg, old(View()), Op.Heartbeat(owner, lease)).0
    {
      var live := LiveConsumers(store.consumers, store.clock);
      store := store.(consumers := live[owner := store.clock + lease]);
    }

    method RemoveConsumer(owner: string)
      requires Valid()
      modifies this
      ensures Valid() && View() == Step(cfg, old(View()), Op.RemoveConsumer(owner)).0
    {
      store := store.(consumers := store.consumers - {owner});
    }

    /** Time passes on the server between two script calls. */
    method Tick(millis: nat)
      requires Valid()
      modifies this
      ensures Valid() && View() == Step(cfg, old(View()), Op.Tick(millis)).0
    {
      store := store.(clock := store.clock + millis);
    }

    /** The stream group hands an undeleted entry to a consumer. */
    method Deliver(streamId: nat) returns (entry: Option<StreamEntry>)
      requires Valid()
      modifies this`store
      ensures Valid() && View() == old(View())
      ensures entry.Some? <==> exists c :: c in book && book[c].phase.Open? && book[c].streamId == streamId
      ensures entry.Some? ==>
                var c := entry.value.correlation;
                && c in book && book[c].phase.Open? && book[c].streamId == streamId && streamId in store.delivered
                && entry.value == StreamEntry(c, book[c].deadline, book[c].requestDigest, book[c].phase.payload)
    {
      if streamId in store.requests {
        assert Linked(store.requests, book, streamId);
        assert Queued(store.requests, store.nextStreamId, book, store.requests[streamId].correlation);
        store := store.(delivered := store.delivered + {streamId});
        entry := Some(store.requests[streamId]);
      } else {
        forall c | c in book && book[c].phase.Open?
          ensures book[c].streamId != streamId
        {
          assert Queued(store.requests, store.nextStreamId, book, c);
        }
        entry := None;
      }
    }

    method Admit(id: Uuid, deadline: int, payload: Bytes, digest: string, retrying: bool)
      returns (status: Status, report: Quota)
      requires Valid()
      modifies this
      ensures Valid() && report == Usage(book)
      ensures View() == AdmitStep(cfg, old(View()), id, deadline, payload, digest, retrying).0
      ensures status == AdmitStep(cfg, old(View()), id, deadline, payload, digest, retrying).1
    {
      hide Sum;
      var k := store.(consumers := LiveConsumers(store.consumers, store.clock));
      store := k;
      if k.consumers == map[] {
        return Unavailable, k.quota;
      }
      if deadline <= k.clock {
        return Expired, k.quota;
      }
      if id in k.correlations {
        assert Filed(k.correlations, k.replies, k.deadlines, book, id);
        if retrying && k.correlations[id].requestDigest == digest {
          return Admitted, k.quota;
        }
        return Duplicate, k.quota;
      }
      var admittedBytes := |payload| + cfg.maxPayload + CORRELATION_BYTES;
      if k.quota.usedBytes + admittedBytes > cfg.hardBytes || k.quota.Records() + 3 > cfg.maxRecords {
        return Fenced, k.quota;
      }
      FileRequest(id, deadline, payload, digest);
      return Admitted, store.quota;
    }

    /** Queues a new request and reserves what its reply may cost. */
    method FileRequest(id: Uuid, deadline: int, payload: Bytes, digest: string)
      requires Valid() && id !in book
      modifies this
      ensures Valid() && View() == File(cfg, old(View()), id, deadline, payload, digest)
    {
      hide Sum;
      var k := store;
      var streamId := k.nextStreamId;
      var hash := Hash(digest, deadline, |payload|, cfg.maxPayload, streamId, Pending,
                       0, CORRELATION_BYTES, None, 0, None, 0);
      ghost var e := Entry(digest, deadline, streamId, None, Open(payload, cfg.maxPayload));
      UsageAfterWrite(book, id, e);
      IndexedWrite(k.correlations, k.replies, k.deadlines, book, id, hash, e);
      StreamedAdmit(k.requests, k.delivered, streamId, book, id, e);

      k := k.(nextStreamId := streamId + 1,
              requests := k.requests[streamId := StreamEntry(id, deadline, digest, payload)]);
      k := k.(correlations := k.correlations[id := hash]);
      k := k.(deadlines := k.deadlines[id := deadline]);
      k := k.(quota := k.quota.(usedBytes := k.quota.usedBytes + |payload| + cfg.maxPayload + CORRELATION_BYTES));
      k := k.(quota := k.quota.(requestRecords := k.quota.requestRecords + 1));
      k := k.(quota := k.quota.(correlationRecords := k.quota.correlationRecords + 1));
      k := k.(quota := k.quota.(replyReservations := k.quota.replyReservations + 1));
      store := k;
      book := book[id := e];
    }

    /** Answers an unreplied correlation and releases what its request held. */
    method CommitReply(id: Uuid, response: Bytes, digest: string, cleanupAt: int)
      requires Valid() && id in book && book[id].phase.Open? && cleanupAt == store.clock + cfg.retention
      modifies this
      ensures Valid() && View() == Commit(cfg, old(View()), id, response, digest)
    {
      hide Sum;
      var k := store;
      assert Filed(k.correlations, k.replies, k.deadlines, book, id);
      var hash := k.correlations[id];
      var answered := hash.(state := RepliedState, responseDigest := Some(digest),
                            responseBytes := |response|, cleanupAt := cleanupAt);
      ghost var e := book[id].(phase := Phase.Replied(response, digest, cleanupAt));
      UsageAfterWrite(book, id, e);
      IndexedWrite(k.correlations, k.replies, k.deadlines, book, id, answered, e);
      StreamedDelete(k.requests, k.delivered, k.nextStreamId, book, id, book[id := e]);

      k := k.(replies := k.replies[id := response]);
      k := k.(correlations := k.correlations[id := answered]);
      k := k.(delivered := k.delivered - {hash.streamId});
      k := k.(requests := k.requests - {hash.streamId});
      k := k.(deadlines := k.deadlines[id := cleanupAt]);
      k := k.(quota := k.quota.(usedBytes :=
                  k.quota.usedBytes + |response| - hash.requestBytes - hash.reservedReplyBytes));
      k := k.(quota := k.quota.(requestRecords := k.quota.requestRecords - 1));
      k := k.(quota := k.quota.(replyReservations := k.quota.replyReservations - 1));
      k := k.(quota := k.quota.(replyRecords := k.quota.replyRecords + 1));
      store := k;
      book := book[id := e];
    }

    method ClaimEntry(id: Uuid, streamId: nat, owner: string, lease: nat)
      returns (status: Status, report: Quota)
      requires Valid()
      modifies this
      ensures Valid() && report == Usage(book)
      ensures View() == ClaimStep(cfg, old(View()), id, streamId, owner, lease).0
      ensures status == ClaimStep(cfg, old(View()), id, streamId, owner, lease).1
    {
      hide Sum;
      var k := store;
      if id !in k.correlations {
        return Missing, k.quota;
      }
      assert Filed(k.correlations, k.replies, k.deadlines, book, id);
      assert Queued(k.requests, k.nextStreamId, book, id);
      var hash := k.correlations[id];
      if hash.streamId != streamId {
        return Conflict, k.quota;
      }
      if hash.state == RepliedState {
        assert k.requests - {streamId} == k.requests && k.delivered - {streamId} == k.delivered;
        k := k.(delivered := k.delivered - {streamId});
        k := k.(requests := k.requests - {streamId});
        store := k;
        return Answered, k.quota;
      }
      if hash.deadline <= k.clock {
        CommitReply(id, cfg.expiredReply, cfg.expiredDigest, k.clock + cfg.retention);
        return Expired, store.quota;
      }
      if hash.state == Processing {
        if hash.processingUntil > k.clock && hash.processingOwner != Some(owner) {
          return Busy, k.quota;
        }
      }
      var claimed := hash.(state := Processing, processingOwner := Some(owner), processingUntil := k.clock + lease);
      ghost var e := book[id].(claim := Some(Claim(owner, k.clock + lease)));
      UsageAfterWrite(book, id, e);
      IndexedWrite(k.correlations, k.replies, k.deadlines, book, id, claimed, e);
      assert k.deadlines[id := Due(e)] == k.deadlines;
      StreamedReclaim(k.requests, k.delivered, k.nextStreamId, book, id, e.claim);
      store := k.(correlations := k.correlations[id := claimed]);
      book := book[id := e];
      return Process, store.quota;
    }

    /** A consumer offers what its handler returned. */
    method Reply(id: Uuid, streamId: nat, owner: string, handled: Bytes, digest: string)
      returns (status: Status, report: Quota)
      requires Valid()
      modifies this
      ensures Valid() && report == Usage(book)
      ensures View() == ReplyStep(cfg, old(View()), id, streamId, owner, handled, digest).0
      ensures status == ReplyStep(cfg, old(View()), id, streamId, owner, handled, digest).1
    {
      var response := handled;
      if |response| > cfg.maxPayload {
        response := cfg.oversizedReply;
      }
      var k := store;
      if id !in k.correlations {
        return Missing, k.quota;
      }
      assert Filed(k.correlations, k.replies, k.deadlines, book, id);
      var hash := k.correlations[id];
      if hash.state == RepliedState {
        if hash.responseDigest == Some(digest) {
          return Replayed, k.quota;
        }
        return Conflict, k.quota;
      }
      if hash.state != Processing || hash.processingOwner != Some(owner) || hash.streamId != streamId {
        return Conflict, k.quota;
      }
      CommitReply(id, response, digest, k.clock + cfg.retention);
      return Answered, store.quota;
    }

    method Cleanup(id: Uuid, delivery: bool) returns (status: Status, report: Quota)
      requires Valid()
      modifies this
      ensures Valid() && report == Usage(book)
      ensures View() == CleanupStep(cfg, old(View()), id, delivery).0
      ensures status == CleanupStep(cfg, old(View()), id, delivery).1
    {
      var k := store;
      if id !in k.correlations {
        assert k.deadlines - {id} == k.deadlines;
        store := k.(deadlines := k.deadlines - {id});
        return Cleaned, k.quota;
      }
      assert Filed(k.correlations, k.replies, k.deadlines, book, id);
      var hash := k.correlations[id];
      if hash.state != RepliedState && hash.deadline <= k.clock {
        if hash.state != Processing || hash.processingUntil <= k.clock {
          CommitReply(id, cfg.expiredReply, cfg.expiredDigest, k.clock + cfg.retention);
          return Expired, store.quota;
        }
        return Active, k.quota;
      }
      if hash.state != RepliedState {
        return Active, k.quota;
      }
      if !delivery && hash.cleanupAt > k.clock {
        return Retained, k.quota;
      }
      Remove(id);
      return Cleaned, store.quota;
    }

    /** Drops an answered correlation with its reply and its accounting. */
    method Remove(id: Uuid)
      requires Valid() && id in book && book[id].phase.Replied?
      modifies this
      ensures Valid() && View() == old(View()).(entries := old(book) - {id})
    {
      hide Sum;
      var k := store;
      assert Filed(k.correlations, k.replies, k.deadlines, book, id);
      var hash := k.correlations[id];
      UsageWithout(book, id);
      IndexedRemove(k.correlations, k.replies, k.deadlines, book, id);
      assert (book - {id}) - {id} == book - {id};
      StreamedDelete(k.requests, k.delivered, k.nextStreamId, book, id, book - {id});
      k := k.(replies := k.replies - {id});
      k := k.(correlations := k.correlations - {id});
      k := k.(deadlines := k.deadlines - {id});
      k := k.(delivered := k.delivered - {hash.streamId});
      k := k.(requests := k.requests - {hash.streamId});
      k := k.(quota := k.quota.(usedBytes := k.quota.usedBytes - hash.responseBytes - hash.correlationBytes));
      k := k.(quota := k.quota.(correlationRecords := k.quota.correlationRecords - 1));
      k := k.(quota := k.quota.(replyRecords := k.quota.replyRecords - 1));
      store := k;
      book := book - {id};
    }
  }
}
