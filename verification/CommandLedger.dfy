/**
 The Redis Command bus as a ledger of correlations.

 The ledger has no counters and no indexes: what an admission may use is the exact sum
 over the live correlations. `CommandBus` refines it with the keys the script really
 keeps. One `Step` is one atomic script call of an API client or a Conductor consumer;
 a run interleaves calls of any number of parties, and the clock moves between them.
 */
module CommandLedger {
  import opened Basics

  type Uuid = nat

  /** Accounted bytes of one correlation hash. */
  const CORRELATION_BYTES := 256

  /** Settings every party shares, and the two replies the bus itself may commit. */
  datatype Config = Config(
    maxPayload: nat,
    hardBytes: nat,
    maxRecords: nat,
    retention: nat,
    expiredReply: Bytes,
    expiredDigest: string,
    oversizedReply: Bytes)
  {
    /** What configuration validation demands of the modelled settings. */
    predicate Valid() {
      && maxPayload >= 1
      && retention >= 1
      && maxRecords >= 3
      && hardBytes >= CORRELATION_BYTES + maxPayload + 1
    }

    /** Both replies the bus writes itself fit the bytes reserved at admission. */
    predicate CannedRepliesFit() {
      |expiredReply| <= maxPayload && |oversizedReply| <= maxPayload
    }

    /** The response a consumer offers for what its handler returned. */
    function Offered(response: Bytes): Bytes {
      if |response| > maxPayload then oversizedReply else response
    }
  }

  datatype Claim = Claim(owner: string, until: int)

  datatype Phase =
    | Open(payload: Bytes, reserved: nat)
    | Replied(response: Bytes, responseDigest: string, cleanupAt: int)

  datatype Entry = Entry(
    requestDigest: string, deadline: int, streamId: nat, claim: Option<Claim>, phase: Phase)

  datatype Ledger = Ledger(
    entries: map<Uuid, Entry>, consumers: map<string, int>, nextStream: nat, now: int)

  datatype Status =
    | Admitted | Duplicate | Expired | Unavailable | Fenced
    | Missing | Conflict | Busy | Process | Answered | Replayed
    | Cleaned | Active | Retained | Done

  datatype Op =
    | Heartbeat(owner: string, lease: nat)
    | RemoveConsumer(owner: string)
    | Admit(id: Uuid, deadline: int, payload: Bytes, digest: string, retrying: bool)
    | ClaimEntry(id: Uuid, streamId: nat, owner: string, lease: nat)
    | Reply(id: Uuid, streamId: nat, owner: string, response: Bytes, digest: string)
    | Cleanup(id: Uuid, delivered: bool)
    | Tick(millis: nat)

  // ------------------------------------------------------------------ accounting

  function BytesOf(e: Entry): int {
    CORRELATION_BYTES + (match e.phase
                         case Open(payload, reserved) => |payload| + reserved
                         case Replied(response, _, _) => |response|)
  }

  function OneOf(e: Entry): int { 1 }

  function OpenOf(e: Entry): int { if e.phase.Open? then 1 else 0 }

  function RepliedOf(e: Entry): int { if e.phase.Replied? then 1 else 0 }

  /** The five counters of the quota hash. */
  datatype Quota = Quota(
    usedBytes: int, requestRecords: int, correlationRecords: int, replyRecords: int, replyReservations: int)
  {
    function Records(): int {
      requestRecords + correlationRecords + replyRecords + replyReservations
    }
  }

  /** The exact usage: sums over the live correlations. */
  ghost function Usage(entries: map<Uuid, Entry>): Quota {
    Quota(Sum(entries, BytesOf), Sum(entries, OpenOf), Sum(entries, OneOf), Sum(entries, RepliedOf),
          Sum(entries, OpenOf))
  }

  /** What writing `e` over `was` adds to every counter. */
  function Change(was: Option<Entry>, e: Entry): Quota {
    var bytes, open, replied := BytesOf(e), OpenOf(e), RepliedOf(e);
    match was
    case None => Quota(bytes, open, 1, replied, open)
    case Some(o) => Quota(bytes - BytesOf(o), open - OpenOf(o), 0, replied - RepliedOf(o), open - OpenOf(o))
  }

  lemma UsageAfterWrite(entries: map<Uuid, Entry>, id: Uuid, e: Entry)
    ensures var d := Change(if id in entries then Some(entries[id]) else None, e);
            var u := Usage(entries);
            Usage(entries[id := e])
            == Quota(u.usedBytes + d.usedBytes, u.requestRecords + d.requestRecords,
                     u.correlationRecords + d.correlationRecords, u.replyRecords + d.replyRecords,
                     u.replyReservations + d.replyReservations)
  {
    SumUpdate(entries, id, e, BytesOf);
    SumUpdate(entries, id, e, OpenOf);
    SumUpdate(entries, id, e, RepliedOf);
    SumUpdate(entries, id, e, OneOf);
  }

  lemma UsageWithout(entries: map<Uuid, Entry>, id: Uuid)
    requires id in entries && entries[id].phase.Replied?
    ensures var u := Usage(entries);
            Usage(entries - {id})
            == Quota(u.usedBytes - BytesOf(entries[id]), u.requestRecords, u.correlationRecords - 1,
                     u.replyRecords - 1, u.replyReservations)
  {
    SumRemove(entries, id, BytesOf);
    SumRemove(entries, id, OpenOf);
    SumRemove(entries, id, RepliedOf);
    SumRemove(entries, id, OneOf);
  }

  // ------------------------------------------------------------------ the script

  function LiveConsumers(consumers: map<string, int>, now: int): map<string, int> {
    map c | c in consumers && consumers[c] > now :: consumers[c]
  }

  function Purged(s: Ledger): Ledger {
    s.(consumers := LiveConsumers(s.consumers, s.now))
  }

  /** The admission leaves both hard limits intact. */
  ghost predicate Fits(cfg: Config, usage: Quota, payload: Bytes) {
    && usage.usedBytes + |payload| + cfg.maxPayload + CORRELATION_BYTES <= cfg.hardBytes
    && usage.Records() + 3 <= cfg.maxRecords
  }

  function File(cfg: Config, s: Ledger, id: Uuid, deadline: int, payload: Bytes, digest: string): Ledger {
    var e := Entry(digest, deadline, s.nextStream, None, Open(payload, cfg.maxPayload));
    s.(entries := s.entries[id := e], nextStream := s.nextStream + 1)
  }

  ghost function AdmitStep(cfg: Config, s: Ledger, id: Uuid, deadline: int, payload: Bytes,
                           digest: string, retrying: bool): (Ledger, Status)
  {
    var p := Purged(s);
    if p.consumers == map[] then (p, Unavailable)
    else if deadline <= s.now then (p, Expired)
    else if id in s.entries then
      (p, if retrying && s.entries[id].requestDigest == digest then Admitted else Duplicate)
    else if !Fits(cfg, Usage(s.entries), payload) then (p, Fenced)
    else (File(cfg, p, id, deadline, payload, digest), Admitted)
  }

  function Commit(cfg: Config, s: Ledger, id: Uuid, response: Bytes, digest: string): Ledger
    requires id in s.entries
  {
    var e := s.entries[id].(phase := Phase.Replied(response, digest, s.now + cfg.retention));
    s.(entries := s.entries[id := e])
  }

  function ClaimStep(cfg: Config, s: Ledger, id: Uuid, streamId: nat, owner: string, lease: nat)
    : (Ledger, Status)
  {
    if id !in s.entries then (s, Missing)
    else
      var e := s.entries[id];
      if e.streamId != streamId then (s, Conflict)
      else if e.phase.Replied? then (s, Answered)
      else if e.deadline <= s.now then
        (Commit(cfg, s, id, cfg.expiredReply, cfg.expiredDigest), Expired)
      else if e.claim.Some? && e.claim.value.until > s.now && e.claim.value.owner != owner then
        (s, Busy)
      else
        (s.(entries := s.entries[id := e.(claim := Some(Claim(owner, s.now + lease)))]), Process)
  }

  function ReplyStep(cfg: Config, s: Ledger, id: Uuid, streamId: nat, owner: string,
                     response: Bytes, digest: string): (Ledger, Status)
  {
    if id !in s.entries then (s, Missing)
    else
      var e := s.entries[id];
      if e.phase.Replied? then
        (s, if e.phase.responseDigest == digest then Replayed else Conflict)
      else if e.claim.None? || e.claim.value.owner != owner || e.streamId != streamId then
        (s, Conflict)
      else (Commit(cfg, s, id, cfg.Offered(response), digest), Answered)
  }

  function CleanupStep(cfg: Config, s: Ledger, id: Uuid, delivered: bool): (Ledger, Status) {
    if id !in s.entries then (s, Cleaned)
    else
      var e := s.entries[id];
      if e.phase.Open? then
        if e.deadline <= s.now && (e.claim.None? || e.claim.value.until <= s.now) then
          (Commit(cfg, s, id, cfg.expiredReply, cfg.expiredDigest), Expired)
        else (s, Active)
      else if !delivered && e.phase.cleanupAt > s.now then (s, Retained)
      else (s.(entries := s.entries - {id}), Cleaned)
  }

  ghost function Step(cfg: Config, s: Ledger, op: Op): (Ledger, Status) {
    match op
    case Heartbeat(owner, lease) =>
      (s.(consumers := LiveConsumers(s.consumers, s.now)[owner := s.now + lease]), Done)
    case RemoveConsumer(owner) => (s.(consumers := s.consumers - {owner}), Done)
    case Admit(id, deadline, payload, digest, retrying) =>
      AdmitStep(cfg, s, id, deadline, payload, digest, retrying)
    case ClaimEntry(id, streamId, owner, lease) => ClaimStep(cfg, s, id, streamId, owner, lease)
    case Reply(id, streamId, owner, response, digest) =>
      ReplyStep(cfg, s, id, streamId, owner, response, digest)
    case Cleanup(id, delivered) => CleanupStep(cfg, s, id, delivered)
    case Tick(millis) => (s.(now := s.now + millis), Done)
  }

  ghost function Run(cfg: Config, s: Ledger, ops: seq<Op>): Ledger
    decreases |ops|
  {
    if ops == [] then s else Run(cfg, Step(cfg, s, ops[0]).0, ops[1..])
  }

  const EMPTY := Ledger(map[], map[], 0, 0)

  lemma {:induction false} RunAppend(cfg: Config, s: Ledger, a: seq<Op>, b: seq<Op>)
    ensures Run(cfg, s, a + b) == Run(cfg, Run(cfg, s, a), b)
    decreases |a|
  {
    if a == [] {
      assert a + b == b;
    } else {
      assert (a + b)[0] == a[0] && (a + b)[1..] == a[1..] + b;
      RunAppend(cfg, Step(cfg, s, a[0]).0, a[1..], b);
    }
  }
}
