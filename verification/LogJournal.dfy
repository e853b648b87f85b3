/**
 The local Log staging journal: a header, then length-framed JSON frames. An operation is
 reported only after its frame is appended and synced; opening the journal replays the
 frames and cuts off an incomplete tail.

 JSON and SHA-256 are uninterpreted; frames are assumed to decode to what was encoded.
 */
module LogJournal {
  import opened Basics
  import opened LogStream

  datatype Frame =
    | AcceptedFrame(record: Record)
    | GapFrame(gap: Gap)
    | TerminalFrame(terminal: Terminal)
    | SealFrame(recordDigest: string)

  /** The foreign functions: SHA-256 of bytes, the frame codec, the digest of a record set. */
  datatype Primitives = Primitives(
    hash: Hash,
    encode: Frame -> Bytes,
    decode: Bytes -> Option<Frame>,
    digest: map<U64, Record> -> string)

  ghost predicate RoundTrips(p: Primitives) {
    forall f: Frame :: p.decode(p.encode(f)) == Some(f)
  }

  const MAX_FRAME_BYTES := 16 * 1024 * 1024

  function Header(): Bytes
    ensures |Header()| == 19
  {
    [116, 105, 99, 107, 114, 45, 108, 111, 99, 97, 108, 45, 108, 111, 103, 45, 118, 50, 10]
  }

  datatype JournalError =
    | RecordAfterSeal | RecordAfterTerminal | SealWithoutTerminal | SealDigestMismatch
    | Violated(violation: Violation) | FrameTooLarge | Undecodable | TornHeader | UnknownFormat

  /** The in-memory half of a live stream. */
  datatype Opened = Opened(state: State, seal: Option<string>)

  function Fresh(identity: Identity): Opened { Opened(New(identity), None) }

  // ------------------------------------------------------------ framing

  /** Little-endian bytes of a 32-bit length. */
  function LittleEndian32(n: nat): (r: Bytes)
    ensures |r| == 4
  {
    [n % 256, n / 256 % 256, n / 65536 % 256, n / 16777216 % 256]
  }

  function FromLittleEndian32(b: Bytes): nat
    requires |b| == 4
  {
    b[0] as nat + 256 * b[1] as nat + 65536 * b[2] as nat + 16777216 * b[3] as nat
  }

  lemma LengthRoundTrips(n: nat)
    requires n < 0x1_0000_0000
    ensures FromLittleEndian32(LittleEndian32(n)) == n
  {
    assert n / 65536 == n / 256 / 256;
    assert n / 16777216 == n / 65536 / 256;
  }

  lemma Digits(low: int, high: int)
    requires 0 <= low < 256
    ensures (low + 256 * high) % 256 == low && (low + 256 * high) / 256 == high
  {
  }

  lemma LengthReads(b: Bytes)
    requires |b| == 4
    ensures LittleEndian32(FromLittleEndian32(b)) == b
  {
    var n := FromLittleEndian32(b);
    var upper := b[2] as int + 256 * b[3] as int;
    Digits(b[0] as int, b[1] as int + 256 * upper);
    Digits(b[1] as int, upper);
    Digits(b[2] as int, b[3] as int);
    assert n / 65536 == n / 256 / 256 && n / 16777216 == n / 65536 / 256;
  }

  /** A payload behind its length. */
  function Behind(payload: Bytes): Bytes { LittleEndian32(|payload|) + payload }

  function Framed(p: Primitives, f: Frame): Bytes { Behind(p.encode(f)) }

  function FramedAll(p: Primitives, frames: seq<Frame>): Bytes {
    if frames == [] then [] else Framed(p, frames[0]) + FramedAll(p, frames[1..])
  }

  predicate FitsFrame(p: Primitives, f: Frame) { |p.encode(f)| <= MAX_FRAME_BYTES }

  // ------------------------------------------------------------ recovery

  function Lift(o: Opened, r: Result<(State, Outcome), Violation>): Result<Opened, JournalError> {
    match r
    case Ok(v) => Ok(o.(state := v.0))
    case Err(v) => Err(Violated(v))
  }

  /** Replays one recovered frame. */
  function ApplyFrame(p: Primitives, o: Opened, f: Frame): Result<Opened, JournalError> {
    if o.seal.Some? then Err(RecordAfterSeal)
    else if o.state.terminal.Some? && !f.SealFrame? then Err(RecordAfterTerminal)
    else
      match f
      case AcceptedFrame(r) => Lift(o, ApplyAccepted(p.hash, o.state, r))
      case GapFrame(g) => Lift(o, ApplyGap(o.state, g))
      case TerminalFrame(t) => Lift(o, ApplyTerminal(o.state, t))
      case SealFrame(d) =>
        if o.state.terminal.None? then Err(SealWithoutTerminal)
        else if p.digest(o.state.cover.accepted) != d then Err(SealDigestMismatch)
        else Ok(o.(seal := Some(d)))
  }

  function Fold(p: Primitives, o: Opened, frames: seq<Frame>): Result<Opened, JournalError>
    decreases |frames|
  {
    if frames == [] then Ok(o)
    else
      var next := ApplyFrame(p, o, frames[0]);
      if next.Err? then next else Fold(p, next.value, frames[1..])
  }

  datatype Recovery = Recovery(file: Bytes, live: Opened)

  /** What recovery makes of the bytes from `offset` on. */
  function Scan(p: Primitives, file: Bytes, offset: nat, o: Opened): Result<Recovery, JournalError>
    requires offset <= |file|
    decreases |file| - offset
  {
    if |file| - offset < 4 then Ok(Recovery(file[..offset], o))
    else
      var length := FromLittleEndian32(file[offset..offset + 4]);
      if length > MAX_FRAME_BYTES then Err(FrameTooLarge)
      else if |file| - offset - 4 < length then Ok(Recovery(file[..offset], o))
      else
        var frame := p.decode(file[offset + 4..offset + 4 + length]);
        if frame.None? then Err(Undecodable)
        else
          var next := ApplyFrame(p, o, frame.value);
          if next.Err? then Err(next.error)
          else Scan(p, file, offset + 4 + length, next.value)
  }

  function Recovered(p: Primitives, identity: Identity, file: Bytes): Result<Recovery, JournalError> {
    if file == [] then Ok(Recovery(Header(), Fresh(identity)))
    else if |file| < |Header()| then Err(TornHeader)
    else if file[..|Header()|] != Header() then Err(UnknownFormat)
    else Scan(p, file, |Header()|, Fresh(identity))
  }

  /** The recovery loop over frame offsets. */
  method Recover(p: Primitives, identity: Identity, file: Bytes) returns (r: Result<Recovery, JournalError>)
    ensures r == Recovered(p, identity, file)
  {
    if |file| == 0 {
      return Ok(Recovery(Header(), Fresh(identity)));
    }
    if |file| < |Header()| {
      return Err(TornHeader);
    }
    if file[..|Header()|] != Header() {
      return Err(UnknownFormat);
    }
    var live := Fresh(identity);
    var lastGood := |Header()|;
    while true
      invariant lastGood <= |file|
      invariant Scan(p, file, lastGood, live) == Recovered(p, identity, file)
      decreases |file| - lastGood
    {
      var offset := lastGood;
      if |file| - offset < 4 {
        return Ok(Recovery(file[..offset], live));
      }
      var length := FromLittleEndian32(file[offset..offset + 4]);
      if length > MAX_FRAME_BYTES {
        return Err(FrameTooLarge);
      }
      if |file| - offset - 4 < length {
        return Ok(Recovery(file[..offset], live));
      }
      var frame := p.decode(file[offset + 4..offset + 4 + length]);
      if frame.None? {
        return Err(Undecodable);
      }
      var next := ApplyFrame(p, live, frame.value);
      if next.Err? {
        return Err(next.error);
      }
      live := next.value;
      lastGood := offset + 4 + length;
    }
  }

  // ------------------------------------------------------------ what recovery makes of any bytes

  /** Payloads laid out one after another. */
  function Laid(payloads: seq<Bytes>): Bytes {
    if payloads == [] then [] else Behind(payloads[0]) + Laid(payloads[1..])
  }

  /** Admissible payloads and the frames they decode to. */
  predicate Reads(p: Primitives, payloads: seq<Bytes>, frames: seq<Frame>) {
    && |payloads| == |frames|
    && forall i :: 0 <= i < |payloads| ==>
         |payloads[i]| <= MAX_FRAME_BYTES && p.decode(payloads[i]) == Some(frames[i])
  }

  /** Too short for a length, or for the payload that an admissible length announces. */
  predicate Incomplete(tail: Bytes) {
    || |tail| < 4
    || |tail| - 4 < FromLittleEndian32(tail[..4]) <= MAX_FRAME_BYTES
  }

  lemma Middle(a: Bytes, b: Bytes, c: Bytes)
    ensures (a + b + c)[|a|..|a| + |b|] == b
  {
  }

  /** Where the length and the payload of a whole frame lie. */
  lemma PayloadAt(done: Bytes, payload: Bytes, tail: Bytes)
    ensures var length := LittleEndian32(|payload|);
            var file := done + length + payload + tail;
            && file[|done|..|done| + 4] == length
            && file[|done| + 4..|done| + 4 + |payload|] == payload
  {
    var length := LittleEndian32(|payload|);
    assert done + length + payload + tail == done + length + (payload + tail) == (done + length) + payload + tail;
    Middle(done, length, payload + tail);
    Middle(done + length, payload, tail);
  }

  /** What follows whole frames: their error, or the scan of the rest. */
  function ScanOn(p: Primitives, file: Bytes, offset: nat, next: Result<Opened, JournalError>)
    : Result<Recovery, JournalError>
    requires offset <= |file|
  {
    if next.Err? then Err(next.error) else Scan(p, file, offset, next.value)
  }

  lemma ScanStep(p: Primitives, file: Bytes, offset: nat, length: nat, f: Frame, o: Opened)
    requires offset + 4 + length <= |file| && length <= MAX_FRAME_BYTES
    requires FromLittleEndian32(file[offset..offset + 4]) == length
    requires p.decode(file[offset + 4..offset + 4 + length]) == Some(f)
    ensures Scan(p, file, offset, o) == ScanOn(p, file, offset + 4 + length, ApplyFrame(p, o, f))
  {
    hide ApplyFrame, FromLittleEndian32;
  }

  lemma ScanOne(p: Primitives, done: Bytes, payload: Bytes, f: Frame, tail: Bytes, o: Opened)
    requires |payload| <= MAX_FRAME_BYTES && p.decode(payload) == Some(f)
    ensures var file := done + Behind(payload) + tail;
            Scan(p, file, |done|, o) == ScanOn(p, file, |done + Behind(payload)|, ApplyFrame(p, o, f))
  {
    assert done + Behind(payload) + tail == done + LittleEndian32(|payload|) + payload + tail;
    PayloadAt(done, payload, tail);
    LengthRoundTrips(|payload|);
    hide Scan, ScanOn, ApplyFrame, LittleEndian32, FromLittleEndian32;
    ScanStep(p, done + Behind(payload) + tail, |done|, |payload|, f, o);
  }

  /** Whole frames are decoded, applied in order and stepped over, whatever comes behind them. */
  lemma {:induction false} ScanFrames(p: Primitives, done: Bytes, payloads: seq<Bytes>, frames: seq<Frame>,
                                      tail: Bytes, o: Opened)
    requires Reads(p, payloads, frames)
    ensures var file := done + Laid(payloads) + tail;
            Scan(p, file, |done|, o) == ScanOn(p, file, |done + Laid(payloads)|, Fold(p, o, frames))
    decreases |frames|
  {
    hide Scan, ApplyFrame, Behind;
    if frames == [] {
      assert done + Laid(payloads) == done;
    } else {
      var done', rest := done + Behind(payloads[0]), Laid(payloads[1..]);
      assert done + Laid(payloads) == done' + rest;
      assert done' + rest + tail == done' + (rest + tail);
      ScanOne(p, done, payloads[0], frames[0], rest + tail, o);
      if ApplyFrame(p, o, frames[0]).Ok? {
        ScanFrames(p, done', payloads[1..], frames[1..], tail, ApplyFrame(p, o, frames[0]).value);
      }
    }
  }

  /** One whole frame that scanning read. */
  lemma ScannedOne(p: Primitives, file: Bytes, offset: nat, o: Opened) returns (payload: Bytes, f: Frame)
    requires offset <= |file| && Scan(p, file, offset, o).Ok? && !Incomplete(file[offset..])
    ensures |payload| <= MAX_FRAME_BYTES && p.decode(payload) == Some(f) && ApplyFrame(p, o, f).Ok?
    ensures offset + 4 + |payload| <= |file|
    ensures file[..offset + 4 + |payload|] == file[..offset] + Behind(payload)
    ensures Scan(p, file, offset + 4 + |payload|, ApplyFrame(p, o, f).value).Ok?
  {
    hide ApplyFrame, LittleEndian32, FromLittleEndian32;
    var prefix := file[offset..offset + 4];
    assert file[offset..][..4] == prefix;
    payload := file[offset + 4..offset + 4 + FromLittleEndian32(prefix)];
    f := p.decode(payload).value;
    LengthReads(prefix);
    assert file[..offset + 4 + |payload|] == file[..offset] + (prefix + payload);
  }

  /** What scanning read: whole frames, then an incomplete tail that it leaves out. */
  lemma {:induction false} Scanned(p: Primitives, file: Bytes, offset: nat, o: Opened)
    returns (payloads: seq<Bytes>, frames: seq<Frame>, tail: Bytes)
    requires offset <= |file| && Scan(p, file, offset, o).Ok?
    ensures Reads(p, payloads, frames) && Incomplete(tail) && Fold(p, o, frames).Ok?
    ensures file == file[..offset] + Laid(payloads) + tail
    decreases |file| - offset
  {
    hide Scan, ApplyFrame, Behind, FromLittleEndian32;
    if Incomplete(file[offset..]) {
      payloads, frames, tail := [], [], file[offset..];
    } else {
      var payload, f := ScannedOne(p, file, offset, o);
      var ps, fs, t := Scanned(p, file, offset + 4 + |payload|, ApplyFrame(p, o, f).value);
      payloads, frames, tail := [payload] + ps, [f] + fs, t;
      assert payloads[1..] == ps && frames[1..] == fs;
    }
  }

  /** Such bytes: nothing, or the header, whole frames that replay, and an incomplete tail. */
  ghost predicate Readable(p: Primitives, identity: Identity, file: Bytes,
                           payloads: seq<Bytes>, frames: seq<Frame>, tail: Bytes) {
    && Reads(p, payloads, frames) && Incomplete(tail)
    && file == Header() + Laid(payloads) + tail
    && Fold(p, Fresh(identity), frames).Ok?
  }

  /** Recovery keeps exactly the whole frames, and again when it is repeated. */
  lemma ReadableRecovers(p: Primitives, identity: Identity, file: Bytes,
                         payloads: seq<Bytes>, frames: seq<Frame>, tail: Bytes)
    requires Readable(p, identity, file, payloads, frames, tail)
    ensures var whole := Header() + Laid(payloads);
            var kept := Ok(Recovery(whole, Fold(p, Fresh(identity), frames).value));
            Recovered(p, identity, file) == kept && Recovered(p, identity, whole) == kept
  {
    var whole := Header() + Laid(payloads);
    assert (whole + tail)[..|Header()|] == Header() == whole[..|Header()|];
    ScanFrames(p, Header(), payloads, frames, tail, Fresh(identity));
    ScanFrames(p, Header(), payloads, frames, [], Fresh(identity));
    assert whole + [] == whole;
    assert file[..|whole|] == whole;
    assert |tail| >= 4 ==> file[|whole|..|whole| + 4] == tail[..4];
    hide Fold, Laid;
  }

  /** For any bytes at all: the journal opens exactly when they are readable. */
  lemma RecoversIffReadable(p: Primitives, identity: Identity, file: Bytes)
    ensures Recovered(p, identity, file).Ok? <==>
              || file == []
              || exists payloads, frames, tail :: Readable(p, identity, file, payloads, frames, tail)
  {
    if file != [] && Recovered(p, identity, file).Ok? {
      var payloads, frames, tail := Scanned(p, file, |Header()|, Fresh(identity));
      assert Readable(p, identity, file, payloads, frames, tail);
    } else if payloads, frames, tail :| Readable(p, identity, file, payloads, frames, tail) {
      ReadableRecovers(p, identity, file, payloads, frames, tail);
    }
  }

  // ------------------------------------------------------------ what recovery makes of written frames

  /** Nothing, or a proper prefix of the framed bytes of an admissible frame. */
  predicate TornTail(p: Primitives, torn: Bytes, f: Frame) {
    || torn == []
    || (FitsFrame(p, f) && |torn| < |Framed(p, f)| && torn == Framed(p, f)[..|torn|])
  }

  lemma TornIsIncomplete(p: Primitives, torn: Bytes, f: Frame)
    requires TornTail(p, torn, f)
    ensures Incomplete(torn)
  {
    if |torn| >= 4 {
      assert torn[..4] == LittleEndian32(|p.encode(f)|);
      LengthRoundTrips(|p.encode(f)|);
    }
  }

  /** The payloads of written frames. */
  function Encoded(p: Primitives, frames: seq<Frame>): (payloads: seq<Bytes>)
    ensures |payloads| == |frames|
    ensures forall i :: 0 <= i < |frames| ==> payloads[i] == p.encode(frames[i])
    ensures Laid(payloads) == FramedAll(p, frames)
  {
    if frames == [] then [] else [p.encode(frames[0])] + Encoded(p, frames[1..])
  }

  /** What recovery owes to a file of whole frames: their bytes and their fold, or the error of the fold. */
  function RecoveryOf(file: Bytes, folded: Result<Opened, JournalError>): Result<Recovery, JournalError> {
    match folded
    case Ok(live) => Ok(Recovery(file, live))
    case Err(e) => Err(e)
  }

  /**
   For every list of frames and every proper prefix of one more frame: where the frames replay,
   recovery yields exactly them and truncates the file to exactly their bytes, and recovering
   again changes nothing; where they do not, it reports the error of the first that does not.
   */
  lemma RecoveryCutsTheTornTail(p: Primitives, identity: Identity, frames: seq<Frame>, torn: Bytes, f: Frame)
    requires RoundTrips(p)
    requires forall g :: g in frames ==> FitsFrame(p, g)
    requires TornTail(p, torn, f)
    ensures var whole := Header() + FramedAll(p, frames);
            && Recovered(p, identity, whole + torn) == RecoveryOf(whole, Fold(p, Fresh(identity), frames))
            && Recovered(p, identity, whole) == RecoveryOf(whole, Fold(p, Fresh(identity), frames))
  {
    var whole := Header() + FramedAll(p, frames);
    var payloads := Encoded(p, frames);
    TornIsIncomplete(p, torn, f);
    assert Reads(p, payloads, frames) by {
      assert forall i :: 0 <= i < |frames| ==> frames[i] in frames && p.decode(payloads[i]) == Some(frames[i]);
    }
    if Fold(p, Fresh(identity), frames).Ok? {
      ReadableRecovers(p, identity, whole + torn, payloads, frames, torn);
    } else {
      assert (whole + torn)[..|Header()|] == Header() == whole[..|Header()|];
      ScanFrames(p, Header(), payloads, frames, torn, Fresh(identity));
      ScanFrames(p, Header(), payloads, frames, [], Fresh(identity));
      assert whole + [] == whole;
    }
  }

  /** Opening after a crash inside the header works exactly when none or all of it was written. */
  lemma TornHeaderIff(p: Primitives, identity: Identity, written: nat)
    requires written <= |Header()|
    ensures Recovered(p, identity, Header()[..written]).Ok? <==> written == 0 || written == |Header()|
  {
    if written == |Header()| {
      assert Header()[..written] == Header();
    }
  }

  // ------------------------------------------------------------ the opened stream

  datatype Op =
    | Accept(record: Record)
    | DeclareGap(gap: Gap)
    | FinishCleanly(exit: Exit)
    | RecoverAbnormalClosure
    | Seal

  /** What an operation would append: nothing when already recorded, else a frame and its effect. */
  datatype Plan = Refused | Known | Append(frame: Frame, next: Opened)

  function PlanOf(o: Opened, r: Result<(State, Outcome), Violation>, f: Frame): Plan {
    match r
    case Err(_) => Refused
    case Ok((next, outcome)) => if outcome == AlreadyRecorded then Known else Append(f, o.(state := next))
  }

  function Planned(p: Primitives, o: Opened, op: Op): Plan {
    match op
    case Accept(r) => PlanOf(o, ApplyAccepted(p.hash, o.state, r), AcceptedFrame(r))
    case DeclareGap(g) => PlanOf(o, ApplyGap(o.state, g), GapFrame(g))
    case FinishCleanly(exit) =>
      PlanOf(o, ApplyTerminal(o.state, EndOfStream(exit)), TerminalFrame(EndOfStream(exit)))
    case RecoverAbnormalClosure =>
      if o.state.terminal.Some? then Known
      else
        var t := AbnormalClosure(o.state.frontier);
        PlanOf(o, ApplyTerminal(o.state, t), TerminalFrame(t))
    case Seal =>
      if o.state.terminal.None? then Refused
      else
        var digest := p.digest(o.state.cover.accepted);
        match o.seal
        case Some(d) => if d == digest then Known else Refused
        case None => Append(SealFrame(digest), o.(seal := Some(digest)))
  }

  datatype Reply = Done | AlreadyDone | Failed

  /** One call on an opened stream: the new file, the new state and the answer. */
  function Perform(p: Primitives, file: Bytes, o: Opened, op: Op): (Bytes, Opened, Reply) {
    match Planned(p, o, op)
    case Refused => (file, o, Failed)
    case Known => (file, o, AlreadyDone)
    case Append(f, next) =>
      if FitsFrame(p, f) then (file + Framed(p, f), next, Done) else (file, o, Failed)
  }

  class StagingStream {
    const p: Primitives
    var journal: Bytes
    var live: Opened

    constructor (p: Primitives, recovery: Recovery)
      ensures this.p == p && journal == recovery.file && live == recovery.live
    {
      this.p, journal, live := p, recovery.file, recovery.live;
    }

    /** Appends and syncs one frame, or refuses it for its size. */
    method AppendFrame(f: Frame) returns (ok: bool)
      modifies this`journal
      ensures ok == FitsFrame(p, f)
      ensures journal == if ok then old(journal) + Framed(p, f) else old(journal)
    {
      var payload := p.encode(f);
      if |payload| > MAX_FRAME_BYTES {
        return false;
      }
      journal := journal + LittleEndian32(|payload|);
      journal := journal + payload;
      assert journal == old(journal) + Framed(p, f);
      return true;
    }

    method Accept(record: Record) returns (reply: Reply)
      modifies this
      ensures (journal, live, reply) == Perform(p, old(journal), old(live), Op.Accept(record))
    {
      var prospective := ApplyAccepted(p.hash, live.state, record);
      if prospective.Err? {
        return Failed;
      }
      if prospective.value.1 == AlreadyRecorded {
        return AlreadyDone;
      }
      var ok := AppendFrame(AcceptedFrame(record));
      if !ok {
        return Failed;
      }
      live := live.(state := prospective.value.0);
      return Done;
    }

    method DeclarePreAcceptanceGap(gap: Gap) returns (reply: Reply)
      modifies this
      ensures (journal, live, reply) == Perform(p, old(journal), old(live), DeclareGap(gap))
    {
      var prospective := ApplyGap(live.state, gap);
      if prospective.Err? {
        return Failed;
      }
      if prospective.value.1 == AlreadyRecorded {
        return AlreadyDone;
      }
      var ok := AppendFrame(GapFrame(gap));
      if !ok {
        return Failed;
      }
      live := live.(state := prospective.value.0);
      return Done;
    }

    method FinishCleanly(exit: Exit) returns (reply: Reply)
      modifies this
      ensures (journal, live, reply) == Perform(p, old(journal), old(live), Op.FinishCleanly(exit))
    {
      var prospective := ApplyTerminal(live.state, EndOfStream(exit));
      if prospective.Err? {
        return Failed;
      }
      if prospective.value.1 == AlreadyRecorded {
        return AlreadyDone;
      }
      var ok := AppendFrame(TerminalFrame(EndOfStream(exit)));
      if !ok {
        return Failed;
      }
      live := live.(state := prospective.value.0);
      return Done;
    }

    method RecoverAbnormalClosure() returns (reply: Reply)
      modifies this
      ensures (journal, live, reply) == Perform(p, old(journal), old(live), Op.RecoverAbnormalClosure)
    {
      if live.state.terminal.Some? {
        return AlreadyDone;
      }
      var terminal := AbnormalClosure(live.state.frontier);
      var prospective := ApplyTerminal(live.state, terminal);
      var ok := AppendFrame(TerminalFrame(terminal));
      if !ok {
        return Failed;
      }
      live := live.(state := prospective.value.0);
      return Done;
    }

    method Seal() returns (reply: Reply)
      modifies this
      ensures (journal, live, reply) == Perform(p, old(journal), old(live), Op.Seal)
    {
      if live.state.terminal.None? {
        return Failed;
      }
      var digest := p.digest(live.state.cover.accepted);
      if live.seal.Some? {
        if live.seal.value == digest {
          return AlreadyDone;
        }
        return Failed;
      }
      var ok := AppendFrame(SealFrame(digest));
      if !ok {
        return Failed;
      }
      live := live.(seal := Some(digest));
      return Done;
    }
  }
}
