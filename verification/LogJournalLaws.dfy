/** What every run of the staging journal keeps, with a crash and a reopen at any byte. */
module LogJournalLaws {
  import opened Basics
  import opened LogStream
  import opened LogJournal

  /** `frames`, `reported` and `ended` record what was appended, and the records and the end callers were told of. */
  datatype Machine = Machine(
    file: Bytes, live: Opened, frames: seq<Frame>, reported: set<Record>, ended: Option<Terminal>, broken: bool)

  /** A call that returns, or a crash when `written` bytes of its frame are durable, then a reopen. */
  datatype Event = Call(op: Op) | Crash(op: Op, written: nat)

  function Start(identity: Identity): Machine { Machine(Header(), Fresh(identity), [], {}, None, false) }

  /** The end that a successful call reports. */
  function EndOf(m: Machine, op: Op, reply: Reply): Option<Terminal> {
    match op
    case FinishCleanly(exit) => if reply != Failed then Some(EndOfStream(exit)) else m.ended
    case RecoverAbnormalClosure => if reply == Done then Some(AbnormalClosure(m.live.state.frontier)) else m.ended
    case _ => m.ended
  }

  function CallStep(p: Primitives, m: Machine, op: Op): Machine {
    var plan := Planned(p, m.live, op);
    var (file, live, reply) := Perform(p, m.file, m.live, op);
    m.(file := file, live := live,
       frames := if reply == Done && plan.Append? then m.frames + [plan.frame] else m.frames,
       reported := if op.Accept? && reply != Failed then m.reported + {op.record} else m.reported,
       ended := EndOf(m, op, reply))
  }

  function CrashStep(p: Primitives, identity: Identity, m: Machine, op: Op, written: nat): Machine {
    var plan := Planned(p, m.live, op);
    var whole := if plan.Append? && FitsFrame(p, plan.frame) then Framed(p, plan.frame) else [];
    var cut := if written < |whole| then whole[..written] else whole;
    match Recovered(p, identity, m.file + cut)
    case Err(_) => m.(broken := true)
    case Ok(r) =>
      m.(file := r.file, live := r.live,
         frames := if whole != [] && cut == whole && plan.Append? then m.frames + [plan.frame] else m.frames)
  }

  function Step(p: Primitives, identity: Identity, m: Machine, e: Event): Machine {
    match e
    case Call(op) => CallStep(p, m, op)
    case Crash(op, written) => CrashStep(p, identity, m, op, written)
  }

  function Run(p: Primitives, identity: Identity, m: Machine, events: seq<Event>): Machine
    decreases |events|
  {
    if events == [] then m else Run(p, identity, Step(p, identity, m, events[0]), events[1..])
  }

  function AcceptedAt(f: Frame, k: U64): nat {
    if f.AcceptedFrame? && f.record.sequence == k then 1 else 0
  }

  /** How many frames accept sequence `k`. */
  function FramesAccepting(frames: seq<Frame>, k: U64): nat {
    if frames == [] then 0
    else FramesAccepting(frames[..|frames| - 1], k) + AcceptedAt(frames[|frames| - 1], k)
  }

  /** `n` records and gaps, then at most one terminal, then at most one seal. */
  ghost predicate GrammarAt(frames: seq<Frame>, n: nat) {
    && n <= |frames| <= n + 2
    && (forall i :: 0 <= i < n ==> frames[i].AcceptedFrame? || frames[i].GapFrame?)
    && (n < |frames| ==> frames[n].TerminalFrame?)
    && (n + 1 < |frames| ==> frames[n + 1].SealFrame?)
  }

  ghost predicate Grammar(frames: seq<Frame>) { exists n: nat :: GrammarAt(frames, n) }

  /** The in-memory state is the fold of the journal's frames, and nothing reported is missing. */
  ghost predicate Good(p: Primitives, identity: Identity, m: Machine) {
    && !m.broken
    && m.file == Header() + FramedAll(p, m.frames)
    && (forall f :: f in m.frames ==> FitsFrame(p, f))
    && Fold(p, Fresh(identity), m.frames) == Ok(m.live)
    && m.live.state.identity == identity
    && Inv(m.live.state)
    && (m.live.seal.Some? ==> m.live.state.terminal.Some?)
    && FiledOnce(m.frames, m.live.state.cover.accepted)
    && (forall r :: r in m.reported ==> r.sequence in m.live.state.cover.accepted
                                        && m.live.state.cover.accepted[r.sequence] == r)
    && (forall k :: k in m.live.state.cover.accepted ==> m.live.state.cover.accepted[k].stream == identity)
    && (m.ended.Some? ==> m.live.state.terminal == m.ended)
    && EndsAtFrontier(m.live.state) && SealMatches(p, m.live)
  }

  /** An abnormal end names the exact frontier. */
  ghost predicate EndsAtFrontier(s: State) {
    s.terminal.Some? && s.terminal.value.AbnormalClosure? ==> s.terminal.value.frontier == s.frontier
  }

  /** A seal carries the digest of exactly the accepted records. */
  ghost predicate SealMatches(p: Primitives, o: Opened) {
    o.seal.Some? ==> o.seal.value == p.digest(o.state.cover.accepted)
  }

  lemma {:induction false} FoldSnoc(p: Primitives, o: Opened, frames: seq<Frame>, f: Frame)
    requires Fold(p, o, frames).Ok?
    ensures Fold(p, o, frames + [f]) == ApplyFrame(p, Fold(p, o, frames).value, f)
    decreases |frames|
  {
    if frames == [] {
      assert (frames + [f])[1..] == [];
    } else {
      assert (frames + [f])[1..] == frames[1..] + [f];
      FoldSnoc(p, ApplyFrame(p, o, frames[0]).value, frames[1..], f);
    }
  }

  lemma {:induction false} FramedSnoc(p: Primitives, frames: seq<Frame>, f: Frame)
    ensures FramedAll(p, frames + [f]) == FramedAll(p, frames) + Framed(p, f)
    decreases |frames|
  {
    if frames == [] {
      assert (frames + [f])[1..] == [];
    } else {
      assert (frames + [f])[1..] == frames[1..] + [f];
      FramedSnoc(p, frames[1..], f);
    }
  }

  /** A planned frame replays to exactly the state the call installs, and keeps the invariant. */
  lemma PlanReplays(p: Primitives, o: Opened, op: Op)
    requires Inv(o.state) && (o.seal.Some? ==> o.state.terminal.Some?)
    requires Planned(p, o, op).Append?
    ensures var Append(f, next) := Planned(p, o, op);
            && ApplyFrame(p, o, f) == Ok(next)
            && Inv(next.state)
            && next.state.identity == o.state.identity
            && (next.seal.Some? ==> next.state.terminal.Some?)
            && next.state.cover.accepted ==
                 (if f.AcceptedFrame? then o.state.cover.accepted[f.record.sequence := f.record]
                  else o.state.cover.accepted)
            && (f.AcceptedFrame? ==> op == Accept(f.record) && f.record.sequence !in o.state.cover.accepted
                                     && f.record.stream == o.state.identity)
            && (op.Accept? ==> f == AcceptedFrame(op.record))
            && (EndsAtFrontier(o.state) ==> EndsAtFrontier(next.state))
            && (SealMatches(p, o) ==> SealMatches(p, next))
            && (o.state.terminal.Some? ==> next.state.terminal == o.state.terminal)
            && (op.FinishCleanly? ==> next.state.terminal == Some(EndOfStream(op.exit)))
            && (op.RecoverAbnormalClosure? ==> next.state.terminal == Some(AbnormalClosure(o.state.frontier)))
  {
    match op {
      case Accept(r) => AcceptedKeepsInv(p.hash, o.state, r);
      case DeclareGap(g) => GapKeepsInv(o.state, g);
      case FinishCleanly(_) =>
      case RecoverAbnormalClosure =>
      case Seal =>
    }
  }

  /** Exactly one frame accepts each accepted sequence. */
  ghost predicate FiledOnce(frames: seq<Frame>, accepted: map<U64, Record>) {
    forall k: U64 :: FramesAccepting(frames, k) == if k in accepted then 1 else 0
  }

  lemma CountsAfter(frames: seq<Frame>, f: Frame, accepted: map<U64, Record>, after: map<U64, Record>)
    requires FiledOnce(frames, accepted)
    requires after == if f.AcceptedFrame? then accepted[f.record.sequence := f.record] else accepted
    requires f.AcceptedFrame? ==> f.record.sequence !in accepted
    ensures FiledOnce(frames + [f], after)
  {
    forall k: U64
      ensures FramesAccepting(frames + [f], k) == if k in after then 1 else 0
    {
      assert (frames + [f])[..|frames|] == frames;
      assert FramesAccepting(frames, k) == if k in accepted then 1 else 0;
    }
  }

  /** Appending a planned frame keeps everything. */
  lemma AppendKeepsGood(p: Primitives, identity: Identity, m: Machine, op: Op, reported: set<Record>,
                        ended: Option<Terminal>)
    requires Good(p, identity, m)
    requires ended == m.ended || ended == EndOf(m, op, Done)
    requires Planned(p, m.live, op).Append? && FitsFrame(p, Planned(p, m.live, op).frame)
    requires reported == m.reported || (op.Accept? && reported == m.reported + {op.record})
    ensures var Append(f, next) := Planned(p, m.live, op);
            Good(p, identity, Machine(m.file + Framed(p, f), next, m.frames + [f], reported, ended, false))
  {
    hide ApplyFrame, Planned, Inv, Fold, Framed, FitsFrame, FramesAccepting, FiledOnce, Fresh;
    var Append(f, next) := Planned(p, m.live, op);
    PlanReplays(p, m.live, op);
    FoldSnoc(p, Fresh(identity), m.frames, f);
    FramedSnoc(p, m.frames, f);
    assert (m.file + Framed(p, f)) == Header() + FramedAll(p, m.frames + [f]);
    CountsAfter(m.frames, f, m.live.state.cover.accepted, next.state.cover.accepted);
  }

  lemma CallKeepsGood(p: Primitives, identity: Identity, m: Machine, op: Op)
    requires Good(p, identity, m)
    ensures Good(p, identity, CallStep(p, m, op))
  {
    var plan := Planned(p, m.live, op);
    if plan.Append? && FitsFrame(p, plan.frame) {
      AppendKeepsGood(p, identity, m, op, CallStep(p, m, op).reported, CallStep(p, m, op).ended);
    } else if op.Accept? && plan.Known? {
      assert m.live.state.cover.accepted[op.record.sequence] == op.record;
    }
  }

  lemma CrashKeepsGood(p: Primitives, identity: Identity, m: Machine, op: Op, written: nat)
    requires RoundTrips(p) && Good(p, identity, m)
    ensures Good(p, identity, CrashStep(p, identity, m, op, written))
  {
    var plan := Planned(p, m.live, op);
    var whole := if plan.Append? && FitsFrame(p, plan.frame) then Framed(p, plan.frame) else [];
    if written < |whole| {
      RecoveryCutsTheTornTail(p, identity, m.frames, whole[..written], plan.frame);
    } else if whole == [] {
      RecoveryCutsTheTornTail(p, identity, m.frames, [], SealFrame(""));
      assert m.file + whole == m.file;
    } else {
      AppendKeepsGood(p, identity, m, op, m.reported, m.ended);
      RecoveryCutsTheTornTail(p, identity, m.frames + [plan.frame], [], plan.frame);
    }
  }

  /**
   Over every run of calls and crashes, the state in memory is the fold of the journal's
   frames, reopening never fails, and every record reported accepted is filed exactly once.
   */
  lemma {:induction false} EveryRunIsGood(p: Primitives, identity: Identity, m: Machine, events: seq<Event>)
    requires RoundTrips(p) && Good(p, identity, m)
    ensures Good(p, identity, Run(p, identity, m, events))
    decreases |events|
  {
    if events != [] {
      match events[0] {
        case Call(op) => CallKeepsGood(p, identity, m, op);
        case Crash(op, written) => CrashKeepsGood(p, identity, m, op, written);
      }
      EveryRunIsGood(p, identity, Step(p, identity, m, events[0]), events[1..]);
    }
  }

  lemma StartIsGood(p: Primitives, identity: Identity)
    ensures Good(p, identity, Start(identity))
  {
    var c := New(identity).cover;
    assert !InGap(c, 0);
  }

  /** A journal that replays follows the frame grammar. */
  lemma {:induction false} ReplayableFollowsGrammar(p: Primitives, o: Opened, frames: seq<Frame>)
    requires o.seal.None? && o.state.terminal.None? && Fold(p, o, frames).Ok?
    ensures Grammar(frames)
    decreases |frames|
  {
    if frames == [] {
      assert GrammarAt(frames, 0);
    } else {
      var next, rest := ApplyFrame(p, o, frames[0]).value, frames[1..];
      if frames[0].TerminalFrame? {
        AfterTerminal(p, next, rest);
        assert |frames| > 1 ==> frames[1] == rest[0];
        assert GrammarAt(frames, 0);
      } else {
        ReplayableFollowsGrammar(p, next, rest);
        var n: nat :| GrammarAt(rest, n);
        assert forall i :: 0 < i < |frames| ==> frames[i] == rest[i - 1];
        assert GrammarAt(frames, n + 1);
      }
    }
  }

  lemma NothingAfterSeal(p: Primitives, o: Opened, frames: seq<Frame>)
    requires o.seal.Some? && Fold(p, o, frames).Ok?
    ensures frames == []
  {
  }

  lemma AfterTerminal(p: Primitives, o: Opened, frames: seq<Frame>)
    requires o.seal.None? && o.state.terminal.Some? && Fold(p, o, frames).Ok?
    ensures |frames| <= 1 && (frames != [] ==> frames[0].SealFrame?)
  {
    if frames != [] {
      NothingAfterSeal(p, ApplyFrame(p, o, frames[0]).value, frames[1..]);
    }
  }

  /**
   The main law: from a new journal, whatever calls, crashes and reopens happen, the journal
   reopens, its frames follow the grammar, and a record a caller was told is accepted has one
   frame and is replayed exactly once unless a hole lies below it.
   */
  lemma AcceptedRecordsSurvive(p: Primitives, identity: Identity, events: seq<Event>, r: Record)
    requires RoundTrips(p)
    requires r in Run(p, identity, Start(identity), events).reported
    ensures var m := Run(p, identity, Start(identity), events);
            && !m.broken
            && Grammar(m.frames)
            && FramesAccepting(m.frames, r.sequence) == 1
            && Occurrences(Replay(m.live.state), r) == if CoveredBelow(m.live.state.cover, r.sequence) then 1 else 0
  {
    StartIsGood(p, identity);
    EveryRunIsGood(p, identity, Start(identity), events);
    var m := Run(p, identity, Start(identity), events);
    ReplayableFollowsGrammar(p, Fresh(identity), m.frames);
    ReplayedExactlyOnceIffContiguous(m.live.state, r.sequence);
  }

  // ------------------------------------------------------------ what any journal on the disk gives

  /** Replay keeps the stream's own invariant, and takes a seal only for the records it has. */
  ghost predicate Sound(p: Primitives, identity: Identity, o: Opened) {
    && o.state.identity == identity && Inv(o.state)
    && (o.seal.Some? ==> o.state.terminal.Some?) && SealMatches(p, o)
  }

  lemma {:induction false} FoldIsSound(p: Primitives, identity: Identity, o: Opened, frames: seq<Frame>)
    requires Sound(p, identity, o) && Fold(p, o, frames).Ok?
    ensures Sound(p, identity, Fold(p, o, frames).value)
    decreases |frames|
  {
    if frames != [] {
      match frames[0] {
        case AcceptedFrame(r) => AcceptedKeepsInv(p.hash, o.state, r);
        case GapFrame(g) => GapKeepsInv(o.state, g);
        case _ =>
      }
      FoldIsSound(p, identity, ApplyFrame(p, o, frames[0]).value, frames[1..]);
    }
  }

  /** Whatever bytes are on the disk: what opens is a sound stream, and opens again as it was left. */
  lemma OpenedIsSound(p: Primitives, identity: Identity, file: Bytes)
    requires Recovered(p, identity, file).Ok?
    ensures var r := Recovered(p, identity, file).value;
            Sound(p, identity, r.live) && Recovered(p, identity, r.file) == Ok(r)
  {
    StartIsGood(p, identity);
    if file == [] {
      ReadableRecovers(p, identity, Header(), [], [], []);
    } else {
      var payloads, frames, tail := Scanned(p, file, |Header()|, Fresh(identity));
      ReadableRecovers(p, identity, file, payloads, frames, tail);
      FoldIsSound(p, identity, Fresh(identity), frames);
    }
  }

  // ------------------------------------------------------------ what callers are told

  /** On every reachable stream a record is accepted exactly when it is intact, its own, new and fits a frame. */
  lemma AcceptAnswer(p: Primitives, identity: Identity, m: Machine, r: Record)
    requires Good(p, identity, m)
    ensures var reply := Perform(p, m.file, m.live, Accept(r)).2;
            var s := m.live.state;
            var mine := s.terminal.None? && r.stream == identity && r.contentDigest == p.hash(r.bytes);
            && (reply == Done <==>
                  mine && !Covered(s.cover, r.sequence) && |p.encode(AcceptedFrame(r))| <= MAX_FRAME_BYTES)
            && (reply == AlreadyDone <==>
                  mine && r.sequence in s.cover.accepted && s.cover.accepted[r.sequence].bytes == r.bytes
                  && s.cover.accepted[r.sequence].contentDigest == r.contentDigest)
  {
    AcceptOutcome(p.hash, m.live.state, r);
  }

  /** The same for a gap, which must not touch anything covered. */
  lemma GapAnswer(p: Primitives, identity: Identity, m: Machine, gap: Gap)
    requires Good(p, identity, m)
    ensures var reply := Perform(p, m.file, m.live, DeclareGap(gap)).2;
            var s := m.live.state;
            var mine := s.terminal.None? && gap.stream == identity && gap.first <= gap.last && gap.dropped > 0;
            && (reply == Done <==>
                  && mine && FitsFrame(p, GapFrame(gap))
                  && forall n: nat :: gap.first <= n <= gap.last ==> !Covered(s.cover, n))
            && (reply == AlreadyDone <==> mine && gap.first in s.cover.gaps && s.cover.gaps[gap.first] == gap)
  {
    GapOutcome(m.live.state, gap);
  }

  /** A clean end needs contiguous coverage, an abnormal one does not; each is taken once, and a seal after it. */
  lemma EndAnswers(p: Primitives, identity: Identity, m: Machine, exit: Exit)
    requires Good(p, identity, m)
    ensures var s := m.live.state;
            var clean := Perform(p, m.file, m.live, FinishCleanly(exit)).2;
            var abnormal := Perform(p, m.file, m.live, RecoverAbnormalClosure).2;
            var seal := Perform(p, m.file, m.live, Seal).2;
            var hole := exists k: nat, n: nat :: k < n && !Covered(s.cover, k) && Covered(s.cover, n);
            && (clean == Done <==> s.terminal.None? && !hole && FitsFrame(p, TerminalFrame(EndOfStream(exit))))
            && (clean == AlreadyDone <==> s.terminal == Some(EndOfStream(exit)))
            && (abnormal == Done <==> s.terminal.None? && FitsFrame(p, TerminalFrame(AbnormalClosure(s.frontier))))
            && (abnormal == AlreadyDone <==> s.terminal.Some?)
            && (seal == Done <==>
                  s.terminal.Some? && m.live.seal.None? && FitsFrame(p, SealFrame(p.digest(s.cover.accepted))))
            && (seal == AlreadyDone <==> m.live.seal.Some?)
  {
    TerminalOutcome(m.live.state, EndOfStream(exit));
    TerminalOutcome(m.live.state, AbnormalClosure(m.live.state.frontier));
    hide FrontierHasHole, Covered, Inv;
  }

  /** A reported end never changes. */
  lemma {:induction false} EndStays(p: Primitives, identity: Identity, m: Machine, events: seq<Event>)
    requires RoundTrips(p) && Good(p, identity, m) && m.ended.Some?
    ensures var n := Run(p, identity, m, events);
            Good(p, identity, n) && n.ended == m.ended && n.live.state.terminal == m.ended
    decreases |events|
  {
    if events != [] {
      var next := Step(p, identity, m, events[0]);
      EveryRunIsGood(p, identity, m, [events[0]]);
      assert Run(p, identity, m, [events[0]]) == next;
      assert next.ended == m.ended by {
        if events[0].Call? {
          EndAnswers(p, identity, m, if events[0].op.FinishCleanly? then events[0].op.exit else NoStatus);
        }
      }
      hide Step, Good;
      EndStays(p, identity, next, events[1..]);
    }
  }

  /**
   After a clean end is reported, whatever calls, crashes and reopens follow: the stream ends with
   exactly that exit, the same call is already done, and every other end, record and gap is refused.
   */
  lemma CleanEndSurvives(p: Primitives, identity: Identity, before: seq<Event>, exit: Exit, later: seq<Event>,
                         other: Exit, r: Record, gap: Gap)
    requires RoundTrips(p)
    requires var m := Run(p, identity, Start(identity), before);
             Perform(p, m.file, m.live, FinishCleanly(exit)).2 != Failed
    ensures var m := Run(p, identity, Start(identity), before);
            var n := Run(p, identity, CallStep(p, m, FinishCleanly(exit)), later);
            && !n.broken && n.live.state.terminal == Some(EndOfStream(exit))
            && Perform(p, n.file, n.live, FinishCleanly(exit)) == (n.file, n.live, AlreadyDone)
            && (other != exit ==> Perform(p, n.file, n.live, FinishCleanly(other)) == (n.file, n.live, Failed))
            && Perform(p, n.file, n.live, RecoverAbnormalClosure) == (n.file, n.live, AlreadyDone)
            && Perform(p, n.file, n.live, Accept(r)) == (n.file, n.live, Failed)
            && Perform(p, n.file, n.live, DeclareGap(gap)) == (n.file, n.live, Failed)
  {
    StartIsGood(p, identity);
    EveryRunIsGood(p, identity, Start(identity), before);
    var m := Run(p, identity, Start(identity), before);
    var ended := CallStep(p, m, FinishCleanly(exit));
    CallKeepsGood(p, identity, m, FinishCleanly(exit));
    EndStays(p, identity, ended, later);
    var n := Run(p, identity, ended, later);
    hide Run, CallStep;
    EndAnswers(p, identity, n, exit);
    EndAnswers(p, identity, n, other);
  }

  /** After an abnormal closure is recorded, its frontier is the exact extent of the coverage, for good. */
  lemma AbnormalEndSurvives(p: Primitives, identity: Identity, before: seq<Event>, later: seq<Event>)
    requires RoundTrips(p)
    requires var m := Run(p, identity, Start(identity), before);
             Perform(p, m.file, m.live, RecoverAbnormalClosure).2 == Done
    ensures var m := Run(p, identity, Start(identity), before);
            var n := Run(p, identity, CallStep(p, m, RecoverAbnormalClosure), later);
            && !n.broken && n.live.state.terminal == Some(AbnormalClosure(m.live.state.frontier))
            && FrontierExact(n.live.state.cover, m.live.state.frontier)
            && FrontierExact(m.live.state.cover, m.live.state.frontier)
  {
    StartIsGood(p, identity);
    EveryRunIsGood(p, identity, Start(identity), before);
    var m := Run(p, identity, Start(identity), before);
    var ended := CallStep(p, m, RecoverAbnormalClosure);
    CallKeepsGood(p, identity, m, RecoverAbnormalClosure);
    EndStays(p, identity, ended, later);
  }
}
