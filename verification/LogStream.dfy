/**
 The accepted-Log state shared by every Log staging adapter: accepted records, declared
 gaps, the committed frontier and the terminal record of one pickup generation.
 */
module LogStream {
  import opened Basics

  datatype Identity = Identity(taskInstance: nat, pickupGeneration: U64)

  datatype Record = Record(stream: Identity, sequence: U64, contentDigest: string, bytes: Bytes)

  datatype Gap = Gap(stream: Identity, first: U64, last: U64, dropped: U64)

  datatype Exit = Status(code: int) | NoStatus | Error(message: string)

  datatype Terminal = EndOfStream(exit: Exit) | AbnormalClosure(frontier: Option<U64>)

  datatype Violation =
    | WrongStream | InvalidContentDigest | IdentityContentConflict | AcceptedIdentityCoveredByGap
    | InvalidGap | GapOverlap | TerminalConflict | AppendAfterTerminal
    | CleanTerminalBeforeContiguousFrontier | SealBeforeTerminal

  /** The content digest, left uninterpreted. */
  type Hash = Bytes -> string

  /** What a stream has durably accounted for. */
  datatype Coverage = Coverage(accepted: map<U64, Record>, gaps: map<U64, Gap>)

  datatype State = State(
    identity: Identity, cover: Coverage, frontier: Option<U64>, terminal: Option<Terminal>)

  function New(identity: Identity): State {
    State(identity, Coverage(map[], map[]), None, None)
  }

  // ------------------------------------------------------------ coverage

  ghost predicate InGap(c: Coverage, n: nat) {
    exists g :: g in c.gaps && g <= n <= c.gaps[g].last
  }

  /** Sequence number `n` is accounted for by a record or by a declared gap. */
  ghost predicate Covered(c: Coverage, n: nat) {
    (n < U64_LIMIT && n in c.accepted) || InGap(c, n)
  }

  ghost predicate CoveredBelow(c: Coverage, n: nat) {
    forall m: nat :: m < n ==> Covered(c, m)
  }

  /** Records and gaps are filed under their own numbers and never overlap. */
  ghost predicate Disjoint(c: Coverage) {
    && (forall k :: k in c.accepted ==> c.accepted[k].sequence == k)
    && (forall g :: g in c.gaps ==> c.gaps[g].first == g <= c.gaps[g].last)
    && (forall k :: k in c.accepted ==> !InGap(c, k))
    && (forall g, h :: g in c.gaps && h in c.gaps && g < h ==> c.gaps[g].last < h)
  }

  function After(frontier: Option<U64>): nat { if frontier.None? then 0 else frontier.value + 1 }

  /** The frontier is the longest contiguous coverage from zero. */
  ghost predicate FrontierExact(c: Coverage, frontier: Option<U64>) {
    CoveredBelow(c, After(frontier)) && !Covered(c, After(frontier))
  }

  ghost predicate Inv(s: State) { Disjoint(s.cover) && FrontierExact(s.cover, s.frontier) }

  // ------------------------------------------------------------ operations

  /** The declared gap with the greatest start not above `n`. */
  function LatestGap(c: Coverage, n: U64): Option<Gap> {
    if n in c.gaps then Some(c.gaps[n])
    else if n == 0 then None
    else LatestGap(c, n - 1)
  }

  /** The gap the lookup reports as covering `n`. */
  function GapCovering(c: Coverage, n: U64): Option<Gap> {
    var latest := LatestGap(c, n);
    if latest.Some? && n <= latest.value.last then latest else None
  }

  /** Where the frontier comes to rest when it starts looking at `next`. */
  function Advance(c: Coverage, next: nat, frontier: Option<U64>): Option<U64>
    decreases U64_LIMIT - next
  {
    if next >= U64_LIMIT then frontier
    else if next in c.accepted then Advance(c, next + 1, Some(next))
    else if next in c.gaps && c.gaps[next].last >= next then
      Advance(c, c.gaps[next].last + 1, Some(c.gaps[next].last))
    else frontier
  }

  function Advanced(s: State, c: Coverage): State {
    s.(cover := c, frontier := Advance(c, After(s.frontier), s.frontier))
  }

  datatype Outcome = Recorded | AlreadyRecorded

  function ApplyAccepted(hash: Hash, s: State, r: Record): Result<(State, Outcome), Violation> {
    if s.terminal.Some? then Err(AppendAfterTerminal)
    else if r.stream != s.identity then Err(WrongStream)
    else if r.contentDigest != hash(r.bytes) then Err(InvalidContentDigest)
    else if r.sequence in s.cover.accepted then
      var existing := s.cover.accepted[r.sequence];
      if existing.contentDigest == r.contentDigest && existing.bytes == r.bytes then Ok((s, AlreadyRecorded))
      else Err(IdentityContentConflict)
    else if GapCovering(s.cover, r.sequence).Some? then Err(AcceptedIdentityCoveredByGap)
    else Ok((Advanced(s, s.cover.(accepted := s.cover.accepted[r.sequence := r])), Recorded))
  }

  predicate Overlaps(c: Coverage, gap: Gap) {
    || (exists k :: k in c.accepted && gap.first <= k <= gap.last)
    || (exists g :: g in c.gaps && c.gaps[g].first <= gap.last && gap.first <= c.gaps[g].last)
  }

  function ApplyGap(s: State, gap: Gap): Result<(State, Outcome), Violation> {
    if s.terminal.Some? then Err(AppendAfterTerminal)
    else if gap.stream != s.identity then Err(WrongStream)
    else if gap.first > gap.last || gap.dropped == 0 then Err(InvalidGap)
    else if gap.first in s.cover.gaps && s.cover.gaps[gap.first] == gap then Ok((s, AlreadyRecorded))
    else if Overlaps(s.cover, gap) then Err(GapOverlap)
    else Ok((Advanced(s, s.cover.(gaps := s.cover.gaps[gap.first := gap])), Recorded))
  }

  /** `n` is at or above every record sequence and every gap end. */
  predicate Bounds(c: Coverage, n: nat) {
    && (forall k | k in c.accepted :: k <= n)
    && (forall g | g in c.gaps :: c.gaps[g].last <= n)
  }

  /** The greatest of all record sequences and gap ends is not the frontier. */
  predicate FrontierHasHole(s: State) {
    || (exists k | k in s.cover.accepted :: Bounds(s.cover, k) && s.frontier != Some(k))
    || (exists g | g in s.cover.gaps ::
          Bounds(s.cover, s.cover.gaps[g].last) && s.frontier != Some(s.cover.gaps[g].last))
  }

  function ApplyTerminal(s: State, t: Terminal): Result<(State, Outcome), Violation> {
    if s.terminal.Some? then
      if s.terminal.value == t then Ok((s, AlreadyRecorded)) else Err(TerminalConflict)
    else if t.EndOfStream? && FrontierHasHole(s) then Err(CleanTerminalBeforeContiguousFrontier)
    else Ok((s.(terminal := Some(t)), Recorded))
  }

  // ------------------------------------------------------------ the frontier

  /** The lookup by greatest start finds the nearest gap. */
  lemma {:induction false} LatestGapIsNearest(c: Coverage, n: U64)
    requires Disjoint(c)
    ensures forall g :: g in c.gaps && g <= n ==> LatestGap(c, n).Some? && g <= LatestGap(c, n).value.first
    ensures LatestGap(c, n).Some? ==> LatestGap(c, n).value.first in c.gaps
                                      && c.gaps[LatestGap(c, n).value.first] == LatestGap(c, n).value
                                      && LatestGap(c, n).value.first <= n
  {
    if n !in c.gaps && n > 0 {
      LatestGapIsNearest(c, n - 1);
    }
  }

  /** So it reports a covering gap exactly when there is one. */
  lemma GapCoveringIffInGap(c: Coverage, n: U64)
    requires Disjoint(c)
    ensures GapCovering(c, n).Some? <==> InGap(c, n)
  {
    LatestGapIsNearest(c, n);
  }

  /** No gap starts before `n` and reaches it. */
  ghost predicate Aligned(c: Coverage, n: nat) {
    forall g :: g in c.gaps && g < n ==> c.gaps[g].last < n
  }

  /** An aligned number where nothing is filed is not covered. */
  lemma NothingFiledNothingCovered(c: Coverage, n: nat)
    requires Aligned(c, n) && (n < U64_LIMIT ==> n !in c.accepted && n !in c.gaps)
    ensures !Covered(c, n)
  {
  }

  /** Stepping over what is filed at an aligned covered number leads to the next aligned one. */
  lemma StepsOver(c: Coverage, n: nat, end: nat)
    requires Disjoint(c) && CoveredBelow(c, n) && Aligned(c, n) && n < U64_LIMIT
    requires (n in c.accepted && end == n) || (n !in c.accepted && n in c.gaps && end == c.gaps[n].last)
    ensures n <= end && CoveredBelow(c, end + 1) && Aligned(c, end + 1)
  {
    forall m: nat | m < end + 1
      ensures Covered(c, m)
    {
      assert m >= n && n !in c.accepted ==> InGap(c, m);
    }
    assert n in c.accepted ==> !InGap(c, n);
  }

  /** From an aligned start the frontier ends at the first number nothing covers. */
  lemma {:induction false} AdvanceIsExact(c: Coverage, next: nat, frontier: Option<U64>)
    requires Disjoint(c) && CoveredBelow(c, next) && Aligned(c, next) && next == After(frontier)
    ensures FrontierExact(c, Advance(c, next, frontier))
    decreases U64_LIMIT - next
  {
    hide Disjoint, CoveredBelow, Aligned;
    if next < U64_LIMIT && next in c.accepted {
      StepsOver(c, next, next);
      AdvanceIsExact(c, next + 1, Some(next));
    } else if next < U64_LIMIT && next in c.gaps {
      var end: nat := c.gaps[next].last;
      StepsOver(c, next, end);
      AdvanceIsExact(c, end + 1, Some(end));
    } else {
      NothingFiledNothingCovered(c, next);
    }
  }

  /** The frontier loop. */
  method AdvanceFrontier(s: State) returns (frontier: Option<U64>)
    requires Disjoint(s.cover)
    ensures frontier == Advance(s.cover, After(s.frontier), s.frontier)
  {
    frontier := s.frontier;
    var next := After(s.frontier);
    while next < U64_LIMIT
      invariant Advance(s.cover, next, frontier) == Advance(s.cover, After(s.frontier), s.frontier)
      decreases U64_LIMIT - next
    {
      if next in s.cover.accepted {
        frontier := Some(next);
        next := next + 1;
        continue;
      }
      if next !in s.cover.gaps {
        break;
      }
      frontier := Some(s.cover.gaps[next].last);
      next := s.cover.gaps[next].last + 1;
    }
  }

  /** Growing the coverage and advancing keeps the frontier exact. */
  lemma AdvancedKeepsInv(s: State, c: Coverage)
    requires Inv(s) && Disjoint(c)
    requires forall k :: k in s.cover.accepted ==> k in c.accepted
    requires forall g :: g in s.cover.gaps ==> g in c.gaps && c.gaps[g] == s.cover.gaps[g]
    requires forall g :: g in c.gaps && g < After(s.frontier) ==> g in s.cover.gaps
    ensures Inv(Advanced(s, c))
  {
    var next := After(s.frontier);
    forall m: nat | m < next
      ensures Covered(c, m)
    {
      assert Covered(s.cover, m);
      if InGap(s.cover, m) {
        var g :| g in s.cover.gaps && g <= m <= s.cover.gaps[g].last;
        assert g in c.gaps;
      }
    }
    forall g | g in c.gaps && g < next
      ensures c.gaps[g].last < next
    {
      assert !InGap(s.cover, next);
    }
    AdvanceIsExact(c, next, s.frontier);
  }

  /** A recorded submission: every operation keeps the invariant. */
  lemma AcceptedKeepsInv(hash: Hash, s: State, r: Record)
    requires Inv(s) && ApplyAccepted(hash, s, r).Ok?
    ensures Inv(ApplyAccepted(hash, s, r).value.0)
  {
    if r.sequence !in s.cover.accepted {
      GapCoveringIffInGap(s.cover, r.sequence);
      var c := s.cover.(accepted := s.cover.accepted[r.sequence := r]);
      assert forall k :: k in c.accepted ==> (InGap(c, k) <==> InGap(s.cover, k));
      AdvancedKeepsInv(s, c);
    }
  }

  lemma GapKeepsInv(s: State, gap: Gap)
    requires Inv(s) && ApplyGap(s, gap).Ok?
    ensures Inv(ApplyGap(s, gap).value.0)
  {
    if !(gap.first in s.cover.gaps && s.cover.gaps[gap.first] == gap) {
      var c := s.cover.(gaps := s.cover.gaps[gap.first := gap]);
      assert gap.first !in s.cover.gaps;
      forall k | k in c.accepted
        ensures !InGap(c, k)
      {
        assert !InGap(s.cover, k);
      }
      assert !Covered(s.cover, gap.first);
      AdvancedKeepsInv(s, c);
    }
  }

  /**
   A frontier at the last sequence number is never advanced: every further record or gap is
   refused or already recorded, so the loop's `frontier + 1` cannot overflow.
   */
  lemma FullFrontierNeverAdvances(hash: Hash, s: State, r: Record, gap: Gap)
    requires Inv(s) && s.frontier == Some(U64_LIMIT - 1)
    ensures var a := ApplyAccepted(hash, s, r); a.Ok? ==> a.value == (s, AlreadyRecorded)
    ensures var g := ApplyGap(s, gap); g.Ok? ==> g.value == (s, AlreadyRecorded)
  {
    assert Covered(s.cover, r.sequence) && Covered(s.cover, gap.first);
    GapCoveringIffInGap(s.cover, r.sequence);
  }

  // ------------------------------------------------------------ the clean terminal

  /** `n` is the sequence of a record or the end of a gap. */
  ghost predicate Ends(c: Coverage, n: nat) {
    (n < U64_LIMIT && n in c.accepted) || exists g :: g in c.gaps && c.gaps[g].last == n
  }

  /** Among the ends at or above `n` there is a greatest one. */
  lemma {:induction false} GreatestEnd(c: Coverage, n: nat) returns (last: nat)
    requires Ends(c, n)
    ensures n <= last && Ends(c, last) && Bounds(c, last)
    decreases U64_LIMIT - n
  {
    if Bounds(c, n) {
      last := n;
    } else {
      var m: nat;
      if k :| k in c.accepted && k > n {
        m := k;
      } else {
        var g :| g in c.gaps && c.gaps[g].last > n;
        m := c.gaps[g].last;
      }
      last := GreatestEnd(c, m);
    }
  }

  lemma HoleIffEndBeyondFrontier(s: State)
    requires Inv(s)
    ensures FrontierHasHole(s) <==> exists e: nat :: Ends(s.cover, e) && e >= After(s.frontier)
  {
    var c, next := s.cover, After(s.frontier);
    if e: nat :| Ends(c, e) && e >= next {
      var last := GreatestEnd(c, e);
      assert s.frontier != Some(last);
    }
    if FrontierHasHole(s) {
      var last: nat :| Ends(c, last) && Bounds(c, last) && s.frontier != Some(last);
      if s.frontier.Some? {
        FrontierEnds(s);
        EndsWithin(c, s.frontier.value, last);
      }
      assert last >= next;
    }
  }

  lemma EndsWithin(c: Coverage, e: nat, bound: nat)
    requires Ends(c, e) && Bounds(c, bound)
    ensures e <= bound
  {
  }

  /** An End-of-stream is refused exactly when something durable lies beyond an uncovered number. */
  lemma CleanTerminalIffContiguous(s: State)
    requires Inv(s)
    ensures FrontierHasHole(s) <==> exists m: nat, n: nat :: m < n && !Covered(s.cover, m) && Covered(s.cover, n)
  {
    var c, next := s.cover, After(s.frontier);
    HoleIffEndBeyondFrontier(s);
    if e: nat :| Ends(c, e) && e >= next {
      EndsAreCovered(c, e);
      assert next < e && !Covered(c, next) && Covered(c, e);
    }
    if m: nat, n: nat :| m < n && !Covered(c, m) && Covered(c, n) {
      assert m >= next;
      var e := CoveredReaches(c, n);
    }
  }

  lemma EndsAreCovered(c: Coverage, n: nat)
    requires Disjoint(c) && Ends(c, n)
    ensures Covered(c, n)
  {
    if !(n < U64_LIMIT && n in c.accepted) {
      var g :| g in c.gaps && c.gaps[g].last == n;
      assert g <= n;
    }
  }

  lemma FrontierEnds(s: State)
    requires Inv(s) && s.frontier.Some?
    ensures Ends(s.cover, s.frontier.value)
  {
    var c, f: nat := s.cover, s.frontier.value;
    assert Covered(c, f) && !Covered(c, f + 1);
    if !(f in c.accepted) {
      var g :| g in c.gaps && g <= f <= c.gaps[g].last;
      assert !InGap(c, f + 1);
      assert c.gaps[g].last == f;
    }
  }

  lemma CoveredReaches(c: Coverage, n: nat) returns (e: nat)
    requires Disjoint(c) && Covered(c, n)
    ensures n <= e < U64_LIMIT && Ends(c, e)
  {
    if n < U64_LIMIT && n in c.accepted {
      e := n;
    } else {
      var g :| g in c.gaps && g <= n <= c.gaps[g].last;
      e := c.gaps[g].last;
    }
  }

  // ------------------------------------------------------------ replay

  datatype Item = Accepted(record: Record) | Missing(gap: Gap)

  function ItemLast(i: Item): U64 {
    match i
    case Accepted(r) => r.sequence
    case Missing(g) => g.last
  }

  /** The contiguous coverage from `n` up to the frontier, one item per record or gap. */
  ghost function ReplayFrom(c: Coverage, frontier: nat, n: nat): seq<Item>
    decreases U64_LIMIT - n
  {
    if n > frontier || n >= U64_LIMIT then []
    else if n in c.accepted then [Accepted(c.accepted[n])] + ReplayFrom(c, frontier, n + 1)
    else if n in c.gaps && n <= c.gaps[n].last then
      [Missing(c.gaps[n])] + ReplayFrom(c, frontier, c.gaps[n].last + 1)
    else []
  }

  ghost function Replay(s: State): seq<Item> {
    if s.frontier.None? then [] else ReplayFrom(s.cover, s.frontier.value, 0)
  }

  /** Below the frontier there is always a next record or a gap that starts right there. */
  lemma NextCovered(c: Coverage, frontier: U64, n: nat)
    requires Disjoint(c) && FrontierExact(c, Some(frontier)) && n <= frontier && Aligned(c, n)
    ensures n in c.accepted || n in c.gaps
    ensures n in c.accepted ==> c.accepted[n].sequence == n
    ensures var end: nat := if n in c.accepted then n else c.gaps[n].last;
            n <= end <= frontier && Aligned(c, end + 1)
    ensures n !in c.accepted ==> forall k :: k in c.accepted ==> !(n <= k <= c.gaps[n].last)
  {
    assert Covered(c, n) && !InGap(c, After(Some(frontier)));
    if n in c.accepted {
      assert !InGap(c, n);
    } else {
      assert forall k :: k in c.accepted ==> !InGap(c, k);
    }
  }

  lemma NextItem(c: Coverage, frontier: U64, n: nat)
    requires Disjoint(c) && FrontierExact(c, Some(frontier)) && n <= frontier && Aligned(c, n)
    ensures (n in c.accepted && c.accepted[n].sequence == n) || (n !in c.accepted && n in c.gaps)
    ensures var item := if n in c.accepted then Accepted(c.accepted[n]) else Missing(c.gaps[n]);
            var end: nat := ItemLast(item);
            && n <= end <= frontier && Aligned(c, end + 1)
            && ReplayFrom(c, frontier, n) == [item] + ReplayFrom(c, frontier, end + 1)
            && (n !in c.accepted ==> forall k :: k in c.accepted ==> !(n <= k <= end))
  {
    NextCovered(c, frontier, n);
    hide Disjoint, FrontierExact, Aligned;
  }

  lemma ReplayBounds(c: Coverage, frontier: U64)
    ensures Aligned(c, 0) && ReplayFrom(c, frontier, frontier as nat + 1) == []
  {
  }

  /** One turn of the replay loop. It never meets the hole its source panics on. */
  method ReplayOne(c: Coverage, frontier: U64, n: nat) returns (item: Item, next: nat)
    requires Disjoint(c) && FrontierExact(c, Some(frontier)) && n <= frontier && Aligned(c, n)
    ensures n < next <= frontier as nat + 1 && Aligned(c, next)
    ensures ReplayFrom(c, frontier, n) == [item] + ReplayFrom(c, frontier, next)
  {
    NextItem(c, frontier, n);
    hide Disjoint, FrontierExact, Aligned, ReplayFrom;
    if n in c.accepted {
      item, next := Accepted(c.accepted[n]), n + 1;
    } else {
      item, next := Missing(c.gaps[n]), c.gaps[n].last as nat + 1;
    }
  }

  /** The replay loop. */
  method ReplayRecords(s: State) returns (items: seq<Item>)
    requires Inv(s)
    ensures items == Replay(s)
  {
    items := [];
    if s.frontier.None? {
      return;
    }
    hide Disjoint, FrontierExact, Aligned, ReplayFrom;
    var c, frontier := s.cover, s.frontier.value;
    ReplayBounds(c, frontier);
    var sequence: nat := 0;
    ghost var left := ReplayFrom(c, frontier, 0);
    while sequence <= frontier
      invariant sequence <= frontier as nat + 1 && Aligned(c, sequence)
      invariant left == ReplayFrom(c, frontier, sequence) && items + left == Replay(s)
      decreases frontier as nat + 1 - sequence
    {
      var item, next := ReplayOne(c, frontier, sequence);
      assert items + ([item] + left[1..]) == (items + [item]) + left[1..];
      items, left := items + [item], left[1..];
      sequence := next;
    }
  }

  ghost function ItemFirst(i: Item): nat {
    match i
    case Accepted(r) => r.sequence
    case Missing(g) => g.first
  }

  /** The items follow one another without hole or overlap from `n` to `end`. */
  ghost predicate Tiles(items: seq<Item>, n: nat, end: nat)
    decreases |items|
  {
    if items == [] then n == end
    else ItemFirst(items[0]) == n && Tiles(items[1..], ItemLast(items[0]) + 1, end)
  }

  ghost function Occurrences(items: seq<Item>, r: Record): nat {
    if items == [] then 0 else (if items[0] == Accepted(r) then 1 else 0) + Occurrences(items[1..], r)
  }

  lemma {:induction false} ReplayFromTiles(c: Coverage, frontier: U64, n: nat, k: U64)
    requires Disjoint(c) && FrontierExact(c, Some(frontier))
    requires n <= frontier as nat + 1 && Aligned(c, n)
    ensures Tiles(ReplayFrom(c, frontier, n), n, frontier as nat + 1)
    ensures k in c.accepted ==>
              Occurrences(ReplayFrom(c, frontier, n), c.accepted[k]) == if n <= k <= frontier then 1 else 0
    decreases U64_LIMIT - n
  {
    if n <= frontier {
      NextItem(c, frontier, n);
      var all := ReplayFrom(c, frontier, n);
      var end: nat := ItemLast(all[0]);
      ReplayFromTiles(c, frontier, end + 1, k);
      assert all[1..] == ReplayFrom(c, frontier, end + 1);
    }
  }

  /**
   Replay walks the contiguous coverage in order, and an accepted record is replayed exactly
   once if every number below it is covered and not at all otherwise.
   */
  lemma ReplayedExactlyOnceIffContiguous(s: State, k: U64)
    requires Inv(s) && k in s.cover.accepted
    ensures Tiles(Replay(s), 0, After(s.frontier))
    ensures Occurrences(Replay(s), s.cover.accepted[k]) == if CoveredBelow(s.cover, k) then 1 else 0
  {
    assert Covered(s.cover, k);
    if s.frontier.Some? {
      ReplayFromTiles(s.cover, s.frontier.value, 0, k);
    }
    if k < After(s.frontier) {
      assert CoveredBelow(s.cover, k);
    } else {
      assert !Covered(s.cover, After(s.frontier)) && k != After(s.frontier);
    }
  }

  /** After a clean End-of-stream every accepted record is replayed, so nothing is stranded. */
  lemma CleanStreamReplaysEverything(s: State, exit: Exit, k: U64)
    requires Inv(s) && s.terminal.None? && k in s.cover.accepted
    requires ApplyTerminal(s, EndOfStream(exit)).Ok?
    ensures Occurrences(Replay(s), s.cover.accepted[k]) == 1
  {
    CleanTerminalIffContiguous(s);
    assert Covered(s.cover, k);
    ReplayedExactlyOnceIffContiguous(s, k);
  }

  /** An accepted record behind a hole is durable and sealed, yet replay does not reach it. */
  lemma StrandedRecord(hash: Hash, identity: Identity, bytes: Bytes)
    ensures var r := Record(identity, 1, hash(bytes), bytes);
            var a := ApplyAccepted(hash, New(identity), r);
            a.Ok? && a.value.1 == Recorded && Replay(a.value.0) == []
  {
    var r := Record(identity, 1, hash(bytes), bytes);
    var c := New(identity).cover;
    assert LatestGap(c, 1) == LatestGap(c, 0) == None;
  }

  // ------------------------------------------------------------ exactly what is recorded

  /** A record is recorded exactly when it is intact, belongs here and its number is not covered yet. */
  lemma AcceptOutcome(hash: Hash, s: State, r: Record)
    requires Inv(s)
    ensures var a := ApplyAccepted(hash, s, r);
            var mine := s.terminal.None? && r.stream == s.identity && r.contentDigest == hash(r.bytes);
            && (a.Ok? && a.value.1 == Recorded <==> mine && !Covered(s.cover, r.sequence))
            && (a.Ok? && a.value.1 == AlreadyRecorded <==>
                  mine && r.sequence in s.cover.accepted && s.cover.accepted[r.sequence].bytes == r.bytes
                  && s.cover.accepted[r.sequence].contentDigest == r.contentDigest)
            && (a.Ok? && a.value.1 == AlreadyRecorded ==> a.value.0 == s)
            && (a.Ok? && a.value.1 == Recorded ==>
                  var t := a.value.0;
                  && t.cover == Coverage(s.cover.accepted[r.sequence := r], s.cover.gaps)
                  && t.identity == s.identity && t.terminal == s.terminal && FrontierExact(t.cover, t.frontier))
  {
    GapCoveringIffInGap(s.cover, r.sequence);
    if ApplyAccepted(hash, s, r).Ok? {
      AcceptedKeepsInv(hash, s, r);
    }
  }

  /** Why a record is refused. */
  lemma AcceptRefusal(hash: Hash, s: State, r: Record)
    requires Inv(s) && ApplyAccepted(hash, s, r).Err?
    ensures var e := ApplyAccepted(hash, s, r).error;
            if s.terminal.Some? then e == AppendAfterTerminal
            else if r.stream != s.identity then e == WrongStream
            else if r.contentDigest != hash(r.bytes) then e == InvalidContentDigest
            else e == if InGap(s.cover, r.sequence) then AcceptedIdentityCoveredByGap else IdentityContentConflict
  {
    GapCoveringIffInGap(s.cover, r.sequence);
  }

  /** A gap is recorded exactly when it is well formed, belongs here and covers nothing that is covered yet. */
  lemma GapOutcome(s: State, gap: Gap)
    requires Inv(s)
    ensures var a := ApplyGap(s, gap);
            var mine := s.terminal.None? && gap.stream == s.identity && gap.first <= gap.last && gap.dropped > 0;
            && (a.Ok? && a.value.1 == Recorded <==>
                  mine && forall n: nat :: gap.first <= n <= gap.last ==> !Covered(s.cover, n))
            && (a.Ok? && a.value.1 == AlreadyRecorded <==>
                  mine && gap.first in s.cover.gaps && s.cover.gaps[gap.first] == gap)
            && (a.Ok? && a.value.1 == AlreadyRecorded ==> a.value.0 == s)
            && (a.Ok? && a.value.1 == Recorded ==>
                  var t := a.value.0;
                  && t.cover == Coverage(s.cover.accepted, s.cover.gaps[gap.first := gap])
                  && t.identity == s.identity && t.terminal == s.terminal && FrontierExact(t.cover, t.frontier))
  {
    if ApplyGap(s, gap).Ok? {
      GapKeepsInv(s, gap);
    }
    if gap.first <= gap.last {
      OverlapsIffCovered(s.cover, gap);
      if gap.first in s.cover.gaps {
        assert InGap(s.cover, gap.first) && Covered(s.cover, gap.first);
      }
    }
  }

  lemma OverlapsIffCovered(c: Coverage, gap: Gap)
    requires Disjoint(c) && gap.first <= gap.last
    ensures Overlaps(c, gap) <==> exists n: nat :: gap.first <= n <= gap.last && Covered(c, n)
  {
    if g :| g in c.gaps && c.gaps[g].first <= gap.last && gap.first <= c.gaps[g].last {
      var n: nat := if g < gap.first then gap.first else g;
      assert InGap(c, n) && Covered(c, n);
    }
    if k :| k in c.accepted && gap.first <= k <= gap.last {
      assert Covered(c, k);
    }
    if n: nat :| gap.first <= n <= gap.last && Covered(c, n) && InGap(c, n) {
      var g :| g in c.gaps && g <= n <= c.gaps[g].last;
    }
  }

  /** The given terminal is recorded once, a clean one exactly on a stream without a hole. */
  lemma TerminalOutcome(s: State, t: Terminal)
    requires Inv(s)
    ensures var a := ApplyTerminal(s, t);
            && (a.Ok? && a.value.1 == AlreadyRecorded <==> s.terminal == Some(t))
            && (a.Ok? && a.value.1 == AlreadyRecorded ==> a.value.0 == s)
            && (a.Ok? && a.value.1 == Recorded <==>
                  && s.terminal.None?
                  && (t.EndOfStream? ==>
                        !exists m: nat, n: nat :: m < n && !Covered(s.cover, m) && Covered(s.cover, n)))
            && (a.Ok? && a.value.1 == Recorded ==>
                  a.value.0 == State(s.identity, s.cover, s.frontier, Some(t)))
  {
    CleanTerminalIffContiguous(s);
  }
}
