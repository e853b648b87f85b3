/** The local Compaction drain converges: every call ends, and at most one call per leftover temporary fails. */
module CompactionConvergence {
  import opened Basics
  import opened CompactionDrain
  import opened CompactionDrainLaws

  /** Effects left in the current call, `n` streams in all. */
  ghost function PcRank(n: int, w: World): int {
    match w.pc
    case Idle =>
      (match w.job.staging case Staged => 8 * n + 10 case Complete(_, _) => n + 7 case Purged => 0)
    case Snapshot => 8 * n + 9
    case Seal(_, refs) => 7 * (n - |refs|) + n + 8
    case Inspect(_, refs, _, kind) => 7 * (n - |refs|) + n + 7 - (if kind == Log then 0 else 3)
    case Write(_, refs, _, kind) => 7 * (n - |refs|) + n + 6 - (if kind == Log then 0 else 3)
    case Rename(_, refs, _, kind) => 7 * (n - |refs|) + n + 5 - (if kind == Log then 0 else 3)
    case CommitArchive(_, _) => n + 7
    case Verify(_, _) => n + 6
    case CleanScope(_) => n + 5
    case PurgeJournal(_, done) => n - done + 4
    case PurgeStaging => 3
  }

  /** The leftover temporaries that fail a call: beside an installed file, or not what the drain would write. */
  ghost function Spoilt(x: Codec, o: Job, job: Job, front: int): set<Path> {
    set path | path in job.temporary &&
               (path in job.final || !Ready(o, front / 2) || job.temporary[path] != ContentAt(x, o, front))
  }

  /** The instance is drainable, and its scope did not grow too old before it was snapshotted. */
  ghost predicate CanFinish(o: Job, job: Job) { Drainable(o) && (job.scope.Active? ==> job.scope.young) }

  ghost predicate Finished(w: World) { w.pc.Idle? && w.job.staging.Purged? }

  ghost predicate Failed(w: World, next: World) { next.failures == w.failures + 1 && next.pc.Idle? }

  ghost function NextFront(w: World, front: int): int { if w.pc.Rename? then front + 1 else front }

  /** One effect: closer to the end of the call; or a failed call, with one spoilt temporary fewer. */
  ghost predicate Advances(x: Codec, o: Job, w: World, front: int) {
    var next := Next(x, w);
    var before, after := Spoilt(x, o, w.job, front), Spoilt(x, o, next.job, NextFront(w, front));
    && after <= before
    && (CanFinish(o, w.job) ==> CanFinish(o, next.job))
    && (if Failed(w, next) then
          && !next.job.staging.Purged?
          && (CanFinish(o, w.job) ==> after != before)
        else
          && next.failures == w.failures && PcRank(|o.streams|, next) < PcRank(|o.streams|, w)
          && (next.pc.Idle? ==> next.job.staging.Purged?))
  }

  lemma StartAdvances(x: Codec, o: Job, w: World, front: int)
    requires Initial(o) && Inv(x, o, w, front) && (w.pc.Idle? || w.pc.Snapshot?) && !Finished(w)
    ensures Advances(x, o, w, front)
  {
    hide Files;
  }

  lemma SealAdvances(x: Codec, o: Job, w: World, front: int)
    requires Initial(o) && Inv(x, o, w, front) && w.pc.Seal?
    ensures Advances(x, o, w, front)
  {
    hide Files;
    if |w.pc.refs| < |o.streams| {
      var i := |w.pc.refs|;
      assert o.streams[i] in w.job.journals <==> o.streams[i] in o.journals;
      assert Drainable(o) ==> Ready(o, i);
    }
  }

  lemma InspectAdvances(x: Codec, o: Job, w: World, front: int)
    requires Initial(o) && Inv(x, o, w, front) && w.pc.Inspect?
    ensures Advances(x, o, w, front)
  {
    Inspected(x, o, w, front);
    hide Files, RefsUpTo, ValidStreams, Drainable;
    var path := Path(w.pc.seal.stream, w.pc.kind);
    var next := Next(x, w);
    if Failed(w, next) {
      assert path in Spoilt(x, o, w.job, front) && path !in Spoilt(x, o, next.job, front);
    }
  }

  lemma WriteAdvances(x: Codec, o: Job, w: World, front: int)
    requires Initial(o) && Inv(x, o, w, front) && w.pc.Write?
    ensures Advances(x, o, w, front)
  {
    PosIsPath(o, w.pc.refs, w.pc.kind);
    assert ContentAt(x, o, front) == Contents(x, w.pc.seal, w.pc.kind);
    assert PathAt(o, front) !in w.job.final;
    hide Files, RefsUpTo, ValidStreams, Drainable;
  }

  lemma RenameAdvances(x: Codec, o: Job, w: World, front: int)
    requires Initial(o) && Inv(x, o, w, front) && w.pc.Rename?
    ensures Advances(x, o, w, front)
  {
    PosIsPath(o, w.pc.refs, w.pc.kind);
    forall p | p in w.job.temporary && p != PathAt(o, front)
      ensures p in w.job.final
    {
      assert Leftover(x, o, w.job.final, w.job.temporary, front, p);
    }
    hide Files, RefsUpTo, ValidStreams, Drainable;
  }

  lemma StreamsOfRefs(x: Codec, o: Job, job: Job, front: int)
    requires Committed(x, o, job, front) && job.staging.Complete?
    ensures StreamsOf(job.staging.refs) == o.streams
  {
    RefsNameTheStreams(x, o, job, front);
  }

  lemma RefsVerify(x: Codec, o: Job, job: Job, front: int)
    requires RoundTrips(x) && Files(x, o, job.final, job.temporary, front) && Committed(x, o, job, front)
    ensures forall r :: r in job.archive.value.refs ==> VerifyFinal(x, job, r)
  {
    var refs := job.archive.value.refs;
    forall i | 0 <= i < |refs|
      ensures VerifyFinal(x, job, refs[i])
    {
      CommittedStreamIsArchived(x, o, job, front, i);
    }
  }

  lemma VerifyAdvances(x: Codec, o: Job, w: World, front: int)
    requires RoundTrips(x) && Initial(o) && Inv(x, o, w, front) && w.pc.Verify?
    ensures Advances(x, o, w, front)
  {
    StreamsOfRefs(x, o, w.job, front);
    RefsVerify(x, o, w.job, front);
    hide VerifyFinal, Files, Unchanged, RefsUpTo, Spoilt;
    assert w.job.(scope := w.job.scope) == w.job;
  }

  lemma PurgeJournalAdvances(x: Codec, o: Job, w: World, front: int)
    requires RoundTrips(x) && Initial(o) && Inv(x, o, w, front) && w.pc.PurgeJournal?
    ensures Advances(x, o, w, front)
  {
    RefsVerify(x, o, w.job, front);
    hide VerifyFinal, Files, Unchanged, RefsUpTo;
    assert w.pc.done < |w.pc.refs| ==> w.pc.refs[w.pc.done] in w.job.archive.value.refs;
  }

  lemma CommitAdvances(x: Codec, o: Job, w: World, front: int)
    requires Initial(o) && Inv(x, o, w, front) && (w.pc.CommitArchive? || w.pc.CleanScope? || w.pc.PurgeStaging?)
    ensures Advances(x, o, w, front)
  {
    hide Files, Unchanged, RefsUpTo;
    assert w.job.dated == o.dated by { UnchangedDate(x, o, w.job); }
  }

  lemma UnchangedDate(x: Codec, o: Job, job: Job)
    requires Unchanged(x, o, job)
    ensures job.dated == o.dated
  {
  }

  lemma EffectAdvances(x: Codec, o: Job, w: World, front: int)
    requires RoundTrips(x) && Initial(o) && Inv(x, o, w, front) && !Finished(w)
    ensures Advances(x, o, w, front)
  {
    hide Inv, Advances;
    match w.pc {
      case Idle => StartAdvances(x, o, w, front);
      case Snapshot => StartAdvances(x, o, w, front);
      case Seal(_, _) => SealAdvances(x, o, w, front);
      case Inspect(_, _, _, _) => InspectAdvances(x, o, w, front);
      case Write(_, _, _, _) => WriteAdvances(x, o, w, front);
      case Rename(_, _, _, _) => RenameAdvances(x, o, w, front);
      case Verify(_, _) => VerifyAdvances(x, o, w, front);
      case PurgeJournal(_, _) => PurgeJournalAdvances(x, o, w, front);
      case _ => CommitAdvances(x, o, w, front);
    }
  }

  lemma Fewer(a: set<Path>, b: set<Path>)
    requires a <= b
    ensures |a| <= |b| && (a != b ==> |a| < |b|)
  {
    assert b == a + (b - a) && |b| == |a| + |b - a|;
    assert a != b ==> b - a != {};
  }

  lemma RankIsBounded(x: Codec, o: Job, w: World, front: int)
    requires Inv(x, o, w, front)
    ensures 0 <= PcRank(|o.streams|, w) <= 8 * |o.streams| + 10
    ensures PcRank(|o.streams|, w) == 0 <==> Finished(w)
    ensures |Spoilt(x, o, w.job, front)| <= |w.job.temporary|
  {
    Fewer(Spoilt(x, o, w.job, front), w.job.temporary.Keys);
    hide Files, Spoilt, Unchanged, Committed;
  }

  // ------------------------------------------------------------ convergence

  /** `m` effects without a crash. */
  ghost function Effects(x: Codec, w: World, m: nat): World
    decreases m
  {
    if m == 0 then w else Effects(x, Next(x, w), m - 1)
  }

  /** Enough effects for `calls` further failing calls and the rest of this one. */
  ghost function Budget(n: nat, calls: nat, rank: int): int { calls * (8 * n + 20) + rank }

  lemma BudgetFalls(n: nat, calls: nat, fewer: nat, rank: int, next: int)
    requires fewer <= calls && 0 <= rank && 0 <= next <= 8 * n + 10 && (fewer < calls || next < rank)
    ensures Budget(n, fewer, next) < Budget(n, calls, rank)
  {
    if fewer < calls {
      assert fewer * (8 * n + 20) <= (calls - 1) * (8 * n + 20);
    }
  }

  /** What `m` effects achieve when they are enough. */
  ghost predicate Converged(x: Codec, o: Job, w: World, front: int, m: nat) {
    CanFinish(o, w.job) && m >= Budget(|o.streams|, |Spoilt(x, o, w.job, front)|, PcRank(|o.streams|, w)) ==>
      && Finished(Effects(x, w, m))
      && Effects(x, w, m).failures <= w.failures + |Spoilt(x, o, w.job, front)|
  }

  lemma {:induction false} FinishedStays(x: Codec, w: World, m: nat)
    requires Finished(w)
    ensures Effects(x, w, m) == w
    decreases m
  {
    if m > 0 {
      FinishedStays(x, w, m - 1);
    }
  }

  lemma ConvergedStep(x: Codec, o: Job, w: World, front: int, m: nat)
    requires m > 0 && Inv(x, o, w, front) && Inv(x, o, Next(x, w), NextFront(w, front))
    requires if Finished(w) then Next(x, w) == w else Advances(x, o, w, front)
    requires Converged(x, o, Next(x, w), NextFront(w, front), m - 1)
    ensures Converged(x, o, w, front, m)
  {
    var next, n := Next(x, w), |o.streams|;
    RankIsBounded(x, o, w, front);
    RankIsBounded(x, o, next, NextFront(w, front));
    var before, after := Spoilt(x, o, w.job, front), Spoilt(x, o, next.job, NextFront(w, front));
    hide Inv, Spoilt, PcRank, Next, CanFinish, Budget;
    if Finished(w) {
      FinishedStays(x, w, m);
    } else if CanFinish(o, w.job) {
      Fewer(after, before);
      BudgetFalls(n, |before|, |after|, PcRank(n, w), PcRank(n, next));
    }
    BudgetIsPositive(n, |before|, PcRank(n, w));
  }

  lemma BudgetIsPositive(n: nat, calls: nat, rank: int)
    requires rank >= 0
    ensures Budget(n, calls, rank) >= 0 && (Budget(n, calls, rank) == 0 ==> rank == 0)
  {
    assert calls * (8 * n + 20) >= 0;
  }

  lemma {:induction false} EffectsConverge(x: Codec, o: Job, w: World, front: int, m: nat) returns (reached: int)
    requires RoundTrips(x) && Initial(o) && Inv(x, o, w, front)
    ensures Inv(x, o, Effects(x, w, m), reached) && Converged(x, o, w, front, m)
    decreases m
  {
    reached := front;
    if m == 0 {
      RankIsBounded(x, o, w, front);
      BudgetIsPositive(|o.streams|, |Spoilt(x, o, w.job, front)|, PcRank(|o.streams|, w));
    } else {
      NextKeepsInv(x, o, w, front);
      if !Finished(w) {
        EffectAdvances(x, o, w, front);
      }
      reached := EffectsConverge(x, o, Next(x, w), NextFront(w, front), m - 1);
      assert Finished(w) ==> Next(x, w) == w;
      hide Inv, Converged, Advances, Next;
      ConvergedStep(x, o, w, front, m);
    }
  }

  lemma EnoughBudget(x: Codec, o: Job, w: World, front: int, m: nat)
    requires Inv(x, o, w, front) && m >= (|w.job.temporary| + 1) * (8 * |o.streams| + 20)
    ensures m >= Budget(|o.streams|, |Spoilt(x, o, w.job, front)|, PcRank(|o.streams|, w))
  {
    RankIsBounded(x, o, w, front);
    hide Inv, Spoilt, PcRank, Budget;
    BudgetSuffices(|o.streams|, |Spoilt(x, o, w.job, front)|, |w.job.temporary|, PcRank(|o.streams|, w), m);
  }

  lemma BudgetSuffices(n: nat, calls: nat, all: nat, rank: int, m: nat)
    requires calls <= all && rank <= 8 * n + 10 && m >= (all + 1) * (8 * n + 20)
    ensures m >= Budget(n, calls, rank)
  {
    assert calls * (8 * n + 20) <= all * (8 * n + 20);
  }

  /**
   After any run of effects, crashes and ageing, enough crash-free effects purge everything, with
   one archive and at most one failed call per leftover temporary, exactly when the instance was
   drainable and its scope was snapshotted in time or is still young.
   */
  lemma DrainConvergesIffDrainable(x: Codec, o: Job, events: seq<Event>, m: nat)
    requires RoundTrips(x) && Initial(o)
    requires m >= (|Run(x, World(o, Idle, 0), events).job.temporary| + 1) * (8 * |o.streams| + 20)
    ensures var w := Run(x, World(o, Idle, 0), events);
            var end := Effects(x, w, m);
            && (Finished(end) <==> CanFinish(o, w.job))
            && NothingLost(x, o, end.job)
            && (CanFinish(o, w.job) ==>
                  && end.failures <= w.failures + |w.job.temporary|
                  && end.job.commits == 1 && end.job.archive.Some? && ArchiveOf(x, o, end.job.archive.value)
                  && end.job.journals.Keys == o.journals.Keys - set id | id in o.streams)
            && (!CanFinish(o, w.job) ==> end.job.archive.None? && end.job.journals.Keys == o.journals.Keys)
  {
    InitialInv(x, o);
    var front := RunKeepsInv(x, o, World(o, Idle, 0), 0, events);
    var w := Run(x, World(o, Idle, 0), events);
    RankIsBounded(x, o, w, front);
    EnoughBudget(x, o, w, front, m);
    var reached := EffectsConverge(x, o, w, front, m);
    InvMeansNothingLost(x, o, Effects(x, w, m), reached);
    EffectsKeepAge(x, w, m);
    hide Run, Effects, Files, Unchanged, Leftover;
  }

  /** Without a snapshot, a scope that is too old stays so. */
  lemma {:induction false} EffectsKeepAge(x: Codec, w: World, m: nat)
    ensures w.job.scope.Active? && !w.job.scope.young ==> Effects(x, w, m).job.scope == w.job.scope
    ensures Effects(x, w, m).job.scope.Active? ==> w.job.scope == Effects(x, w, m).job.scope
    decreases m
  {
    if m > 0 {
      EffectsKeepAge(x, Next(x, w), m - 1);
      NextKeepsAge(x, w);
      hide Next;
    }
  }

  lemma CleanupKeepsAge(x: Codec, w: World)
    requires w.pc.Verify? || w.pc.CleanScope? || w.pc.PurgeJournal? || w.pc.PurgeStaging?
    ensures w.job.scope.Active? && !w.job.scope.young ==> Next(x, w).job.scope == w.job.scope
    ensures Next(x, w).job.scope.Active? ==> w.job.scope == Next(x, w).job.scope
  {
    hide VerifyFinal, ValidStreams, SealStep, InspectStep, RenameStep, CommitStep;
  }

  lemma NextKeepsAge(x: Codec, w: World)
    ensures w.job.scope.Active? && !w.job.scope.young ==> Next(x, w).job.scope == w.job.scope
    ensures Next(x, w).job.scope.Active? ==> w.job.scope == Next(x, w).job.scope
  {
    hide ValidStreams, Contents, ReferenceTo, VerifyStep, CleanScopeStep, PurgeJournalStep, PurgeStagingStep;
    if w.pc.Verify? || w.pc.CleanScope? || w.pc.PurgeJournal? || w.pc.PurgeStaging? {
      CleanupKeepsAge(x, w);
      hide Next;
    }
  }

  // ------------------------------------------------------------ one call, and the startup loop

  /** One `drain_next` call on an unfinished instance, without a crash. */
  method DrainNext(x: Codec, w: World, ghost o: Job, ghost front: int)
    returns (ok: bool, end: World, ghost reached: int)
    requires RoundTrips(x) && Initial(o) && Inv(x, o, w, front) && w.pc.Idle? && !w.job.staging.Purged?
    ensures Inv(x, o, end, reached) && end.pc.Idle?
    ensures ok == end.job.staging.Purged? && end.failures == w.failures + (if ok then 0 else 1)
    ensures Spoilt(x, o, end.job, reached) <= Spoilt(x, o, w.job, front)
    ensures CanFinish(o, w.job) ==> CanFinish(o, end.job)
    ensures CanFinish(o, w.job) && !ok ==> Spoilt(x, o, end.job, reached) != Spoilt(x, o, w.job, front)
  {
    hide Inv, Next, Spoilt, PcRank, CanFinish;
    RankIsBounded(x, o, w, front);
    EffectAdvances(x, o, w, front);
    NextKeepsInv(x, o, w, front);
    end, reached := Next(x, w), NextFront(w, front);
    while !end.pc.Idle?
      invariant Inv(x, o, end, reached)
      invariant end.failures == w.failures + (if end.pc.Idle? && !end.job.staging.Purged? then 1 else 0)
      invariant Spoilt(x, o, end.job, reached) <= Spoilt(x, o, w.job, front)
      invariant CanFinish(o, w.job) ==> CanFinish(o, end.job)
      invariant CanFinish(o, w.job) && end.pc.Idle? && !end.job.staging.Purged? ==>
                  Spoilt(x, o, end.job, reached) != Spoilt(x, o, w.job, front)
      decreases if end.pc.Idle? then 0 else 1, PcRank(|o.streams|, end)
    {
      RankIsBounded(x, o, end, reached);
      EffectAdvances(x, o, end, reached);
      NextKeepsInv(x, o, end, reached);
      end, reached := Next(x, end), NextFront(end, reached);
    }
    ok := end.job.staging.Purged?;
  }

  /** One row of the staging table with everything durable behind it. */
  datatype Instance = Instance(stagedAt: nat, id: nat, world: World)

  /** The order of the selection. */
  predicate Before(a: Instance, b: Instance) { a.stagedAt < b.stagedAt || (a.stagedAt == b.stagedAt && a.id < b.id) }

  predicate Pending(a: Instance) { !a.world.job.staging.Purged? }

  /** The oldest of the first `n` instances whose staging is not purged. */
  function SelectForDrain(all: seq<Instance>, n: nat): (r: Option<nat>)
    requires n <= |all|
    ensures r.None? <==> forall i :: 0 <= i < n ==> !Pending(all[i])
    ensures r.Some? ==> && r.value < n && Pending(all[r.value])
                        && forall i :: 0 <= i < n && Pending(all[i]) ==> !Before(all[i], all[r.value])
  {
    if n == 0 then None
    else
      var r := SelectForDrain(all, n - 1);
      if !Pending(all[n - 1]) then r
      else if r.None? || Before(all[n - 1], all[r.value]) then Some(n - 1)
      else r
  }

  ghost predicate AtRest(x: Codec, o: Job, w: World, front: int) { Initial(o) && Inv(x, o, w, front) && w.pc.Idle? }

  ghost predicate AllAtRest(x: Codec, os: seq<Job>, all: seq<Instance>, fronts: seq<int>) {
    |os| == |all| == |fronts| && forall i :: 0 <= i < |all| ==> AtRest(x, os[i], all[i].world, fronts[i])
  }

  ghost function PendingSet(all: seq<Instance>): set<int> { set i | 0 <= i < |all| && Pending(all[i]) }

  /** Instance `k` stopped the startup: it failed once more, and everything older is purged. */
  ghost predicate StoppedAt(x: Codec, os: seq<Job>, all: seq<Instance>, fronts: seq<int>, end: seq<Instance>,
                            reached: seq<int>, k: int)
    requires |os| == |all| == |fronts| == |end| == |reached|
  {
    && 0 <= k < |end| && Pending(end[k]) && end[k].world.failures == all[k].world.failures + 1
    && (forall i :: 0 <= i < |end| && Pending(end[i]) ==> !Before(end[i], end[k]))
    && (CanFinish(os[k], all[k].world.job) ==>
          Spoilt(x, os[k], end[k].world.job, reached[k]) < Spoilt(x, os[k], all[k].world.job, fronts[k]))
  }

  /** Instance `i` is as it was, or purged. */
  ghost predicate KeptOrPurged(all: seq<Instance>, fronts: seq<int>, end: seq<Instance>, reached: seq<int>, i: int)
    requires 0 <= i < |all| == |fronts| == |end| == |reached|
  {
    && end[i].stagedAt == all[i].stagedAt && end[i].id == all[i].id
    && ((end[i] == all[i] && reached[i] == fronts[i]) || (Pending(all[i]) && !Pending(end[i])))
  }

  /** Startup drains the oldest instance until none is left, and stops at the first error. */
  method StartupDrain(x: Codec, all: seq<Instance>, ghost os: seq<Job>, ghost fronts: seq<int>)
    returns (ok: bool, end: seq<Instance>, ghost reached: seq<int>, ghost stopped: int)
    requires RoundTrips(x) && AllAtRest(x, os, all, fronts)
    ensures AllAtRest(x, os, end, reached)
    ensures ok ==> forall i :: 0 <= i < |end| ==> !Pending(end[i])
    ensures !ok ==> StoppedAt(x, os, all, fronts, end, reached, stopped)
    ensures forall i :: 0 <= i < |end| ==> end[i] == all[i] || !Pending(end[i]) || (!ok && i == stopped)
    ensures forall i :: 0 <= i < |end| && !Pending(all[i]) ==> end[i] == all[i]
  {
    hide Inv, Next, Spoilt, PcRank, CanFinish, Initial, SelectForDrain;
    end, reached, stopped := all, fronts, 0;
    while true
      invariant AllAtRest(x, os, end, reached) && |end| == |all|
      invariant forall i :: 0 <= i < |end| ==> KeptOrPurged(all, fronts, end, reached, i)
      decreases |PendingSet(end)|
    {
      var selected := SelectForDrain(end, |end|);
      forall i | 0 <= i < |end|
        ensures end[i] == all[i] || (Pending(all[i]) && !Pending(end[i]))
      {
        assert KeptOrPurged(all, fronts, end, reached, i);
      }
      match selected {
        case None => return true, end, reached, 0;
        case Some(k) =>
          assert AtRest(x, os[k], end[k].world, reached[k]) && KeptOrPurged(all, fronts, end, reached, k);
          var drained, w, front := DrainNext(x, end[k].world, os[k], reached[k]);
          assert AtRest(x, os[k], w, front);
          ghost var before, ends, fronts' := PendingSet(end), end, reached;
          end, reached := end[k := end[k].(world := w)], reached[k := front];
          if !drained {
            return false, end, reached, k;
          }
          assert PendingSet(end) == before - {k} && k in before;
          forall i | 0 <= i < |end|
            ensures KeptOrPurged(all, fronts, end, reached, i)
          {
            assert KeptOrPurged(all, fronts, ends, fronts', i);
          }
      }
    }
  }
}
