/**
 What the drain still guarantees when somebody else changes the final and temporary files
 between any two of its effects.
 */
module CompactionGuards {
  import opened Basics
  import opened LogStream
  import opened CompactionDrain
  import opened CompactionDrainLaws

  ghost predicate CollisionFree(x: Codec) {
    forall a: Bytes, b: Bytes :: x.hash(a) == x.hash(b) ==> a == b
  }

  /** The installed file has exactly the content that the seal demands. */
  predicate Holds(x: Codec, job: Job, s: Sealed, kind: Kind) {
    Path(s.stream, kind) in job.final && job.final[Path(s.stream, kind)] == Contents(x, s, kind)
  }

  /** Verification accepts exactly the two files that were installed. */
  lemma VerifiesIffWhole(x: Codec, job: Job, s: Sealed)
    requires RoundTrips(x) && CollisionFree(x)
    ensures VerifyFinal(x, job, ReferenceTo(x, s)) <==> Holds(x, job, s, Log) && Holds(x, job, s, Exit)
  {
    if Holds(x, job, s, Log) && Holds(x, job, s, Exit) {
      InstalledPassesVerify(x, job, s);
    }
  }

  // ------------------------------------------------------------ files that change behind the drain

  /** An effect, a crash or ageing; or somebody replaces the final and temporary files. */
  datatype Hazard = Ordinary(event: Event) | Interference(final: map<Path, Bytes>, temporary: map<Path, Bytes>)

  function HazardStep(x: Codec, w: World, h: Hazard): World {
    match h
    case Ordinary(e) => Step(x, w, e)
    case Interference(final, temporary) => w.(job := w.job.(final := final, temporary := temporary))
  }

  function HazardRun(x: Codec, w: World, hazards: seq<Hazard>): World
    decreases |hazards|
  {
    if hazards == [] then w else HazardRun(x, HazardStep(x, w, hazards[0]), hazards[1..])
  }

  /** The file in hand is that of a stream whose journal carries its seal. */
  ghost predicate InHand(x: Codec, o: Job, job: Job, refs: seq<Reference>, seal: Sealed) {
    && RefsUpTo(x, o, refs) && Ready(o, |refs|) && seal == SealAt(o, |refs|)
    && seal.stream in job.journals && job.journals[seal.stream].seal == Some(x.recordDigest(seal.records))
  }

  /** References are only ever made of what the journals held. */
  ghost predicate Honest(x: Codec, o: Job, job: Job, pc: Pc) {
    match pc
    case Seal(_, refs) => RefsUpTo(x, o, refs)
    case Inspect(_, refs, seal, _) => InHand(x, o, job, refs, seal)
    case Write(_, refs, seal, _) => InHand(x, o, job, refs, seal)
    case Rename(_, refs, seal, _) => InHand(x, o, job, refs, seal)
    case CommitArchive(_, refs) => RefsUpTo(x, o, refs)
    case Verify(_, refs) => RefsUpTo(x, o, refs)
    case CleanScope(refs) => RefsUpTo(x, o, refs)
    case PurgeJournal(refs, _) => RefsUpTo(x, o, refs)
    case _ => true
  }

  ghost predicate Guarded(x: Codec, o: Job, w: World) {
    && Unchanged(x, o, w.job) && Honest(x, o, w.job, w.pc)
    && (w.job.staging.Complete? ==> RefsUpTo(x, o, w.job.staging.refs))
    && (w.job.archive.Some? ==> RefsUpTo(x, o, w.job.archive.value.refs))
  }

  /** Only files, quarantine, scope and commits may differ. */
  ghost predicate SameBooks(a: Job, b: Job) {
    && b.intact == a.intact && b.dated == a.dated && b.tasks == a.tasks && b.streams == a.streams
    && b.journals == a.journals && b.staging == a.staging && b.archive == a.archive
  }

  lemma SameBooksKeep(x: Codec, o: Job, w: World, next: World)
    requires Guarded(x, o, w) && SameBooks(w.job, next.job) && Honest(x, o, w.job, next.pc)
    ensures Guarded(x, o, next)
  {
    hide RefsUpTo;
  }

  lemma InstallingKeepsBooks(x: Codec, w: World)
    requires w.pc.Inspect? || w.pc.Write? || w.pc.Rename?
    ensures SameBooks(w.job, Next(x, w).job)
    ensures var pc := Next(x, w).pc;
            || pc.Idle? || pc == Write(w.pc.snap, w.pc.refs, w.pc.seal, w.pc.kind)
            || pc == Rename(w.pc.snap, w.pc.refs, w.pc.seal, w.pc.kind)
            || pc == Inspect(w.pc.snap, w.pc.refs, w.pc.seal, Exit)
            || pc == Seal(w.pc.snap, w.pc.refs + [ReferenceTo(x, w.pc.seal)])
  {
    hide Contents, ReferenceTo, SealStep, CommitStep, VerifyStep, PurgeJournalStep;
  }

  lemma InstallingKeepsGuarded(x: Codec, o: Job, w: World)
    requires Guarded(x, o, w) && (w.pc.Inspect? || w.pc.Write? || w.pc.Rename?)
    ensures Guarded(x, o, Next(x, w))
  {
    hide Next, ReferenceTo, RefsUpTo, Unchanged;
    InstallingKeepsBooks(x, w);
    RefsExtend(x, o, w.pc.refs, w.pc.seal);
    SameBooksKeep(x, o, w, Next(x, w));
  }

  lemma SealKeepsUnchanged(x: Codec, o: Job, job: Job, id: Identity)
    requires Unchanged(x, o, job) && id in job.journals
    ensures var j := job.journals[id];
            && id in o.journals && j.records == o.journals[id].records && j.terminal == o.journals[id].terminal
            && Unchanged(x, o, job.(journals := job.journals[id := j.(seal := Some(x.recordDigest(j.records)))]))
  {
  }

  lemma SealingKeepsGuarded(x: Codec, o: Job, w: World)
    requires Guarded(x, o, w) && w.pc.Seal?
    ensures Guarded(x, o, Next(x, w))
  {
    assert w.job.streams == o.streams;
    hide RefsUpTo, Unchanged;
    var i := |w.pc.refs|;
    if i < |o.streams| && o.streams[i] in w.job.journals {
      SealKeepsUnchanged(x, o, w.job, o.streams[i]);
    }
    assert Next(x, w) == SealStep(x, w);
    hide Next;
  }

  lemma VerifyKeepsGuarded(x: Codec, o: Job, w: World)
    requires Guarded(x, o, w) && w.pc.Verify?
    ensures Guarded(x, o, Next(x, w))
  {
    hide RefsUpTo, Unchanged, VerifyFinal, ValidStreams, StreamsOf, SnapshotOf;
    assert Next(x, w) == VerifyStep(x, w);
    hide Next;
    SameBooksKeep(x, o, w, VerifyStep(x, w));
  }

  lemma CleanupKeepsGuarded(x: Codec, o: Job, w: World)
    requires Guarded(x, o, w) && (w.pc.CleanScope? || w.pc.PurgeJournal? || w.pc.PurgeStaging?)
    ensures Guarded(x, o, Next(x, w))
  {
    hide RefsUpTo, VerifyFinal, SealStep, InspectStep, WriteStep, RenameStep, CommitStep, VerifyStep;
  }

  lemma StartKeepsGuarded(x: Codec, o: Job, w: World)
    requires Guarded(x, o, w) && (w.pc.Idle? || w.pc.Snapshot?)
    ensures Guarded(x, o, Next(x, w))
  {
    assert RefsUpTo(x, o, []);
    hide Unchanged, RefsUpTo, ValidStreams;
    SameBooksKeep(x, o, w, Next(x, w));
  }

  lemma CommittingKeepsGuarded(x: Codec, o: Job, w: World)
    requires Guarded(x, o, w) && w.pc.CommitArchive?
    ensures Guarded(x, o, Next(x, w))
  {
    hide RefsUpTo, ValidStreams, SealStep, InspectStep, WriteStep, RenameStep, VerifyStep, PurgeJournalStep;
  }

  lemma NextKeepsGuarded(x: Codec, o: Job, w: World)
    requires Guarded(x, o, w)
    ensures Guarded(x, o, Next(x, w))
  {
    hide Next, Guarded;
    match w.pc {
      case Inspect(_, _, _, _) => InstallingKeepsGuarded(x, o, w);
      case Write(_, _, _, _) => InstallingKeepsGuarded(x, o, w);
      case Rename(_, _, _, _) => InstallingKeepsGuarded(x, o, w);
      case Seal(_, _) => SealingKeepsGuarded(x, o, w);
      case Idle => StartKeepsGuarded(x, o, w);
      case Snapshot => StartKeepsGuarded(x, o, w);
      case CommitArchive(_, _) => CommittingKeepsGuarded(x, o, w);
      case Verify(_, _) => VerifyKeepsGuarded(x, o, w);
      case _ => CleanupKeepsGuarded(x, o, w);
    }
  }

  lemma HazardKeepsGuarded(x: Codec, o: Job, w: World, h: Hazard)
    requires Guarded(x, o, w) && h != Ordinary(Effect)
    ensures Guarded(x, o, HazardStep(x, w, h))
  {
    assert Honest(x, o, w.job, w.pc) && Honest(x, o, w.job, Idle);
    hide Honest, Unchanged, Next;
    SameBooksKeep(x, o, w, HazardStep(x, w, h));
  }

  lemma {:induction false} HazardsKeepGuarded(x: Codec, o: Job, w: World, hazards: seq<Hazard>)
    requires Guarded(x, o, w)
    ensures Guarded(x, o, HazardRun(x, w, hazards))
    decreases |hazards|
  {
    hide Next, Guarded;
    if hazards != [] {
      if hazards[0] == Ordinary(Effect) {
        NextKeepsGuarded(x, o, w);
      } else {
        HazardKeepsGuarded(x, o, w, hazards[0]);
      }
      HazardsKeepGuarded(x, o, HazardStep(x, w, hazards[0]), hazards[1..]);
    }
  }

  lemma OthersKeepJournals(x: Codec, w: World, id: Identity)
    requires !w.pc.PurgeJournal? && id in w.job.journals
    ensures id in Next(x, w).job.journals
  {
    hide ValidStreams, InspectStep, WriteStep, RenameStep, VerifyStep, CleanScopeStep, PurgeJournalStep;
    if w.pc.Verify? || w.pc.CleanScope? || w.pc.PurgeStaging? {
      CleanupInstallsNothing(x, w);
      hide Next;
    } else if w.pc.Inspect? || w.pc.Write? || w.pc.Rename? {
      InstallingKeepsBooks(x, w);
      hide Next;
    }
  }

  /** Only the purge of a stream removes a journal, and only that stream's, behind a verified reference. */
  lemma OnlyPurgeRemoves(x: Codec, w: World, id: Identity)
    requires id in w.job.journals && id !in Next(x, w).job.journals
    ensures w.pc.PurgeJournal? && w.pc.done < |w.pc.refs| && w.pc.refs[w.pc.done].stream == id
    ensures VerifyFinal(x, w.job, w.pc.refs[w.pc.done])
  {
    hide VerifyFinal, SealStep, InspectStep, WriteStep, RenameStep, CommitStep, VerifyStep, CleanScopeStep;
    if !w.pc.PurgeJournal? {
      OthersKeepJournals(x, w, id);
    }
  }

  lemma JournalNeedsItsFiles(x: Codec, o: Job, w: World, id: Identity)
    requires RoundTrips(x) && CollisionFree(x) && Guarded(x, o, w)
    requires id in w.job.journals && id !in Next(x, w).job.journals
    ensures id in o.journals && o.journals[id].terminal.Some?
    ensures var s := Sealed(id, o.journals[id].records, o.journals[id].terminal.value);
            Holds(x, w.job, s, Log) && Holds(x, w.job, s, Exit)
  {
    OnlyPurgeRemoves(x, w, id);
    hide Next, VerifyFinal, Contents;
    assert Ready(o, w.pc.done);
    VerifiesIffWhole(x, w.job, SealAt(o, w.pc.done));
  }

  lemma InstallNeedsASeal(x: Codec, o: Job, w: World, path: Path)
    requires Guarded(x, o, w) && path in Next(x, w).job.final
    requires path in w.job.final ==> Next(x, w).job.final[path] != w.job.final[path]
    ensures path.stream in w.job.journals && path.stream in o.journals
    ensures w.job.journals[path.stream].seal == Some(x.recordDigest(o.journals[path.stream].records))
  {
    if !w.pc.Rename? {
      OnlyRenameInstalls(x, w);
    }
    hide RefsUpTo, ValidStreams, SealStep, InspectStep, WriteStep, CommitStep, VerifyStep, PurgeJournalStep;
  }

  /**
   Whatever effects, crashes and changes of the files happen, in whatever order: a journal goes
   only in an effect that finds both its final files to hold exactly its records and its end,
   and a file is installed only for a journal that carries its seal.
   */
  lemma FilesAreCheckedAtTheEffect(x: Codec, o: Job, hazards: seq<Hazard>, id: Identity, path: Path)
    requires RoundTrips(x) && CollisionFree(x) && Initial(o)
    ensures var w := HazardRun(x, World(o, Idle, 0), hazards);
            var next := Next(x, w);
            && (id in w.job.journals && id !in next.job.journals ==>
                  && id in o.journals && o.journals[id].terminal.Some?
                  && (var s := Sealed(id, o.journals[id].records, o.journals[id].terminal.value);
                      Holds(x, w.job, s, Log) && Holds(x, w.job, s, Exit)))
            && (path in next.job.final && (path in w.job.final ==> next.job.final[path] != w.job.final[path]) ==>
                  && path.stream in w.job.journals && path.stream in o.journals
                  && w.job.journals[path.stream].seal == Some(x.recordDigest(o.journals[path.stream].records)))
  {
    hide Next, Unchanged;
    assert Guarded(x, o, World(o, Idle, 0)) by { InitialInv(x, o); }
    HazardsKeepGuarded(x, o, World(o, Idle, 0), hazards);
    var w := HazardRun(x, World(o, Idle, 0), hazards);
    var next := Next(x, w);
    hide Guarded, HazardRun;
    if id in w.job.journals && id !in next.job.journals {
      JournalNeedsItsFiles(x, o, w, id);
    }
    if path in next.job.final && (path in w.job.final ==> next.job.final[path] != w.job.final[path]) {
      InstallNeedsASeal(x, o, w, path);
    }
  }

  // ------------------------------------------------------------ what single effects do in any state

  /** A file passes exactly when it is in place as sealed and no temporary lies beside it. */
  lemma PassesIffInstalled(x: Codec, w: World)
    requires w.pc.Inspect?
    ensures Next(x, w) == w.(pc := AfterInstall(x, w)) <==>
              Holds(x, w.job, w.pc.seal, w.pc.kind) && Path(w.pc.seal.stream, w.pc.kind) !in w.job.temporary
    ensures Path(w.pc.seal.stream, w.pc.kind) in w.job.final && Next(x, w).pc.Idle? ==>
              Next(x, w).failures == w.failures + 1
  {
    hide Contents, ReferenceTo;
  }

  lemma OthersLeaveTemporaries(x: Codec, w: World)
    requires !w.pc.Inspect? && !w.pc.Write? && !w.pc.Rename?
    ensures Next(x, w).job.temporary == w.job.temporary && Next(x, w).job.quarantine == w.job.quarantine
  {
    hide ValidStreams, InspectStep, WriteStep, RenameStep, VerifyStep, CleanScopeStep, PurgeJournalStep;
    if w.pc.Verify? || w.pc.CleanScope? || w.pc.PurgeJournal? || w.pc.PurgeStaging? {
      CleanupInstallsNothing(x, w);
      hide Next;
    }
  }

  /** No effect destroys a temporary file: it stays, is installed or joins the quarantine, which only grows. */
  lemma TemporariesAreKept(x: Codec, w: World, path: Path)
    requires path in w.job.temporary
    ensures var next, bytes := Next(x, w).job, w.job.temporary[path];
            && w.job.quarantine <= next.quarantine
            && (|| (path in next.temporary && next.temporary[path] == bytes)
                || (path in next.final && next.final[path] == bytes)
                || next.quarantine == w.job.quarantine + [bytes])
  {
    if !w.pc.Inspect? && !w.pc.Write? && !w.pc.Rename? {
      OthersLeaveTemporaries(x, w);
      hide Next;
    } else {
      hide Contents, AfterInstall, SealStep, CommitStep, VerifyStep, PurgeJournalStep;
    }
  }

  /** The archive is committed only from a staged record with a valid date, which it completes. */
  lemma CommitsOnce(x: Codec, w: World)
    ensures Next(x, w).job.commits != w.job.commits <==>
              w.pc.CommitArchive? && w.job.dated && w.job.staging.Staged?
    ensures Next(x, w).job.commits != w.job.commits ==>
              var next := Next(x, w).job;
              && next.commits == w.job.commits + 1 && next.archive == Some(Archive(w.pc.snap, w.pc.refs))
              && next.staging == Complete(x.hash(w.pc.snap), w.pc.refs)
  {
    hide Contents, ReferenceTo, ValidStreams, VerifyStep, CleanScopeStep, PurgeJournalStep;
    if w.pc.Verify? || w.pc.CleanScope? || w.pc.PurgeJournal? || w.pc.PurgeStaging? {
      CleanupInstallsNothing(x, w);
      hide Next;
    }
  }

  /** The references name exactly the tasks, each once. */
  ghost predicate NamesTheTasks(tasks: set<nat>, refs: seq<Reference>) {
    && |tasks| == |refs|
    && forall t :: t in tasks <==> exists r :: r in refs && r.stream.taskInstance == t
  }

  lemma InventoryIff(tasks: set<nat>, refs: seq<Reference>)
    ensures ValidStreams(tasks, StreamsOf(refs)) <==> NamesTheTasks(tasks, refs)
  {
    var streams := StreamsOf(refs);
    assert forall i :: 0 <= i < |refs| ==> refs[i].stream in streams;
    forall t
      ensures t in TaskIds(streams) <==> exists r :: r in refs && r.stream.taskInstance == t
    {
      if t in TaskIds(streams) {
        var i :| 0 <= i < |streams| && streams[i].taskInstance == t;
        assert refs[i] in refs;
      }
    }
  }

  /** Cleanup begins exactly when payload, inventory, snapshot and every final file still match the archive. */
  lemma CleansIffVerified(x: Codec, w: World)
    requires w.pc.Verify?
    ensures Next(x, w).pc.CleanScope? <==>
              && w.job.intact && NamesTheTasks(w.job.tasks, w.pc.refs)
              && SnapshotOf(w.job.scope).1.Some? && x.hash(SnapshotOf(w.job.scope).1.value) == w.pc.scopeDigest
              && forall r :: r in w.pc.refs ==> VerifyFinal(x, w.job, r)
  {
    InventoryIff(w.job.tasks, w.pc.refs);
    var scoped := w.job.(scope := SnapshotOf(w.job.scope).0);
    assert forall r :: r in w.pc.refs ==> (VerifyFinal(x, w.job, r) <==> VerifyFinal(x, scoped, r));
    hide VerifyFinal, SnapshotOf, ValidStreams, StreamsOf, NamesTheTasks;
  }
}
