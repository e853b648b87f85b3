/** Safety and convergence of the local Compaction drain under crashes at any point. */
module CompactionDrainLaws {
  import opened Basics
  import opened LogStream
  import opened CompactionDrain

  // ------------------------------------------------------------ what was staged

  /** A freshly staged workflow instance: nothing installed, nothing archived, nothing sealed. */
  ghost predicate Initial(o: Job) {
    && o.staging.Staged? && o.archive.None? && o.commits == 0
    && o.final == map[] && o.temporary == map[]
    && (o.scope.NoScope? || o.scope.Quarantined? || o.scope.Active?)
    && (forall id :: id in o.journals ==> o.journals[id].seal.None?)
  }

  ghost predicate Validated(o: Job) { o.intact && ValidStreams(o.tasks, o.streams) }

  ghost predicate GoodScope(scope: Scope) { scope.Active? && scope.bounded && scope.valid }

  /** Stream `i` has a terminal journal. */
  ghost predicate Ready(o: Job, i: int) {
    0 <= i < |o.streams| && o.streams[i] in o.journals && o.journals[o.streams[i]].terminal.Some?
  }

  /** Everything the drain needs in order to archive this instance, but for the age of its scope. */
  ghost predicate Drainable(o: Job) {
    && Validated(o) && o.dated && GoodScope(o.scope)
    && (forall i :: 0 <= i < |o.streams| ==> Ready(o, i))
  }

  ghost function SealAt(o: Job, i: int): Sealed
    requires Ready(o, i)
  {
    var j := o.journals[o.streams[i]];
    Sealed(o.streams[i], j.records, j.terminal.value)
  }

  /** The final files in the order the drain installs them. */
  function PathAt(o: Job, pos: int): Path
    requires 0 <= pos < 2 * |o.streams|
  {
    Path(o.streams[pos / 2], if pos % 2 == 0 then Log else Exit)
  }

  function KindAt(pos: int): Kind { if pos % 2 == 0 then Log else Exit }

  ghost function ContentAt(x: Codec, o: Job, pos: int): Bytes
    requires Ready(o, pos / 2)
  {
    Contents(x, SealAt(o, pos / 2), KindAt(pos))
  }

  ghost predicate Prefix(a: Bytes, b: Bytes) { |a| <= |b| && a == b[..|a|] }

  // ------------------------------------------------------------ the invariant

  /** What never changes, and that no journal changes except for its seal. */
  ghost predicate Unchanged(x: Codec, o: Job, job: Job) {
    && job.intact == o.intact && job.dated == o.dated && job.tasks == o.tasks && job.streams == o.streams
    && (forall id :: id in job.journals ==>
          && id in o.journals
          && job.journals[id].records == o.journals[id].records
          && job.journals[id].terminal == o.journals[id].terminal
          && (job.journals[id].seal.Some? ==> job.journals[id].seal.value == x.recordDigest(o.journals[id].records)))
  }

  ghost predicate InstalledAt(x: Codec, o: Job, final: map<Path, Bytes>, pos: int)
    requires 0 <= pos < 2 * |o.streams|
  {
    Ready(o, pos / 2) && PathAt(o, pos) in final && final[PathAt(o, pos)] == ContentAt(x, o, pos)
  }

  /** A temporary file beside an installed one, or a prefix of the next file to install. */
  ghost predicate Leftover(x: Codec, o: Job, final: map<Path, Bytes>, temporary: map<Path, Bytes>, front: int,
                           path: Path)
    requires path in temporary
  {
    || path in final
    || (&& 0 <= front < 2 * |o.streams| && path == PathAt(o, front)
        && Ready(o, front / 2) && Prefix(temporary[path], ContentAt(x, o, front)))
  }

  /** Exactly the first `front` files are installed, and every temporary is a leftover. */
  ghost predicate Files(x: Codec, o: Job, final: map<Path, Bytes>, temporary: map<Path, Bytes>, front: int) {
    && 0 <= front <= 2 * |o.streams|
    && (forall pos :: 0 <= pos < front ==> InstalledAt(x, o, final, pos))
    && (forall pos :: front <= pos < 2 * |o.streams| ==> PathAt(o, pos) !in final)
    && (forall path :: path in temporary ==> Leftover(x, o, final, temporary, front, path))
  }

  ghost predicate RefsUpTo(x: Codec, o: Job, refs: seq<Reference>) {
    && |refs| <= |o.streams|
    && (forall i :: 0 <= i < |refs| ==> Ready(o, i) && refs[i] == ReferenceTo(x, SealAt(o, i)))
  }

  /** What may become of the scope before the archive is committed. */
  ghost predicate ScopeKept(o: Scope, scope: Scope) {
    || scope == o
    || (o.Active? && scope == o.(young := false))
    || (GoodScope(o) && scope == Snapshotted(o.values, o.values))
    || (o.Active? && !o.valid && scope == Quarantined(o.values))
  }

  ghost predicate Uncommitted(o: Job, job: Job) {
    && job.staging.Staged? && job.archive.None? && job.commits == 0
    && job.journals.Keys == o.journals.Keys
    && ScopeKept(o.scope, job.scope)
  }

  /** The archive is committed, once, and refers to every installed file and the whole scope. */
  ghost predicate Committed(x: Codec, o: Job, job: Job, front: int) {
    && !job.staging.Staged? && job.archive.Some? && job.commits == 1
    && Validated(o) && o.dated && front == 2 * |o.streams|
    && GoodScope(o.scope) && o.scope.values == job.archive.value.scopeSnapshot
    && (var a := job.archive.value;
        && |a.refs| == |o.streams| && RefsUpTo(x, o, a.refs)
        && (job.staging.Complete? ==> job.staging == Complete(x.hash(a.scopeSnapshot), a.refs))
        && (job.scope == Snapshotted(a.scopeSnapshot, a.scopeSnapshot) || job.scope == Cleaned(a.scopeSnapshot)))
    && (job.scope.Snapshotted? ==> job.staging.Complete? && job.journals.Keys == o.journals.Keys)
    && (forall id :: id in o.journals && id !in job.journals ==> id in o.streams)
    && (job.staging.Purged? ==> forall id :: id in o.streams ==> id !in job.journals)
  }

  ghost predicate Sealing(x: Codec, o: Job, job: Job, front: int, snap: Bytes, refs: seq<Reference>) {
    && Validated(o) && RefsUpTo(x, o, refs) && 2 * |refs| <= front
    && Uncommitted(o, job) && job.scope == Snapshotted(snap, snap)
  }

  function Pos(refs: seq<Reference>, kind: Kind): nat { 2 * |refs| + (if kind == Log then 0 else 1) }

  ghost predicate Installing(x: Codec, o: Job, job: Job, front: int, snap: Bytes, refs: seq<Reference>,
                             seal: Sealed, kind: Kind)
  {
    && Sealing(x, o, job, front, snap, refs)
    && Ready(o, |refs|) && seal == SealAt(o, |refs|)
    && Pos(refs, kind) <= front
  }

  /** What the program counter promises about the durable state. */
  ghost predicate AtPc(x: Codec, o: Job, job: Job, front: int, pc: Pc) {
    match pc
    case Idle => true
    case Snapshot => Validated(o) && Uncommitted(o, job)
    case Seal(snap, refs) => Sealing(x, o, job, front, snap, refs)
    case Inspect(snap, refs, seal, kind) => Installing(x, o, job, front, snap, refs, seal, kind)
    case Write(snap, refs, seal, kind) =>
      && Installing(x, o, job, front, snap, refs, seal, kind)
      && Pos(refs, kind) == front && Path(seal.stream, kind) !in job.temporary
    case Rename(snap, refs, seal, kind) =>
      && Installing(x, o, job, front, snap, refs, seal, kind)
      && Pos(refs, kind) == front
      && Path(seal.stream, kind) in job.temporary
      && job.temporary[Path(seal.stream, kind)] == Contents(x, seal, kind)
    case CommitArchive(snap, refs) => Sealing(x, o, job, front, snap, refs) && |refs| == |o.streams|
    case Verify(digest, refs) => job.staging == Complete(digest, refs)
    case CleanScope(refs) => job.staging.Complete? && job.staging.refs == refs
    case PurgeJournal(refs, done) =>
      && job.staging.Complete? && job.staging.refs == refs && job.scope.Cleaned? && done <= |refs|
      && (forall i :: 0 <= i < done ==> refs[i].stream !in job.journals)
    case PurgeStaging =>
      && job.staging.Complete? && job.scope.Cleaned?
      && (forall id :: id in o.streams ==> id !in job.journals)
  }

  ghost predicate Inv(x: Codec, o: Job, w: World, front: int) {
    && Unchanged(x, o, w.job)
    && Files(x, o, w.job.final, w.job.temporary, front)
    && (Uncommitted(o, w.job) || Committed(x, o, w.job, front))
    && AtPc(x, o, w.job, front, w.pc)
  }

  lemma InitialInv(x: Codec, o: Job)
    requires Initial(o)
    ensures Inv(x, o, World(o, Idle, 0), 0)
  {
  }

  // ------------------------------------------------------------ paths are distinct

  lemma {:induction false} TaskIdsBound(streams: seq<Identity>)
    ensures |TaskIds(streams)| <= |streams|
    ensures |TaskIds(streams)| == |streams| ==>
              forall i, j :: 0 <= i < j < |streams| ==> streams[i].taskInstance != streams[j].taskInstance
  {
    if streams != [] {
      var n := |streams| - 1;
      var init := streams[..n];
      TaskIdsBound(init);
      assert streams == init + [streams[n]];
      assert TaskIds(streams) == TaskIds(init) + {streams[n].taskInstance};
      if |TaskIds(streams)| == |streams| {
        forall i, j | 0 <= i < j < |streams|
          ensures streams[i].taskInstance != streams[j].taskInstance
        {
          if j == n {
            assert streams[i] == init[i] && init[i] in init;
            assert streams[i].taskInstance in TaskIds(init);
          } else {
            assert streams[i] == init[i] && streams[j] == init[j];
          }
        }
      }
    }
  }

  lemma PathsDistinct(o: Job)
    requires ValidStreams(o.tasks, o.streams)
    ensures forall p, q :: 0 <= p < q < 2 * |o.streams| ==> PathAt(o, p) != PathAt(o, q)
    ensures forall i, j :: 0 <= i < j < |o.streams| ==> o.streams[i] != o.streams[j]
  {
    TaskIdsBound(o.streams);
    forall p, q | 0 <= p < q < 2 * |o.streams|
      ensures PathAt(o, p) != PathAt(o, q)
    {
      if p / 2 != q / 2 {
        assert p / 2 < q / 2;
      }
    }
  }

  lemma PosIsPath(o: Job, refs: seq<Reference>, kind: Kind)
    requires Ready(o, |refs|)
    ensures var pos := Pos(refs, kind);
            && 0 <= pos < 2 * |o.streams| && pos / 2 == |refs| && KindAt(pos) == kind
            && PathAt(o, pos) == Path(SealAt(o, |refs|).stream, kind)
  {
  }

  // ------------------------------------------------------------ every effect keeps the invariant

  lemma SealKeeps(x: Codec, o: Job, w: World, front: int)
    requires Initial(o) && Inv(x, o, w, front) && w.pc.Seal?
    ensures Inv(x, o, Next(x, w), front)
  {
    hide Files, RefsUpTo, ValidStreams;
    var i := |w.pc.refs|;
    if i < |o.streams| {
      assert o.streams[i] in w.job.journals <==> o.streams[i] in o.journals;
    } else {
      RefsLength(x, o, w.pc.refs);
    }
  }

  lemma RefsLength(x: Codec, o: Job, refs: seq<Reference>)
    requires RefsUpTo(x, o, refs)
    ensures |refs| <= |o.streams|
  {
  }

  lemma FewerTemporaries(x: Codec, o: Job, final: map<Path, Bytes>, temporary: map<Path, Bytes>, front: int, path: Path)
    requires Files(x, o, final, temporary, front)
    ensures Files(x, o, final, temporary - {path}, front)
  {
    forall p | p in temporary - {path}
      ensures Leftover(x, o, final, temporary - {path}, front, p)
    {
      assert Leftover(x, o, final, temporary, front, p);
    }
  }

  /** Where the file that is inspected stands: installed with the right content, or the next to install. */
  lemma Inspected(x: Codec, o: Job, w: World, front: int)
    requires Initial(o) && Inv(x, o, w, front) && w.pc.Inspect?
    ensures var path, pos := Path(w.pc.seal.stream, w.pc.kind), Pos(w.pc.refs, w.pc.kind);
            && 0 <= pos <= front && pos < 2 * |o.streams| && path == PathAt(o, pos)
            && Ready(o, pos / 2) && ContentAt(x, o, pos) == Contents(x, w.pc.seal, w.pc.kind)
            && (path in w.job.final <==> pos < front)
            && (pos < front ==> w.job.final[path] == Contents(x, w.pc.seal, w.pc.kind))
  {
    var pos := Pos(w.pc.refs, w.pc.kind);
    PosIsPath(o, w.pc.refs, w.pc.kind);
    if pos < front {
      assert InstalledAt(x, o, w.job.final, pos);
    }
  }

  lemma InspectKeeps(x: Codec, o: Job, w: World, front: int)
    requires Initial(o) && Inv(x, o, w, front) && w.pc.Inspect?
    ensures Inv(x, o, Next(x, w), front)
  {
    Inspected(x, o, w, front);
    FewerTemporaries(x, o, w.job.final, w.job.temporary, front, Path(w.pc.seal.stream, w.pc.kind));
    hide Files, RefsUpTo, ValidStreams;
    if w.pc.kind == Exit {
      RefsExtend(x, o, w.pc.refs, w.pc.seal);
    }
  }

  lemma RefsExtend(x: Codec, o: Job, refs: seq<Reference>, seal: Sealed)
    requires RefsUpTo(x, o, refs) && Ready(o, |refs|) && seal == SealAt(o, |refs|)
    ensures RefsUpTo(x, o, refs + [ReferenceTo(x, seal)])
  {
  }

  lemma WriteKeeps(x: Codec, o: Job, w: World, front: int)
    requires Initial(o) && Inv(x, o, w, front) && w.pc.Write?
    ensures Inv(x, o, Next(x, w), front)
  {
    PosIsPath(o, w.pc.refs, w.pc.kind);
    var job := Next(x, w).job;
    forall p | p in job.temporary
      ensures Leftover(x, o, job.final, job.temporary, front, p)
    {
      assert p in w.job.temporary ==> Leftover(x, o, w.job.final, w.job.temporary, front, p);
    }
  }

  /** Moving the next temporary into place installs exactly one more file. */
  lemma InstallKeepsFiles(x: Codec, o: Job, final: map<Path, Bytes>, temporary: map<Path, Bytes>, front: int)
    requires Files(x, o, final, temporary, front) && ValidStreams(o.tasks, o.streams)
    requires 0 <= front < 2 * |o.streams| && Ready(o, front / 2) && PathAt(o, front) in temporary
    requires temporary[PathAt(o, front)] == ContentAt(x, o, front)
    ensures var path := PathAt(o, front);
            path !in final && Files(x, o, final[path := temporary[path]], temporary - {path}, front + 1)
  {
    PathsDistinct(o);
    var path := PathAt(o, front);
    var more := final[path := temporary[path]];
    forall pos | 0 <= pos < front + 1
      ensures InstalledAt(x, o, more, pos)
    {
      if pos < front {
        assert InstalledAt(x, o, final, pos);
      }
    }
    forall p | p in temporary - {path}
      ensures Leftover(x, o, more, temporary - {path}, front + 1, p)
    {
      assert Leftover(x, o, final, temporary, front, p);
    }
  }

  lemma RenameKeeps(x: Codec, o: Job, w: World, front: int)
    requires Initial(o) && Inv(x, o, w, front) && w.pc.Rename?
    ensures Inv(x, o, Next(x, w), front + 1)
    ensures PathAt(o, front) !in w.job.final && PathAt(o, front) == Path(w.pc.seal.stream, w.pc.kind)
  {
    PosIsPath(o, w.pc.refs, w.pc.kind);
    assert ContentAt(x, o, front) == Contents(x, w.pc.seal, w.pc.kind);
    InstallKeepsFiles(x, o, w.job.final, w.job.temporary, front);
    hide Files, RefsUpTo, ValidStreams, Contents;
    if w.pc.kind == Exit {
      RefsExtend(x, o, w.pc.refs, w.pc.seal);
    }
  }

  lemma CommitKeeps(x: Codec, o: Job, w: World, front: int)
    requires Initial(o) && Inv(x, o, w, front) && w.pc.CommitArchive?
    ensures Inv(x, o, Next(x, w), front)
  {
  }

  lemma VerifyKeeps(x: Codec, o: Job, w: World, front: int)
    requires Initial(o) && Inv(x, o, w, front) && w.pc.Verify?
    ensures Inv(x, o, Next(x, w), front)
  {
    hide VerifyFinal, ValidStreams, Files, Unchanged, RefsUpTo, Uncommitted;
    assert Committed(x, o, w.job, front) by { assert !w.job.staging.Staged?; NotUncommitted(o, w.job); }
    assert SnapshotOf(w.job.scope).0 == w.job.scope;
    assert w.job.(scope := w.job.scope) == w.job;
  }

  lemma NotUncommitted(o: Job, job: Job)
    requires !job.staging.Staged?
    ensures !Uncommitted(o, job)
  {
  }

  lemma CleanScopeKeeps(x: Codec, o: Job, w: World, front: int)
    requires Initial(o) && Inv(x, o, w, front) && w.pc.CleanScope?
    ensures Inv(x, o, Next(x, w), front)
  {
    NotUncommitted(o, w.job);
    hide VerifyFinal, Files, Uncommitted;
  }

  lemma PurgeStagingKeeps(x: Codec, o: Job, w: World, front: int)
    requires Initial(o) && Inv(x, o, w, front) && w.pc.PurgeStaging?
    ensures Inv(x, o, Next(x, w), front)
  {
    NotUncommitted(o, w.job);
    hide VerifyFinal, Files, Uncommitted;
  }

  lemma RefsNameTheStreams(x: Codec, o: Job, job: Job, front: int)
    requires Committed(x, o, job, front) && job.staging.Complete?
    ensures var refs := job.staging.refs;
            |refs| == |o.streams| && forall i :: 0 <= i < |refs| ==> refs[i].stream == o.streams[i]
  {
  }

  ghost function Without(job: Job, id: Identity): Job { job.(journals := job.journals - {id}) }

  lemma RemovalKeeps(x: Codec, o: Job, job: Job, front: int, id: Identity)
    requires Unchanged(x, o, job) && Committed(x, o, job, front)
    requires job.staging.Complete? && job.scope.Cleaned? && id in o.streams
    ensures Unchanged(x, o, Without(job, id)) && Committed(x, o, Without(job, id), front)
  {
  }

  lemma RemovalAdvances(x: Codec, o: Job, job: Job, front: int, refs: seq<Reference>, done: nat)
    requires AtPc(x, o, job, front, PurgeJournal(refs, done)) && done < |refs|
    ensures AtPc(x, o, Without(job, refs[done].stream), front, PurgeJournal(refs, done + 1))
  {
  }

  lemma PurgeOneKeeps(x: Codec, o: Job, w: World, front: int)
    requires Initial(o) && Inv(x, o, w, front) && w.pc.PurgeJournal? && w.pc.done < |w.pc.refs|
    ensures Inv(x, o, Next(x, w), front)
  {
    RefsNameTheStreams(x, o, w.job, front);
    RemovalKeeps(x, o, w.job, front, o.streams[w.pc.done]);
    RemovalAdvances(x, o, w.job, front, w.pc.refs, w.pc.done);
    hide VerifyFinal, Files, Committed, Unchanged, AtPc;
  }

  lemma PurgeEndKeeps(x: Codec, o: Job, w: World, front: int)
    requires Initial(o) && Inv(x, o, w, front) && w.pc.PurgeJournal? && w.pc.done >= |w.pc.refs|
    ensures Inv(x, o, Next(x, w), front)
  {
    RefsNameTheStreams(x, o, w.job, front);
    hide VerifyFinal, Files, Committed, Unchanged;
    forall id | id in o.streams
      ensures id !in w.job.journals
    {
      var i :| 0 <= i < |o.streams| && o.streams[i] == id;
      assert w.pc.refs[i].stream == id;
    }
  }

  lemma StartKeeps(x: Codec, o: Job, w: World, front: int)
    requires Initial(o) && Inv(x, o, w, front) && (w.pc.Idle? || w.pc.Snapshot?)
    ensures Inv(x, o, Next(x, w), front)
  {
  }

  /** Every effect keeps the invariant, and only a rename installs a file. */
  lemma NextKeepsInv(x: Codec, o: Job, w: World, front: int)
    requires Initial(o) && Inv(x, o, w, front)
    ensures Inv(x, o, Next(x, w), if w.pc.Rename? then front + 1 else front)
  {
    match w.pc {
      case Idle => StartKeeps(x, o, w, front);
      case Snapshot => StartKeeps(x, o, w, front);
      case Seal(_, _) => SealKeeps(x, o, w, front);
      case Inspect(_, _, _, _) => InspectKeeps(x, o, w, front);
      case Write(_, _, _, _) => WriteKeeps(x, o, w, front);
      case Rename(_, _, _, _) => RenameKeeps(x, o, w, front);
      case CommitArchive(_, _) => CommitKeeps(x, o, w, front);
      case Verify(_, _) => VerifyKeeps(x, o, w, front);
      case CleanScope(_) => CleanScopeKeeps(x, o, w, front);
      case PurgeJournal(refs, done) =>
        if done < |refs| { PurgeOneKeeps(x, o, w, front); } else { PurgeEndKeeps(x, o, w, front); }
      case PurgeStaging => PurgeStagingKeeps(x, o, w, front);
    }
  }

  /** A crash keeps it too: at worst a prefix of the next temporary file, and names of installed ones. */
  lemma CrashKeepsInv(x: Codec, o: Job, w: World, front: int, created: bool, written: nat, revived: set<Path>)
    requires Initial(o) && Inv(x, o, w, front)
    ensures Inv(x, o, Crash(x, w, created, written, revived), front)
  {
    var job := Crash(x, w, created, written, revived).job;
    if w.pc.Write? {
      PosIsPath(o, w.pc.refs, w.pc.kind);
    }
    forall path | path in job.temporary
      ensures Leftover(x, o, job.final, job.temporary, front, path)
    {
      if path in w.job.temporary {
        assert Leftover(x, o, w.job.final, w.job.temporary, front, path);
      }
    }
  }

  /** So does the passing of time. */
  lemma AgeKeepsInv(x: Codec, o: Job, w: World, front: int)
    requires Initial(o) && Inv(x, o, w, front)
    ensures Inv(x, o, Age(w), front)
  {
  }

  // ------------------------------------------------------------ nothing is lost

  datatype Event = Effect | Fault(created: bool, written: nat, revived: set<Path>) | Ageing

  function Step(x: Codec, w: World, e: Event): World {
    match e
    case Effect => Next(x, w)
    case Fault(created, written, revived) => Crash(x, w, created, written, revived)
    case Ageing => Age(w)
  }

  function Run(x: Codec, w: World, events: seq<Event>): World
    decreases |events|
  {
    if events == [] then w else Run(x, Step(x, w, events[0]), events[1..])
  }

  lemma {:induction false} RunKeepsInv(x: Codec, o: Job, w: World, front: int, events: seq<Event>)
    returns (reached: int)
    requires Initial(o) && Inv(x, o, w, front)
    ensures Inv(x, o, Run(x, w, events), reached)
    decreases |events|
  {
    if events == [] {
      reached := front;
    } else {
      match events[0] {
        case Effect => NextKeepsInv(x, o, w, front);
        case Fault(created, written, revived) => CrashKeepsInv(x, o, w, front, created, written, revived);
        case Ageing => AgeKeepsInv(x, o, w, front);
      }
      var next := if events[0].Effect? && w.pc.Rename? then front + 1 else front;
      reached := RunKeepsInv(x, o, Step(x, w, events[0]), next, events[1..]);
    }
  }

  lemma CleanupInstallsNothing(x: Codec, w: World)
    requires w.pc.Verify? || w.pc.CleanScope? || w.pc.PurgeJournal? || w.pc.PurgeStaging?
    ensures Next(x, w).job.final == w.job.final && Next(x, w).job.temporary == w.job.temporary
    ensures Next(x, w).job.quarantine == w.job.quarantine && Next(x, w).job.commits == w.job.commits
    ensures !w.pc.PurgeJournal? ==> Next(x, w).job.journals == w.job.journals
  {
    hide VerifyFinal, ValidStreams, StreamsOf, SealStep, InspectStep, WriteStep, RenameStep;
  }

  lemma OnlyRenameInstalls(x: Codec, w: World)
    requires !w.pc.Rename?
    ensures Next(x, w).job.final == w.job.final
  {
    hide ValidStreams, Contents, ReferenceTo, VerifyStep, CleanScopeStep, PurgeJournalStep, PurgeStagingStep;
    if w.pc.Verify? || w.pc.CleanScope? || w.pc.PurgeJournal? || w.pc.PurgeStaging? {
      CleanupInstallsNothing(x, w);
      hide Next;
    }
  }

  lemma NextKeepsFinalFiles(x: Codec, o: Job, w: World, front: int, path: Path)
    requires Initial(o) && Inv(x, o, w, front) && path in w.job.final
    ensures path in Next(x, w).job.final && Next(x, w).job.final[path] == w.job.final[path]
  {
    hide Inv;
    if w.pc.Rename? {
      RenameKeeps(x, o, w, front);
    } else {
      OnlyRenameInstalls(x, w);
      hide Next;
    }
  }

  /** An installed final file is never overwritten or removed. */
  lemma {:induction false} FinalFilesAreKept(x: Codec, o: Job, w: World, front: int, events: seq<Event>, path: Path)
    requires Initial(o) && Inv(x, o, w, front) && path in w.job.final
    ensures path in Run(x, w, events).job.final && Run(x, w, events).job.final[path] == w.job.final[path]
    decreases |events|
  {
    hide Inv, Next;
    if events != [] {
      var next := RunKeepsInv(x, o, w, front, [events[0]]);
      assert Run(x, w, [events[0]]) == Step(x, w, events[0]);
      if events[0].Effect? {
        NextKeepsFinalFiles(x, o, w, front, path);
      }
      FinalFilesAreKept(x, o, Step(x, w, events[0]), next, events[1..], path);
    }
  }

  /** What `install_final` returns passes `verify_final`, and the files decode to the sealed data. */
  lemma InstalledPassesVerify(x: Codec, job: Job, s: Sealed)
    requires RoundTrips(x)
    requires Path(s.stream, Log) in job.final && job.final[Path(s.stream, Log)] == Contents(x, s, Log)
    requires Path(s.stream, Exit) in job.final && job.final[Path(s.stream, Exit)] == Contents(x, s, Exit)
    ensures VerifyFinal(x, job, ReferenceTo(x, s))
    ensures x.decodeLog(job.final[Path(s.stream, Log)]).value.records == s.records
    ensures x.decodeExit(job.final[Path(s.stream, Exit)]).value.terminal == s.terminal
  {
  }

  /** The archive refers to `id`, and its final files hold exactly what was accepted. */
  ghost predicate Archived(x: Codec, o: Job, job: Job, id: Identity)
    requires id in o.journals
  {
    && job.archive.Some?
    && (exists r :: r in job.archive.value.refs && r.stream == id && VerifyFinal(x, job, r))
    && Path(id, Log) in job.final && Path(id, Exit) in job.final
    && (var log := x.decodeLog(job.final[Path(id, Log)]);
        log.Some? && log.value.records == o.journals[id].records)
    && (var exit := x.decodeExit(job.final[Path(id, Exit)]);
        exit.Some? && Some(exit.value.terminal) == o.journals[id].terminal)
  }

  lemma CommittedStreamIsArchived(x: Codec, o: Job, job: Job, front: int, i: nat)
    requires RoundTrips(x) && i < |o.streams|
    requires Files(x, o, job.final, job.temporary, front) && Committed(x, o, job, front)
    ensures Ready(o, i) && Archived(x, o, job, o.streams[i])
    ensures VerifyFinal(x, job, job.archive.value.refs[i])
  {
    var id, refs := o.streams[i], job.archive.value.refs;
    assert Ready(o, i) && refs[i] == ReferenceTo(x, SealAt(o, i));
    assert InstalledAt(x, o, job.final, 2 * i) && InstalledAt(x, o, job.final, 2 * i + 1);
    assert PathAt(o, 2 * i) == Path(id, Log) && PathAt(o, 2 * i + 1) == Path(id, Exit);
    assert ContentAt(x, o, 2 * i) == Contents(x, SealAt(o, i), Log);
    assert ContentAt(x, o, 2 * i + 1) == Contents(x, SealAt(o, i), Exit);
    InstalledPassesVerify(x, job, SealAt(o, i));
    assert refs[i] in refs;
  }

  /** The archive that an instance must end with. */
  ghost predicate ArchiveOf(x: Codec, o: Job, a: Archive) {
    && Drainable(o) && a.scopeSnapshot == o.scope.values && |a.refs| == |o.streams|
    && (forall i :: 0 <= i < |o.streams| ==> Ready(o, i) && a.refs[i] == ReferenceTo(x, SealAt(o, i)))
  }

  /** The durable state of `job` still holds everything that `o` held. */
  ghost predicate NothingLost(x: Codec, o: Job, job: Job) {
    // every journal is whole, or archived with both final files in place
    && (forall id :: id in o.journals ==>
          || (id in job.journals && job.journals[id].records == o.journals[id].records
              && job.journals[id].terminal == o.journals[id].terminal)
          || Archived(x, o, job, id))
    // the scope values are whole, or archived; they are cleaned only after the archive
    && (o.scope.Active? ==>
          || (job.scope.Active? && job.scope.values == o.scope.values)
          || (job.scope.Snapshotted? && job.scope.values == o.scope.values)
          || job.scope == Quarantined(o.scope.values)
          || (job.scope.Cleaned? && job.archive.Some? && job.archive.value.scopeSnapshot == o.scope.values))
    && (o.scope.Quarantined? ==> job.scope == o.scope)
    // one archive at most, and only the right one
    && (job.archive.None? ==> job.commits == 0 && job.staging.Staged?)
    && (job.archive.Some? ==> job.commits == 1 && !job.staging.Staged? && ArchiveOf(x, o, job.archive.value))
    // no journal goes before the scope, and staging goes last
    && (job.journals.Keys != o.journals.Keys ==> job.scope.Cleaned?)
    && (job.staging.Purged? ==> job.scope.Cleaned? && forall id :: id in o.streams ==> id !in job.journals)
  }

  lemma InvMeansNothingLost(x: Codec, o: Job, w: World, front: int)
    requires RoundTrips(x) && Initial(o) && Inv(x, o, w, front)
    ensures NothingLost(x, o, w.job)
  {
    forall id | id in o.journals && id !in w.job.journals
      ensures Archived(x, o, w.job, id)
    {
      var i :| 0 <= i < |o.streams| && o.streams[i] == id;
      CommittedStreamIsArchived(x, o, w.job, front, i);
    }
  }

  /** Whatever effects and crashes happen, in whatever order, no log or scope data is lost. */
  lemma NoRunLosesData(x: Codec, o: Job, events: seq<Event>)
    requires RoundTrips(x) && Initial(o)
    ensures NothingLost(x, o, Run(x, World(o, Idle, 0), events).job)
  {
    InitialInv(x, o);
    var front := RunKeepsInv(x, o, World(o, Idle, 0), 0, events);
    InvMeansNothingLost(x, o, Run(x, World(o, Idle, 0), events), front);
  }
}
