/**
 Draining one staged local Compaction: snapshot the scope, seal and install every final Log,
 commit the archive, then clean the scope, the journals and the staging record.

 `Next` is one durable effect of the drain. A crash may fall between any two effects, and
 inside the write of a temporary file; the drain then restarts from `Idle`. Database
 transactions and unlinks are atomic; a rename is atomic at its destination, but since only the
 parent of the destination is synced, a crash may bring the old name back. The scope grows old.
 */
module CompactionDrain {
  import opened Basics
  import opened LogStream

  datatype Kind = Log | Exit

  datatype Path = Path(stream: Identity, kind: Kind)

  /** Durable content of a staging journal; a torn tail has been cut when it was opened. */
  datatype Journal = Journal(records: map<U64, Record>, terminal: Option<Terminal>, seal: Option<string>)

  /** An immutable accepted-record snapshot with its terminal. */
  datatype Sealed = Sealed(stream: Identity, records: map<U64, Record>, terminal: Terminal)

  datatype Reference = Reference(stream: Identity, recordDigest: string, logDigest: string, exitDigest: string)

  datatype LogDocument = LogDocument(stream: Identity, recordDigest: string, records: map<U64, Record>)
  datatype ExitDocument = ExitDocument(stream: Identity, terminal: Terminal)

  /** SHA-256 and JSON, left uninterpreted. */
  datatype Codec = Codec(
    hash: Bytes -> string,
    recordDigest: map<U64, Record> -> string,
    encodeLog: LogDocument -> Bytes,
    decodeLog: Bytes -> Option<LogDocument>,
    encodeExit: ExitDocument -> Bytes,
    decodeExit: Bytes -> Option<ExitDocument>)

  ghost predicate RoundTrips(x: Codec) {
    && (forall d: LogDocument :: x.decodeLog(x.encodeLog(d)) == Some(d))
    && (forall d: ExitDocument :: x.decodeExit(x.encodeExit(d)) == Some(d))
  }

  function Contents(x: Codec, s: Sealed, kind: Kind): Bytes {
    match kind
    case Log => x.encodeLog(LogDocument(s.stream, x.recordDigest(s.records), s.records))
    case Exit => x.encodeExit(ExitDocument(s.stream, s.terminal))
  }

  function ReferenceTo(x: Codec, s: Sealed): Reference {
    Reference(s.stream, x.recordDigest(s.records), x.hash(Contents(x, s, Log)), x.hash(Contents(x, s, Exit)))
  }

  /** An active scope keeps its bounds or not, is young enough or not, and has only valid envelopes or not. */
  datatype Scope =
    | NoScope
    | Quarantined(values: Bytes)
    | Active(values: Bytes, bounded: bool, young: bool, valid: bool)
    | Snapshotted(values: Bytes, snapshot: Bytes)
    | Cleaned(snapshot: Bytes)

  datatype Staging = Staged | Complete(scopeDigest: string, refs: seq<Reference>) | Purged

  datatype Archive = Archive(scopeSnapshot: Bytes, refs: seq<Reference>)

  /**
   One workflow instance and everything durable about it. `intact` says that the staged bytes
   still match their digest, decode, and name this instance; `dated` that their shipping time,
   if any, parses; `tasks` are its task instances.
   */
  datatype Job = Job(
    intact: bool,
    dated: bool,
    tasks: set<nat>,
    streams: seq<Identity>,
    journals: map<Identity, Journal>,
    final: map<Path, Bytes>,
    temporary: map<Path, Bytes>,
    quarantine: seq<Bytes>,
    staging: Staging,
    scope: Scope,
    archive: Option<Archive>,
    commits: nat)

  datatype Pc =
    | Idle
    | Snapshot
    | Seal(snap: Bytes, refs: seq<Reference>)
    | Inspect(snap: Bytes, refs: seq<Reference>, seal: Sealed, kind: Kind)
    | Write(snap: Bytes, refs: seq<Reference>, seal: Sealed, kind: Kind)
    | Rename(snap: Bytes, refs: seq<Reference>, seal: Sealed, kind: Kind)
    | CommitArchive(snap: Bytes, refs: seq<Reference>)
    | Verify(scopeDigest: string, refs: seq<Reference>)
    | CleanScope(refs: seq<Reference>)
    | PurgeJournal(refs: seq<Reference>, done: nat)
    | PurgeStaging

  /** `failures` counts calls that returned an error. */
  datatype World = World(job: Job, pc: Pc, failures: nat)

  function TaskIds(streams: seq<Identity>): set<nat> { set s | s in streams :: s.taskInstance }

  /** The stream inventory is exactly the archived task instances, one stream each. */
  predicate ValidStreams(tasks: set<nat>, streams: seq<Identity>) {
    tasks == TaskIds(streams) && |tasks| == |streams|
  }

  function StreamsOf(refs: seq<Reference>): (streams: seq<Identity>)
    ensures |streams| == |refs| && forall i :: 0 <= i < |refs| ==> streams[i] == refs[i].stream
  {
    seq(|refs|, i requires 0 <= i < |refs| => refs[i].stream)
  }

  function Fail(w: World, job: Job): World { World(job, Idle, w.failures + 1) }

  function Goto(w: World, pc: Pc): World { w.(pc := pc) }

  /** The recorded snapshot of the scope, committing it first when still active; a bad envelope quarantines it. */
  function SnapshotOf(scope: Scope): (Scope, Option<Bytes>) {
    match scope
    case Active(values, bounded, young, valid) =>
      if !young || !bounded then (scope, None)
      else if !valid then (Quarantined(values), None)
      else (Snapshotted(values, values), Some(values))
    case Snapshotted(_, snapshot) => (scope, Some(snapshot))
    case Cleaned(snapshot) => (scope, Some(snapshot))
    case _ => (scope, None)
  }

  /** Re-reads the installed files and checks them against the reference. */
  predicate VerifyFinal(x: Codec, job: Job, r: Reference) {
    && Path(r.stream, Log) in job.final
    && Path(r.stream, Exit) in job.final
    && (var bytes := job.final[Path(r.stream, Log)];
        && x.hash(bytes) == r.logDigest
        && x.decodeLog(bytes).Some?
        && (var d := x.decodeLog(bytes).value;
            d.stream == r.stream && d.recordDigest == r.recordDigest && x.recordDigest(d.records) == r.recordDigest))
    && (var bytes := job.final[Path(r.stream, Exit)];
        && x.hash(bytes) == r.exitDigest
        && x.decodeExit(bytes).Some?
        && x.decodeExit(bytes).value.stream == r.stream)
  }

  /** After one file of the pair is in place. */
  function AfterInstall(x: Codec, w: World): Pc
    requires w.pc.Inspect? || w.pc.Rename?
  {
    if w.pc.kind == Log then Inspect(w.pc.snap, w.pc.refs, w.pc.seal, Exit)
    else Seal(w.pc.snap, w.pc.refs + [ReferenceTo(x, w.pc.seal)])
  }

  function QuarantineTemporary(job: Job, path: Path): Job
    requires path in job.temporary
  {
    job.(temporary := job.temporary - {path}, quarantine := job.quarantine + [job.temporary[path]])
  }

  function SealStep(x: Codec, w: World): World
    requires w.pc.Seal?
  {
    var job, i := w.job, |w.pc.refs|;
    if i >= |job.streams| then Goto(w, CommitArchive(w.pc.snap, w.pc.refs))
    else
      var id := job.streams[i];
      if id !in job.journals || job.journals[id].terminal.None? then Fail(w, job)
      else
        var j := job.journals[id];
        var digest := x.recordDigest(j.records);
        if j.seal.Some? && j.seal.value != digest then Fail(w, job)
        else
          World(job.(journals := job.journals[id := j.(seal := Some(digest))]),
                Inspect(w.pc.snap, w.pc.refs, Sealed(id, j.records, j.terminal.value), Log), w.failures)
  }

  function InspectStep(x: Codec, w: World): World
    requires w.pc.Inspect?
  {
    var job, path := w.job, Path(w.pc.seal.stream, w.pc.kind);
    var expected := Contents(x, w.pc.seal, w.pc.kind);
    if path in job.final then
      if job.final[path] != expected then Fail(w, job)
      else if path in job.temporary then Fail(w, QuarantineTemporary(job, path))
      else Goto(w, AfterInstall(x, w))
    else if path !in job.temporary then Goto(w, Write(w.pc.snap, w.pc.refs, w.pc.seal, w.pc.kind))
    else if job.temporary[path] == expected then Goto(w, Rename(w.pc.snap, w.pc.refs, w.pc.seal, w.pc.kind))
    else Fail(w, QuarantineTemporary(job, path))
  }

  /** Creates the temporary file, which must not exist. */
  function WriteStep(x: Codec, w: World): World
    requires w.pc.Write?
  {
    var job, path := w.job, Path(w.pc.seal.stream, w.pc.kind);
    if path in job.temporary then Fail(w, job)
    else
      World(job.(temporary := job.temporary[path := Contents(x, w.pc.seal, w.pc.kind)]),
            Rename(w.pc.snap, w.pc.refs, w.pc.seal, w.pc.kind), w.failures)
  }

  function RenameStep(x: Codec, w: World): World
    requires w.pc.Rename?
  {
    var job, path := w.job, Path(w.pc.seal.stream, w.pc.kind);
    if path !in job.temporary then Fail(w, job)
    else
      World(job.(final := job.final[path := job.temporary[path]], temporary := job.temporary - {path}),
            AfterInstall(x, w), w.failures)
  }

  /** Archive, run info and completion commit in one transaction; the shipping time is parsed before. */
  function CommitStep(x: Codec, w: World): World
    requires w.pc.CommitArchive?
  {
    if !w.job.dated || !w.job.staging.Staged? then Fail(w, w.job)
    else
      var digest := x.hash(w.pc.snap);
      World(w.job.(archive := Some(Archive(w.pc.snap, w.pc.refs)), commits := w.job.commits + 1,
                   staging := Complete(digest, w.pc.refs)),
            Verify(digest, w.pc.refs), w.failures)
  }

  function VerifyStep(x: Codec, w: World): World
    requires w.pc.Verify?
  {
    var refs := w.pc.refs;
    var (scope, snapshot) := SnapshotOf(w.job.scope);
    if !w.job.intact || !ValidStreams(w.job.tasks, StreamsOf(refs)) then Fail(w, w.job)
    else
      var job := w.job.(scope := scope);
      if snapshot.None? || x.hash(snapshot.value) != w.pc.scopeDigest then Fail(w, job)
      else if exists r | r in refs :: !VerifyFinal(x, job, r) then Fail(w, job)
      else World(job, CleanScope(refs), w.failures)
  }

  function CleanScopeStep(w: World): World
    requires w.pc.CleanScope?
  {
    match w.job.scope
    case Snapshotted(_, snapshot) =>
      World(w.job.(scope := Cleaned(snapshot)), PurgeJournal(w.pc.refs, 0), w.failures)
    case Cleaned(_) => Goto(w, PurgeJournal(w.pc.refs, 0))
    case _ => Fail(w, w.job)
  }

  function PurgeJournalStep(x: Codec, w: World): World
    requires w.pc.PurgeJournal?
  {
    if w.pc.done >= |w.pc.refs| then Goto(w, PurgeStaging)
    else
      var r := w.pc.refs[w.pc.done];
      if !VerifyFinal(x, w.job, r) then Fail(w, w.job)
      else
        World(w.job.(journals := w.job.journals - {r.stream}), PurgeJournal(w.pc.refs, w.pc.done + 1), w.failures)
  }

  function PurgeStagingStep(w: World): World {
    if w.job.staging.Staged? then Fail(w, w.job) else World(w.job.(staging := Purged), Idle, w.failures)
  }

  /** One durable effect of the drain; at `Idle` a new `drain_next` call begins. */
  function Next(x: Codec, w: World): World {
    match w.pc
    case Idle =>
      (match w.job.staging
       case Staged =>
         if !w.job.intact || !ValidStreams(w.job.tasks, w.job.streams) then Fail(w, w.job) else Goto(w, Snapshot)
       case Complete(digest, refs) => Goto(w, Verify(digest, refs))
       case Purged => w)
    case Snapshot =>
      var (scope, snapshot) := SnapshotOf(w.job.scope);
      var job := w.job.(scope := scope);
      if snapshot.None? then Fail(w, job) else World(job, Seal(snapshot.value, []), w.failures)
    case Seal(_, _) => SealStep(x, w)
    case Inspect(_, _, _, _) => InspectStep(x, w)
    case Write(_, _, _, _) => WriteStep(x, w)
    case Rename(_, _, _, _) => RenameStep(x, w)
    case CommitArchive(_, _) => CommitStep(x, w)
    case Verify(_, _) => VerifyStep(x, w)
    case CleanScope(_) => CleanScopeStep(w)
    case PurgeJournal(_, _) => PurgeJournalStep(x, w)
    case PurgeStaging => PurgeStagingStep(w)
  }

  /** The temporaries a crash leaves; inside `Write` the first `written` bytes of the file may be durable. */
  function Remnants(x: Codec, w: World, created: bool, written: nat): map<Path, Bytes> {
    if w.pc.Write? && created then
      var whole := Contents(x, w.pc.seal, w.pc.kind);
      w.job.temporary[Path(w.pc.seal.stream, w.pc.kind) := if written < |whole| then whole[..written] else whole]
    else w.job.temporary
  }

  /** A crash; `revived` are installed files whose temporary name comes back. */
  function Crash(x: Codec, w: World, created: bool, written: nat, revived: set<Path>): World {
    var back := map path | path in revived && path in w.job.final :: w.job.final[path];
    World(w.job.(temporary := Remnants(x, w, created, written) + back), Idle, w.failures)
  }

  /** Time passes, and an active scope exceeds its age. */
  function Age(w: World): World {
    if w.job.scope.Active? then w.(job := w.job.(scope := w.job.scope.(young := false))) else w
  }
}
