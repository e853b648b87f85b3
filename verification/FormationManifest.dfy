/**
 Installing or verifying the formation manifest. SHA-256 and JSON are uninterpreted; a crash may
 fall between any two effects of an installation and inside the write of its temporary file.
 */
module FormationManifest {
  import opened Basics
  import opened SortedStrings

  // ------------------------------------------------------------ manifests

  datatype RoleRecord = RoleRecord(role: string, protocol: string)

  /** `rest` stands for the fields that nothing but the fingerprint looks at. */
  datatype Descriptor = Descriptor(
    profile: string, roles: seq<RoleRecord>, sqlName: string, sqlVersion: nat, rest: string)

  datatype Sql = Sql(name: string, version: nat, latestName: string, latestVersion: int)

  /** The inputs of the fingerprint. */
  datatype Spec = Spec(
    descriptor: Descriptor,
    configuration: map<string, string>,
    sql: Sql,
    formats: map<string, nat>,
    namespaces: map<string, string>,
    files: seq<string>)

  datatype Payload = Payload(fingerprint: string, spec: Spec, directory: string)

  datatype Stored = Stored(version: nat, algorithm: string, checksum: string, payload: Payload)

  datatype Codec = Codec(
    hash: Bytes -> string,
    encodeSpec: Spec -> Bytes,
    encodePayload: Payload -> Bytes,
    encodeStored: Stored -> Bytes,
    decodeStored: Bytes -> Option<Stored>)

  ghost predicate RoundTrips(x: Codec) { forall s: Stored :: x.decodeStored(x.encodeStored(s)) == Some(s) }

  /** Different fingerprint inputs have different fingerprints. */
  ghost predicate Injective(x: Codec) {
    forall a: Spec, b: Spec {:trigger x.encodeSpec(a), x.encodeSpec(b)} ::
      x.hash(x.encodeSpec(a)) == x.hash(x.encodeSpec(b)) ==> a == b
  }

  const VERSION := 1
  const ALGORITHM := "sha256"
  const MAX_BYTES := 1024 * 1024

  function Expected(x: Codec, spec: Spec, directory: string): Payload {
    Payload(x.hash(x.encodeSpec(spec)), spec, directory)
  }

  function Seal(x: Codec, p: Payload): Stored { Stored(VERSION, ALGORITHM, x.hash(x.encodePayload(p)), p) }

  datatype Admission = Runtime | OfflineMigration | EmptyReconstructible(proved: bool)

  datatype Status = Installed | Verified | Replaced

  datatype Error =
    | MissingFile | MissingManifest | TooLarge | InvalidEncoding | UnknownVersion | UnknownAlgorithm
    | ChecksumFailure | FingerprintFailure | DirectoryMismatch | SchemaDisagreement | ProtocolMismatch
    | InvalidSpec | FormatMismatch | NamespaceMismatch | FileSetMismatch | ChangedFingerprint | FrontierNotEmpty

  const MANIFEST_PATH := "formation-manifest.json"

  predicate NamedStrings(m: map<string, string>) { m != map[] && forall k | k in m :: k != "" && m[k] != "" }

  predicate NamedVersions(m: map<string, nat>) { m != map[] && forall k | k in m :: k != "" && m[k] != 0 }

  /** The constructor of a spec. */
  function NewSpec(d: Descriptor, sql: Sql, configuration: map<string, string>, formats: map<string, nat>,
                   namespaces: map<string, string>, required: seq<string>): Result<Spec, Error>
  {
    if sql.name != d.sqlName || sql.version != d.sqlVersion then Err(SchemaDisagreement)
    else if !NamedStrings(configuration) || !NamedVersions(formats) || !NamedStrings(namespaces) then Err(InvalidSpec)
    else if sql.latestName == "" || sql.latestVersion <= 0 then Err(InvalidSpec)
    else if MANIFEST_PATH in required || Canonical(required) == [] then Err(InvalidSpec)
    else Ok(Spec(d, configuration, sql, formats, namespaces, Canonical(required)))
  }

  /** Lists of the same required files give the same spec, or the same error; no other two give the same spec. */
  lemma SpecIgnoresFileOrder(d: Descriptor, sql: Sql, configuration: map<string, string>, formats: map<string, nat>,
                             namespaces: map<string, string>, a: seq<string>, b: seq<string>)
    ensures var p := NewSpec(d, sql, configuration, formats, namespaces, a);
            var q := NewSpec(d, sql, configuration, formats, namespaces, b);
            && ((forall y :: y in a <==> y in b) ==> p == q)
            && (p.Ok? && p == q ==> forall y :: y in a <==> y in b)
  {
    CanonicalIffSameElements(a, b);
  }

  /** Exactly which arguments make a spec. */
  lemma SpecAcceptedIff(d: Descriptor, sql: Sql, configuration: map<string, string>, formats: map<string, nat>,
                        namespaces: map<string, string>, required: seq<string>)
    ensures var r := NewSpec(d, sql, configuration, formats, namespaces, required);
            && (r == Err(SchemaDisagreement) <==> (sql.name, sql.version) != (d.sqlName, d.sqlVersion))
            && (r.Ok? <==>
                  && (sql.name, sql.version) == (d.sqlName, d.sqlVersion)
                  && sql.latestName != "" && sql.latestVersion > 0
                  && configuration != map[] && formats != map[] && namespaces != map[]
                  && required != [] && MANIFEST_PATH !in required
                  && "" !in configuration && "" !in formats && "" !in namespaces
                  && (forall k :: k in configuration ==> configuration[k] != "")
                  && (forall k :: k in namespaces ==> namespaces[k] != "")
                  && (forall k :: k in formats ==> formats[k] > 0))
            && (r.Ok? ==> forall y :: y in r.value.files <==> y in required)
  {
    assert required != [] ==> required[0] in Canonical(required);
    assert Canonical(required) != [] ==> Canonical(required)[0] in required;
  }

  /** The data directory: its identity, its files, the manifest, and temporaries by their unique number. */
  datatype Disk = Disk(directory: string, files: set<string>, manifest: Option<Bytes>, temporaries: map<nat, Bytes>)

  function Find(roles: seq<RoleRecord>, role: string): Option<RoleRecord> {
    if roles == [] then None else if roles[0].role == role then Some(roles[0]) else Find(roles[1..], role)
  }

  predicate SameProtocols(stored: Descriptor, expected: Descriptor) {
    && stored.profile == expected.profile && |stored.roles| == |expected.roles|
    && (forall r | r in expected.roles ::
          var s := Find(stored.roles, r.role); s.Some? && s.value.protocol == r.protocol)
  }

  predicate AllPresent(disk: Disk, files: seq<string>) { forall f | f in files :: f in disk.files }

  function ReadManifest(x: Codec, disk: Disk): Result<Option<Stored>, Error> {
    match disk.manifest
    case None => Ok(None)
    case Some(bytes) =>
      if |bytes| > MAX_BYTES then Err(TooLarge)
      else match x.decodeStored(bytes)
           case None => Err(InvalidEncoding)
           case Some(s) => Ok(Some(s))
  }

  function ValidateStored(x: Codec, disk: Disk, spec: Spec, s: Stored): Option<Error> {
    var p := s.payload;
    if s.version != VERSION then Some(UnknownVersion)
    else if s.algorithm != ALGORITHM then Some(UnknownAlgorithm)
    else if s.checksum != x.hash(x.encodePayload(p)) then Some(ChecksumFailure)
    else if p.fingerprint != x.hash(x.encodeSpec(p.spec)) then Some(FingerprintFailure)
    else if p.directory != disk.directory then Some(DirectoryMismatch)
    else if p.spec.sql != spec.sql then Some(SchemaDisagreement)
    else if !SameProtocols(p.spec.descriptor, spec.descriptor) then Some(ProtocolMismatch)
    else if p.spec.formats != spec.formats then Some(FormatMismatch)
    else if p.spec.namespaces != spec.namespaces then Some(NamespaceMismatch)
    else if p.spec.files != spec.files then Some(FileSetMismatch)
    else if !AllPresent(disk, p.spec.files) then Some(MissingFile)
    else None
  }

  function AuthorizeChange(a: Admission): Option<Error> {
    match a
    case Runtime => Some(ChangedFingerprint)
    case OfflineMigration => None
    case EmptyReconstructible(proved) => if proved then None else Some(FrontierNotEmpty)
  }

  /** What a call decides before it writes anything; Installed and Replaced go on to install. */
  function Decide(x: Codec, disk: Disk, spec: Spec, a: Admission): Result<Status, Error> {
    if !AllPresent(disk, spec.files) then Err(MissingFile)
    else match ReadManifest(x, disk)
         case Err(e) => Err(e)
         case Ok(None) =>
           if a.Runtime? then Err(MissingManifest)
           else if AuthorizeChange(a).Some? then Err(AuthorizeChange(a).value) else Ok(Installed)
         case Ok(Some(s)) =>
           var bad := ValidateStored(x, disk, spec, s);
           if bad.Some? then Err(bad.value)
           else if s.payload.fingerprint == Expected(x, spec, disk.directory).fingerprint then Ok(Verified)
           else if AuthorizeChange(a).Some? then Err(AuthorizeChange(a).value) else Ok(Replaced)
  }

  /** How far an installation got before a crash. */
  datatype Reached = Nothing | Wrote(count: nat) | Renamed

  function NewManifest(x: Codec, disk: Disk, spec: Spec): Bytes {
    x.encodeStored(Seal(x, Expected(x, spec, disk.directory)))
  }

  /** The first `count` bytes of a new temporary file are durable. */
  function WriteTo(disk: Disk, t: nat, bytes: Bytes, count: nat): Disk {
    disk.(temporaries := disk.temporaries[t := if count < |bytes| then bytes[..count] else bytes])
  }

  /** Whatever the temporary file holds takes the place of the manifest. */
  function RenameOver(disk: Disk, t: nat): Disk {
    if t !in disk.temporaries then disk
    else disk.(manifest := Some(disk.temporaries[t]), temporaries := disk.temporaries - {t})
  }

  /** The disk after an installation that reached `r`: write and sync all of it, then rename. */
  function InstallTo(x: Codec, disk: Disk, spec: Spec, t: nat, r: Reached): Disk {
    var bytes := NewManifest(x, disk, spec);
    match r
    case Nothing => disk
    case Wrote(count) => WriteTo(disk, t, bytes, count)
    case Renamed => RenameOver(WriteTo(disk, t, bytes, |bytes|), t)
  }

  /** A whole call: decide, install when authorized, read back. */
  function Call(x: Codec, disk: Disk, spec: Spec, a: Admission, t: nat): (Result<Status, Error>, Disk) {
    var d := Decide(x, disk, spec, a);
    if d.Err? || d.value == Verified then (d, disk)
    else
      var next := InstallTo(x, disk, spec, t, Renamed);
      match ReadManifest(x, next)
      case Err(e) => (Err(e), next)
      case Ok(None) => (Err(MissingManifest), next)
      case Ok(Some(s)) => (if s == Seal(x, Expected(x, spec, disk.directory)) then d else Err(ChecksumFailure), next)
  }

  /** A call cut short by a crash. */
  function CrashedCall(x: Codec, disk: Disk, spec: Spec, a: Admission, t: nat, r: Reached): Disk {
    var d := Decide(x, disk, spec, a);
    if d.Err? || d.value == Verified then disk else InstallTo(x, disk, spec, t, r)
  }

  /** The directory that the calls update step by step. */
  class Directory {
    const x: Codec
    var disk: Disk

    constructor (x: Codec, disk: Disk)
      ensures this.x == x && this.disk == disk
    {
      this.x, this.disk := x, disk;
    }

    method WriteTemporary(t: nat, bytes: Bytes)
      modifies this
      ensures disk == WriteTo(old(disk), t, bytes, |bytes|)
    {
      disk := disk.(temporaries := disk.temporaries[t := bytes]);
    }

    method Rename(t: nat)
      modifies this
      ensures disk == RenameOver(old(disk), t)
    {
      if t in disk.temporaries {
        disk := disk.(manifest := Some(disk.temporaries[t]), temporaries := disk.temporaries - {t});
      }
    }

    /** `t` numbers a temporary that does not exist yet. */
    method InstallOrVerify(spec: Spec, a: Admission, t: nat) returns (r: Result<Status, Error>)
      requires t !in disk.temporaries
      modifies this
      ensures (r, disk) == Call(x, old(disk), spec, a, t)
    {
      r := Decide(x, disk, spec, a);
      if r.Err? || r.value == Verified {
        return;
      }
      var sealed := Seal(x, Expected(x, spec, disk.directory));
      WriteTemporary(t, x.encodeStored(sealed));
      Rename(t);
      var installed := ReadManifest(x, disk);
      match installed {
        case Err(e) => r := Err(e);
        case Ok(None) => r := Err(MissingManifest);
        case Ok(Some(s)) =>
          if s != sealed {
            r := Err(ChecksumFailure);
          }
      }
    }
  }

  // ------------------------------------------------------------ laws

  /** A finished installation puts the new manifest in place and leaves everything else as it was. */
  lemma InstallationIsComplete(x: Codec, disk: Disk, spec: Spec, a: Admission, t: nat)
    requires t !in disk.temporaries
    requires Call(x, disk, spec, a, t).0 == Ok(Installed) || Call(x, disk, spec, a, t).0 == Ok(Replaced)
    ensures Call(x, disk, spec, a, t).1 == disk.(manifest := Some(NewManifest(x, disk, spec)))
  {
    assert disk.temporaries[t := NewManifest(x, disk, spec)] - {t} == disk.temporaries;
    hide ValidateStored, AllPresent;
  }

  /** A Runtime check writes nothing, finished or cut short. */
  lemma RuntimeNeverWrites(x: Codec, disk: Disk, spec: Spec, t: nat, r: Reached)
    ensures Call(x, disk, spec, Runtime, t).1 == disk && CrashedCall(x, disk, spec, Runtime, t, r) == disk
    ensures Call(x, disk, spec, Runtime, t).0.Ok? ==> Call(x, disk, spec, Runtime, t).0.value == Verified
  {
  }

  lemma FindsItself(roles: seq<RoleRecord>, r: RoleRecord)
    requires r in roles && forall a, b :: a in roles && b in roles && a.role == b.role ==> a == b
    ensures Find(roles, r.role) == Some(r)
  {
    if roles[0].role != r.role {
      FindsItself(roles[1..], r);
    }
  }

  /** One protocol per role, as the resolved formation descriptor has it. */
  ghost predicate OneProtocolPerRole(d: Descriptor) {
    forall a, b :: a in d.roles && b in d.roles && a.role == b.role ==> a == b
  }

  lemma SameAsItself(d: Descriptor)
    requires OneProtocolPerRole(d)
    ensures SameProtocols(d, d)
  {
    forall r | r in d.roles
      ensures Find(d.roles, r.role) == Some(r)
    {
      FindsItself(d.roles, r);
    }
  }

  /** After any Ok, a Runtime check with the same spec verifies and changes nothing. */
  lemma OkThenVerified(x: Codec, disk: Disk, spec: Spec, a: Admission, t: nat, u: nat)
    requires RoundTrips(x) && OneProtocolPerRole(spec.descriptor)
    requires Call(x, disk, spec, a, t).0.Ok?
    ensures var next := Call(x, disk, spec, a, t).1;
            Call(x, next, spec, Runtime, u) == (Ok(Verified), next)
  {
    SameAsItself(spec.descriptor);
  }

  /** Verified means that the stored manifest is exactly the expected one. */
  lemma VerifiedMeansExpected(x: Codec, disk: Disk, spec: Spec, a: Admission, t: nat)
    requires Injective(x) && Call(x, disk, spec, a, t).0 == Ok(Verified)
    ensures disk.manifest.Some?
    ensures x.decodeStored(disk.manifest.value) == Some(Seal(x, Expected(x, spec, disk.directory)))
  {
    var s := x.decodeStored(disk.manifest.value).value;
    assert x.hash(x.encodeSpec(s.payload.spec)) == x.hash(x.encodeSpec(spec));
  }

  /** A replacement changes configuration or free descriptor fields only. */
  lemma ReplacedKeepsIdentities(x: Codec, disk: Disk, spec: Spec, a: Admission)
    requires Decide(x, disk, spec, a) == Ok(Replaced)
    ensures var s := x.decodeStored(disk.manifest.value).value.payload.spec;
            && s.sql == spec.sql && s.formats == spec.formats
            && s.namespaces == spec.namespaces && s.files == spec.files
            && SameProtocols(s.descriptor, spec.descriptor)
            && (s.configuration != spec.configuration || s.descriptor != spec.descriptor)
            && !a.Runtime?
  {
    var s := x.decodeStored(disk.manifest.value).value.payload.spec;
    assert s.configuration == spec.configuration && s.descriptor == spec.descriptor ==> s == spec;
  }

  datatype Event = Finish(spec: Spec, a: Admission, t: nat) | Crash(spec: Spec, a: Admission, t: nat, r: Reached)

  function Step(x: Codec, disk: Disk, e: Event): Disk {
    match e
    case Finish(spec, a, t) => Call(x, disk, spec, a, t).1
    case Crash(spec, a, t, r) => CrashedCall(x, disk, spec, a, t, r)
  }

  function Run(x: Codec, disk: Disk, events: seq<Event>): Disk
    decreases |events|
  {
    if events == [] then disk else Run(x, Step(x, disk, events[0]), events[1..])
  }

  /** The manifest is the one from before, or the whole manifest of some call that was allowed to write. */
  ghost predicate OldOrWhole(x: Codec, disk: Disk, events: seq<Event>, manifest: Option<Bytes>) {
    || manifest == disk.manifest
    || exists i :: 0 <= i < |events| && !events[i].a.Runtime? && AuthorizeChange(events[i].a).None?
                   && manifest == Some(NewManifest(x, disk, events[i].spec))
  }

  /** Over any calls and crashes the manifest is never half written, and only authorized calls change it. */
  lemma {:induction false} ManifestIsAlwaysWhole(x: Codec, disk: Disk, events: seq<Event>)
    ensures OldOrWhole(x, disk, events, Run(x, disk, events).manifest)
    ensures Run(x, disk, events).directory == disk.directory && Run(x, disk, events).files == disk.files
    decreases |events|
  {
    if events != [] {
      var next := Step(x, disk, events[0]);
      ManifestIsAlwaysWhole(x, next, events[1..]);
      var end := Run(x, disk, events).manifest;
      if end != next.manifest {
        var i :| 0 <= i < |events[1..]| && !events[1..][i].a.Runtime? && AuthorizeChange(events[1..][i].a).None?
                 && end == Some(NewManifest(x, next, events[1..][i].spec));
        assert events[1..][i] == events[i + 1];
      } else if end != disk.manifest {
        assert AuthorizeChange(events[0].a).None? && end == Some(NewManifest(x, disk, events[0].spec));
      }
    }
  }

  // ------------------------------------------------------------ exactly who may write, and when

  /** An offline migration, or a frontier proved empty and reconstructible. */
  predicate MayWrite(a: Admission) { a == OfflineMigration || a == EmptyReconstructible(true) }

  /** Over any calls and crashes without such an admission nothing on the disk changes. */
  lemma {:induction false} UnauthorizedNeverWrites(x: Codec, disk: Disk, events: seq<Event>)
    requires forall i :: 0 <= i < |events| ==> !MayWrite(events[i].a)
    ensures Run(x, disk, events) == disk
    decreases |events|
  {
    if events != [] {
      assert !MayWrite(events[0].a);
      UnauthorizedNeverWrites(x, disk, events[1..]);
    }
  }

  ghost predicate StoredIs(x: Codec, disk: Disk, s: Stored) {
    disk.manifest.Some? && |disk.manifest.value| <= MAX_BYTES && x.decodeStored(disk.manifest.value) == Some(s)
  }

  /** A stored manifest in order: of this directory, sealed with its own checksum and fingerprint. */
  ghost predicate InOrder(x: Codec, disk: Disk, p: Payload) {
    StoredIs(x, disk, Seal(x, p)) && p == Expected(x, p.spec, disk.directory)
  }

  /** What a replacement may not change. */
  predicate SameIdentities(was: Spec, now: Spec) {
    && was.sql == now.sql && SameProtocols(was.descriptor, now.descriptor) && was.formats == now.formats
    && was.namespaces == now.namespaces && was.files == now.files
  }

  ghost predicate FitsFile(x: Codec, disk: Disk, spec: Spec) { |NewManifest(x, disk, spec)| <= MAX_BYTES }

  /** The first manifest is installed exactly by who may write, over the required files, when it fits. */
  lemma InstalledIff(x: Codec, disk: Disk, spec: Spec, a: Admission, t: nat)
    requires RoundTrips(x)
    ensures Call(x, disk, spec, a, t).0 == Ok(Installed) <==>
              AllPresent(disk, spec.files) && disk.manifest.None? && MayWrite(a) && FitsFile(x, disk, spec)
    ensures Call(x, disk, spec, a, t).0 == Ok(Installed) ==>
              Call(x, disk, spec, a, t).1.manifest == Some(NewManifest(x, disk, spec))
  {
  }

  /** A check verifies exactly when the stored manifest is the expected one and the required files are there. */
  lemma VerifiedIff(x: Codec, disk: Disk, spec: Spec, a: Admission, t: nat)
    requires Injective(x) && OneProtocolPerRole(spec.descriptor)
    ensures Call(x, disk, spec, a, t).0 == Ok(Verified) <==>
              AllPresent(disk, spec.files) && StoredIs(x, disk, Seal(x, Expected(x, spec, disk.directory)))
  {
    SameAsItself(spec.descriptor);
    if Call(x, disk, spec, a, t).0 == Ok(Verified) {
      VerifiedMeansExpected(x, disk, spec, a, t);
    }
  }

  /** A manifest is replaced exactly by who may write, when the stored one is in order and agrees on every identity. */
  lemma ReplacedIff(x: Codec, disk: Disk, spec: Spec, a: Admission, t: nat)
    requires RoundTrips(x) && Injective(x)
    ensures Call(x, disk, spec, a, t).0 == Ok(Replaced) <==>
              && AllPresent(disk, spec.files) && MayWrite(a) && FitsFile(x, disk, spec)
              && exists p :: InOrder(x, disk, p) && SameIdentities(p.spec, spec) && p.spec != spec
    ensures Call(x, disk, spec, a, t).0 == Ok(Replaced) ==>
              Call(x, disk, spec, a, t).1.manifest == Some(NewManifest(x, disk, spec))
  {
    if Call(x, disk, spec, a, t).0 == Ok(Replaced) {
      var s := x.decodeStored(disk.manifest.value).value;
      assert InOrder(x, disk, s.payload);
      assert s.payload.spec != spec;
    }
    if p :| InOrder(x, disk, p) && SameIdentities(p.spec, spec) && p.spec != spec {
      assert x.hash(x.encodeSpec(p.spec)) != x.hash(x.encodeSpec(spec));
    }
  }

  /** Why a call that may not write is refused, where nothing else is wrong. */
  lemma RefusalReason(x: Codec, disk: Disk, spec: Spec, a: Admission, t: nat)
    requires AllPresent(disk, spec.files) && !MayWrite(a)
    ensures disk.manifest.None? ==>
              Call(x, disk, spec, a, t) == (Err(if a.Runtime? then MissingManifest else FrontierNotEmpty), disk)
    ensures (exists p :: InOrder(x, disk, p) && SameIdentities(p.spec, spec)
                         && p.fingerprint != Expected(x, spec, disk.directory).fingerprint) ==>
              Call(x, disk, spec, a, t) == (Err(if a.Runtime? then ChangedFingerprint else FrontierNotEmpty), disk)
  {
  }

  /** Which disagreement is reported, in order, for a stored manifest that decodes. */
  lemma DisagreementReason(x: Codec, disk: Disk, spec: Spec, a: Admission, t: nat, s: Stored)
    requires AllPresent(disk, spec.files) && StoredIs(x, disk, s)
    ensures var r := Call(x, disk, spec, a, t).0;
            var p := s.payload;
            var same := SameProtocols(p.spec.descriptor, spec.descriptor);
            && (s.version != 1 ==> r == Err(UnknownVersion))
            && (s.version == 1 && s.algorithm != "sha256" ==> r == Err(UnknownAlgorithm))
            && (s.version == 1 && s.algorithm == "sha256" && s.checksum != x.hash(x.encodePayload(p)) ==>
                  r == Err(ChecksumFailure))
            && (s == Seal(x, p) && p.fingerprint != x.hash(x.encodeSpec(p.spec)) ==> r == Err(FingerprintFailure))
            && (s == Seal(x, p) && p == Expected(x, p.spec, p.directory) && p.directory != disk.directory ==>
                  r == Err(DirectoryMismatch))
            && (InOrder(x, disk, p) ==>
                  && (p.spec.sql != spec.sql ==> r == Err(SchemaDisagreement))
                  && (p.spec.sql == spec.sql && !same ==> r == Err(ProtocolMismatch))
                  && (same && p.spec.formats != spec.formats && p.spec == spec.(formats := p.spec.formats) ==>
                        r == Err(FormatMismatch))
                  && (same && p.spec.namespaces != spec.namespaces
                      && p.spec == spec.(namespaces := p.spec.namespaces) ==>
                        r == Err(NamespaceMismatch))
                  && (same && p.spec.files != spec.files && p.spec == spec.(files := p.spec.files) ==>
                        r == Err(FileSetMismatch)))
  {
  }

  lemma {:induction false} FindFirst(roles: seq<RoleRecord>, role: string)
    ensures var f := Find(roles, role);
            && (f.None? <==> forall i :: 0 <= i < |roles| ==> roles[i].role != role)
            && (f.Some? ==> f.value in roles && f.value.role == role)
    decreases |roles|
  {
    if roles != [] && roles[0].role != role {
      FindFirst(roles[1..], role);
      assert forall i :: 0 < i < |roles| ==> roles[i] == roles[1..][i - 1];
    }
  }

  /** Role protocols agree exactly when profile and number of roles do, and every expected record is stored. */
  lemma SameProtocolsIff(stored: Descriptor, expected: Descriptor)
    requires OneProtocolPerRole(stored)
    ensures SameProtocols(stored, expected) <==>
              && stored.profile == expected.profile && |stored.roles| == |expected.roles|
              && (forall r :: r in expected.roles ==> r in stored.roles)
  {
    forall r | r in expected.roles
      ensures (Find(stored.roles, r.role).Some? && Find(stored.roles, r.role).value.protocol == r.protocol) <==>
                r in stored.roles
    {
      FindFirst(stored.roles, r.role);
    }
  }
}
