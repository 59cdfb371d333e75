/**
 * The client's durable state as the updater sees it, and the fault model.
 *
 * Every operation on the disk first asks `Step` for its fate: it may proceed,
 * fail with an I/O error, or find that the process has died. A method that
 * learns `Crash` returns at once and changes nothing more, so the contract of
 * its `Crash` outcome speaks about every point between two disk operations.
 * Completed operations persist in order.
 */
module Disks {
  import opened Strings
  import opened Components

  type Byte = b: int | 0 <= b < 256
  type Bytes = seq<Byte>

  /** SHA-256 as an injective constructor; Malformed is hexadecimal text that is no 32-byte digest. */
  datatype Digest = Sha256(preimage: Bytes) | Malformed(text: string)

  const MAX_FILE_SIZE: nat := 0x400_0000

  /** Octal 0600 and 0700. */
  const OWNER_FILE: nat := 384
  const OWNER_DIR: nat := 448

  /** `perm` holds the nine permission bits, `special` whether set-uid, set-gid or sticky is on. */
  datatype Node = Regular(content: Bytes, perm: nat, special: bool) | Irregular

  /** Files by role. FileNamesDistinct shows that different roles are different names. */
  datatype Path =
    | Target(target: string)
    | InstallNew(target: string)
    | RestoreNew(target: string)
    | Payload(stage: string, component: string)
    | Validate(stage: string, component: string)
    | InstallPrepared(stage: string, component: string)
    | Backup(dir: string, component: string)
    | RestorePrepared(dir: string, component: string)
    | Elsewhere(name: string)

  type Files = map<Path, Node>

  datatype StagedComponent =
    StagedComponent(component: string, target: string, mode: nat, sha: Digest, restartLightDM: bool)

  datatype StagePlan = StagePlan(releaseVersion: string, architecture: string, components: seq<StagedComponent>)

  datatype RollbackFile =
    RollbackFile(component: string, target: string, existed: bool, mode: nat, size: int, sha: Digest)

  /** `preparedAt` 0 is Go's zero time. */
  datatype RollbackManifest =
    RollbackManifest(schema: int, preparedAt: int, forRelease: string, files: seq<RollbackFile>)

  /** rollback.json: `doc` is None while it does not decode. */
  datatype ManifestFile = ManifestFile(perm: nat, doc: Option<RollbackManifest>)

  datatype UpdateTransaction = UpdateTransaction(releaseVersion: string, rollbackDir: string, startedAt: int)

  datatype Status = Success | Failure

  datatype UpdateState = UpdateState(version: string, status: Status)

  datatype Outcome = Ok | Fail | Crash

  /** The durable records the protocol depends on. */
  datatype Image = Image(
    files: Files,
    dirs: map<string, nat>,
    manifests: map<string, ManifestFile>,
    transaction: Option<UpdateTransaction>,
    state: Option<UpdateState>)

  class Disk {
    var files: Files
    /** Rollback directories, published or temporary, with their permission bits. */
    var dirs: map<string, nat>
    var manifests: map<string, ManifestFile>
    /** Stage directories, published or temporary. */
    var stages: set<string>
    /** stage-plan.json of each stage directory that decodes. */
    var plans: map<string, StagePlan>
    var transaction: Option<UpdateTransaction>
    /** Whether the transaction's and the state's ".tmp" file is lying around. */
    var transactionTemp: bool
    var state: Option<UpdateState>
    var stateTemp: bool
    const specs: map<string, Spec>
    /** No I/O error and no crash befalls a calm disk. */
    const calm: bool
    /** The service commands of every check succeed. */
    const healthy: bool

    constructor (specs: map<string, Spec>, calm: bool, healthy: bool)
      ensures this.specs == specs && this.calm == calm && this.healthy == healthy
      ensures files == map[] && dirs == map[] && manifests == map[] && stages == {} && plans == map[] && transaction.None? && state.None? && !transactionTemp && !stateTemp
    {
      this.specs, this.calm, this.healthy := specs, calm, healthy;
      files, dirs, manifests, stages, plans := map[], map[], map[], {}, map[];
      transaction, transactionTemp, state, stateTemp := None, false, None, false;
    }

    ghost function Now(): Image
      reads this
    {
      Image(files, dirs, manifests, transaction, state)
    }

    /** The fate of the next disk operation. */
    method Step() returns (r: Outcome)
      ensures calm ==> r.Ok?
    {
      if calm {
        return Ok;
      }
      if * {
        return Crash;
      }
      if * {
        return Fail;
      }
      return Ok;
    }
  }

  // ----- comparing file maps -------------------------------------------------

  predicate SameAt(a: Files, b: Files, p: Path) {
    (p in a <==> p in b) && (p in a ==> a[p] == b[p])
  }

  /** Outside `scope` the two maps agree. */
  ghost predicate Agree(a: Files, b: Files, scope: iset<Path>) {
    forall p: Path :: p !in scope ==> (p in a <==> p in b) && (p in a ==> a[p] == b[p])
  }

  /** The same for the directory tables. */
  ghost predicate AgreeExcept<V(!new)>(a: map<string, V>, b: map<string, V>, keys: set<string>) {
    forall k :: k !in keys ==> (k in a <==> k in b) && (k in a ==> a[k] == b[k])
  }

  /** A target that a restore may replace: a regular file or nothing. */
  predicate Replaceable(files: Files, p: Path) {
    p in files ==> files[p].Regular?
  }

  /** `os.Open` of `source` followed by reading at most one byte over the limit. */
  function Readable(files: Files, source: Path): Option<Bytes> {
    if source !in files || !files[source].Regular? then None
    else
      var c := files[source].content;
      Some(if |c| <= MAX_FILE_SIZE then c else c[..MAX_FILE_SIZE + 1])
  }

  /** copyAndVerify (restore.go): exclusive create, copy, check, chmod. */
  method CopyAndVerify(d: Disk, source: Path, destination: Path, size: int, expected: Digest, mode: nat)
    returns (r: Outcome)
    requires source != destination
    modifies d`files
    ensures Agree(d.files, old(d.files), iset{destination})
    ensures destination in old(d.files) ==> !r.Ok? && d.files == old(d.files)
    ensures r.Ok? ==>
      var data := Readable(old(d.files), source);
      data.Some? && |data.value| == size && Sha256(data.value) == expected
      && d.files == old(d.files)[destination := Regular(data.value, mode, false)]
    ensures d.calm ==> !r.Crash?
    ensures d.calm && destination !in old(d.files) ==>
      var data := Readable(old(d.files), source);
      (r.Ok? <==> data.Some? && |data.value| == size && Sha256(data.value) == expected)
  {
    r := d.Step();
    if !r.Ok? {
      return;
    }
    var data := Readable(d.files, source);
    if data.None? {
      return Fail;
    }
    r := d.Step();
    if !r.Ok? {
      return;
    }
    if destination in d.files {
      return Fail;
    }
    ghost var before := d.files;
    d.files := d.files[destination := Regular([], 0, false)];
    r := d.Step();
    if !r.Ok? {
      // A prefix of the data may have reached the file.
      var written: nat :| written <= |data.value|;
      d.files := d.files[destination := Regular(data.value[..written], 0, false)];
      return;
    }
    d.files := d.files[destination := Regular(data.value, 0, false)];
    if |data.value| != size || Sha256(data.value) != expected {
      r := d.Step();
      if r.Ok? {
        d.files := d.files - {destination};
        r := Fail;
      }
      return;
    }
    r := d.Step();
    if !r.Ok? {
      return;
    }
    d.files := d.files[destination := Regular(data.value, mode, false)];
    return Ok;
  }

  /** os.Remove of a file whose absence is no error to the caller. */
  method RemoveFile(d: Disk, p: Path) returns (r: Outcome)
    modifies d`files
    ensures r.Ok? ==> d.files == old(d.files) - {p}
    ensures !r.Ok? ==> d.files == old(d.files)
    ensures d.calm ==> r.Ok?
  {
    r := d.Step();
    if r.Ok? {
      d.files := d.files - {p};
    }
  }

  /** os.Rename of a file onto another name, atomic. */
  method RenameFile(d: Disk, source: Path, destination: Path) returns (r: Outcome)
    requires source in d.files && source != destination
    modifies d`files
    ensures r.Ok? ==> d.files == old(d.files)[destination := old(d.files)[source]] - {source}
    ensures !r.Ok? ==> d.files == old(d.files)
    ensures d.calm ==> r.Ok?
  {
    r := d.Step();
    if r.Ok? {
      d.files := d.files[destination := d.files[source]] - {source};
    }
  }
}
