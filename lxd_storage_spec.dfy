/**
 * What each operation of the LXD filesystem source does to one item, as
 * functions of the backend's fixture (volume table, injected errors) and of
 * the call index the item starts at, and each batch operation as the
 * in-order processing of its items. The class in LxdStorage is proved to do exactly this; the
 * properties the operations promise are proved in LxdStorageProperties.
 */
module LxdStorageSpec {
  import opened Wrappers
  import opened Errors
  import opened FilesystemIds
  import opened Sizes
  import opened VolumeConfig
  import opened Backend
  import opened StorageTypes

  /** What processing one item does: the new state, its result and the calls it made. */
  datatype Step<S, R> = Step(state: S, result: R, calls: seq<Call>)

  /**
   * What processing a batch does: the final state, the results (one per
   * item, in item order) and all calls made, in the order they were made.
   */
  datatype Outcome<S, R> = Outcome(state: S, results: seq<R>, calls: seq<Call>)

  const ProviderType: string := "lxd"
  const DriverAttr: string := "driver"
  const LxdPoolAttr: string := "lxd-pool"
  const NamespacePrefix: string := "juju-"
  const CreatingWord: string := "creating "
  const RemovingTagsWord: string := "removing tags from "
  const TaggingWord: string := "tagging "
  const ReadingSizeWord: string := "reading size of "
  const AttachingWord: string := "attaching "
  const ToWord: string := " to "
  const DetachingWord: string := "detaching "
  const InstanceWord: string := "instance "

  /** The prefix of every resource name of a model: "juju-<short model UUID>-". */
  function Namespace(modelShort: string): string {
    NamespacePrefix + modelShort + "-"
  }

  /** The LXD volume that backs a filesystem: the model's namespace followed by the filesystem tag. */
  function VolumeName(namespace: string, tag: FilesystemTag): string {
    namespace + tag.String()
  }

  // ---------------------------------------------------------------- pools

  /** The LXD pool to use, its driver, and the remaining attributes as driver config (None when there are none). */
  datatype PoolConfig = PoolConfig(lxdPool: string, driver: string, attrs: Option<Config>)

  /**
   * Reads a storage pool's attributes: "lxd-pool" names the LXD pool (the
   * source's own pool name when absent), "driver" its driver ("dir" when
   * absent), and every other attribute is passed on as pool config.
   */
  function PoolConfigOf(attributes: map<string, string>, defaultPool: string): (c: PoolConfig)
    ensures c.lxdPool == (if LxdPoolAttr in attributes then attributes[LxdPoolAttr] else defaultPool)
    ensures c.driver == (if DriverAttr in attributes then attributes[DriverAttr] else DirDriver)
    ensures c.attrs.None? <==> attributes.Keys <= {DriverAttr, LxdPoolAttr}
    ensures c.attrs.Some? ==> c.attrs.value == attributes - {DriverAttr, LxdPoolAttr}
    ensures c.attrs.Some? ==> DriverAttr !in c.attrs.value && LxdPoolAttr !in c.attrs.value
  {
    var rest := attributes - {DriverAttr, LxdPoolAttr};
    assert rest.Keys == attributes.Keys - {DriverAttr, LxdPoolAttr};
    assert rest == map[] <==> rest.Keys == {};
    PoolConfig(
      if LxdPoolAttr in attributes then attributes[LxdPoolAttr] else defaultPool,
      if DriverAttr in attributes then attributes[DriverAttr] else DirDriver,
      if rest == map[] then None else Some(rest))
  }

  /** The error ensuring a pool ended with, and the calls it made. */
  datatype Ensured = Ensured(err: Option<Error>, calls: seq<Call>)

  /**
   * Ensures the pool exists: creates it, and when that fails asks whether
   * the pool is there anyway; only if that read fails too is the creation
   * error returned.
   */
  function EnsurePool(faults: seq<Option<Error>>, cfg: PoolConfig, k: nat): (e: Ensured)
    ensures 1 <= |e.calls| <= 2 && e.calls[0] == Call.CreatePool(cfg.lxdPool, cfg.driver, cfg.attrs)
    ensures |e.calls| == 2 <==> FaultAt(faults, k).Some?
    ensures |e.calls| == 2 ==> e.calls[1] == Call.GetStoragePool(cfg.lxdPool)
    ensures e.err.None? <==> FaultAt(faults, k).None? || FaultAt(faults, k + 1).None?
    ensures e.err.Some? ==> e.err == FaultAt(faults, k)
  {
    var create := Call.CreatePool(cfg.lxdPool, cfg.driver, cfg.attrs);
    match FaultAt(faults, k)
    case None => Ensured(None, [create])
    case Some(createErr) =>
      var get := Call.GetStoragePool(cfg.lxdPool);
      if FaultAt(faults, k + 1).None? then Ensured(None, [create, get])
      else Ensured(Some(createErr), [create, get])
  }

  /** The pools offered by default, in order; each is offered only if it can be ensured. */
  const ZfsPool: PoolDefinition :=
    PoolDefinition("lxd-zfs", ProviderType, map[DriverAttr := "zfs", LxdPoolAttr := "juju-zfs", "zfs.pool_name" := "juju-lxd"])
  const BtrfsPool: PoolDefinition :=
    PoolDefinition("lxd-btrfs", ProviderType, map[DriverAttr := "btrfs", LxdPoolAttr := "juju-btrfs"])

  /** How a default pool's attributes are read: with no pool of the source's own to fall back on. */
  function DefaultPoolConfig(pool: PoolDefinition): PoolConfig {
    PoolConfigOf(pool.attributes, "")
  }

  datatype Pools = Pools(pools: seq<PoolDefinition>, calls: seq<Call>)

  /** The default pools: lxd-zfs then lxd-btrfs, each dropped when ensuring its LXD pool fails. */
  function DefaultPools(faults: seq<Option<Error>>, k: nat): (r: Pools)
    ensures var zfs := EnsurePool(faults, DefaultPoolConfig(ZfsPool), k);
            var btrfs := EnsurePool(faults, DefaultPoolConfig(BtrfsPool), k + |zfs.calls|);
            (ZfsPool in r.pools <==> zfs.err.None?) && (BtrfsPool in r.pools <==> btrfs.err.None?) &&
            r.calls == zfs.calls + btrfs.calls
    ensures |r.pools| <= 2 && (|r.pools| == 2 ==> r.pools == [ZfsPool, BtrfsPool])
    ensures forall p :: p in r.pools ==> p == ZfsPool || p == BtrfsPool
  {
    var zfs := EnsurePool(faults, DefaultPoolConfig(ZfsPool), k);
    var btrfs := EnsurePool(faults, DefaultPoolConfig(BtrfsPool), k + |zfs.calls|);
    Pools((if zfs.err.None? then [ZfsPool] else []) + (if btrfs.err.None? then [BtrfsPool] else []),
          zfs.calls + btrfs.calls)
  }

  /** The default pools in terms of the two ensures, the second starting where the first one's calls end. */
  lemma DefaultPoolsParts(faults: seq<Option<Error>>, k: nat, zfs: Ensured, btrfs: Ensured)
    requires zfs == EnsurePool(faults, DefaultPoolConfig(ZfsPool), k)
    requires btrfs == EnsurePool(faults, DefaultPoolConfig(BtrfsPool), k + |zfs.calls|)
    ensures DefaultPools(faults, k)
            == Pools((if zfs.err.None? then [ZfsPool] else []) + (if btrfs.err.None? then [BtrfsPool] else []),
                     zfs.calls + btrfs.calls)
  {
    hide EnsurePool, DefaultPoolConfig;
  }

  // ---------------------------------------------------------------- create

  function CreateVolumeContext(pool: string, name: string): string {
    CreatingWord + VolumeInPool(name, pool)
  }

  /**
   * Creates one filesystem: ensures its pool, then creates the volume named
   * after the filesystem tag with the tags and (unless the driver is "dir")
   * the size in its config.
   */
  function CreateItem(faults: seq<Option<Error>>, namespace: string, defaultPool: string, p: FilesystemParams, k: nat)
    : Step<(), Result<Filesystem, Error>>
  {
    var cfg := PoolConfigOf(p.attributes, defaultPool);
    var ensured := EnsurePool(faults, cfg, k);
    if ensured.err.Some? then Step((), Failure(ensured.err.value), ensured.calls)
    else
      var name := VolumeName(namespace, p.tag);
      var calls := ensured.calls + [Call.CreateVolume(cfg.lxdPool, name, CreateConfig(p.size, p.resourceTags, cfg.driver))];
      match FaultAt(faults, k + |ensured.calls|)
      case Some(e) => Step((), Failure(Annotate(CreateVolumeContext(cfg.lxdPool, name), e)), calls)
      case None =>
        Step((), Success(Filesystem(p.tag, None, FilesystemInfo(FormatFilesystemId(cfg.lxdPool, name), p.size))), calls)
  }

  /**
   * Creates the first n filesystems in order; the item processed after
   * calls c starts at call index k + |c|.
   */
  function CreatePrefix(faults: seq<Option<Error>>, namespace: string, defaultPool: string,
                        ps: seq<FilesystemParams>, n: nat, k: nat)
    : (o: Outcome<(), Result<Filesystem, Error>>)
    requires n <= |ps|
    ensures |o.results| == n
  {
    if n == 0 then Outcome((), [], [])
    else
      var o := CreatePrefix(faults, namespace, defaultPool, ps, n - 1, k);
      var st := CreateItem(faults, namespace, defaultPool, ps[n - 1], k + |o.calls|);
      Outcome((), o.results + [st.result], o.calls + st.calls)
  }

  /** One more item: the next item starts where the calls of the earlier ones end. */
  lemma CreatePrefixStep(faults: seq<Option<Error>>, namespace: string, defaultPool: string,
                         ps: seq<FilesystemParams>, n: nat, k: nat,
                         o: Outcome<(), Result<Filesystem, Error>>, st: Step<(), Result<Filesystem, Error>>)
    requires n < |ps|
    requires o == CreatePrefix(faults, namespace, defaultPool, ps, n, k)
    requires st == CreateItem(faults, namespace, defaultPool, ps[n], k + |o.calls|)
    ensures CreatePrefix(faults, namespace, defaultPool, ps, n + 1, k) == Outcome((), o.results + [st.result], o.calls + st.calls)
  {
    hide CreateItem;
  }

  /** Creates the filesystems in order. */
  function CreateAll(faults: seq<Option<Error>>, namespace: string, defaultPool: string, ps: seq<FilesystemParams>, k: nat)
    : (o: Outcome<(), Result<Filesystem, Error>>)
    ensures |o.results| == |ps|
  {
    CreatePrefix(faults, namespace, defaultPool, ps, |ps|, k)
  }

  // ---------------------------------------------------------------- destroy

  /** Destroys one filesystem: deletes its volume, unless its ID is malformed. */
  function DestroyItem(faults: seq<Option<Error>>, id: string, k: nat): Step<(), Option<Error>> {
    match ParseFilesystemId(id)
    case Failure(e) => Step((), Some(e), [])
    case Success((pool, volume)) =>
      Step((), FaultAt(faults, k), [Call.DeleteStoragePoolVolume(pool, CustomVolumeType, volume)])
  }

  /** Destroys the first n filesystems in order. */
  function DestroyPrefix(faults: seq<Option<Error>>, ids: seq<string>, n: nat, k: nat): (o: Outcome<(), Option<Error>>)
    requires n <= |ids|
    ensures |o.results| == n
  {
    if n == 0 then Outcome((), [], [])
    else
      var o := DestroyPrefix(faults, ids, n - 1, k);
      var st := DestroyItem(faults, ids[n - 1], k + |o.calls|);
      Outcome((), o.results + [st.result], o.calls + st.calls)
  }

  /** One more ID: its delete, if any, is the call after those of the earlier IDs. */
  lemma DestroyPrefixStep(faults: seq<Option<Error>>, ids: seq<string>, n: nat, k: nat,
                          o: Outcome<(), Option<Error>>, st: Step<(), Option<Error>>)
    requires n < |ids|
    requires o == DestroyPrefix(faults, ids, n, k)
    requires st == DestroyItem(faults, ids[n], k + |o.calls|)
    ensures DestroyPrefix(faults, ids, n + 1, k) == Outcome((), o.results + [st.result], o.calls + st.calls)
  {
    hide DestroyItem;
  }

  /** Destroys the filesystems in order. */
  function DestroyAll(faults: seq<Option<Error>>, ids: seq<string>, k: nat): (o: Outcome<(), Option<Error>>)
    ensures |o.results| == |ids|
  {
    DestroyPrefix(faults, ids, |ids|, k)
  }

  // ---------------------------------------------------------------- volume reads

  /** What reading a volume gives at call index k: the injected error, or what the table holds. */
  function ReadVolume(faults: seq<Option<Error>>, volumes: VolumeTable, pool: string, name: string, k: nat)
    : Result<Volume, Error>
  {
    match FaultAt(faults, k)
    case Some(e) => Failure(e)
    case None => LookupVolume(volumes, pool, name)
  }

  // ---------------------------------------------------------------- release

  function ReleaseContext(pool: string, volume: string): string {
    RemovingTagsWord + VolumeInPool(volume, pool)
  }

  /**
   * Releases one filesystem: reads its volume, then writes the config back
   * without the ownership tags, passing the eTag of the read.
   */
  function ReleaseItem(faults: seq<Option<Error>>, volumes: VolumeTable, id: string, k: nat): Step<(), Option<Error>> {
    match ParseFilesystemId(id)
    case Failure(e) => Step((), Some(e), [])
    case Success((pool, volume)) =>
      var get := Call.GetStoragePoolVolume(pool, CustomVolumeType, volume);
      match ReadVolume(faults, volumes, pool, volume, k)
      case Failure(e) => Step((), Some(e), [get])
      case Success(v) =>
        var update := Call.UpdateStoragePoolVolume(pool, CustomVolumeType, volume, ReleaseConfig(v.config), v.eTag);
        match FaultAt(faults, k + 1)
        case Some(e) => Step((), Some(Annotate(ReleaseContext(pool, volume), e)), [get, update])
        case None => Step((), None, [get, update])
  }

  /** Releases the first n filesystems in order. */
  function ReleasePrefix(faults: seq<Option<Error>>, volumes: VolumeTable, ids: seq<string>, n: nat, k: nat)
    : (o: Outcome<(), Option<Error>>)
    requires n <= |ids|
    ensures |o.results| == n
  {
    if n == 0 then Outcome((), [], [])
    else
      var o := ReleasePrefix(faults, volumes, ids, n - 1, k);
      var st := ReleaseItem(faults, volumes, ids[n - 1], k + |o.calls|);
      Outcome((), o.results + [st.result], o.calls + st.calls)
  }

  /** One more ID: its read and write-back come after the calls of the earlier IDs. */
  lemma ReleasePrefixStep(faults: seq<Option<Error>>, volumes: VolumeTable, ids: seq<string>, n: nat, k: nat,
                          o: Outcome<(), Option<Error>>, st: Step<(), Option<Error>>)
    requires n < |ids|
    requires o == ReleasePrefix(faults, volumes, ids, n, k)
    requires st == ReleaseItem(faults, volumes, ids[n], k + |o.calls|)
    ensures ReleasePrefix(faults, volumes, ids, n + 1, k) == Outcome((), o.results + [st.result], o.calls + st.calls)
  {
    hide ReleaseItem;
  }

  /** Releases the filesystems in order. */
  function ReleaseAll(faults: seq<Option<Error>>, volumes: VolumeTable, ids: seq<string>, k: nat): (o: Outcome<(), Option<Error>>)
    ensures |o.results| == |ids|
  {
    ReleasePrefix(faults, volumes, ids, |ids|, k)
  }

  // ---------------------------------------------------------------- import

  datatype Imported = Imported(result: Result<FilesystemInfo, Error>, calls: seq<Call>)

  function ReadSizeContext(pool: string, volume: string): string {
    ReadingSizeWord + VolumeInPool(volume, pool)
  }

  function ImportContext(pool: string, volume: string): string {
    TaggingWord + VolumeInPool(volume, pool)
  }

  /** The size a volume's config records, in MiB; 0 when it records none. */
  function RecordedSize(config: Config): Result<nat, Error> {
    if SizeKey in config then ParseSize(config[SizeKey]) else Success(0)
  }

  /**
   * Brings an existing volume under management: reads it, reads its size
   * from its config, and writes the config back with the tags added under
   * "user.", passing the eTag of the read.
   */
  function ImportFilesystem(faults: seq<Option<Error>>, volumes: VolumeTable, id: string, tags: Config, k: nat)
    : Imported
  {
    match ParseFilesystemId(id)
    case Failure(e) => Imported(Failure(e), [])
    case Success((pool, volume)) =>
      var get := Call.GetStoragePoolVolume(pool, CustomVolumeType, volume);
      match ReadVolume(faults, volumes, pool, volume, k)
      case Failure(e) => Imported(Failure(e), [get])
      case Success(v) =>
        match RecordedSize(v.config)
        case Failure(e) => Imported(Failure(Annotate(ReadSizeContext(pool, volume), e)), [get])
        case Success(size) =>
          var update := Call.UpdateStoragePoolVolume(pool, CustomVolumeType, volume, ImportConfig(v.config, tags), v.eTag);
          match FaultAt(faults, k + 1)
          case Some(e) => Imported(Failure(Annotate(ImportContext(pool, volume), e)), [get, update])
          case None => Imported(Success(FilesystemInfo(id, size)), [get, update])
  }

  // ---------------------------------------------------------------- containers

  /** The first container with the given name. */
  function FindContainer(cs: seq<ContainerState>, name: string): (r: Option<nat>)
    ensures r.Some? ==> r.value < |cs| && cs[r.value].name == name
    ensures r.Some? ==> forall j :: 0 <= j < r.value ==> cs[j].name != name
    ensures r.None? ==> forall j :: 0 <= j < |cs| ==> cs[j].name != name
    decreases |cs|
  {
    if cs == [] then None
    else if cs[0].name == name then Some(0)
    else match FindContainer(cs[1..], name)
      case None => None
      case Some(j) => Some(j + 1)
  }

  /** Two views of the same containers, in the same order. */
  predicate SameNames(cs: seq<ContainerState>, cs': seq<ContainerState>) {
    |cs| == |cs'| && forall j :: 0 <= j < |cs| ==> cs[j].name == cs'[j].name
  }

  /** Every device of every container is still there, unchanged. */
  predicate KeepsDevices(cs: seq<ContainerState>, cs': seq<ContainerState>) {
    SameNames(cs, cs') &&
    forall j, key :: 0 <= j < |cs| && key in cs[j].devices ==>
      key in cs'[j].devices && cs'[j].devices[key] == cs[j].devices[key]
  }

  /** The state with container j's devices replaced. */
  function SetDevices(cs: seq<ContainerState>, j: nat, devices: Devices): (r: seq<ContainerState>)
    requires j < |cs|
    ensures SameNames(cs, r)
  {
    cs[j := ContainerState(cs[j].name, devices)]
  }

  /** The disk device that mounts a filesystem's volume. */
  function DiskDevice(pool: string, volume: string, path: string, readOnly: bool): Device {
    map["type" := "disk", "source" := volume, "pool" := pool, "path" := path,
        "readonly" := if readOnly then "true" else "false"]
  }

  // ---------------------------------------------------------------- attach

  function AttachContext(a: FilesystemAttachmentParams): string {
    AttachingWord + a.filesystem.Readable() + ToWord + a.machine.Readable()
  }

  /** The error for an instance the server does not report alive. */
  function InstanceNotFound(instanceId: string): Error {
    NotFoundError(InstanceWord + Quote(instanceId))
  }

  function DetachContext(a: FilesystemAttachmentParams): string {
    DetachingWord + a.filesystem.Readable()
  }

  /**
   * Attaches one filesystem: finds the instance's container, adds a disk
   * device named after the filesystem tag (refusing one that is there
   * already) and writes the container back. The device stays in the
   * container's map even when the write fails.
   */
  function AttachItem(faults: seq<Option<Error>>, cs: seq<ContainerState>, a: FilesystemAttachmentParams, k: nat)
    : Step<seq<ContainerState>, Result<FilesystemAttachment, Error>>
  {
    var ctx := AttachContext(a);
    match FindContainer(cs, a.instanceId)
    case None => Step(cs, Failure(Annotate(ctx, InstanceNotFound(a.instanceId))), [])
    case Some(j) =>
      match ParseFilesystemId(a.filesystemId)
      case Failure(e) => Step(cs, Failure(Annotate(ctx, e)), [])
      case Success((pool, volume)) =>
        var key := a.filesystem.String();
        if key in cs[j].devices then
          Step(cs, Failure(Annotate(ctx, DeviceExistsError(cs[j].name, key))), [])
        else
          var devices := cs[j].devices[key := DiskDevice(pool, volume, a.path, a.readOnly)];
          var result := match FaultAt(faults, k)
            case Some(e) => Failure(Annotate(ctx, e))
            case None => Success(FilesystemAttachment(a.filesystem, a.machine, FilesystemAttachmentInfo(a.path, a.readOnly)));
          Step(SetDevices(cs, j, devices), result, [Call.WriteContainer(cs[j].name, devices)])
  }

  /**
   * Attaching never removes or changes a device; it writes the container
   * at most once, and exactly when the device was added.
   */
  lemma AttachItemFacts(faults: seq<Option<Error>>, cs: seq<ContainerState>, a: FilesystemAttachmentParams, k: nat)
    ensures var st := AttachItem(faults, cs, a, k);
            KeepsDevices(cs, st.state) && |st.calls| <= 1 &&
            (st.result.Success? ==> |st.calls| == 1) &&
            (FaultAt(faults, k).None? ==> (|st.calls| == 1 <==> st.result.Success?))
  {
  }

  /** Attaches the first n items in order, each seeing the devices the items before it left. */
  function AttachPrefix(faults: seq<Option<Error>>, cs: seq<ContainerState>, args: seq<FilesystemAttachmentParams>, n: nat, k: nat)
    : (o: Outcome<seq<ContainerState>, Result<FilesystemAttachment, Error>>)
    requires n <= |args|
    ensures |o.results| == n
  {
    if n == 0 then Outcome(cs, [], [])
    else
      var o := AttachPrefix(faults, cs, args, n - 1, k);
      var st := AttachItem(faults, o.state, args[n - 1], k + |o.calls|);
      Outcome(st.state, o.results + [st.result], o.calls + st.calls)
  }

  /** A batch over containers: it fails as a whole when listing the alive containers fails. */
  datatype ContainerBatch<R> = ContainerBatch(state: seq<ContainerState>, results: Result<seq<R>, Error>, calls: seq<Call>)

  /** One more item: it sees the devices the earlier items left and starts where their calls end. */
  lemma AttachPrefixStep(faults: seq<Option<Error>>, cs: seq<ContainerState>, args: seq<FilesystemAttachmentParams>, n: nat, k: nat,
                         o: Outcome<seq<ContainerState>, Result<FilesystemAttachment, Error>>, st: Step<seq<ContainerState>, Result<FilesystemAttachment, Error>>)
    requires n < |args|
    requires o == AttachPrefix(faults, cs, args, n, k)
    requires st == AttachItem(faults, o.state, args[n], k + |o.calls|)
    ensures AttachPrefix(faults, cs, args, n + 1, k) == Outcome(st.state, o.results + [st.result], o.calls + st.calls)
  {
    hide AttachItem;
  }

  /** Lists the model's alive containers once, then attaches each item in turn. */
  function AttachAll(faults: seq<Option<Error>>, cs: seq<ContainerState>, namespace: string,
                     args: seq<FilesystemAttachmentParams>, k: nat)
    : (o: ContainerBatch<Result<FilesystemAttachment, Error>>)
    ensures |o.calls| >= 1 && o.calls[0] == Call.AliveContainers(namespace)
    ensures o.results.Success? ==> |o.results.value| == |args|
    ensures o.results.Failure? <==> FaultAt(faults, k).Some?
  {
    match FaultAt(faults, k)
    case Some(e) => ContainerBatch(cs, Failure(e), [Call.AliveContainers(namespace)])
    case None =>
      var o := AttachPrefix(faults, cs, args, |args|, k + 1);
      ContainerBatch(o.state, Success(o.results), [Call.AliveContainers(namespace)] + o.calls)
  }

  // ---------------------------------------------------------------- detach

  /**
   * Detaches one filesystem: removes its device from the instance's
   * container, whether or not it was there, and writes the container back.
   * An unknown instance is no error and makes no call.
   */
  function DetachItem(faults: seq<Option<Error>>, cs: seq<ContainerState>, a: FilesystemAttachmentParams, k: nat)
    : Step<seq<ContainerState>, Option<Error>>
  {
    match FindContainer(cs, a.instanceId)
    case None => Step(cs, None, [])
    case Some(j) =>
      var devices := cs[j].devices - {a.filesystem.String()};
      var result := match FaultAt(faults, k)
        case Some(e) => Some(Annotate(DetachContext(a), e))
        case None => None;
      Step(SetDevices(cs, j, devices), result, [Call.WriteContainer(cs[j].name, devices)])
  }

  /**
   * Detaching removes the device from the instance's container and from no
   * other, and writes that container once, with its remaining devices; an
   * unknown instance is left alone without any call; without an injected
   * error it always succeeds.
   */
  lemma DetachItemFacts(faults: seq<Option<Error>>, cs: seq<ContainerState>, a: FilesystemAttachmentParams, k: nat)
    ensures var st := DetachItem(faults, cs, a, k);
            SameNames(cs, st.state) &&
            (forall j :: 0 <= j < |cs| ==>
              st.state[j].devices == if FindContainer(cs, a.instanceId) == Some(j) then cs[j].devices - {a.filesystem.String()} else cs[j].devices) &&
            (FindContainer(cs, a.instanceId).None? ==> st.calls == [] && st.result.None?) &&
            (forall j :: FindContainer(cs, a.instanceId) == Some(j) ==>
              j < |cs| && st.calls == [Call.WriteContainer(cs[j].name, cs[j].devices - {a.filesystem.String()})]) &&
            (FaultAt(faults, k).None? ==> st.result.None?)
  {
    hide FindContainer;
    match FindContainer(cs, a.instanceId)
    case None =>
    case Some(j) =>
      var st := DetachItem(faults, cs, a, k);
      assert st.state == SetDevices(cs, j, cs[j].devices - {a.filesystem.String()});
  }

  /** Detaches the first n items in order, each seeing the devices the items before it left. */
  function DetachPrefix(faults: seq<Option<Error>>, cs: seq<ContainerState>, args: seq<FilesystemAttachmentParams>, n: nat, k: nat)
    : (o: Outcome<seq<ContainerState>, Option<Error>>)
    requires n <= |args|
    ensures |o.results| == n
  {
    if n == 0 then Outcome(cs, [], [])
    else
      var o := DetachPrefix(faults, cs, args, n - 1, k);
      var st := DetachItem(faults, o.state, args[n - 1], k + |o.calls|);
      Outcome(st.state, o.results + [st.result], o.calls + st.calls)
  }

  /** One more item: it sees the devices the earlier items left and starts where their calls end. */
  lemma DetachPrefixStep(faults: seq<Option<Error>>, cs: seq<ContainerState>, args: seq<FilesystemAttachmentParams>, n: nat, k: nat,
                         o: Outcome<seq<ContainerState>, Option<Error>>, st: Step<seq<ContainerState>, Option<Error>>)
    requires n < |args|
    requires o == DetachPrefix(faults, cs, args, n, k)
    requires st == DetachItem(faults, o.state, args[n], k + |o.calls|)
    ensures DetachPrefix(faults, cs, args, n + 1, k) == Outcome(st.state, o.results + [st.result], o.calls + st.calls)
  {
    hide DetachItem;
  }

  /** Lists the model's alive containers once, then detaches each item in turn. */
  function DetachAll(faults: seq<Option<Error>>, cs: seq<ContainerState>, namespace: string,
                     args: seq<FilesystemAttachmentParams>, k: nat)
    : (o: ContainerBatch<Option<Error>>)
    ensures |o.calls| >= 1 && o.calls[0] == Call.AliveContainers(namespace)
    ensures o.results.Success? ==> |o.results.value| == |args|
    ensures o.results.Failure? <==> FaultAt(faults, k).Some?
  {
    match FaultAt(faults, k)
    case Some(e) => ContainerBatch(cs, Failure(e), [Call.AliveContainers(namespace)])
    case None =>
      var o := DetachPrefix(faults, cs, args, |args|, k + 1);
      ContainerBatch(o.state, Success(o.results), [Call.AliveContainers(namespace)] + o.calls)
  }
}
