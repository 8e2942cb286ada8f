/**
 * The LXD storage provider and its filesystem source, working against a
 * Server. Every batch method loops over its items in request order,
 * appending one result per item, and is proved to produce exactly the
 * results, backend calls and container devices that LxdStorageSpec
 * prescribes.
 */
module LxdStorage {
  import opened Wrappers
  import opened Errors
  import opened FilesystemIds
  import opened VolumeConfig
  import opened Backend
  import opened StorageTypes
  import Spec = LxdStorageSpec

  datatype StorageKind = StorageKindBlock | StorageKindFilesystem

  datatype Scope = ScopeEnviron | ScopeMachine

  /** The provider offers filesystems and nothing else. */
  function Supports(kind: StorageKind): (r: bool)
    ensures r <==> kind == StorageKindFilesystem
  {
    kind.StorageKindFilesystem?
  }

  /** Filesystems can be created and attached while machines run. */
  function Dynamic(): bool {
    true
  }

  /** Filesystems belong to the whole environment, not to one machine. */
  function ProviderScope(): Scope {
    ScopeEnviron
  }

  /** Asking for a volume source is refused: "volumes not supported". */
  function VolumeSource(): (r: Result<(), Error>)
    ensures r.Failure? && r.error.kind == NotSupported
    ensures r.error.message == "volumes not supported"
  {
    Failure(NotSupportedError("volumes"))
  }

  /** The capability answers agree: there is a volume source exactly when block storage is supported. */
  lemma VolumeSourceMatchesSupports()
    ensures VolumeSource().Success? <==> Supports(StorageKindBlock)
    ensures Supports(StorageKindFilesystem) && Dynamic() && ProviderScope() == ScopeEnviron
  {
  }

  /** The environment offers the "lxd" provider exactly when its server supports storage. */
  function StorageProviderTypes(storageSupported: bool): (r: seq<string>)
    ensures storageSupported ==> r == [Spec.ProviderType]
    ensures !storageSupported ==> r == []
  {
    if storageSupported then [Spec.ProviderType] else []
  }

  /** Ensures an LXD pool exists, as Spec.EnsurePool describes. */
  method EnsurePool(server: Server, cfg: Spec.PoolConfig) returns (err: Option<Error>)
    modifies server`log
    ensures var e := Spec.EnsurePool(server.faults, cfg, old(|server.log|));
            err == e.err && server.log == old(server.log) + e.calls
  {
    var createErr := server.CreatePool(cfg.lxdPool, cfg.driver, cfg.attrs);
    if createErr.None? {
      return None;
    }
    var getErr := server.GetStoragePool(cfg.lxdPool);
    if getErr.None? {
      return None;
    }
    return createErr;
  }

  /** The index of the first container with the given name. */
  method LookupContainer(cs: seq<Container>, name: string) returns (r: Option<nat>)
    ensures r == Spec.FindContainer(Snapshot(cs), name)
  {
    var i := 0;
    while i < |cs|
      invariant 0 <= i <= |cs|
      invariant forall j :: 0 <= j < i ==> cs[j].name != name
    {
      if cs[i].name == name {
        return Some(i);
      }
      i := i + 1;
    }
    return None;
  }

  class StorageProvider {
    const server: Server

    constructor (server: Server)
      ensures this.server == server
    {
      this.server := server;
    }

    /** The default pools, lxd-zfs then lxd-btrfs, each offered only if its LXD pool can be ensured. */
    method DefaultPools() returns (pools: seq<PoolDefinition>)
      modifies server`log
      ensures var d := Spec.DefaultPools(server.faults, old(|server.log|));
              pools == d.pools && server.log == old(server.log) + d.calls
    {
      // Only the order of the two ensures matters here, not what each does.
      hide Spec.EnsurePool, Spec.DefaultPoolConfig, Spec.DefaultPools;
      ghost var k0 := |server.log|;
      var zfsCfg := Spec.DefaultPoolConfig(Spec.ZfsPool);
      ghost var zfs := Spec.EnsurePool(server.faults, zfsCfg, k0);
      var zfsErr := EnsurePool(server, zfsCfg);
      var btrfsCfg := Spec.DefaultPoolConfig(Spec.BtrfsPool);
      ghost var btrfs := Spec.EnsurePool(server.faults, btrfsCfg, k0 + |zfs.calls|);
      var btrfsErr := EnsurePool(server, btrfsCfg);
      pools := (if zfsErr.None? then [Spec.ZfsPool] else []) + (if btrfsErr.None? then [Spec.BtrfsPool] else []);
      Spec.DefaultPoolsParts(server.faults, k0, zfs, btrfs);
    }

    /** A filesystem source for the named storage pool, in the model with the given short UUID. */
    method FilesystemSource(modelShort: string, pool: string) returns (source: FilesystemSource)
      ensures fresh(source)
      ensures source.server == server && source.namespace == Spec.Namespace(modelShort) && source.pool == pool
    {
      source := new FilesystemSource(server, modelShort, pool);
    }
  }

  class FilesystemSource {
    const server: Server
    /** The model's resource-name prefix, "juju-<short model UUID>-". */
    const namespace: string
    /** The storage pool the source was created for. */
    const pool: string

    constructor (server: Server, modelShort: string, pool: string)
      ensures this.server == server && namespace == Spec.Namespace(modelShort) && this.pool == pool
    {
      this.server := server;
      namespace := Spec.Namespace(modelShort);
      this.pool := pool;
    }

    // ------------------------------------------------------------ create

    /** Creates one filesystem; st names what Spec.CreateItem prescribes for the current state. */
    method CreateFilesystem(p: FilesystemParams, ghost st: Spec.Step<(), Result<Filesystem, Error>>)
      returns (r: Result<Filesystem, Error>)
      requires st == Spec.CreateItem(server.faults, namespace, pool, p, |server.log|)
      modifies server`log
      ensures r == st.result && server.log == old(server.log) + st.calls
    {
      var cfg := Spec.PoolConfigOf(p.attributes, pool);
      var ensureErr := EnsurePool(server, cfg);
      if ensureErr.Some? {
        return Failure(ensureErr.value);
      }
      var name := Spec.VolumeName(namespace, p.tag);
      var err := server.CreateVolume(cfg.lxdPool, name, CreateConfig(p.size, p.resourceTags, cfg.driver));
      if err.Some? {
        return Failure(Annotate(Spec.CreateVolumeContext(cfg.lxdPool, name), err.value));
      }
      return Success(Filesystem(p.tag, None, FilesystemInfo(FormatFilesystemId(cfg.lxdPool, name), p.size)));
    }

    method CreateFilesystems(args: seq<FilesystemParams>) returns (results: seq<Result<Filesystem, Error>>)
      modifies server`log
      ensures var o := Spec.CreateAll(server.faults, namespace, pool, args, old(|server.log|));
              results == o.results && server.log == old(server.log) + o.calls
    {
      // What one item does is settled by CreateFilesystem; the loop only strings the items together.
      hide Spec.CreateItem;
      ghost var log0, k0, faults := server.log, |server.log|, server.faults;
      ghost var o: Spec.Outcome<(), Result<Filesystem, Error>> := Spec.Outcome((), [], []);
      results := [];
      var i := 0;
      while i < |args|
        invariant 0 <= i <= |args|
        invariant server.faults == faults
        invariant o == Spec.CreatePrefix(faults, namespace, pool, args, i, k0)
        invariant results == o.results && server.log == log0 + o.calls
      {
        hide Spec.CreatePrefix;
        ghost var st := Spec.CreateItem(faults, namespace, pool, args[i], k0 + |o.calls|);
        var r := CreateFilesystem(args[i], st);
        AppendAssoc(log0, o.calls, st.calls);
        Spec.CreatePrefixStep(faults, namespace, pool, args, i, k0, o, st);
        o := Spec.Outcome((), o.results + [st.result], o.calls + st.calls);
        results := results + [r];
        i := i + 1;
      }
    }

    // ------------------------------------------------------------ destroy

    method DestroyFilesystem(id: string) returns (err: Option<Error>)
      modifies server`log
      ensures var st := Spec.DestroyItem(server.faults, id, old(|server.log|));
              err == st.result && server.log == old(server.log) + st.calls
    {
      match ParseFilesystemId(id)
      case Failure(e) =>
        return Some(e);
      case Success((pool, volume)) =>
        err := server.DeleteStoragePoolVolume(pool, CustomVolumeType, volume);
    }

    method DestroyFilesystems(ids: seq<string>) returns (results: seq<Option<Error>>)
      modifies server`log
      ensures var o := Spec.DestroyAll(server.faults, ids, old(|server.log|));
              results == o.results && server.log == old(server.log) + o.calls
    {
      ghost var log0, k0, faults := server.log, |server.log|, server.faults;
      ghost var o: Spec.Outcome<(), Option<Error>> := Spec.Outcome((), [], []);
      results := [];
      var i := 0;
      while i < |ids|
        invariant 0 <= i <= |ids|
        invariant server.faults == faults
        invariant o == Spec.DestroyPrefix(faults, ids, i, k0)
        invariant results == o.results && server.log == log0 + o.calls
      {
        hide Spec.DestroyItem, Spec.DestroyPrefix;
        var r := DestroyFilesystem(ids[i]);
        ghost var st := Spec.DestroyItem(faults, ids[i], k0 + |o.calls|);
        AppendAssoc(log0, o.calls, st.calls);
        Spec.DestroyPrefixStep(faults, ids, i, k0, o, st);
        o := Spec.Outcome((), o.results + [st.result], o.calls + st.calls);
        results := results + [r];
        i := i + 1;
      }
    }

    // ------------------------------------------------------------ release

    method ReleaseFilesystem(id: string) returns (err: Option<Error>)
      modifies server`log
      ensures var st := Spec.ReleaseItem(server.faults, server.volumes, id, old(|server.log|));
              err == st.result && server.log == old(server.log) + st.calls
    {
      match ParseFilesystemId(id)
      case Failure(e) =>
        return Some(e);
      case Success((pool, volume)) =>
        var read := server.GetStoragePoolVolume(pool, CustomVolumeType, volume);
        if read.Failure? {
          return Some(read.error);
        }
        var v := read.value;
        var updateErr := server.UpdateStoragePoolVolume(pool, CustomVolumeType, volume, ReleaseConfig(v.config), v.eTag);
        if updateErr.Some? {
          return Some(Annotate(Spec.ReleaseContext(pool, volume), updateErr.value));
        }
        return None;
    }

    method ReleaseFilesystems(ids: seq<string>) returns (results: seq<Option<Error>>)
      modifies server`log
      ensures var o := Spec.ReleaseAll(server.faults, server.volumes, ids, old(|server.log|));
              results == o.results && server.log == old(server.log) + o.calls
    {
      ghost var log0, k0, faults, volumes := server.log, |server.log|, server.faults, server.volumes;
      ghost var o: Spec.Outcome<(), Option<Error>> := Spec.Outcome((), [], []);
      results := [];
      var i := 0;
      while i < |ids|
        invariant 0 <= i <= |ids|
        invariant server.faults == faults && server.volumes == volumes
        invariant o == Spec.ReleasePrefix(faults, volumes, ids, i, k0)
        invariant results == o.results && server.log == log0 + o.calls
      {
        hide Spec.ReleaseItem, Spec.ReleasePrefix;
        var r := ReleaseFilesystem(ids[i]);
        ghost var st := Spec.ReleaseItem(faults, volumes, ids[i], k0 + |o.calls|);
        AppendAssoc(log0, o.calls, st.calls);
        Spec.ReleasePrefixStep(faults, volumes, ids, i, k0, o, st);
        o := Spec.Outcome((), o.results + [st.result], o.calls + st.calls);
        results := results + [r];
        i := i + 1;
      }
    }

    // ------------------------------------------------------------ import

    method ImportFilesystem(id: string, tags: Config) returns (r: Result<FilesystemInfo, Error>)
      modifies server`log
      ensures var im := Spec.ImportFilesystem(server.faults, server.volumes, id, tags, old(|server.log|));
              r == im.result && server.log == old(server.log) + im.calls
    {
      match ParseFilesystemId(id)
      case Failure(e) =>
        return Failure(e);
      case Success((pool, volume)) =>
        var read := server.GetStoragePoolVolume(pool, CustomVolumeType, volume);
        if read.Failure? {
          return Failure(read.error);
        }
        var v := read.value;
        var size := Spec.RecordedSize(v.config);
        if size.Failure? {
          return Failure(Annotate(Spec.ReadSizeContext(pool, volume), size.error));
        }
        var updateErr := server.UpdateStoragePoolVolume(pool, CustomVolumeType, volume, ImportConfig(v.config, tags), v.eTag);
        if updateErr.Some? {
          return Failure(Annotate(Spec.ImportContext(pool, volume), updateErr.value));
        }
        return Success(FilesystemInfo(id, size.value));
    }

    // ------------------------------------------------------------ attach

    /** Attaches one filesystem; st names what Spec.AttachItem prescribes for the current state. */
    method AttachFilesystem(cs: seq<Container>, a: FilesystemAttachmentParams,
                            ghost st: Spec.Step<seq<ContainerState>, Result<FilesystemAttachment, Error>>)
      returns (r: Result<FilesystemAttachment, Error>)
      requires Distinct(cs)
      requires st == Spec.AttachItem(server.faults, Snapshot(cs), a, |server.log|)
      modifies server`log, cs
      ensures r == st.result && Snapshot(cs) == st.state && server.log == old(server.log) + st.calls
    {
      var ctx := Spec.AttachContext(a);
      var found := LookupContainer(cs, a.instanceId);
      if found.None? {
        return Failure(Annotate(ctx, Spec.InstanceNotFound(a.instanceId)));
      }
      var c := cs[found.value];
      match ParseFilesystemId(a.filesystemId)
      case Failure(e) =>
        return Failure(Annotate(ctx, e));
      case Success((pool, volume)) =>
        ghost var before := Snapshot(cs);
        var addErr := c.AddDisk(a.filesystem.String(), Spec.DiskDevice(pool, volume, a.path, a.readOnly));
        if addErr.Some? {
          return Failure(Annotate(ctx, addErr.value));
        }
        assert Snapshot(cs) == Spec.SetDevices(before, found.value, c.devices);
        var writeErr := server.WriteContainer(c);
        if writeErr.Some? {
          return Failure(Annotate(ctx, writeErr.value));
        }
        return Success(FilesystemAttachment(a.filesystem, a.machine, FilesystemAttachmentInfo(a.path, a.readOnly)));
    }

    /** Attaches each item in turn to the containers cs, as Spec.AttachPrefix prescribes. */
    method AttachEach(cs: seq<Container>, args: seq<FilesystemAttachmentParams>) returns (results: seq<Result<FilesystemAttachment, Error>>)
      requires Distinct(cs)
      modifies server`log, cs
      ensures var o := Spec.AttachPrefix(server.faults, old(Snapshot(cs)), args, |args|, old(|server.log|));
              results == o.results && Snapshot(cs) == o.state && server.log == old(server.log) + o.calls
    {
      // What one item does is settled by AttachFilesystem; the loop only strings the items together.
      hide Spec.AttachItem, Snapshot;
      ghost var s0 := Snapshot(cs);
      ghost var log0, k0, faults := server.log, |server.log|, server.faults;
      ghost var o: Spec.Outcome<seq<ContainerState>, Result<FilesystemAttachment, Error>> := Spec.Outcome(s0, [], []);
      results := [];
      var i := 0;
      while i < |args|
        invariant 0 <= i <= |args|
        invariant server.faults == faults
        invariant o == Spec.AttachPrefix(faults, s0, args, i, k0)
        invariant results == o.results && Snapshot(cs) == o.state && server.log == log0 + o.calls
      {
        hide Spec.AttachPrefix;
        ghost var st := Spec.AttachItem(faults, o.state, args[i], k0 + |o.calls|);
        var item := AttachFilesystem(cs, args[i], st);
        AppendAssoc(log0, o.calls, st.calls);
        Spec.AttachPrefixStep(faults, s0, args, i, k0, o, st);
        o := Spec.Outcome(st.state, o.results + [st.result], o.calls + st.calls);
        results := results + [item];
        i := i + 1;
      }
    }

    method AttachFilesystems(args: seq<FilesystemAttachmentParams>)
      returns (r: Result<seq<Result<FilesystemAttachment, Error>>, Error>)
      requires server.Valid()
      modifies server`log, server.containers
      ensures var o := Spec.AttachAll(server.faults, old(Snapshot(server.containers)), namespace, args, old(|server.log|));
              r == o.results && Snapshot(server.containers) == o.state && server.log == old(server.log) + o.calls
    {
      hide Spec.AttachPrefix, Spec.AttachItem, Snapshot;
      var alive := server.AliveContainers(namespace);
      if alive.Failure? {
        return Failure(alive.error);
      }
      var results := AttachEach(alive.value, args);
      return Success(results);
    }

    // ------------------------------------------------------------ detach

    /** Detaches one filesystem; st names what Spec.DetachItem prescribes for the current state. */
    method DetachFilesystem(cs: seq<Container>, a: FilesystemAttachmentParams,
                            ghost st: Spec.Step<seq<ContainerState>, Option<Error>>)
      returns (err: Option<Error>)
      requires Distinct(cs)
      requires st == Spec.DetachItem(server.faults, Snapshot(cs), a, |server.log|)
      modifies server`log, cs
      ensures err == st.result && Snapshot(cs) == st.state && server.log == old(server.log) + st.calls
    {
      var found := LookupContainer(cs, a.instanceId);
      if found.None? {
        return None;
      }
      var c := cs[found.value];
      ghost var before := Snapshot(cs);
      c.devices := c.devices - {a.filesystem.String()};
      assert Snapshot(cs) == Spec.SetDevices(before, found.value, c.devices);
      var writeErr := server.WriteContainer(c);
      if writeErr.Some? {
        return Some(Annotate(Spec.DetachContext(a), writeErr.value));
      }
      return None;
    }

    /** Detaches each item in turn from the containers cs, as Spec.DetachPrefix prescribes. */
    method DetachEach(cs: seq<Container>, args: seq<FilesystemAttachmentParams>) returns (results: seq<Option<Error>>)
      requires Distinct(cs)
      modifies server`log, cs
      ensures var o := Spec.DetachPrefix(server.faults, old(Snapshot(cs)), args, |args|, old(|server.log|));
              results == o.results && Snapshot(cs) == o.state && server.log == old(server.log) + o.calls
    {
      // What one item does is settled by DetachFilesystem; the loop only strings the items together.
      hide Spec.DetachItem, Snapshot;
      ghost var s0 := Snapshot(cs);
      ghost var log0, k0, faults := server.log, |server.log|, server.faults;
      ghost var o: Spec.Outcome<seq<ContainerState>, Option<Error>> := Spec.Outcome(s0, [], []);
      results := [];
      var i := 0;
      while i < |args|
        invariant 0 <= i <= |args|
        invariant server.faults == faults
        invariant o == Spec.DetachPrefix(faults, s0, args, i, k0)
        invariant results == o.results && Snapshot(cs) == o.state && server.log == log0 + o.calls
      {
        hide Spec.DetachPrefix;
        ghost var st := Spec.DetachItem(faults, o.state, args[i], k0 + |o.calls|);
        var item := DetachFilesystem(cs, args[i], st);
        AppendAssoc(log0, o.calls, st.calls);
        Spec.DetachPrefixStep(faults, s0, args, i, k0, o, st);
        o := Spec.Outcome(st.state, o.results + [st.result], o.calls + st.calls);
        results := results + [item];
        i := i + 1;
      }
    }

    method DetachFilesystems(args: seq<FilesystemAttachmentParams>)
      returns (r: Result<seq<Option<Error>>, Error>)
      requires server.Valid()
      modifies server`log, server.containers
      ensures var o := Spec.DetachAll(server.faults, old(Snapshot(server.containers)), namespace, args, old(|server.log|));
              r == o.results && Snapshot(server.containers) == o.state && server.log == old(server.log) + o.calls
    {
      hide Spec.DetachPrefix, Spec.DetachItem, Snapshot;
      var alive := server.AliveContainers(namespace);
      if alive.Failure? {
        return Failure(alive.error);
      }
      var results := DetachEach(alive.value, args);
      return Success(results);
    }
  }
}
