/**
 * The LXD server as the filesystem source sees it, in the form of the test
 * double its tests run against: a table of custom volumes per pool (each
 * with its config and eTag), the containers it reports alive, and a log of
 * every call made to it. An error can be injected into any call: the k-th
 * call made fails with faults[k] when that is present, and succeeds once
 * the injected errors are used up.
 */
module Backend {
  import opened Wrappers
  import opened Errors
  import opened VolumeConfig

  /** A container device: string-valued settings such as "type", "source", "path". */
  type Device = map<string, string>

  /** A container's devices, keyed by device name. */
  type Devices = map<string, Device>

  /** A custom storage volume: its config and the eTag a read hands out. */
  datatype Volume = Volume(config: Config, eTag: string)

  /** Volumes by pool, then by volume name. */
  type VolumeTable = map<string, map<string, Volume>>

  /** The volume type the filesystem source works with. */
  const CustomVolumeType: string := "custom"

  /** A call made to the server, with its arguments. */
  datatype Call =
    | CreatePool(pool: string, driver: string, poolConfig: Option<Config>)
    | GetStoragePool(pool: string)
    | CreateVolume(pool: string, name: string, config: Config)
    | DeleteStoragePoolVolume(pool: string, volumeType: string, name: string)
    | GetStoragePoolVolume(pool: string, volumeType: string, name: string)
    | UpdateStoragePoolVolume(pool: string, volumeType: string, name: string, config: Config, eTag: string)
    | AliveContainers(prefix: string)
    | WriteContainer(name: string, devices: Devices)

  /** The error injected into the call with index k, if any. */
  function FaultAt(faults: seq<Option<Error>>, k: nat): Option<Error> {
    if k < |faults| then faults[k] else None
  }

  const VolumeWord: string := "volume "
  const InPoolWord: string := " in pool "

  /** How messages name a volume: volume "<name>" in pool "<pool>". */
  function VolumeInPool(name: string, pool: string): string {
    VolumeWord + Quote(name) + InPoolWord + Quote(pool)
  }

  /** The volume a read of (pool, name) finds in the table. */
  function LookupVolume(volumes: VolumeTable, pool: string, name: string): Result<Volume, Error> {
    if pool in volumes && name in volumes[pool] then Success(volumes[pool][name])
    else Failure(NotFoundError(VolumeInPool(name, pool)))
  }

  /** Appending calls to a log in two steps is appending them at once. */
  lemma AppendAssoc(a: seq<Call>, b: seq<Call>, c: seq<Call>)
    ensures (a + b) + c == a + (b + c)
  {
  }

  /** A container's name and devices at one moment. */
  datatype ContainerState = ContainerState(name: string, devices: Devices)

  /** A container the server manages; the filesystem source changes its devices in place. */
  class Container {
    const name: string
    var devices: Devices

    constructor (name: string, devices: Devices)
      ensures this.name == name && this.devices == devices
    {
      this.name := name;
      this.devices := devices;
    }

    /**
     * Adds a disk device under the given device name, unless the container
     * already has a device of that name.
     */
    method AddDisk(deviceName: string, device: Device) returns (err: Option<Error>)
      modifies this
      ensures deviceName in old(devices) ==> err == Some(DeviceExistsError(name, deviceName)) && devices == old(devices)
      ensures deviceName !in old(devices) ==> err == None && devices == old(devices)[deviceName := device]
    {
      if deviceName in devices {
        return Some(DeviceExistsError(name, deviceName));
      }
      devices := devices[deviceName := device];
      err := None;
    }
  }

  const ContainerWord: string := "container "
  const HasDeviceWord: string := " already has a device "

  function DeviceExistsError(container: string, deviceName: string): Error {
    Error(Generic, ContainerWord + Quote(container) + HasDeviceWord + Quote(deviceName))
  }

  /** The names and devices of a list of containers. */
  function Snapshot(cs: seq<Container>): (r: seq<ContainerState>)
    reads cs
    ensures |r| == |cs|
    ensures forall i :: 0 <= i < |cs| ==> r[i] == ContainerState(cs[i].name, cs[i].devices)
  {
    seq(|cs|, i requires 0 <= i < |cs| reads cs => ContainerState(cs[i].name, cs[i].devices))
  }

  /** No container object is listed twice. */
  ghost predicate Distinct(cs: seq<Container>) {
    forall i, j :: 0 <= i < j < |cs| ==> cs[i] != cs[j]
  }

  class Server {
    var volumes: VolumeTable
    var containers: seq<Container>
    var faults: seq<Option<Error>>
    var log: seq<Call>

    ghost predicate Valid()
      reads this
    {
      Distinct(containers)
    }

    constructor ()
      ensures Valid()
      ensures volumes == map[] && containers == [] && faults == [] && log == []
    {
      volumes := map[];
      containers := [];
      faults := [];
      log := [];
    }

    /** The error injected into the next call. */
    function NextFault(): Option<Error>
      reads this
    {
      FaultAt(faults, |log|)
    }

    method CreatePool(pool: string, driver: string, config: Option<Config>) returns (err: Option<Error>)
      modifies this`log
      ensures log == old(log) + [Call.CreatePool(pool, driver, config)]
      ensures err == old(NextFault())
    {
      err := NextFault();
      log := log + [Call.CreatePool(pool, driver, config)];
    }

    method GetStoragePool(pool: string) returns (err: Option<Error>)
      modifies this`log
      ensures log == old(log) + [Call.GetStoragePool(pool)]
      ensures err == old(NextFault())
    {
      err := NextFault();
      log := log + [Call.GetStoragePool(pool)];
    }

    method CreateVolume(pool: string, name: string, config: Config) returns (err: Option<Error>)
      modifies this`log
      ensures log == old(log) + [Call.CreateVolume(pool, name, config)]
      ensures err == old(NextFault())
    {
      err := NextFault();
      log := log + [Call.CreateVolume(pool, name, config)];
    }

    method DeleteStoragePoolVolume(pool: string, volumeType: string, name: string) returns (err: Option<Error>)
      modifies this`log
      ensures log == old(log) + [Call.DeleteStoragePoolVolume(pool, volumeType, name)]
      ensures err == old(NextFault())
    {
      err := NextFault();
      log := log + [Call.DeleteStoragePoolVolume(pool, volumeType, name)];
    }

    /** Reads a volume: the injected error if there is one, otherwise what the table holds. */
    method GetStoragePoolVolume(pool: string, volumeType: string, name: string) returns (r: Result<Volume, Error>)
      modifies this`log
      ensures log == old(log) + [Call.GetStoragePoolVolume(pool, volumeType, name)]
      ensures r == match old(NextFault())
        case Some(e) => Failure(e)
        case None => LookupVolume(volumes, pool, name)
    {
      var fault := NextFault();
      log := log + [Call.GetStoragePoolVolume(pool, volumeType, name)];
      match fault {
        case Some(e) => r := Failure(e);
        case None => r := LookupVolume(volumes, pool, name);
      }
    }

    method UpdateStoragePoolVolume(pool: string, volumeType: string, name: string, config: Config, eTag: string)
      returns (err: Option<Error>)
      modifies this`log
      ensures log == old(log) + [Call.UpdateStoragePoolVolume(pool, volumeType, name, config, eTag)]
      ensures err == old(NextFault())
    {
      err := NextFault();
      log := log + [Call.UpdateStoragePoolVolume(pool, volumeType, name, config, eTag)];
    }

    /** The containers whose names start with the prefix; this double reports all of its containers. */
    method AliveContainers(prefix: string) returns (r: Result<seq<Container>, Error>)
      modifies this`log
      ensures log == old(log) + [Call.AliveContainers(prefix)]
      ensures r == match old(NextFault())
        case Some(e) => Failure(e)
        case None => Success(containers)
    {
      var fault := NextFault();
      log := log + [Call.AliveContainers(prefix)];
      match fault {
        case Some(e) => r := Failure(e);
        case None => r := Success(containers);
      }
    }

    /** Persists a container's current devices. */
    method WriteContainer(c: Container) returns (err: Option<Error>)
      modifies this`log
      ensures log == old(log) + [Call.WriteContainer(c.name, c.devices)]
      ensures err == old(NextFault())
    {
      err := NextFault();
      log := log + [Call.WriteContainer(c.name, c.devices)];
    }
  }
}
