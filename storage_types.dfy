/**
 * The storage entities the LXD filesystem source exchanges with its
 * callers: entity tags, the parameter records of each batch operation and
 * the records it returns.
 */
module StorageTypes {
  import opened Wrappers

  const FilesystemTagPrefix: string := "filesystem-"
  const FilesystemWord: string := "filesystem "
  const MachineWord: string := "machine "

  /** A filesystem's tag, e.g. filesystem "0"; as text "filesystem-0". */
  datatype FilesystemTag = FilesystemTag(id: string) {
    /** The tag's string form, also used as the device name on a container. */
    function String(): string { FilesystemTagPrefix + id }
    /** The form used in messages: "filesystem 0". */
    function Readable(): string { FilesystemWord + id }
  }

  /** A machine's tag, e.g. machine "123". */
  datatype MachineTag = MachineTag(id: string) {
    function Readable(): string { MachineWord + id }
  }

  /** Capacity in mebibytes. */
  type MiB = nat

  /**
   * What a caller asks to be created: the filesystem's tag, its size, the
   * resource tags to record on the volume and the storage pool's attributes
   * (recognised keys: "lxd-pool" and "driver").
   */
  datatype FilesystemParams = FilesystemParams(
    tag: FilesystemTag,
    size: MiB,
    resourceTags: map<string, string>,
    attributes: map<string, string>)

  /** A filesystem's provider ID, "<lxd-pool>:<volume-name>", and its size. */
  datatype FilesystemInfo = FilesystemInfo(filesystemId: string, size: MiB)

  /** A provisioned filesystem; LXD filesystems are never backed by a volume, so volume is None. */
  datatype Filesystem = Filesystem(tag: FilesystemTag, volume: Option<string>, info: FilesystemInfo)

  /** What a caller asks to be attached or detached. */
  datatype FilesystemAttachmentParams = FilesystemAttachmentParams(
    machine: MachineTag,
    instanceId: string,
    readOnly: bool,
    filesystem: FilesystemTag,
    filesystemId: string,
    path: string)

  datatype FilesystemAttachmentInfo = FilesystemAttachmentInfo(path: string, readOnly: bool)

  /** An attachment of a filesystem to a machine. */
  datatype FilesystemAttachment = FilesystemAttachment(
    filesystem: FilesystemTag,
    machine: MachineTag,
    info: FilesystemAttachmentInfo)

  /** A storage pool definition offered to the model: name, provider type and attributes. */
  datatype PoolDefinition = PoolDefinition(name: string, providerType: string, attributes: map<string, string>)
}
