# LXD filesystem storage and GCE zones, modelled in Dafny

This project models two parts of juju.

**The LXD storage provider and its filesystem source.** The provider offers only filesystems. They are dynamic and environment-scoped, and asking it for a volume source fails with "volumes not supported". It offers two default pools, `lxd-zfs` and `lxd-btrfs`. It hands out a filesystem source that works against an LXD server:

- It creates custom volumes named `juju-<model>-filesystem-<n>`. Each volume's LXD pool is ensured first, and a pool that already exists is accepted.
- It destroys and releases volumes named by `<lxd-pool>:<volume>` IDs. Releasing strips the model and controller ownership tags.
- It imports an existing volume by tagging it and reading back its size.
- It attaches and detaches filesystems by adding and removing disk devices on the containers of alive instances.

Every batch operation returns one result per item, in request order. A failing item does not stop the others.

The server is the test double the provider is exercised against. `Backend.Server` holds a volume table, the alive containers, a list of injected errors and a call log. Each call appends itself to the log, and the k-th call fails with the k-th injected error. `LxdStorageSpec` states, as pure functions, what each operation does to one item and what a batch does. The `LxdStorage.FilesystemSource` class carries out the operations with loops. Each of its methods is proved to produce exactly the results, call log and container devices that the specification prescribes. `LxdStorageProperties` proves what the operations promise about those functions: per-item behaviour, whole-batch call and result structure, and each test scenario.

**GCE availability zones.** A zone is built from a name and a status. It is available exactly when its status is `UP`. `zoneName` reduces the qualified zone URL carried by a compute instance, a compute operation or a provider instance to the zone's own name, using Go's `path.Base`, and gives "" for any other value.

Files: `wrappers.dfy`, `errors.dfy`, `decimal.dfy`, `sizes.dfy`, `filesystem_id.dfy`, `storage_types.dfy`, `volume_config.dfy`, `backend.dfy`, `lxd_storage_spec.dfy`, `lxd_storage.dfy`, `lxd_storage_properties.dfy`, `zone.dfy`.

## Model

| member | source | states |
|---|---|---|
| LxdStorage.Supports | provider/lxd/storage_test.go:89-92 | the provider supports a storage kind exactly when it is the filesystem kind |
| LxdStorage.VolumeSource | provider/lxd/storage_test.go:79-83 | asking for a volume source always fails, with a not-supported error reading "volumes not supported" |
| LxdStorage.VolumeSourceMatchesSupports | provider/lxd/storage_test.go:79-100 | a volume source exists exactly when block storage is supported (never); filesystems are supported, dynamic and environment-scoped |
| LxdStorage.StorageProviderTypes | provider/lxd/storage_test.go:48-58 | the environment offers the single provider type "lxd" when its server supports storage, and none otherwise |
| LxdStorage.StorageProvider.FilesystemSource | provider/lxd/storage_test.go:40-46 | a new source on the same server, for the named pool, whose names start with "juju-<model>-" |
| LxdStorageSpec.EnsurePool | provider/lxd/storage_test.go:136-169 | ensuring a pool first creates it; only if that fails does it ask for the pool, and it reports the creation error only when the read fails as well |
| LxdStorage.EnsurePool | provider/lxd/storage_test.go:163-165 | the method makes exactly the calls of Spec.EnsurePool and returns its error |
| LxdStorageSpec.DefaultPools | provider/lxd/storage_test.go:60-77 | lxd-zfs is offered exactly when its LXD pool can be ensured, and lxd-btrfs exactly when its own pool can then be ensured; the calls are those of ensuring zfs followed by those of ensuring btrfs; at most the two default pools are offered, and when both are, lxd-zfs comes first |
| LxdStorage.StorageProvider.DefaultPools | provider/lxd/storage_test.go:60-77 | the method returns the pools and makes the calls of Spec.DefaultPools |
| LxdStorageProperties.DefaultPoolConfigs | provider/lxd/storage_test.go:60-66 | the CreatePool arguments of the two default pools, which the test does not show and this model chooses: lxd-zfs asks for LXD pool juju-zfs with driver zfs and zfs.pool_name juju-lxd; lxd-btrfs asks for juju-btrfs with driver btrfs and no config |
| LxdStorageProperties.DefaultPoolsAllCreated | provider/lxd/storage_test.go:60-66 | when both pool creations succeed, both pools are offered, lxd-zfs first, after exactly two CreatePool calls |
| LxdStorageProperties.DefaultPoolsZfsMissing | provider/lxd/storage_test.go:68-77 | when creating and then reading the zfs pool both fail, only lxd-btrfs is offered, after CreatePool, GetStoragePool, CreatePool |
| LxdStorageSpec.PoolConfigOf | provider/lxd/storage_test.go:111-114 | the LXD pool is the "lxd-pool" attribute and the driver the "driver" attribute (the source's own pool and "dir" when absent); the pool config is exactly the remaining attributes with their values, or nothing when none remain |
| LxdStorage.FilesystemSource.CreateFilesystem | provider/lxd/storage_test.go:102-134 | creating one filesystem returns the result and makes the calls of Spec.CreateItem |
| LxdStorage.FilesystemSource.CreateFilesystems | provider/lxd/storage_test.go:102-169 | the loop returns one result per item, in order, and makes the calls of Spec.CreateAll |
| LxdStorageSpec.CreateAll | provider/lxd/storage_test.go:116-117 | a create batch has one result per requested filesystem |
| LxdStorageProperties.CreateItemNewPool | provider/lxd/storage_test.go:102-134 | with no errors, one item makes CreatePool(pool, driver, config) then CreateVolume(pool, namespace+tag, user tags and size), and reports the tag, the ID "<pool>:<volume>" and the size |
| LxdStorageProperties.CreateItemPoolExists | provider/lxd/storage_test.go:136-169 | when pool creation fails but the pool can be read, the item still succeeds, after CreatePool, GetStoragePool, CreateVolume |
| LxdStorageProperties.CreateItemNoPool | provider/lxd/storage_test.go:136-165 | when the pool can neither be created nor read, the item fails with the creation error and no volume is created |
| LxdStorageProperties.CreatedIdNamesVolume | provider/lxd/storage_test.go:123-130 | the ID a create reports parses back to the pool and volume it created, so destroying that ID deletes exactly that volume |
| LxdStorageProperties.CreatedSizeImports | provider/lxd/storage_test.go:130-133 | the size a create records reads back as the requested size; on the dir driver, which records none, it reads back as 0, which is this model's reading of an absent size |
| LxdStorageProperties.CreateScenarioNames | provider/lxd/storage_test.go:123-132 | the model namespace is "juju-f75cba-", the volume of filesystem 0 is "juju-f75cba-filesystem-0", and 1024 MiB is written "1024MB" |
| LxdStorageProperties.CreateScenario | provider/lxd/storage_test.go:102-169 | the create tests' pool config has no extra attributes; the volume config holds "user.key" plus "size" 1024MB, except on the dir driver, where it holds only the tag |
| LxdStorageProperties.CreatePrefixNoFaults | provider/lxd/storage_test.go:116-128 | with no errors, every result of a create batch is the filesystem created for its own item, in order |
| LxdStorageProperties.CreatePrefixCalls | provider/lxd/storage_test.go:116-133 | with no errors, a create batch makes, for each filesystem in order, exactly its CreatePool and then its CreateVolume call |
| LxdStorageProperties.CreateBatchCalls | provider/lxd/storage_test.go:127-133 | with no errors, a batch of n filesystems makes 2n calls; call 2i is CreatePool of filesystem i's pool, driver and config, and call 2i+1 is CreateVolume of its namespaced volume with the user tags and size |
| LxdStorageProperties.CreateCallsAllAt | provider/lxd/storage_test.go:127-133 | the calls of creating n filesystems number 2n, and filesystem i's pool and volume creations sit at positions 2i and 2i+1 |
| LxdStorageProperties.CreatePrefixItem | provider/lxd/storage_test.go:116-133 | whatever errors are injected, each filesystem's result is what creating it alone gives at its place in the call sequence, so a failing filesystem leaves the others' results alone |
| LxdStorage.FilesystemSource.DestroyFilesystem | provider/lxd/storage_test.go:171-189 | destroying one ID returns the error and makes the calls of Spec.DestroyItem |
| LxdStorage.FilesystemSource.DestroyFilesystems | provider/lxd/storage_test.go:171-189 | the loop returns one result per ID, in order, and makes the calls of Spec.DestroyAll |
| LxdStorageSpec.DestroyAll | provider/lxd/storage_test.go:179-180 | a destroy batch has one result per ID |
| LxdStorageProperties.DestroyPrefixCalls | provider/lxd/storage_test.go:185-188 | destroying IDs deletes the custom volume of each well-formed ID, in order, and makes no call for malformed ones |
| LxdStorageProperties.DestroyPrefixResults | provider/lxd/storage_test.go:181-183 | a malformed ID gives the invalid-ID error; a well-formed one gives exactly the error of its own delete call |
| LxdStorageProperties.DestroyAllContract | provider/lxd/storage_test.go:171-189 | the whole batch: one result per ID, and one delete per well-formed ID |
| LxdStorageProperties.DestroyScenario | provider/lxd/storage_test.go:171-189 | the destroy test: invalid-ID error, success, and the injected error, after two deletes of custom volumes |
| LxdStorage.FilesystemSource.ReleaseFilesystem | provider/lxd/storage_test.go:191-240 | releasing one ID returns the error and makes the calls of Spec.ReleaseItem |
| LxdStorage.FilesystemSource.ReleaseFilesystems | provider/lxd/storage_test.go:191-240 | the loop returns one result per ID, in order, and makes the calls of Spec.ReleaseAll |
| LxdStorageSpec.ReleaseAll | provider/lxd/storage_test.go:219-220 | a release batch has one result per ID |
| LxdStorageProperties.ReleaseItemContract | provider/lxd/storage_test.go:225-238 | releasing a stored volume reads it, then writes back its config without the ownership tags, with the eTag it read; a failing write-back is reported as "removing tags from volume … in pool …: " followed by its cause |
| LxdStorageProperties.ReleasePrefixCalls | provider/lxd/storage_test.go:219-238 | with no errors, releasing stored volumes reads and writes back each well-formed ID's volume, in input order, and makes no other call |
| LxdStorageProperties.ReleasePrefixItem | provider/lxd/storage_test.go:219-238 | whatever errors are injected, each ID's result is what releasing it alone gives at its place in the call sequence, so a failing ID leaves the others' results alone |
| LxdStorageProperties.ReleasePrefixResults | provider/lxd/storage_test.go:219-238 | with no errors, every well-formed ID succeeds and each malformed one gives the invalid-ID error |
| LxdStorageProperties.ReleaseScenarioOutcome | provider/lxd/storage_test.go:191-240 | the release test's batch: invalid-ID error, success, then the annotated injected error, after reading and writing back both volumes |
| LxdStorageProperties.ReleaseScenario | provider/lxd/storage_test.go:191-240 | the release test: invalid-ID error, success, and "removing tags from volume … in pool …: " followed by the injected error, after read, write, read, write |
| LxdStorageProperties.ReleaseScenarioConfigs | provider/lxd/storage_test.go:225-232 | the release test's configs: an unrelated key survives, and both ownership tags are removed |
| VolumeConfig.ReleaseConfigContents | provider/lxd/storage_test.go:193-232 | a released config holds exactly the keys of the old one other than user.juju-model-uuid and user.juju-controller-uuid, with their old values |
| VolumeConfig.ReleaseIdempotent | provider/lxd/storage_test.go:225-232 | releasing twice is the same as releasing once |
| VolumeConfig.ReleaseKeepsSize | provider/lxd/storage_test.go:225-232 | release never touches the size key |
| VolumeConfig.ReleaseUserTags | provider/lxd/storage_test.go:193-211 | releasing the tags a volume was given leaves the user tags other than the two ownership tags |
| VolumeConfig.ReleaseCreated | provider/lxd/storage_test.go:130-133 | releasing a created volume's config removes exactly the ownership tags it was given |
| VolumeConfig.UserTagsContents | provider/lxd/storage_test.go:130-131 | every resource tag is stored as "user.<key>" with its value, and nothing else is |
| VolumeConfig.CreateConfigContents | provider/lxd/storage_test.go:130-133 | a created volume's config holds the user tags, plus "size" as "<n>MB" exactly when the driver is not dir |
| VolumeConfig.CreatedSizeReadsBack | provider/lxd/storage_test.go:130-133 | on a driver other than dir, the recorded size parses back to the requested size |
| VolumeConfig.ImportConfigContents | provider/lxd/storage_test.go:401-406 | the import update adds every tag as "user.<key>" and keeps every other key of the existing config |
| VolumeConfig.UserKeyInverse | provider/lxd/storage_test.go:131 | a user key starts with "user." and the original key follows it |
| LxdStorage.FilesystemSource.ImportFilesystem | provider/lxd/storage_test.go:375-411 | importing returns the result and makes the calls of Spec.ImportFilesystem |
| LxdStorageProperties.ImportMalformed | provider/lxd/storage_test.go:181 | importing an ID without ':' fails with the invalid-ID error the destroy test shows, before any call; no malformed import is tested |
| LxdStorageProperties.ImportStored | provider/lxd/storage_test.go:375-411 | importing a stored volume reads it, writes its config plus the user tags back with its eTag, and reports the ID and the recorded size, or the write-back's error in the tagging context |
| LxdStorageProperties.ImportScenario | provider/lxd/storage_test.go:375-411 | the import test: a volume sized "10GB" imports as 10×1024 MiB, and the update config is size plus "user.<key>" |
| Sizes.ParseSizeGB | provider/lxd/storage_test.go:385-398 | "<n>GB" parses to n×1024 MiB |
| Sizes.ParseFormatSize | provider/lxd/storage_test.go:132 | the size text a create writes parses back to the same MiB count |
| Sizes.ParseSizeOf | provider/lxd/storage_test.go:385-398 | "<n><unit>" parses to n times the unit's power of 1024 (MiB when there is no unit); the test uses only "10GB", and the other units are this model's reading of the size format |
| Sizes.ParseSizeNeedsDigits | provider/lxd/storage_test.go:385 | a size text that does not start with a digit is refused |
| Decimal.ParseNatToString | provider/lxd/storage_test.go:132 | decimal rendering of a number parses back to that number |
| FilesystemIds.ParseFilesystemIdCases | provider/lxd/storage_test.go:181 | an ID parses exactly when it has a ':'; it splits at the first ':', and otherwise fails with `invalid filesystem ID "<id>"; expected ID in format <lxd-pool>:<volume-name>` |
| FilesystemIds.ParseFormat | provider/lxd/storage_test.go:123 | formatting a pool (without ':') and a volume as an ID, then parsing it, gives both back |
| FilesystemIds.FormatParse | provider/lxd/storage_test.go:176-177 | a parsable ID is re-formed exactly from its two parts |
| Errors.Annotate | provider/lxd/storage_test.go:223 | an annotated error keeps its cause's kind, and its message is the context, ": ", then the cause's message |
| Backend.Server.CreatePool | provider/lxd/storage_test.go:129 | the double logs CreatePool with pool, driver and config, and returns the next injected error |
| Backend.Server.GetStoragePool | provider/lxd/storage_test.go:165 | logs GetStoragePool and returns the next injected error |
| Backend.Server.CreateVolume | provider/lxd/storage_test.go:130 | logs CreateVolume with pool, name and config, and returns the next injected error |
| Backend.Server.DeleteStoragePoolVolume | provider/lxd/storage_test.go:186-187 | logs the delete and returns the next injected error |
| Backend.Server.GetStoragePoolVolume | provider/lxd/storage_test.go:235 | logs the read, and returns the volume from the table, a not-found error, or the injected error |
| Backend.Server.UpdateStoragePoolVolume | provider/lxd/storage_test.go:236 | logs the update with its config and eTag, and returns the next injected error |
| Backend.Server.AliveContainers | provider/lxd/storage_test.go:307-309 | logs AliveContainers with the model's prefix and returns the containers, or the injected error |
| Backend.Server.WriteContainer | provider/lxd/storage_test.go:311-312 | logs the container's name and devices as written, and returns the next injected error |
| Backend.Container.AddDisk | provider/lxd/storage_test.go:244-252 | a new device name is added to the container's map; a name already there is refused with the device-exists error, and the map is left as it was |
| LxdStorage.LookupContainer | provider/lxd/storage_test.go:301-303 | the loop finds the first container with the instance's name, as Spec.FindContainer specifies |
| LxdStorageSpec.FindContainer | provider/lxd/storage_test.go:301-303 | finds the first container with the name, and finds none only when no container has it, which decides the test's "instance "inst-42" not found" |
| LxdStorageSpec.AttachItemFacts | provider/lxd/storage_test.go:242-314 | attaching never removes or changes a device; it writes at most one container, and writes exactly when it succeeds, unless the write itself fails |
| LxdStorageSpec.AttachAll | provider/lxd/storage_test.go:307-309 | an attach batch first lists the alive containers; a failing listing fails the whole batch, otherwise there is one result per item |
| LxdStorage.FilesystemSource.AttachFilesystem | provider/lxd/storage_test.go:242-314 | attaching one filesystem returns the result, leaves the containers' devices and makes the calls that Spec.AttachItem prescribes |
| LxdStorage.FilesystemSource.AttachFilesystems | provider/lxd/storage_test.go:242-314 | the loop updates the containers' devices in place, and makes the calls and returns the results of Spec.AttachAll |
| LxdStorage.FilesystemSource.AttachEach | provider/lxd/storage_test.go:307-313 | the per-item loop updates the containers in place and returns the results and makes the calls of Spec.AttachPrefix over all items |
| LxdStorageProperties.AttachUnknownInstance | provider/lxd/storage_test.go:301-303 | an instance that is not alive gives an annotated not-found error, "instance "<id>" not found", and changes nothing |
| LxdStorageProperties.AttachExistingDevice | provider/lxd/storage_test.go:297-300 | a device of that name already on the container gives an annotated error naming the container and the device, and changes nothing |
| LxdStorageProperties.AttachNewDevice | provider/lxd/storage_test.go:244-252 | a new device is added under the filesystem tag's name, with the fields of the test's fixture device (type disk, source, pool, path, readonly), whose exact content the test does not check and this model chooses; the container is written once, and the attachment echoes the path and read-only flag |
| LxdStorageProperties.AttachPrefixKeeps | provider/lxd/storage_test.go:242-314 | attaching any number of items never removes or changes a device a container already had |
| LxdStorageProperties.AttachPrefixWrites | provider/lxd/storage_test.go:307-313 | every call an attach batch makes after listing the containers writes a container |
| LxdStorageProperties.AttachPrefixCount | provider/lxd/storage_test.go:307-313 | with no errors, an attach batch writes exactly once per item that succeeded |
| LxdStorageProperties.AttachAllCalls | provider/lxd/storage_test.go:307-313 | AliveContainers comes first and only once, and every other call writes a container; with no errors there is one result per item and one write per success |
| LxdStorageProperties.AttachScenarioFirstItem | provider/lxd/storage_test.go:242-296 | the attach test's first item adds the disk device beside the existing one and writes the container once |
| LxdStorageProperties.AttachScenario | provider/lxd/storage_test.go:242-314 | the attach test: success, device conflict, instance not found, and the calls AliveContainers then one WriteContainer with the new disk added |
| LxdStorageProperties.AttachThenDetach | provider/lxd/storage_test.go:242-373 | attaching a new device and then detaching the same filesystem gives back the containers as they were |
| LxdStorageSpec.DetachItemFacts | provider/lxd/storage_test.go:316-373 | detaching removes the tag's device from the instance's container and from no other; it writes that container once, by name, with its remaining devices; an unknown instance succeeds with no call; and it fails only on an injected error |
| LxdStorageSpec.DetachAll | provider/lxd/storage_test.go:363-366 | a detach batch first lists the alive containers; a failing listing fails the whole batch, otherwise there is one result per item |
| LxdStorage.FilesystemSource.DetachFilesystem | provider/lxd/storage_test.go:316-373 | detaching one filesystem returns the error, leaves the containers' devices and makes the calls that Spec.DetachItem prescribes |
| LxdStorage.FilesystemSource.DetachFilesystems | provider/lxd/storage_test.go:316-373 | the loop updates the containers' devices in place, and makes the calls and returns the results of Spec.DetachAll |
| LxdStorage.FilesystemSource.DetachEach | provider/lxd/storage_test.go:363-372 | the per-item loop updates the containers in place and returns the results and makes the calls of Spec.DetachPrefix over all items |
| LxdStorageProperties.DetachPrefixDevices | provider/lxd/storage_test.go:316-373 | after detaching, each container holds exactly its old devices less those of the items aimed at it |
| LxdStorageProperties.DetachPrefixCalls | provider/lxd/storage_test.go:363-372 | detaching writes one container per item whose instance is alive, and makes no other call |
| LxdStorageProperties.DetachPrefixNoFaults | provider/lxd/storage_test.go:355-359 | with no errors, no detach item reports an error, even for an unknown instance or a missing device |
| LxdStorageProperties.DetachScenario | provider/lxd/storage_test.go:316-373 | the detach test: three successes, and AliveContainers then two writes of the container, which ends with no devices |
| Zone.NewZone | provider/gce/google/zone.go:20-25 | a zone built from a name and a status reports that name and that status |
| Zone.NewZoneRoundTrip | provider/gce/google/zone.go:20-44 | the getters give back what the zone was built with, and a zone is available exactly when its status is "UP" |
| Zone.ZoneRebuilt | provider/gce/google/zone.go:29-38 | every zone is the one built from its own name and status |
| Zone.PathBase | provider/gce/google/zone.go:55 | path.Base is never empty, and is "/", "." or a name without '/' |
| Zone.PathBaseOfName | provider/gce/google/zone.go:55-59 | a non-empty name without '/' is its own base |
| Zone.PathBaseOfQualified | provider/gce/google/zone.go:46-59 | the base of "<prefix>/<zone>" is the zone's name |
| Zone.PathBaseTrailingSlash | provider/gce/google/zone.go:55 | a trailing '/' does not change the base of a non-empty path |
| Zone.PathBaseIdempotent | provider/gce/google/zone.go:55 | taking the base of a base changes nothing |
| Zone.ZoneName | provider/gce/google/zone.go:50-63 | the empty name exactly for an unsupported value; otherwise the base of the zone URL or of the summary's zone name |
| Zone.ZoneNameOfQualified | provider/gce/google/zone.go:46-59 | for each of the three carriers, the zone name of a qualified zone URL is the unqualified zone name, and an unqualified name is kept |

## Left out

- The LXD provider's implementation file (provider/lxd/storage.go) is not part of this model. The behaviour follows its test, storage_test.go. Details the test does not pin down are choices of this model: "dir" as the driver and the source's own pool as the LXD pool when the attributes name none, and the wording of the annotations of untested errors ("creating …", "tagging …", "reading size of …", "detaching …").
- The test does not say whether a size of 0 is written. The model writes "size" exactly when the driver is not dir, as storage_test.go:136-169 requires for dir.
- LxdStorageSpec.DiskDevice: the device written on attach holds the keys type, source, pool, path and readonly, with "readonly" set to "false" when the flag is off. The test does not check the written device (storage_test.go:304-305); this content follows its fixture device at storage_test.go:244-252 and is a choice of this model.
- LxdStorageSpec.RecordedSize: a volume whose config has no "size" entry imports with size 0. No test covers an absent size; this is a choice of this model.
- LxdStorageSpec.ImportFilesystem: the size is read before the tagging write-back, so a size that does not parse fails the import without an update. The test covers only a readable size; the order is a choice of this model.
- LxdStorageSpec.EnsurePool: any error from GetStoragePool is read as "the pool is absent", and the creation error is returned. The test injects only a not-found error there (storage_test.go:71); other read errors are treated alike by choice.
- LxdStorageSpec.DetachItem: the filesystem ID is never parsed on detach; the device is found by the filesystem tag's name alone, so LxdStorageProperties.DetachScenario holds for any IDs. The test passes well-formed IDs and does not say whether a malformed one is refused.
- LxdStorageProperties.ImportMalformed: no test imports a malformed ID. The model gives it the invalid-ID error of destroy (storage_test.go:181) before any call, as destroy and release do.
- Errors.Quote: Go's %q escaping of quotes, backslashes and non-printable characters is not modelled; the messages that quote an ID, pool, volume, instance or device name (invalid filesystem ID, volume in pool, instance not found, device exists) match the program's only for names without such characters.
- Context cancellation (the call context passed to every operation) and the real LXD client are not modelled. The server is the test double, whose injected errors stand for any failure.
- The derivation of the short model UUID ("f75cba") is not modelled; the namespace is built from it as a parameter.
- `Backend.Server.AliveContainers` returns every container the double holds. It does not filter by the model prefix, just as the test double does not.
- Sizes.ParseSize: sizes with fractions ("1.5GB") and their round-up to whole MiB are not modelled, and the result is an unbounded nat rather than a 64-bit unsigned integer, so overflow is not modelled; whole numbers with a unit are accepted.
- The size units other than "GB" (none, M, G, T, P, E, Z, Y, with an optional "B" or "iB") are not in the test; their powers of 1024 are this model's reading of the size format.
- The LXD pool names, drivers and configs of the two default pools (juju-zfs with driver zfs and zfs.pool_name juju-lxd; juju-btrfs with driver btrfs) are not in the test, which checks only the pool names lxd-zfs and lxd-btrfs and the call names. They are choices of this model.
- Descriptor-like parts of the filesystem result (the empty volume tag) are fields left at their zero value.
- The per-item methods take the item's specification as a ghost parameter, and the batch loops keep the item functions' bodies hidden. This is a proof device and has no runtime counterpart.
- The compute types `compute.Instance`, `compute.Operation`, `compute.Zone` and the provider's `Instance` are reduced to the single string field read from each. A nil pointer, on which the Go code would panic, is not modelled.
- `StatusUp` is defined in a file that is not part of this model; its value "UP" is the one GCE documents.
