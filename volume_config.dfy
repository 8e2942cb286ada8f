/**
 * The config map of an LXD custom storage volume as the filesystem source
 * writes it: resource tags live under the "user." namespace, the size under
 * "size". Computing the config for create, release and import.
 */
module VolumeConfig {
  import opened Wrappers
  import opened Sizes

  type Config = map<string, string>

  const UserPrefix: string := "user."
  const SizeKey: string := "size"

  /** The LXD storage driver that rejects a "size" entry. */
  const DirDriver: string := "dir"

  /** The ownership tags: the model and the controller a volume belongs to. */
  const ModelTag: string := "juju-model-uuid"
  const ControllerTag: string := "juju-controller-uuid"

  function UserKey(k: string): string {
    UserPrefix + k
  }

  predicate IsUserKey(key: string) {
    |key| >= |UserPrefix| && key[..|UserPrefix|] == UserPrefix
  }

  lemma UserKeyInverse(k: string)
    ensures IsUserKey(UserKey(k)) && UserKey(k)[|UserPrefix|..] == k
  {
  }

  /** Resource tags renamed into the "user." namespace, values unchanged. */
  function UserTags(tags: Config): Config {
    forall a, b | UserKey(a) == UserKey(b) ensures a == b {
      UserKeyInverse(a);
      UserKeyInverse(b);
    }
    map k | k in tags :: UserKey(k) := tags[k]
  }

  /** The config of a new volume. */
  function CreateConfig(size: nat, tags: Config, driver: string): Config {
    var c := UserTags(tags);
    if driver == DirDriver then c else c[SizeKey := FormatSizeMB(size)]
  }

  /** The config a released volume keeps. */
  function ReleaseConfig(config: Config): Config {
    config - {UserKey(ModelTag), UserKey(ControllerTag)}
  }

  /** The config an imported volume gets. */
  function ImportConfig(config: Config, tags: Config): Config {
    config + UserTags(tags)
  }

  /** Every tag k appears as "user.k" with its value, and no other key does. */
  lemma UserTagsContents(tags: Config)
    ensures forall k :: k in tags ==> UserKey(k) in UserTags(tags) && UserTags(tags)[UserKey(k)] == tags[k]
    ensures forall key :: key in UserTags(tags) ==> exists k :: k in tags && key == UserKey(k)
  {
    forall a, b | UserKey(a) == UserKey(b) ensures a == b {
      UserKeyInverse(a);
      UserKeyInverse(b);
    }
  }

  /**
   * A new volume's config holds every resource tag k as "user.k", holds
   * "size" = "<size>MB" exactly when the pool's driver is not "dir", and
   * holds nothing else.
   */
  lemma CreateConfigContents(size: nat, tags: Config, driver: string)
    ensures SizeKey in CreateConfig(size, tags, driver) <==> driver != DirDriver
    ensures driver != DirDriver ==> CreateConfig(size, tags, driver)[SizeKey] == FormatSizeMB(size)
    ensures forall k :: k in tags ==> UserKey(k) in CreateConfig(size, tags, driver) && CreateConfig(size, tags, driver)[UserKey(k)] == tags[k]
    ensures forall key :: key in CreateConfig(size, tags, driver) && key != SizeKey ==> exists k :: k in tags && key == UserKey(k)
  {
    UserTagsContents(tags);
    forall k ensures UserKey(k) != SizeKey {
      UserKeyInverse(k);
    }
  }

  /** Release removes exactly the two ownership tags and keeps every other entry, "user." or not, unchanged. */
  lemma ReleaseConfigContents(config: Config)
    ensures forall key :: key in ReleaseConfig(config) <==> key in config && key != UserKey(ModelTag) && key != UserKey(ControllerTag)
    ensures forall key :: key in ReleaseConfig(config) ==> ReleaseConfig(config)[key] == config[key]
  {
  }

  /**
   * Import sets every supplied tag k as "user.k", keeps every existing entry
   * that no tag overrides, and adds nothing else.
   */
  lemma ImportConfigContents(config: Config, tags: Config)
    ensures forall k :: k in tags ==> UserKey(k) in ImportConfig(config, tags) && ImportConfig(config, tags)[UserKey(k)] == tags[k]
    ensures forall key :: key in config && (forall k :: k in tags ==> UserKey(k) != key) ==> key in ImportConfig(config, tags) && ImportConfig(config, tags)[key] == config[key]
    ensures forall key :: key in ImportConfig(config, tags) ==> key in config || exists k :: k in tags && key == UserKey(k)
  {
    UserTagsContents(tags);
  }

  /** The size a created volume records is the size an import reads back. */
  lemma CreatedSizeReadsBack(size: nat, tags: Config, driver: string)
    requires driver != DirDriver
    ensures SizeKey in CreateConfig(size, tags, driver)
    ensures ParseSize(CreateConfig(size, tags, driver)[SizeKey]) == Success(size)
  {
    CreateConfigContents(size, tags, driver);
    ParseFormatSize(size);
  }

  /** Dropping the ownership keys from namespaced tags is namespacing the tags without the ownership tags. */
  lemma ReleaseUserTags(tags: Config)
    ensures ReleaseConfig(UserTags(tags)) == UserTags(tags - {ModelTag, ControllerTag})
  {
    var owned := {ModelTag, ControllerTag};
    var lhs := ReleaseConfig(UserTags(tags));
    var rhs := UserTags(tags - owned);
    UserTagsContents(tags);
    UserTagsContents(tags - owned);
    assert lhs.Keys == rhs.Keys by {
      forall key | key in lhs ensures key in rhs {
        var k :| k in tags && key == UserKey(k);
        assert k !in owned;
      }
      forall key | key in rhs ensures key in lhs {
        var k :| k in tags - owned && key == UserKey(k);
        UserKeyInverse(k);
        UserKeyInverse(ModelTag);
        UserKeyInverse(ControllerTag);
      }
    }
  }

  /** Release never touches the "size" entry. */
  lemma ReleaseKeepsSize(config: Config, size: string)
    ensures ReleaseConfig(config[SizeKey := size]) == ReleaseConfig(config)[SizeKey := size]
  {
    UserKeyInverse(ModelTag);
    UserKeyInverse(ControllerTag);
    assert SizeKey != UserKey(ModelTag) && SizeKey != UserKey(ControllerTag);
  }

  /** Releasing a created volume leaves what creating it without the ownership tags would have written. */
  lemma ReleaseCreated(size: nat, tags: Config, driver: string)
    ensures ReleaseConfig(CreateConfig(size, tags, driver))
         == CreateConfig(size, tags - {ModelTag, ControllerTag}, driver)
  {
    ReleaseUserTags(tags);
    if driver != DirDriver {
      ReleaseKeepsSize(UserTags(tags), FormatSizeMB(size));
    }
  }

  /** Release strips ownership once and for all: releasing again changes nothing. */
  lemma ReleaseIdempotent(config: Config)
    ensures ReleaseConfig(ReleaseConfig(config)) == ReleaseConfig(config)
  {
  }
}
