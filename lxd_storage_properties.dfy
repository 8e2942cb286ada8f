/**
 * What the LXD filesystem source promises its callers, proved about the
 * operations of LxdStorageSpec: how batch results line up with their
 * items, which backend calls each item makes and in what order, what the
 * volume configs and container devices become, and the outcomes of the
 * scenarios the source's own tests pin down.
 */
module LxdStorageProperties {
  import opened Wrappers
  import opened Errors
  import opened FilesystemIds
  import opened Decimal
  import opened Sizes
  import opened VolumeConfig
  import opened Backend
  import opened StorageTypes
  import opened LxdStorageSpec

  /** No call fails: the backend double without injected errors. */
  predicate NoFaults(faults: seq<Option<Error>>) {
    forall i :: 0 <= i < |faults| ==> faults[i].None?
  }

  lemma NoFaultAt(faults: seq<Option<Error>>, k: nat)
    requires NoFaults(faults)
    ensures FaultAt(faults, k) == None
  {
  }

  // ---------------------------------------------------------------- destroy

  /** The pool and volume names of the well-formed IDs, in order; malformed IDs are skipped. */
  function WellFormed(ids: seq<string>): (r: seq<(string, string)>)
    ensures |r| <= |ids|
    decreases |ids|
  {
    if ids == [] then []
    else
      var rest := WellFormed(ids[..|ids| - 1]);
      match ParseFilesystemId(ids[|ids| - 1])
      case Failure(_) => rest
      case Success(parts) => rest + [parts]
  }

  /** The delete call for one volume. */
  function DeleteCall(parts: (string, string)): Call {
    Call.DeleteStoragePoolVolume(parts.0, CustomVolumeType, parts.1)
  }

  /** One more ID adds its parts to the well-formed ones exactly when it has a ':'. */
  lemma WellFormedStep(ids: seq<string>, n: nat)
    requires 0 < n <= |ids|
    ensures ParseFilesystemId(ids[n - 1]).Success? <==> ':' in ids[n - 1]
    ensures WellFormed(ids[..n]) == WellFormed(ids[..n - 1]) + if ':' in ids[n - 1] then [ParseFilesystemId(ids[n - 1]).value] else []
  {
    assert ids[..n][..n - 1] == ids[..n - 1];
    ParseFilesystemIdCases(ids[n - 1]);
  }

  /** Destroying one ID: a malformed one fails alone with no call; a well-formed one is one delete, whose error is the result. */
  lemma DestroyItemFacts(faults: seq<Option<Error>>, id: string, k: nat)
    ensures var st := DestroyItem(faults, id, k);
            (ParseFilesystemId(id).Success? <==> ':' in id) &&
            (':' in id ==> st.result == FaultAt(faults, k) && st.calls == [DeleteCall(ParseFilesystemId(id).value)]) &&
            (':' !in id ==> st == Step((), Some(InvalidIdError(id)), []))
  {
    ParseFilesystemIdCases(id);
  }

  /**
   * Destroying the first n IDs deletes the volume of each well-formed one
   * exactly once, in input order, and calls nothing else.
   */
  lemma {:induction false} DestroyPrefixCalls(faults: seq<Option<Error>>, ids: seq<string>, n: nat, k: nat)
    requires n <= |ids|
    ensures var calls := DestroyPrefix(faults, ids, n, k).calls;
            |calls| == |WellFormed(ids[..n])| &&
            forall j :: 0 <= j < |calls| ==> calls[j] == DeleteCall(WellFormed(ids[..n])[j])
  {
    if n > 0 {
      hide DestroyItem, DestroyPrefix, WellFormed, ParseFilesystemId;
      DestroyPrefixCalls(faults, ids, n - 1, k);
      var prev := DestroyPrefix(faults, ids, n - 1, k);
      var st := DestroyItem(faults, ids[n - 1], k + |prev.calls|);
      DestroyPrefixStep(faults, ids, n - 1, k, prev, st);
      DestroyItemFacts(faults, ids[n - 1], k + |prev.calls|);
      WellFormedStep(ids, n);
    }
  }

  /**
   * Item i's result: the "invalid filesystem ID" error when the ID has no
   * ':', and otherwise exactly the error (or success) of its own delete
   * call, which is the call made after the deletes of the well-formed IDs
   * before it.
   */
  function DestroyResultAt(faults: seq<Option<Error>>, ids: seq<string>, k: nat, i: nat): Option<Error>
    requires i < |ids|
  {
    if ':' in ids[i] then FaultAt(faults, k + |WellFormed(ids[..i])|) else Some(InvalidIdError(ids[i]))
  }

  /** Each item's result is DestroyResultAt: what happened to earlier items does not stop item i. */
  lemma {:induction false} DestroyPrefixResults(faults: seq<Option<Error>>, ids: seq<string>, n: nat, k: nat)
    requires n <= |ids|
    ensures var results := DestroyPrefix(faults, ids, n, k).results;
            forall i :: 0 <= i < n ==> results[i] == DestroyResultAt(faults, ids, k, i)
  {
    if n > 0 {
      assert DestroyResultAt(faults, ids, k, n - 1)
          == if ':' in ids[n - 1] then FaultAt(faults, k + |WellFormed(ids[..n - 1])|) else Some(InvalidIdError(ids[n - 1]));
      hide DestroyItem, DestroyPrefix, WellFormed, ParseFilesystemId, DestroyResultAt;
      var prev := DestroyPrefix(faults, ids, n - 1, k);
      var st := DestroyItem(faults, ids[n - 1], k + |prev.calls|);
      DestroyPrefixStep(faults, ids, n - 1, k, prev, st);
      DestroyPrefixResults(faults, ids, n - 1, k);
      DestroyPrefixCalls(faults, ids, n - 1, k);
      DestroyItemFacts(faults, ids[n - 1], k + |prev.calls|);
      forall i | 0 <= i < n
        ensures (prev.results + [st.result])[i] == DestroyResultAt(faults, ids, k, i)
      {
        if i < n - 1 {
          assert (prev.results + [st.result])[i] == prev.results[i];
        }
      }
    }
  }

  /**
   * A destroy batch: one result per ID, index-aligned; a delete per
   * well-formed ID in order; an ID without ':' fails alone and makes no call.
   */
  lemma DestroyAllContract(faults: seq<Option<Error>>, ids: seq<string>, k: nat)
    ensures var o := DestroyAll(faults, ids, k);
            |o.results| == |ids| &&
            |o.calls| == |WellFormed(ids)| &&
            (forall j :: 0 <= j < |o.calls| ==> o.calls[j] == DeleteCall(WellFormed(ids)[j])) &&
            forall i :: 0 <= i < |ids| ==>
              o.results[i] == if ':' in ids[i] then FaultAt(faults, k + |WellFormed(ids[..i])|) else Some(InvalidIdError(ids[i]))
  {
    DestroyPrefixCalls(faults, ids, |ids|, k);
    DestroyPrefixResults(faults, ids, |ids|, k);
    assert ids[..|ids|] == ids;
  }

  /**
   * The destroy scenario of the tests, for any names of its shape: a
   * malformed ID and two well-formed ones, the second delete failing. The
   * malformed ID fails with the "invalid filesystem ID" error and makes no
   * call; the two deletes are made in order and only the second item
   * carries the injected error.
   */
  lemma DestroyScenario(bad: string, pool0: string, vol0: string, pool1: string, vol1: string, boom: Error)
    requires ':' !in bad && ':' !in pool0 && ':' !in pool1
    ensures var o := DestroyAll([None, Some(boom)], [bad, FormatFilesystemId(pool0, vol0), FormatFilesystemId(pool1, vol1)], 0);
            o.results == [Some(InvalidIdError(bad)), None, Some(boom)] &&
            o.calls == [Call.DeleteStoragePoolVolume(pool0, CustomVolumeType, vol0),
                        Call.DeleteStoragePoolVolume(pool1, CustomVolumeType, vol1)]
  {
    var ids := [bad, FormatFilesystemId(pool0, vol0), FormatFilesystemId(pool1, vol1)];
    var faults := [None, Some(boom)];
    ParseFilesystemIdCases(bad);
    ParseFormat(pool0, vol0);
    ParseFormat(pool1, vol1);
    assert DestroyPrefix(faults, ids, 0, 0) == Outcome((), [], []);
    var o1 := DestroyPrefix(faults, ids, 1, 0);
    assert o1.results == [Some(InvalidIdError(bad))] && o1.calls == [];
    var o2 := DestroyPrefix(faults, ids, 2, 0);
    assert o2.results == o1.results + [None];
    assert o2.calls == [Call.DeleteStoragePoolVolume(pool0, CustomVolumeType, vol0)];
  }

  // ---------------------------------------------------------------- release

  /** Every well-formed ID names a volume the table holds. */
  predicate AllStored(volumes: VolumeTable, ids: seq<string>) {
    forall i :: 0 <= i < |ids| && ParseFilesystemId(ids[i]).Success? ==>
      var parts := ParseFilesystemId(ids[i]).value;
      LookupVolume(volumes, parts.0, parts.1).Success?
  }

  /** The read and the write-back that release makes for one volume. */
  function ReleaseCalls(volumes: VolumeTable, parts: (string, string)): seq<Call>
    requires LookupVolume(volumes, parts.0, parts.1).Success?
  {
    var v := LookupVolume(volumes, parts.0, parts.1).value;
    [Call.GetStoragePoolVolume(parts.0, CustomVolumeType, parts.1),
     Call.UpdateStoragePoolVolume(parts.0, CustomVolumeType, parts.1, ReleaseConfig(v.config), v.eTag)]
  }

  /** The table holds every one of these volumes. */
  predicate Stored(volumes: VolumeTable, parts: seq<(string, string)>) {
    forall j :: 0 <= j < |parts| ==> LookupVolume(volumes, parts[j].0, parts[j].1).Success?
  }

  /** The calls of releasing a sequence of stored volumes, one after another. */
  function ReleaseCallsAll(volumes: VolumeTable, parts: seq<(string, string)>): seq<Call>
    requires Stored(volumes, parts)
    decreases |parts|
  {
    if parts == [] then []
    else ReleaseCallsAll(volumes, parts[..|parts| - 1]) + ReleaseCalls(volumes, parts[|parts| - 1])
  }

  /**
   * Whatever errors are injected, the result of ID i of a release batch is
   * what releasing that ID alone gives, starting at the call after those of
   * the earlier IDs: a failing ID does not change the results of the others.
   */
  lemma {:induction false} ReleasePrefixItem(faults: seq<Option<Error>>, volumes: VolumeTable, ids: seq<string>, n: nat, k: nat, i: nat)
    requires i < n <= |ids|
    ensures var start := k + |ReleasePrefix(faults, volumes, ids, i, k).calls|;
            ReleasePrefix(faults, volumes, ids, n, k).results[i] == ReleaseItem(faults, volumes, ids[i], start).result
    decreases n
  {
    hide ReleaseItem;
    var prev := ReleasePrefix(faults, volumes, ids, n - 1, k);
    var st := ReleaseItem(faults, volumes, ids[n - 1], k + |prev.calls|);
    ReleasePrefixStep(faults, volumes, ids, n - 1, k, prev, st);
    if i < n - 1 {
      hide ReleasePrefix;
      ReleasePrefixItem(faults, volumes, ids, n - 1, k, i);
      assert (prev.results + [st.result])[i] == prev.results[i];
    }
  }

  /**
   * Releasing one volume: the read comes first; when it succeeds the config
   * is written back without the ownership tags, passing the eTag the read
   * returned, and a failing write-back is reported as "removing tags from
   * volume ... in pool ...: <cause>".
   */
  lemma ReleaseItemContract(faults: seq<Option<Error>>, volumes: VolumeTable, pool: string, volume: string, k: nat)
    requires ':' !in pool
    requires LookupVolume(volumes, pool, volume).Success? && FaultAt(faults, k).None?
    ensures ReleaseItem(faults, volumes, FormatFilesystemId(pool, volume), k)
         == Step((), match FaultAt(faults, k + 1)
                       case None => None
                       case Some(e) => Some(Annotate(ReleaseContext(pool, volume), e)),
                 ReleaseCalls(volumes, (pool, volume)))
  {
    ParseFormat(pool, volume);
  }

  /** Releasing one ID without injected errors: a stored volume is read and written back; a malformed ID fails alone. */
  lemma ReleaseItemNoFaults(faults: seq<Option<Error>>, volumes: VolumeTable, id: string, k: nat)
    requires FaultAt(faults, k).None? && FaultAt(faults, k + 1).None?
    requires ParseFilesystemId(id).Success? ==> LookupVolume(volumes, ParseFilesystemId(id).value.0, ParseFilesystemId(id).value.1).Success?
    ensures ParseFilesystemId(id).Success? <==> ':' in id
    ensures var st := ReleaseItem(faults, volumes, id, k);
            (':' in id ==> st.result == None && st.calls == ReleaseCalls(volumes, ParseFilesystemId(id).value)) &&
            (':' !in id ==> st == Step((), Some(InvalidIdError(id)), []))
  {
    ParseFilesystemIdCases(id);
  }

  /** Without injected errors, item i of a release batch succeeds if its ID is well-formed and fails alone otherwise. */
  function ReleaseResultAt(ids: seq<string>, i: nat): Option<Error>
    requires i < |ids|
  {
    if ':' in ids[i] then None else Some(InvalidIdError(ids[i]))
  }

  /** The stored-volume guarantee for one ID of the batch. */
  lemma AllStoredAt(volumes: VolumeTable, ids: seq<string>, i: nat)
    requires AllStored(volumes, ids) && i < |ids|
    ensures ParseFilesystemId(ids[i]).Success? ==>
              LookupVolume(volumes, ParseFilesystemId(ids[i]).value.0, ParseFilesystemId(ids[i]).value.1).Success?
  {
  }

  /** One more stored volume: its read and write-back follow those of the volumes before it. */
  lemma ReleaseCallsAllSnoc(volumes: VolumeTable, parts: seq<(string, string)>, p: (string, string))
    requires Stored(volumes, parts) && LookupVolume(volumes, p.0, p.1).Success?
    ensures Stored(volumes, parts + [p])
    ensures ReleaseCallsAll(volumes, parts + [p]) == ReleaseCallsAll(volumes, parts) + ReleaseCalls(volumes, p)
  {
    assert (parts + [p])[..|parts|] == parts;
  }

  /**
   * Without injected errors, a release batch over stored volumes reads then
   * writes back each well-formed ID's volume, in input order, and makes no
   * other call.
   */
  lemma {:induction false} ReleasePrefixCalls(faults: seq<Option<Error>>, volumes: VolumeTable, ids: seq<string>, n: nat, k: nat)
    requires n <= |ids| && NoFaults(faults) && AllStored(volumes, ids)
    ensures Stored(volumes, WellFormed(ids[..n]))
    ensures ReleasePrefix(faults, volumes, ids, n, k).calls == ReleaseCallsAll(volumes, WellFormed(ids[..n]))
  {
    hide ReleaseItem, ParseFilesystemId, NoFaults, AllStored;
    if n > 0 {
      hide ReleasePrefix, WellFormed, Stored, ReleaseCallsAll;
      ReleasePrefixCalls(faults, volumes, ids, n - 1, k);
      var prev := ReleasePrefix(faults, volumes, ids, n - 1, k);
      var id := ids[n - 1];
      var st := ReleaseItem(faults, volumes, id, k + |prev.calls|);
      ReleasePrefixStep(faults, volumes, ids, n - 1, k, prev, st);
      NoFaultAt(faults, k + |prev.calls|);
      NoFaultAt(faults, k + |prev.calls| + 1);
      AllStoredAt(volumes, ids, n - 1);
      ReleaseItemNoFaults(faults, volumes, id, k + |prev.calls|);
      WellFormedStep(ids, n);
      var wf := WellFormed(ids[..n - 1]);
      if ':' in id {
        ReleaseCallsAllSnoc(volumes, wf, ParseFilesystemId(id).value);
      } else {
        assert wf + [] == wf;
        assert prev.calls + st.calls == prev.calls;
      }
    } else {
      assert ids[..0] == [];
    }
  }

  /**
   * Without injected errors, every well-formed ID of a release batch over
   * stored volumes succeeds, and each malformed one fails alone with the
   * "invalid filesystem ID" error.
   */
  lemma {:induction false} ReleasePrefixResults(faults: seq<Option<Error>>, volumes: VolumeTable, ids: seq<string>, n: nat, k: nat)
    requires n <= |ids| && NoFaults(faults) && AllStored(volumes, ids)
    ensures var results := ReleasePrefix(faults, volumes, ids, n, k).results;
            forall i :: 0 <= i < n ==> results[i] == ReleaseResultAt(ids, i)
  {
    hide ReleaseItem, ParseFilesystemId, NoFaults, AllStored;
    if n > 0 {
      assert ReleaseResultAt(ids, n - 1) == if ':' in ids[n - 1] then None else Some(InvalidIdError(ids[n - 1]));
      hide ReleasePrefix, ReleaseResultAt;
      ReleasePrefixResults(faults, volumes, ids, n - 1, k);
      var prev := ReleasePrefix(faults, volumes, ids, n - 1, k);
      var id := ids[n - 1];
      var st := ReleaseItem(faults, volumes, id, k + |prev.calls|);
      ReleasePrefixStep(faults, volumes, ids, n - 1, k, prev, st);
      NoFaultAt(faults, k + |prev.calls|);
      NoFaultAt(faults, k + |prev.calls| + 1);
      AllStoredAt(volumes, ids, n - 1);
      ReleaseItemNoFaults(faults, volumes, id, k + |prev.calls|);
      forall i | 0 <= i < n
        ensures (prev.results + [st.result])[i] == ReleaseResultAt(ids, i)
      {
        if i < n - 1 {
          assert (prev.results + [st.result])[i] == prev.results[i];
        }
      }
    }
  }

  /**
   * The release scenario of the tests, for any volumes of its shape: a
   * malformed ID, then two stored volumes of one pool whose second
   * write-back fails. The malformed ID fails alone, each volume gets its
   * read and write-back in order, and only the last write-back fails, with
   * the "removing tags" context around the cause.
   */
  lemma ReleaseScenarioOutcome(bad: string, pool: string, vol0: string, vol1: string, v0: Volume, v1: Volume, boom: Error)
    requires ':' !in bad && ':' !in pool && vol0 != vol1
    ensures var volumes := map[pool := map[vol0 := v0, vol1 := v1]];
            LookupVolume(volumes, pool, vol0).Success? && LookupVolume(volumes, pool, vol1).Success? &&
            ReleaseAll([None, None, None, Some(boom)], volumes,
                       [bad, FormatFilesystemId(pool, vol0), FormatFilesystemId(pool, vol1)], 0)
            == Outcome((), [Some(InvalidIdError(bad)), None, Some(Annotate(ReleaseContext(pool, vol1), boom))],
                       ReleaseCalls(volumes, (pool, vol0)) + ReleaseCalls(volumes, (pool, vol1)))
  {
    var volumes := map[pool := map[vol0 := v0, vol1 := v1]];
    var faults := [None, None, None, Some(boom)];
    var ids := [bad, FormatFilesystemId(pool, vol0), FormatFilesystemId(pool, vol1)];
    var r0 := Some(InvalidIdError(bad));
    var r2 := Some(Annotate(ReleaseContext(pool, vol1), boom));
    hide ReleaseItem, ParseFilesystemId, ReleaseContext, ReleaseConfig, Annotate;
    ParseFilesystemIdCases(bad);
    var st0 := Step((), r0, []);
    ReleaseItemNoFaults(faults, volumes, bad, 0);
    var o0: Outcome<(), Option<Error>> := Outcome((), [], []);
    assert ReleasePrefix(faults, volumes, ids, 0, 0) == o0;
    assert LookupVolume(volumes, pool, vol0) == Success(v0) && LookupVolume(volumes, pool, vol1) == Success(v1);
    assert |ReleaseCalls(volumes, (pool, vol0))| == 2;
    hide ReleasePrefix, LookupVolume, ReleaseCalls;
    var c0 := ReleaseCalls(volumes, (pool, vol0));
    var c1 := ReleaseCalls(volumes, (pool, vol1));
    ReleaseItemContract(faults, volumes, pool, vol0, 0);
    ReleaseItemContract(faults, volumes, pool, vol1, 2);
    ReleasePrefixStep(faults, volumes, ids, 0, 0, o0, st0);
    var o1 := Outcome((), [r0], []);
    assert o0.results + [st0.result] == [r0] && o0.calls + st0.calls == [];
    var st1 := Step((), None, c0);
    ReleasePrefixStep(faults, volumes, ids, 1, 0, o1, st1);
    assert o1.results + [st1.result] == [r0, None] && o1.calls + st1.calls == c0;
    var o2 := Outcome((), [r0, None], c0);
    var st2 := Step((), r2, c1);
    ReleasePrefixStep(faults, volumes, ids, 2, 0, o2, st2);
    assert o2.results + [st2.result] == [r0, None, r2];
  }

  /**
   * The calls of the release scenario spelled out: each volume is read and
   * then written back with the eTag of its read and without its ownership
   * tags.
   */
  lemma ReleaseScenario(bad: string, pool: string, vol0: string, vol1: string, v0: Volume, v1: Volume, boom: Error)
    requires ':' !in bad && ':' !in pool && vol0 != vol1
    ensures var volumes := map[pool := map[vol0 := v0, vol1 := v1]];
            var o := ReleaseAll([None, None, None, Some(boom)], volumes,
                                [bad, FormatFilesystemId(pool, vol0), FormatFilesystemId(pool, vol1)], 0);
            o.results == [Some(InvalidIdError(bad)), None, Some(Annotate(ReleaseContext(pool, vol1), boom))] &&
            o.calls == [Call.GetStoragePoolVolume(pool, CustomVolumeType, vol0),
                        Call.UpdateStoragePoolVolume(pool, CustomVolumeType, vol0, ReleaseConfig(v0.config), v0.eTag),
                        Call.GetStoragePoolVolume(pool, CustomVolumeType, vol1),
                        Call.UpdateStoragePoolVolume(pool, CustomVolumeType, vol1, ReleaseConfig(v1.config), v1.eTag)]
  {
    ReleaseScenarioOutcome(bad, pool, vol0, vol1, v0, v1, boom);
    hide ReleaseAll, ReleaseContext, ReleaseConfig;
    var volumes := map[pool := map[vol0 := v0, vol1 := v1]];
    assert LookupVolume(volumes, pool, vol0) == Success(v0) && LookupVolume(volumes, pool, vol1) == Success(v1);
  }

  /** The configs of the release test: unrelated keys stay, both ownership tags go. */
  lemma ReleaseScenarioConfigs(foo: string, bar: string, a: string, b: string, c: string)
    requires foo != UserKey(ModelTag) && foo != UserKey(ControllerTag)
    ensures ReleaseConfig(map[foo := bar, UserKey(ModelTag) := a]) == map[foo := bar]
    ensures ReleaseConfig(map[UserKey(ControllerTag) := b, UserKey(ModelTag) := c]) == map[]
  {
    assert UserKey(ControllerTag) != UserKey(ModelTag) by {
      assert UserKey(ControllerTag)[|UserPrefix| + 5] != UserKey(ModelTag)[|UserPrefix| + 5];
    }
    ReleaseConfigContents(map[foo := bar, UserKey(ModelTag) := a]);
    ReleaseConfigContents(map[UserKey(ControllerTag) := b, UserKey(ModelTag) := c]);
  }

  // ---------------------------------------------------------------- create

  /** The filesystem a successful create reports: its tag, no backing volume, "<lxd-pool>:<volume>" and the requested size. */
  function Created(namespace: string, defaultPool: string, p: FilesystemParams): Filesystem {
    var cfg := PoolConfigOf(p.attributes, defaultPool);
    Filesystem(p.tag, None, FilesystemInfo(FormatFilesystemId(cfg.lxdPool, VolumeName(namespace, p.tag)), p.size))
  }

  /** The calls creating one filesystem makes when its pool can be created: the pool, then the volume. */
  function CreateCalls(namespace: string, defaultPool: string, p: FilesystemParams): (calls: seq<Call>)
    ensures |calls| == 2 && calls[0].CreatePool? && calls[1].CreateVolume?
  {
    var cfg := PoolConfigOf(p.attributes, defaultPool);
    [Call.CreatePool(cfg.lxdPool, cfg.driver, cfg.attrs),
     Call.CreateVolume(cfg.lxdPool, VolumeName(namespace, p.tag), CreateConfig(p.size, p.resourceTags, cfg.driver))]
  }

  /** The calls of creating each filesystem in turn. */
  function CreateCallsAll(namespace: string, defaultPool: string, ps: seq<FilesystemParams>): seq<Call>
    decreases |ps|
  {
    if ps == [] then []
    else CreateCallsAll(namespace, defaultPool, ps[..|ps| - 1]) + CreateCalls(namespace, defaultPool, ps[|ps| - 1])
  }

  /** A batch's calls are those of all but its last filesystem, then the last one's. */
  lemma CreateCallsAllSnoc(namespace: string, defaultPool: string, ps: seq<FilesystemParams>)
    requires ps != []
    ensures CreateCallsAll(namespace, defaultPool, ps)
            == CreateCallsAll(namespace, defaultPool, ps[..|ps| - 1]) + CreateCalls(namespace, defaultPool, ps[|ps| - 1])
  {
  }

  /** Filesystem i's two calls sit at positions 2i and 2i+1 of a batch's calls. */
  lemma {:induction false} CreateCallsAllAt(namespace: string, defaultPool: string, ps: seq<FilesystemParams>)
    ensures var calls := CreateCallsAll(namespace, defaultPool, ps);
            |calls| == 2 * |ps| &&
            forall i :: 0 <= i < |ps| ==> calls[2 * i] == CreateCalls(namespace, defaultPool, ps[i])[0] &&
                                          calls[2 * i + 1] == CreateCalls(namespace, defaultPool, ps[i])[1]
    decreases |ps|
  {
    hide CreateCalls;
    if ps != [] {
      var init := ps[..|ps| - 1];
      CreateCallsAllSnoc(namespace, defaultPool, ps);
      hide CreateCallsAll;
      CreateCallsAllAt(namespace, defaultPool, init);
      var prev := CreateCallsAll(namespace, defaultPool, init);
      var calls := CreateCallsAll(namespace, defaultPool, ps);
      assert calls == prev + CreateCalls(namespace, defaultPool, ps[|ps| - 1]);
      forall i | 0 <= i < |ps|
        ensures calls[2 * i] == CreateCalls(namespace, defaultPool, ps[i])[0]
        ensures calls[2 * i + 1] == CreateCalls(namespace, defaultPool, ps[i])[1]
      {
        if i < |init| {
          assert init[i] == ps[i];
        }
      }
    }
  }

  /**
   * Creating one filesystem whose pool can be created: the pool is created
   * with its driver and remaining attributes, then the volume named after
   * the filesystem tag with the namespaced tags and size, and the result
   * echoes the size under the ID "<lxd-pool>:<volume>".
   */
  lemma CreateItemNewPool(faults: seq<Option<Error>>, namespace: string, defaultPool: string, p: FilesystemParams, k: nat)
    requires FaultAt(faults, k).None? && FaultAt(faults, k + 1).None?
    ensures var cfg := PoolConfigOf(p.attributes, defaultPool);
            var st := CreateItem(faults, namespace, defaultPool, p, k);
            st.result == Success(Created(namespace, defaultPool, p)) &&
            st.calls == [Call.CreatePool(cfg.lxdPool, cfg.driver, cfg.attrs),
                         Call.CreateVolume(cfg.lxdPool, VolumeName(namespace, p.tag), CreateConfig(p.size, p.resourceTags, cfg.driver))]
  {
  }

  /**
   * Creating one filesystem whose pool creation fails but whose pool then
   * reads back: the failure is tolerated, and the volume is created as
   * before, after the pool read.
   */
  lemma CreateItemPoolExists(faults: seq<Option<Error>>, namespace: string, defaultPool: string, p: FilesystemParams, k: nat)
    requires FaultAt(faults, k).Some? && FaultAt(faults, k + 1).None? && FaultAt(faults, k + 2).None?
    ensures var cfg := PoolConfigOf(p.attributes, defaultPool);
            var st := CreateItem(faults, namespace, defaultPool, p, k);
            st.result == Success(Created(namespace, defaultPool, p)) &&
            st.calls == [Call.CreatePool(cfg.lxdPool, cfg.driver, cfg.attrs),
                         Call.GetStoragePool(cfg.lxdPool),
                         Call.CreateVolume(cfg.lxdPool, VolumeName(namespace, p.tag), CreateConfig(p.size, p.resourceTags, cfg.driver))]
  {
  }

  /** When the pool can neither be created nor read, the item fails with the creation error and no volume is created. */
  lemma CreateItemNoPool(faults: seq<Option<Error>>, namespace: string, defaultPool: string, p: FilesystemParams, k: nat)
    requires FaultAt(faults, k).Some? && FaultAt(faults, k + 1).Some?
    ensures var st := CreateItem(faults, namespace, defaultPool, p, k);
            st.result == Failure(FaultAt(faults, k).value) &&
            forall c :: c in st.calls ==> !c.CreateVolume?
  {
  }

  /**
   * The ID a create reports names the volume it created: parsing it gives
   * back the LXD pool and the volume name (pool names have no ':'), so a
   * later destroy deletes exactly that volume.
   */
  lemma CreatedIdNamesVolume(namespace: string, defaultPool: string, p: FilesystemParams, faults: seq<Option<Error>>, k: nat)
    requires ':' !in PoolConfigOf(p.attributes, defaultPool).lxdPool
    ensures var cfg := PoolConfigOf(p.attributes, defaultPool);
            var id := Created(namespace, defaultPool, p).info.filesystemId;
            ParseFilesystemId(id) == Success((cfg.lxdPool, VolumeName(namespace, p.tag))) &&
            DestroyItem(faults, id, k).calls == [Call.DeleteStoragePoolVolume(cfg.lxdPool, CustomVolumeType, VolumeName(namespace, p.tag))]
  {
    var cfg := PoolConfigOf(p.attributes, defaultPool);
    ParseFormat(cfg.lxdPool, VolumeName(namespace, p.tag));
  }

  /**
   * The size a create writes is the size an import reads back: the
   * requested size when the driver takes one, and 0 (no "size" entry)
   * for the "dir" driver.
   */
  lemma CreatedSizeImports(size: nat, tags: Config, driver: string)
    ensures RecordedSize(CreateConfig(size, tags, driver)) == Success(if driver == DirDriver then 0 else size)
  {
    CreateConfigContents(size, tags, driver);
    if driver != DirDriver {
      CreatedSizeReadsBack(size, tags, driver);
    }
  }

  /** Names and size text of the create tests: the volume juju-f75cba-filesystem-0 and "1024MB". */
  lemma CreateScenarioNames()
    ensures Namespace("f75cba") == "juju-f75cba-"
    ensures VolumeName(Namespace("f75cba"), FilesystemTag("0")) == "juju-f75cba-filesystem-0"
    ensures FormatSizeMB(1024) == "1024MB"
  {
  }

  /**
   * The create tests, for any pool name, driver and tag, at 1024 MiB: with
   * attributes naming only the LXD pool and the driver, the pool is created
   * with no extra config, and the volume config is {"user.<key>": value,
   * "size": "1024MB"}, without "size" for the "dir" driver.
   */
  lemma CreateScenario(lxdPool: string, driver: string, key: string, value: string, defaultPool: string)
    ensures var cfg := PoolConfigOf(map[LxdPoolAttr := lxdPool, DriverAttr := driver], defaultPool);
            cfg == PoolConfig(lxdPool, driver, None)
    ensures driver != DirDriver ==> CreateConfig(1024, map[key := value], driver) == map[UserKey(key) := value, SizeKey := "1024MB"]
    ensures driver == DirDriver ==> CreateConfig(1024, map[key := value], driver) == map[UserKey(key) := value]
  {
    var tags := map[key := value];
    UserTagsContents(tags);
    CreateConfigContents(1024, tags, driver);
    CreateScenarioNames();
    assert UserTags(tags) == map[UserKey(key) := value];
  }

  /** Without injected errors, creating one filesystem succeeds after exactly two calls. */
  lemma CreateItemNoFaults(faults: seq<Option<Error>>, namespace: string, defaultPool: string, p: FilesystemParams, k: nat)
    requires NoFaults(faults)
    ensures var st := CreateItem(faults, namespace, defaultPool, p, k);
            st.result == Success(Created(namespace, defaultPool, p)) && |st.calls| == 2
  {
    NoFaultAt(faults, k);
    NoFaultAt(faults, k + 1);
    CreateItemNewPool(faults, namespace, defaultPool, p, k);
  }

  /** Without errors at its two call positions, one filesystem's create makes exactly its two calls. */
  lemma CreateItemCalls(faults: seq<Option<Error>>, namespace: string, defaultPool: string, p: FilesystemParams, k: nat)
    requires FaultAt(faults, k).None? && FaultAt(faults, k + 1).None?
    ensures CreateItem(faults, namespace, defaultPool, p, k).calls == CreateCalls(namespace, defaultPool, p)
  {
    CreateItemNewPool(faults, namespace, defaultPool, p, k);
  }

  /**
   * Without injected errors a create batch makes, for each filesystem in
   * turn, exactly its two calls: create its pool, then create its volume.
   */
  lemma {:induction false} CreatePrefixCalls(faults: seq<Option<Error>>, namespace: string, defaultPool: string,
                                             ps: seq<FilesystemParams>, n: nat, k: nat)
    requires n <= |ps| && NoFaults(faults)
    ensures CreatePrefix(faults, namespace, defaultPool, ps, n, k).calls == CreateCallsAll(namespace, defaultPool, ps[..n])
  {
    hide CreateItem, Created, NoFaults, PoolConfigOf, CreateConfig;
    if n == 0 {
      assert ps[..0] == [];
    } else {
      hide CreatePrefix, CreateCallsAll, CreateCalls;
      CreatePrefixCalls(faults, namespace, defaultPool, ps, n - 1, k);
      var prev := CreatePrefix(faults, namespace, defaultPool, ps, n - 1, k);
      var st := CreateItem(faults, namespace, defaultPool, ps[n - 1], k + |prev.calls|);
      CreatePrefixStep(faults, namespace, defaultPool, ps, n - 1, k, prev, st);
      NoFaultAt(faults, k + |prev.calls|);
      NoFaultAt(faults, k + |prev.calls| + 1);
      CreateItemCalls(faults, namespace, defaultPool, ps[n - 1], k + |prev.calls|);
      assert ps[..n][..n - 1] == ps[..n - 1] && ps[..n][n - 1] == ps[n - 1];
      CreateCallsAllSnoc(namespace, defaultPool, ps[..n]);
      assert CreateCallsAll(namespace, defaultPool, ps[..n])
          == CreateCallsAll(namespace, defaultPool, ps[..n - 1]) + CreateCalls(namespace, defaultPool, ps[n - 1]);
      assert CreatePrefix(faults, namespace, defaultPool, ps, n, k).calls == prev.calls + st.calls;
    }
  }

  /**
   * Without injected errors a batch of n filesystems makes 2n calls, and
   * filesystem i's pool and volume creations are calls 2i and 2i+1.
   */
  lemma CreateBatchCalls(faults: seq<Option<Error>>, namespace: string, defaultPool: string,
                         ps: seq<FilesystemParams>, n: nat, k: nat)
    requires n <= |ps| && NoFaults(faults)
    ensures var calls := CreatePrefix(faults, namespace, defaultPool, ps, n, k).calls;
            |calls| == 2 * n &&
            forall i :: 0 <= i < n ==>
              var cfg := PoolConfigOf(ps[i].attributes, defaultPool);
              calls[2 * i] == Call.CreatePool(cfg.lxdPool, cfg.driver, cfg.attrs) &&
              calls[2 * i + 1] == Call.CreateVolume(cfg.lxdPool, VolumeName(namespace, ps[i].tag),
                                                    CreateConfig(ps[i].size, ps[i].resourceTags, cfg.driver))
  {
    hide CreatePrefix, CreateItem, NoFaults;
    CreatePrefixCalls(faults, namespace, defaultPool, ps, n, k);
    CreateCallsAllAt(namespace, defaultPool, ps[..n]);
    forall i | 0 <= i < n ensures ps[..n][i] == ps[i] { }
  }

  /**
   * Whatever errors are injected, the result of filesystem i of a create
   * batch is what creating it alone gives, starting at the call after those
   * of the earlier filesystems: a failing filesystem does not change the
   * results of the others.
   */
  lemma {:induction false} CreatePrefixItem(faults: seq<Option<Error>>, namespace: string, defaultPool: string,
                                            ps: seq<FilesystemParams>, n: nat, k: nat, i: nat)
    requires i < n <= |ps|
    ensures var start := k + |CreatePrefix(faults, namespace, defaultPool, ps, i, k).calls|;
            CreatePrefix(faults, namespace, defaultPool, ps, n, k).results[i]
            == CreateItem(faults, namespace, defaultPool, ps[i], start).result
    decreases n
  {
    hide CreateItem;
    var prev := CreatePrefix(faults, namespace, defaultPool, ps, n - 1, k);
    var st := CreateItem(faults, namespace, defaultPool, ps[n - 1], k + |prev.calls|);
    CreatePrefixStep(faults, namespace, defaultPool, ps, n - 1, k, prev, st);
    if i < n - 1 {
      hide CreatePrefix;
      CreatePrefixItem(faults, namespace, defaultPool, ps, n - 1, k, i);
      assert (prev.results + [st.result])[i] == prev.results[i];
    }
  }

  /**
   * Without injected errors every item of a create batch succeeds, in
   * order, with the filesystem named after its own tag.
   */
  lemma {:induction false} CreatePrefixNoFaults(faults: seq<Option<Error>>, namespace: string, defaultPool: string,
                                                ps: seq<FilesystemParams>, n: nat, k: nat)
    requires n <= |ps| && NoFaults(faults)
    ensures var o := CreatePrefix(faults, namespace, defaultPool, ps, n, k);
            forall i :: 0 <= i < n ==> o.results[i] == Success(Created(namespace, defaultPool, ps[i]))
  {
    hide CreateItem, Created, NoFaults;
    if n > 0 {
      hide CreatePrefix;
      CreatePrefixNoFaults(faults, namespace, defaultPool, ps, n - 1, k);
      var prev := CreatePrefix(faults, namespace, defaultPool, ps, n - 1, k);
      var st := CreateItem(faults, namespace, defaultPool, ps[n - 1], k + |prev.calls|);
      CreatePrefixStep(faults, namespace, defaultPool, ps, n - 1, k, prev, st);
      CreateItemNoFaults(faults, namespace, defaultPool, ps[n - 1], k + |prev.calls|);
      forall i | 0 <= i < n
        ensures (prev.results + [st.result])[i] == Success(Created(namespace, defaultPool, ps[i]))
      {
        if i < n - 1 {
          assert (prev.results + [st.result])[i] == prev.results[i];
        }
      }
    }
  }

  // ---------------------------------------------------------------- import

  /** A malformed ID is refused before any call. */
  lemma ImportMalformed(faults: seq<Option<Error>>, volumes: VolumeTable, id: string, tags: Config, k: nat)
    requires ':' !in id
    ensures ImportFilesystem(faults, volumes, id, tags, k) == Imported(Failure(InvalidIdError(id)), [])
  {
    ParseFilesystemIdCases(id);
  }

  /**
   * Importing a stored volume whose size reads: the volume is read, then
   * its config is written back with the tags merged in under "user.",
   * passing the eTag of the read; the result is the ID with the size in MiB,
   * or the write-back's error with the "tagging" context.
   */
  lemma ImportStored(faults: seq<Option<Error>>, volumes: VolumeTable, pool: string, volume: string, tags: Config, k: nat)
    requires ':' !in pool
    requires LookupVolume(volumes, pool, volume).Success? && FaultAt(faults, k).None?
    requires RecordedSize(LookupVolume(volumes, pool, volume).value.config).Success?
    ensures var v := LookupVolume(volumes, pool, volume).value;
            var id := FormatFilesystemId(pool, volume);
            var im := ImportFilesystem(faults, volumes, id, tags, k);
            im.calls == [Call.GetStoragePoolVolume(pool, CustomVolumeType, volume),
                         Call.UpdateStoragePoolVolume(pool, CustomVolumeType, volume, ImportConfig(v.config, tags), v.eTag)] &&
            im.result == match FaultAt(faults, k + 1)
              case None => Success(FilesystemInfo(id, RecordedSize(v.config).value))
              case Some(e) => Failure(Annotate(ImportContext(pool, volume), e))
  {
    ParseFormat(pool, volume);
  }

  /**
   * The import test, for any pool, volume, eTag and tag: a volume whose
   * config records "10GB" imports as 10 * 1024 MiB, and the write-back
   * keeps "size" and adds "user.<key>".
   */
  lemma ImportScenario(pool: string, volume: string, eTag: string, key: string, value: string)
    requires ':' !in pool
    ensures var volumes := map[pool := map[volume := Volume(map[SizeKey := "10GB"], eTag)]];
            var id := FormatFilesystemId(pool, volume);
            var im := ImportFilesystem([], volumes, id, map[key := value], 0);
            im.result == Success(FilesystemInfo(id, 10 * 1024)) &&
            im.calls == [Call.GetStoragePoolVolume(pool, CustomVolumeType, volume),
                         Call.UpdateStoragePoolVolume(pool, CustomVolumeType, volume,
                                                      map[SizeKey := "10GB", UserKey(key) := value], eTag)]
  {
    var config := map[SizeKey := "10GB"];
    var tags := map[key := value];
    assert NatToString(10) + "GB" == "10GB";
    ParseSizeGB(10);
    assert RecordedSize(config) == Success(10 * 1024);
    UserTagsContents(tags);
    assert UserTags(tags) == map[UserKey(key) := value];
    var volumes := map[pool := map[volume := Volume(config, eTag)]];
    ImportStored([], volumes, pool, volume, tags, 0);
    assert ImportConfig(config, tags) == map[SizeKey := "10GB", UserKey(key) := value];
  }

  // ---------------------------------------------------------------- containers

  /** Views with the same names find the same container. */
  lemma {:induction false} FindContainerSameNames(cs: seq<ContainerState>, cs': seq<ContainerState>, name: string)
    requires SameNames(cs, cs')
    ensures FindContainer(cs, name) == FindContainer(cs', name)
    decreases |cs|
  {
    if cs != [] && cs[0].name != name {
      assert SameNames(cs[1..], cs'[1..]);
      FindContainerSameNames(cs[1..], cs'[1..], name);
    }
  }

  // ---------------------------------------------------------------- attach

  /** An instance that is not alive: "instance "<id>" not found", classified NotFound, and nothing changes. */
  lemma AttachUnknownInstance(faults: seq<Option<Error>>, cs: seq<ContainerState>, a: FilesystemAttachmentParams, k: nat)
    requires FindContainer(cs, a.instanceId).None?
    ensures var st := AttachItem(faults, cs, a, k);
            st == Step(cs, Failure(Annotate(AttachContext(a), InstanceNotFound(a.instanceId))), []) &&
            st.result.error.kind == NotFound
  {
  }

  /** A device of that name already on the container: a conflict naming container and device, and nothing changes. */
  lemma AttachExistingDevice(faults: seq<Option<Error>>, cs: seq<ContainerState>, a: FilesystemAttachmentParams, k: nat, j: nat)
    requires FindContainer(cs, a.instanceId) == Some(j) && ':' in a.filesystemId
    requires a.filesystem.String() in cs[j].devices
    ensures AttachItem(faults, cs, a, k)
         == Step(cs, Failure(Annotate(AttachContext(a), DeviceExistsError(cs[j].name, a.filesystem.String()))), [])
  {
    ParseFilesystemIdCases(a.filesystemId);
  }

  /**
   * A new device: the container gains a disk device for the volume under
   * the filesystem tag's name, with the mount path and read-only flag, the
   * container is written once, and the attachment echoes tag, machine,
   * path and read-only flag. No other container changes.
   */
  lemma AttachNewDevice(faults: seq<Option<Error>>, cs: seq<ContainerState>, a: FilesystemAttachmentParams, k: nat,
                        j: nat, pool: string, volume: string)
    requires FindContainer(cs, a.instanceId) == Some(j) && ':' !in pool && a.filesystemId == FormatFilesystemId(pool, volume)
    requires a.filesystem.String() !in cs[j].devices && FaultAt(faults, k).None?
    ensures var devices := cs[j].devices[a.filesystem.String() := DiskDevice(pool, volume, a.path, a.readOnly)];
            var st := AttachItem(faults, cs, a, k);
            st.result == Success(FilesystemAttachment(a.filesystem, a.machine, FilesystemAttachmentInfo(a.path, a.readOnly))) &&
            st.state == SetDevices(cs, j, devices) &&
            st.calls == [Call.WriteContainer(cs[j].name, devices)]
  {
    ParseFormat(pool, volume);
  }

  /** How many of the results are successes. */
  function SuccessCount<T>(rs: seq<Result<T, Error>>): (n: nat)
    ensures n <= |rs|
  {
    if rs == [] then 0 else SuccessCount(rs[..|rs| - 1]) + (if rs[|rs| - 1].Success? then 1 else 0)
  }

  /** The calls are all container writes. */
  predicate OnlyWrites(calls: seq<Call>) {
    forall c :: c in calls ==> c.WriteContainer?
  }

  lemma OnlyWritesAppend(calls: seq<Call>, calls': seq<Call>)
    requires OnlyWrites(calls) && OnlyWrites(calls')
    ensures OnlyWrites(calls + calls')
  {
  }

  /** The only call an attach item can make is a container write. */
  lemma AttachItemWrites(faults: seq<Option<Error>>, cs: seq<ContainerState>, a: FilesystemAttachmentParams, k: nat)
    ensures OnlyWrites(AttachItem(faults, cs, a, k).calls)
  {
  }

  /** One more result adds one to the count exactly when it is a success. */
  lemma SuccessCountSnoc<T>(rs: seq<Result<T, Error>>, r: Result<T, Error>)
    ensures SuccessCount(rs + [r]) == SuccessCount(rs) + if r.Success? then 1 else 0
  {
    assert (rs + [r])[..|rs|] == rs;
  }

  /** Keeping every device is transitive. */
  lemma KeepsDevicesTrans(cs: seq<ContainerState>, cs': seq<ContainerState>, cs'': seq<ContainerState>)
    requires KeepsDevices(cs, cs') && KeepsDevices(cs', cs'')
    ensures KeepsDevices(cs, cs'')
  {
  }

  /** Attaching the first n items never removes or changes a device already there. */
  lemma {:induction false} AttachPrefixKeeps(faults: seq<Option<Error>>, cs: seq<ContainerState>, args: seq<FilesystemAttachmentParams>, n: nat, k: nat)
    requires n <= |args|
    ensures KeepsDevices(cs, AttachPrefix(faults, cs, args, n, k).state)
  {
    hide AttachItem, SetDevices;
    if n > 0 {
      hide AttachPrefix, KeepsDevices;
      AttachPrefixKeeps(faults, cs, args, n - 1, k);
      var prev := AttachPrefix(faults, cs, args, n - 1, k);
      var st := AttachItem(faults, prev.state, args[n - 1], k + |prev.calls|);
      AttachPrefixStep(faults, cs, args, n - 1, k, prev, st);
      AttachItemFacts(faults, prev.state, args[n - 1], k + |prev.calls|);
      KeepsDevicesTrans(cs, prev.state, st.state);
    }
  }

  /** Attaching the first n items only ever writes containers. */
  lemma {:induction false} AttachPrefixWrites(faults: seq<Option<Error>>, cs: seq<ContainerState>, args: seq<FilesystemAttachmentParams>, n: nat, k: nat)
    requires n <= |args|
    ensures OnlyWrites(AttachPrefix(faults, cs, args, n, k).calls)
  {
    hide AttachItem, SetDevices;
    if n > 0 {
      hide AttachPrefix, OnlyWrites;
      AttachPrefixWrites(faults, cs, args, n - 1, k);
      var prev := AttachPrefix(faults, cs, args, n - 1, k);
      var st := AttachItem(faults, prev.state, args[n - 1], k + |prev.calls|);
      AttachPrefixStep(faults, cs, args, n - 1, k, prev, st);
      AttachItemWrites(faults, prev.state, args[n - 1], k + |prev.calls|);
      OnlyWritesAppend(prev.calls, st.calls);
    }
  }

  /** Without injected errors, attaching the first n items writes exactly once per item that succeeded. */
  lemma {:induction false} AttachPrefixCount(faults: seq<Option<Error>>, cs: seq<ContainerState>, args: seq<FilesystemAttachmentParams>, n: nat, k: nat)
    requires n <= |args| && NoFaults(faults)
    ensures var o := AttachPrefix(faults, cs, args, n, k);
            |o.calls| == SuccessCount(o.results)
  {
    hide AttachItem, KeepsDevices, NoFaults;
    if n > 0 {
      hide AttachPrefix, SuccessCount;
      AttachPrefixCount(faults, cs, args, n - 1, k);
      var prev := AttachPrefix(faults, cs, args, n - 1, k);
      var st := AttachItem(faults, prev.state, args[n - 1], k + |prev.calls|);
      AttachPrefixStep(faults, cs, args, n - 1, k, prev, st);
      NoFaultAt(faults, k + |prev.calls|);
      AttachItemFacts(faults, prev.state, args[n - 1], k + |prev.calls|);
      SuccessCountSnoc(prev.results, st.result);
      assert |st.calls| == if st.result.Success? then 1 else 0;
      assert |prev.calls + st.calls| == |prev.calls| + |st.calls|;
    } else {
      assert SuccessCount<FilesystemAttachment>([]) == 0;
    }
  }

  /**
   * An attach batch lists the alive containers exactly once, first; every
   * other call writes a container, and without injected errors there is
   * one write per successful item and one result per item.
   */
  lemma AttachAllCalls(faults: seq<Option<Error>>, cs: seq<ContainerState>, namespace: string, args: seq<FilesystemAttachmentParams>, k: nat)
    ensures var o := AttachAll(faults, cs, namespace, args, k);
            o.calls[0] == Call.AliveContainers(namespace) &&
            (forall i :: 0 < i < |o.calls| ==> o.calls[i].WriteContainer?) &&
            (NoFaults(faults) ==> o.results.Success? && |o.results.value| == |args| &&
                                  |o.calls| == 1 + SuccessCount(o.results.value))
  {
    if FaultAt(faults, k).None? {
      AttachPrefixWrites(faults, cs, args, |args|, k + 1);
      var o := AttachPrefix(faults, cs, args, |args|, k + 1);
      forall i | 0 < i < |[Call.AliveContainers(namespace)] + o.calls|
        ensures ([Call.AliveContainers(namespace)] + o.calls)[i].WriteContainer?
      {
        assert ([Call.AliveContainers(namespace)] + o.calls)[i] == o.calls[i - 1];
      }
    }
    if NoFaults(faults) {
      NoFaultAt(faults, k);
      AttachPrefixCount(faults, cs, args, |args|, k + 1);
    }
  }

  /**
   * The first item of the attach test: filesystem 0 goes onto "inst-0",
   * which holds only filesystem 1's device; the disk device is added beside
   * it and the container is written once.
   */
  lemma AttachScenarioFirstItem(faults: seq<Option<Error>>, pool: string, inst: string, existing: Device,
                                m0: MachineTag, vol0: string, path0: string)
    requires NoFaults(faults) && ':' !in pool
    ensures var cs := [ContainerState(inst, map[FilesystemTag("1").String() := existing])];
            var a0 := FilesystemAttachmentParams(m0, inst, true, FilesystemTag("0"), FormatFilesystemId(pool, vol0), path0);
            var devices := map[FilesystemTag("1").String() := existing,
                               FilesystemTag("0").String() := DiskDevice(pool, vol0, path0, true)];
            AttachItem(faults, cs, a0, 1)
            == Step([ContainerState(inst, devices)],
                    Success(FilesystemAttachment(FilesystemTag("0"), m0, FilesystemAttachmentInfo(path0, true))),
                    [Call.WriteContainer(inst, devices)])
  {
    var cs := [ContainerState(inst, map[FilesystemTag("1").String() := existing])];
    var a0 := FilesystemAttachmentParams(m0, inst, true, FilesystemTag("0"), FormatFilesystemId(pool, vol0), path0);
    var devices := map[FilesystemTag("1").String() := existing,
                       FilesystemTag("0").String() := DiskDevice(pool, vol0, path0, true)];
    NoFaultAt(faults, 1);
    assert FilesystemTag("0").String()[|FilesystemTagPrefix|] != FilesystemTag("1").String()[|FilesystemTagPrefix|];
    assert cs[0].devices[a0.filesystem.String() := DiskDevice(pool, vol0, path0, true)] == devices;
    assert SetDevices(cs, 0, devices) == [ContainerState(inst, devices)];
    assert FindContainer(cs, inst) == Some(0);
    AttachNewDevice(faults, cs, a0, 1, 0, pool, vol0);
  }

  /**
   * The attach test: instance "inst-0" is alive and already holds a device
   * for filesystem 1; filesystem 0 is attached to it read-only, filesystem 1
   * collides, and filesystem 2 names an instance that is not alive. Only
   * the first succeeds, and the container is written once, with the new
   * disk device added to what it had.
   */
  lemma AttachScenario(faults: seq<Option<Error>>, namespace: string, pool: string, inst: string, other: string,
                       existing: Device, m0: MachineTag, m2: MachineTag, vol0: string, vol1: string, vol2: string,
                       path0: string, path1: string, path2: string)
    requires NoFaults(faults) && inst != other && ':' !in pool
    ensures var cs := [ContainerState(inst, map[FilesystemTag("1").String() := existing])];
            var a0 := FilesystemAttachmentParams(m0, inst, true, FilesystemTag("0"), FormatFilesystemId(pool, vol0), path0);
            var a1 := FilesystemAttachmentParams(m0, inst, true, FilesystemTag("1"), FormatFilesystemId(pool, vol1), path1);
            var a2 := FilesystemAttachmentParams(m2, other, false, FilesystemTag("2"), FormatFilesystemId(pool, vol2), path2);
            var devices := map[FilesystemTag("1").String() := existing,
                               FilesystemTag("0").String() := DiskDevice(pool, vol0, path0, true)];
            AttachAll(faults, cs, namespace, [a0, a1, a2], 0) ==
              ContainerBatch(
                [ContainerState(inst, devices)],
                Success([
                  Success(FilesystemAttachment(FilesystemTag("0"), m0, FilesystemAttachmentInfo(path0, true))),
                  Failure(Annotate(AttachContext(a1), DeviceExistsError(inst, FilesystemTag("1").String()))),
                  Failure(Annotate(AttachContext(a2), InstanceNotFound(other)))]),
                [Call.AliveContainers(namespace), Call.WriteContainer(inst, devices)])
  {
    var cs := [ContainerState(inst, map[FilesystemTag("1").String() := existing])];
    var a0 := FilesystemAttachmentParams(m0, inst, true, FilesystemTag("0"), FormatFilesystemId(pool, vol0), path0);
    var a1 := FilesystemAttachmentParams(m0, inst, true, FilesystemTag("1"), FormatFilesystemId(pool, vol1), path1);
    var a2 := FilesystemAttachmentParams(m2, other, false, FilesystemTag("2"), FormatFilesystemId(pool, vol2), path2);
    var args := [a0, a1, a2];
    var devices := map[FilesystemTag("1").String() := existing,
                       FilesystemTag("0").String() := DiskDevice(pool, vol0, path0, true)];
    var cs' := [ContainerState(inst, devices)];
    var r0 := Success(FilesystemAttachment(FilesystemTag("0"), m0, FilesystemAttachmentInfo(path0, true)));
    var r1 := Failure(Annotate(AttachContext(a1), DeviceExistsError(inst, FilesystemTag("1").String())));
    var r2 := Failure(Annotate(AttachContext(a2), InstanceNotFound(other)));
    AttachScenarioFirstItem(faults, pool, inst, existing, m0, vol0, path0);
    assert FilesystemTag("1").String() in devices;
    assert FindContainer(cs', inst) == Some(0) && FindContainer(cs', other) == None;
    var o0: Outcome<seq<ContainerState>, Result<FilesystemAttachment, Error>> := Outcome(cs, [], []);
    assert AttachPrefix(faults, cs, args, 0, 1) == o0;
    hide AttachItem, AttachPrefix, AttachContext, Annotate, FindContainer, NoFaults, ParseFilesystemId, DiskDevice,
         FilesystemTag.String, DeviceExistsError, InstanceNotFound, FormatFilesystemId;
    var st0 := Step(cs', r0, [Call.WriteContainer(inst, devices)]);
    AttachPrefixStep(faults, cs, args, 0, 1, o0, st0);
    var o1 := Outcome(cs', [r0], [Call.WriteContainer(inst, devices)]);
    assert o0.results + [st0.result] == o1.results && o0.calls + st0.calls == o1.calls;
    AttachExistingDevice(faults, cs', a1, 2, 0);
    var st1 := Step(cs', r1, []);
    AttachPrefixStep(faults, cs, args, 1, 1, o1, st1);
    var o2 := Outcome(cs', [r0, r1], [Call.WriteContainer(inst, devices)]);
    assert o1.results + [st1.result] == o2.results && o1.calls + st1.calls == o2.calls;
    AttachUnknownInstance(faults, cs', a2, 2);
    var st2 := Step(cs', r2, []);
    AttachPrefixStep(faults, cs, args, 2, 1, o2, st2);
    var o3 := Outcome(cs', [r0, r1, r2], [Call.WriteContainer(inst, devices)]);
    assert o2.results + [st2.result] == o3.results && o2.calls + st2.calls == o3.calls;
    assert [Call.AliveContainers(namespace)] + o3.calls == [Call.AliveContainers(namespace), Call.WriteContainer(inst, devices)];
  }

  // ---------------------------------------------------------------- detach

  /** The device names the first n items take off container j. */
  ghost function Removed(cs: seq<ContainerState>, args: seq<FilesystemAttachmentParams>, n: nat, j: nat): set<string>
    requires n <= |args|
  {
    if n == 0 then {}
    else Removed(cs, args, n - 1, j) +
         (if FindContainer(cs, args[n - 1].instanceId) == Some(j) then {args[n - 1].filesystem.String()} else {})
  }

  /** How many of the first n items name an alive instance. */
  ghost function Found(cs: seq<ContainerState>, args: seq<FilesystemAttachmentParams>, n: nat): nat
    requires n <= |args|
  {
    if n == 0 then 0
    else Found(cs, args, n - 1) + (if FindContainer(cs, args[n - 1].instanceId).Some? then 1 else 0)
  }

  /**
   * One detach step keeps "each container has its devices less those
   * removed so far": the item takes its device off the container it names
   * and leaves the others alone.
   */
  lemma RemovedStep(cs: seq<ContainerState>, args: seq<FilesystemAttachmentParams>, n: nat,
                    before: seq<ContainerState>, after: seq<ContainerState>, target: Option<nat>)
    requires 0 < n <= |args| && |before| == |cs| && |after| == |cs|
    requires target == FindContainer(cs, args[n - 1].instanceId)
    requires forall j :: 0 <= j < |cs| ==> before[j].devices == cs[j].devices - Removed(cs, args, n - 1, j)
    requires forall j :: 0 <= j < |cs| ==>
               after[j].devices == if target == Some(j) then before[j].devices - {args[n - 1].filesystem.String()} else before[j].devices
    ensures forall j :: 0 <= j < |cs| ==> after[j].devices == cs[j].devices - Removed(cs, args, n, j)
  {
    forall j | 0 <= j < |cs|
      ensures after[j].devices == cs[j].devices - Removed(cs, args, n, j)
    {
      if target == Some(j) {
        assert Removed(cs, args, n, j) == Removed(cs, args, n - 1, j) + {args[n - 1].filesystem.String()};
      } else {
        assert Removed(cs, args, n, j) == Removed(cs, args, n - 1, j);
      }
    }
  }

  /**
   * Detaching the first n items leaves each container with exactly its
   * devices less those of the items aimed at it.
   */
  lemma {:induction false} DetachPrefixDevices(faults: seq<Option<Error>>, cs: seq<ContainerState>, args: seq<FilesystemAttachmentParams>, n: nat, k: nat)
    requires n <= |args|
    ensures var o := DetachPrefix(faults, cs, args, n, k);
            SameNames(cs, o.state) &&
            forall j :: 0 <= j < |cs| ==> o.state[j].devices == cs[j].devices - Removed(cs, args, n, j)
  {
    hide DetachItem, SetDevices;
    if n > 0 {
      hide DetachPrefix, Removed;
      DetachPrefixDevices(faults, cs, args, n - 1, k);
      var prev := DetachPrefix(faults, cs, args, n - 1, k);
      var a := args[n - 1];
      var st := DetachItem(faults, prev.state, a, k + |prev.calls|);
      DetachPrefixStep(faults, cs, args, n - 1, k, prev, st);
      DetachItemFacts(faults, prev.state, a, k + |prev.calls|);
      FindContainerSameNames(cs, prev.state, a.instanceId);
      RemovedStep(cs, args, n, prev.state, st.state, FindContainer(cs, a.instanceId));
    }
  }

  /** The only call a detach item can make is a container write. */
  lemma DetachItemWrites(faults: seq<Option<Error>>, cs: seq<ContainerState>, a: FilesystemAttachmentParams, k: nat)
    ensures OnlyWrites(DetachItem(faults, cs, a, k).calls)
  {
  }

  /** Detaching the first n items writes one container per item whose instance is alive, and does nothing else. */
  lemma {:induction false} DetachPrefixCalls(faults: seq<Option<Error>>, cs: seq<ContainerState>, args: seq<FilesystemAttachmentParams>, n: nat, k: nat)
    requires n <= |args|
    ensures var o := DetachPrefix(faults, cs, args, n, k);
            SameNames(cs, o.state) && |o.calls| == Found(cs, args, n) && OnlyWrites(o.calls)
  {
    hide DetachItem, SetDevices;
    if n > 0 {
      hide DetachPrefix, OnlyWrites;
      DetachPrefixCalls(faults, cs, args, n - 1, k);
      var prev := DetachPrefix(faults, cs, args, n - 1, k);
      var a := args[n - 1];
      var st := DetachItem(faults, prev.state, a, k + |prev.calls|);
      DetachPrefixStep(faults, cs, args, n - 1, k, prev, st);
      DetachItemFacts(faults, prev.state, a, k + |prev.calls|);
      DetachItemWrites(faults, prev.state, a, k + |prev.calls|);
      OnlyWritesAppend(prev.calls, st.calls);
      FindContainerSameNames(cs, prev.state, a.instanceId);
    }
  }

  /** Without injected errors, detaching never reports an error. */
  lemma {:induction false} DetachPrefixNoFaults(faults: seq<Option<Error>>, cs: seq<ContainerState>, args: seq<FilesystemAttachmentParams>, n: nat, k: nat)
    requires n <= |args| && NoFaults(faults)
    ensures var o := DetachPrefix(faults, cs, args, n, k);
            forall i :: 0 <= i < n ==> o.results[i].None?
  {
    hide DetachItem, SetDevices, NoFaults;
    if n > 0 {
      hide DetachPrefix;
      DetachPrefixNoFaults(faults, cs, args, n - 1, k);
      var prev := DetachPrefix(faults, cs, args, n - 1, k);
      var a := args[n - 1];
      var st := DetachItem(faults, prev.state, a, k + |prev.calls|);
      DetachPrefixStep(faults, cs, args, n - 1, k, prev, st);
      DetachItemFacts(faults, prev.state, a, k + |prev.calls|);
      NoFaultAt(faults, k + |prev.calls|);
      forall i | 0 <= i < n
        ensures (prev.results + [st.result])[i].None?
      {
        if i < n - 1 {
          assert (prev.results + [st.result])[i] == prev.results[i];
        }
      }
    }
  }

  /**
   * Attaching a new device and then detaching the same filesystem gives
   * back the containers as they were.
   */
  lemma AttachThenDetach(faults: seq<Option<Error>>, cs: seq<ContainerState>, a: FilesystemAttachmentParams, k: nat, k': nat,
                         j: nat, pool: string, volume: string)
    requires FindContainer(cs, a.instanceId) == Some(j) && ':' !in pool && a.filesystemId == FormatFilesystemId(pool, volume)
    requires a.filesystem.String() !in cs[j].devices && FaultAt(faults, k).None?
    ensures DetachItem(faults, AttachItem(faults, cs, a, k).state, a, k').state == cs
  {
    var key := a.filesystem.String();
    var devices := cs[j].devices[key := DiskDevice(pool, volume, a.path, a.readOnly)];
    AttachNewDevice(faults, cs, a, k, j, pool, volume);
    var cs' := SetDevices(cs, j, devices);
    FindContainerSameNames(cs, cs', a.instanceId);
    assert devices - {key} == cs[j].devices;
    assert SetDevices(cs', j, devices - {key}) == cs;
  }

  /**
   * The detach test: instance "inst-0" holds a device for filesystem 0;
   * filesystems 0 and 1 are detached from it and filesystem 2 from an
   * instance that is not alive. No item fails, the container is written
   * twice and ends with no devices.
   */
  lemma DetachScenario(faults: seq<Option<Error>>, namespace: string, inst: string, other: string, existing: Device,
                       m0: MachineTag, m2: MachineTag, id0: string, id1: string, id2: string,
                       path0: string, path1: string, path2: string)
    requires NoFaults(faults) && inst != other
    ensures var cs := [ContainerState(inst, map[FilesystemTag("0").String() := existing])];
            var a0 := FilesystemAttachmentParams(m0, inst, false, FilesystemTag("0"), id0, path0);
            var a1 := FilesystemAttachmentParams(m0, inst, false, FilesystemTag("1"), id1, path1);
            var a2 := FilesystemAttachmentParams(m2, other, false, FilesystemTag("2"), id2, path2);
            var empty: Devices := map[];
            DetachAll(faults, cs, namespace, [a0, a1, a2], 0) ==
              ContainerBatch([ContainerState(inst, empty)], Success([None, None, None]),
                             [Call.AliveContainers(namespace), Call.WriteContainer(inst, empty), Call.WriteContainer(inst, empty)])
  {
    var cs := [ContainerState(inst, map[FilesystemTag("0").String() := existing])];
    var a0 := FilesystemAttachmentParams(m0, inst, false, FilesystemTag("0"), id0, path0);
    var a1 := FilesystemAttachmentParams(m0, inst, false, FilesystemTag("1"), id1, path1);
    var a2 := FilesystemAttachmentParams(m2, other, false, FilesystemTag("2"), id2, path2);
    var args := [a0, a1, a2];
    var empty: Devices := map[];
    var cs' := [ContainerState(inst, empty)];
    NoFaultAt(faults, 0);
    NoFaultAt(faults, 1);
    NoFaultAt(faults, 2);
    var o0: Outcome<seq<ContainerState>, Option<Error>> := Outcome(cs, [], []);
    assert DetachPrefix(faults, cs, args, 0, 1) == o0;
    assert cs[0].devices - {a0.filesystem.String()} == empty;
    var st0 := Step(cs', None, [Call.WriteContainer(inst, empty)]);
    assert FindContainer(cs, inst) == Some(0);
    assert SetDevices(cs, 0, empty) == cs';
    assert DetachItem(faults, cs, a0, 1) == st0;
    DetachPrefixStep(faults, cs, args, 0, 1, o0, st0);
    var o1 := Outcome(cs', [None], [Call.WriteContainer(inst, empty)]);
    assert empty - {a1.filesystem.String()} == empty;
    var st1 := Step(cs', None, [Call.WriteContainer(inst, empty)]);
    assert FindContainer(cs', inst) == Some(0);
    assert SetDevices(cs', 0, empty) == cs';
    assert DetachItem(faults, cs', a1, 2) == st1;
    DetachPrefixStep(faults, cs, args, 1, 1, o1, st1);
    var o2 := Outcome(cs', [None, None], [Call.WriteContainer(inst, empty), Call.WriteContainer(inst, empty)]);
    assert FindContainer(cs', other) == None;
    var st2: Step<seq<ContainerState>, Option<Error>> := Step(cs', None, []);
    assert DetachItem(faults, cs', a2, 3) == st2;
    DetachPrefixStep(faults, cs, args, 2, 1, o2, st2);
    var o3 := Outcome(cs', [None, None, None], [Call.WriteContainer(inst, empty), Call.WriteContainer(inst, empty)]);
    assert DetachPrefix(faults, cs, args, |args|, 1) == o3;
    assert [Call.AliveContainers(namespace)] + o3.calls
        == [Call.AliveContainers(namespace), Call.WriteContainer(inst, empty), Call.WriteContainer(inst, empty)];
  }

  // ---------------------------------------------------------------- default pools

  /** The calls that create the two default LXD pools. */
  function CreateZfs(): Call {
    Call.CreatePool("juju-zfs", "zfs", Some(map["zfs.pool_name" := "juju-lxd"]))
  }

  function CreateBtrfs(): Call {
    Call.CreatePool("juju-btrfs", "btrfs", None)
  }

  /** What the default pools ask of LXD: their pool names, drivers, and zfs's own pool name. */
  lemma DefaultPoolConfigs()
    ensures PoolConfigOf(ZfsPool.attributes, "") == PoolConfig("juju-zfs", "zfs", Some(map["zfs.pool_name" := "juju-lxd"]))
    ensures PoolConfigOf(BtrfsPool.attributes, "") == PoolConfig("juju-btrfs", "btrfs", None)
  {
    var zfsRest := ZfsPool.attributes - {DriverAttr, LxdPoolAttr};
    assert zfsRest == map["zfs.pool_name" := "juju-lxd"];
    assert "zfs.pool_name" in zfsRest;
    assert LxdPoolAttr in ZfsPool.attributes && ZfsPool.attributes[LxdPoolAttr] == "juju-zfs";
    assert DriverAttr in ZfsPool.attributes && ZfsPool.attributes[DriverAttr] == "zfs";
    assert BtrfsPool.attributes - {DriverAttr, LxdPoolAttr} == map[];
    assert LxdPoolAttr in BtrfsPool.attributes && BtrfsPool.attributes[LxdPoolAttr] == "juju-btrfs";
    assert DriverAttr in BtrfsPool.attributes && BtrfsPool.attributes[DriverAttr] == "btrfs";
  }

  /** Both LXD pools can be created: both pools are offered, lxd-zfs first, after two pool creations. */
  lemma DefaultPoolsAllCreated(faults: seq<Option<Error>>, k: nat)
    requires FaultAt(faults, k).None? && FaultAt(faults, k + 1).None?
    ensures DefaultPools(faults, k) == Pools([ZfsPool, BtrfsPool], [CreateZfs(), CreateBtrfs()])
  {
    DefaultPoolConfigs();
  }

  /**
   * The zfs pool can neither be created nor found: only lxd-btrfs is
   * offered, after creating the zfs pool, asking for it, and creating the
   * btrfs pool.
   */
  lemma DefaultPoolsZfsMissing(faults: seq<Option<Error>>, k: nat)
    requires FaultAt(faults, k).Some? && FaultAt(faults, k + 1).Some? && FaultAt(faults, k + 2).None?
    ensures DefaultPools(faults, k) == Pools([BtrfsPool], [CreateZfs(), Call.GetStoragePool("juju-zfs"), CreateBtrfs()])
  {
    DefaultPoolConfigs();
  }
}
