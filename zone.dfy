/**
 * GCE availability zones: a zone built from a name and a status, its
 * availability rule, and the reduction of a qualified zone URL to the
 * zone's unqualified name.
 */
module Zone {

  /** The status GCE reports for a zone that accepts new instances. */
  const StatusUp: string := "UP"

  /** A single GCE zone: its name and its status string. */
  datatype AvailabilityZone = AvailabilityZone(name: string, status: string) {

    /** The zone's name. */
    function Name(): string
    {
      name
    }

    /** The zone's status string. */
    function Status(): string
    {
      status
    }

    /** A zone is available for provisioning exactly when its status is "UP". */
    predicate Available()
    {
      Status() == StatusUp
    }
  }

  /** Builds a zone from a name and a status. */
  function NewZone(name: string, status: string): (z: AvailabilityZone)
    ensures z.Name() == name && z.Status() == status
  {
    AvailabilityZone(name, status)
  }

  /** Whatever a zone is built with, its getters give back, and it is available iff its status is "UP". */
  lemma NewZoneRoundTrip(name: string, status: string)
    ensures NewZone(name, status).Name() == name
    ensures NewZone(name, status).Status() == status
    ensures NewZone(name, status).Available() <==> status == StatusUp
  {
  }

  /** Every zone is the one built from its own name and status. */
  lemma ZoneRebuilt(z: AvailabilityZone)
    ensures NewZone(z.Name(), z.Status()) == z
    ensures z.Available() <==> NewZone(z.Name(), z.Status()).Available()
  {
  }

  // ---------------------------------------------------------------- path.Base

  /** The path with every trailing '/' removed. */
  function StripTrailingSlashes(p: string): (r: string)
    ensures r <= p
    ensures r == [] || r[|r| - 1] != '/'
    ensures forall i :: |r| <= i < |p| ==> p[i] == '/'
  {
    if p != [] && p[|p| - 1] == '/' then StripTrailingSlashes(p[..|p| - 1]) else p
  }

  /** What follows the last '/' of the path (all of it when there is none). */
  function LastElement(p: string): (r: string)
    ensures |r| <= |p| && r == p[|p| - |r|..]
    ensures '/' !in r
    ensures |r| < |p| ==> p[|p| - |r| - 1] == '/'
  {
    if p == [] || p[|p| - 1] == '/' then [] else LastElement(p[..|p| - 1]) + [p[|p| - 1]]
  }

  /**
   * The last element of a slash-separated path, as Go's path.Base gives
   * it: trailing slashes are dropped first; the empty path gives "." and a
   * path of only slashes gives "/".
   */
  function PathBase(p: string): (r: string)
    ensures r != []
    ensures r == "/" || r == "." || '/' !in r
  {
    if p == [] then "."
    else
      var element := LastElement(StripTrailingSlashes(p));
      if element == [] then "/" else element
  }

  /** A non-empty name with no slash is its own last element. */
  lemma {:induction false} LastElementOfName(z: string)
    requires '/' !in z
    ensures LastElement(z) == z
    decreases |z|
  {
    if z != [] {
      assert z[..|z| - 1] + [z[|z| - 1]] == z;
      LastElementOfName(z[..|z| - 1]);
    }
  }

  /** The last element only looks past the last '/'. */
  lemma {:induction false} LastElementAfterSlash(prefix: string, z: string)
    requires '/' !in z
    ensures LastElement(prefix + "/" + z) == z
    decreases |z|
  {
    if z == [] {
      assert (prefix + "/")[|prefix + "/"| - 1] == '/';
    } else {
      var p := prefix + "/" + z;
      assert p[..|p| - 1] == prefix + "/" + z[..|z| - 1];
      LastElementAfterSlash(prefix, z[..|z| - 1]);
      assert z[..|z| - 1] + [z[|z| - 1]] == z;
    }
  }

  /** A plain zone name is its own base. */
  lemma PathBaseOfName(z: string)
    requires z != [] && '/' !in z
    ensures PathBase(z) == z
  {
    assert z[|z| - 1] in z;
    LastElementOfName(z);
  }

  /** A qualified zone URL ".../zones/<zone>" has the zone's name as its base. */
  lemma PathBaseOfQualified(prefix: string, z: string)
    requires z != [] && '/' !in z
    ensures PathBase(prefix + "/" + z) == z
  {
    var p := prefix + "/" + z;
    assert p[|p| - 1] == z[|z| - 1];
    assert z[|z| - 1] in z;
    LastElementAfterSlash(prefix, z);
  }

  /** A trailing slash does not change the base of a non-empty path. */
  lemma PathBaseTrailingSlash(p: string)
    requires p != []
    ensures PathBase(p + "/") == PathBase(p)
  {
    var q := p + "/";
    assert q != [] && q[|q| - 1] == '/';
    assert q[..|q| - 1] == p;
    assert StripTrailingSlashes(q) == StripTrailingSlashes(p);
  }

  /** Taking the base twice gives the same as taking it once. */
  lemma PathBaseIdempotent(p: string)
    ensures PathBase(PathBase(p)) == PathBase(p)
  {
    var r := PathBase(p);
    if r == "/" {
      assert StripTrailingSlashes(r) == [];
    } else {
      PathBaseOfName(r);
    }
  }

  // ---------------------------------------------------------------- zoneName

  /**
   * The values zoneName distinguishes: a compute API instance or operation
   * (each with its qualified zone URL), a provider instance (whose summary
   * carries the zone name), and anything else.
   */
  datatype ZoneSource =
    | ComputeInstance(zone: string)
    | ComputeOperation(zone: string)
    | GoogleInstance(summaryZoneName: string)
    | Other

  /** The unqualified zone name of a value, or "" for a value that carries none. */
  function ZoneName(value: ZoneSource): (r: string)
    ensures value.Other? <==> r == []
    ensures value.ComputeInstance? || value.ComputeOperation? ==> r == PathBase(value.zone)
    ensures value.GoogleInstance? ==> r == PathBase(value.summaryZoneName)
  {
    match value
    case ComputeInstance(zone) => PathBase(zone)
    case ComputeOperation(zone) => PathBase(zone)
    case GoogleInstance(summaryZoneName) => PathBase(summaryZoneName)
    case Other => ""
  }

  /**
   * Whichever of the three carriers holds a qualified zone URL, zoneName
   * gives the zone's own name, and that name is a fixed point of zoneName.
   */
  lemma ZoneNameOfQualified(prefix: string, z: string)
    requires z != [] && '/' !in z
    ensures ZoneName(ComputeInstance(prefix + "/" + z)) == z
    ensures ZoneName(ComputeOperation(prefix + "/" + z)) == z
    ensures ZoneName(GoogleInstance(prefix + "/" + z)) == z
    ensures ZoneName(ComputeInstance(z)) == z
    ensures ZoneName(ComputeOperation(z)) == z
    ensures ZoneName(GoogleInstance(z)) == z
  {
    PathBaseOfQualified(prefix, z);
    PathBaseOfName(z);
  }
}
