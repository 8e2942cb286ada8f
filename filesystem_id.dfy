/**
 * The textual identity of an LXD-backed filesystem: "<lxd-pool>:<volume-name>".
 * Parsing splits at the first ':' (strings.SplitN with n = 2), so the volume
 * part may itself contain ':'; the pool part never does.
 */
module FilesystemIds {
  import opened Wrappers
  import opened Errors

  /** The first position of c in s, if any. */
  function IndexOf(s: string, c: char): (r: Option<nat>)
    ensures r.Some? ==> r.value < |s|
    decreases |s|
  {
    if s == [] then None
    else if s[0] == c then Some(0)
    else match IndexOf(s[1..], c)
      case None => None
      case Some(i) => Some(i + 1)
  }

  /** IndexOf finds the first occurrence, and finds none only when there is none. */
  lemma {:induction false} IndexOfFirst(s: string, c: char)
    ensures IndexOf(s, c).Some? ==> IndexOf(s, c).value < |s| && s[IndexOf(s, c).value] == c && c !in s[..IndexOf(s, c).value]
    ensures IndexOf(s, c).None? ==> c !in s
    decreases |s|
  {
    if s != [] && s[0] != c {
      IndexOfFirst(s[1..], c);
      if IndexOf(s[1..], c).Some? {
        var i := IndexOf(s[1..], c).value;
        assert s[..i + 1] == [s[0]] + s[1..][..i];
      }
    }
  }

  const InvalidIdPrefix: string := "invalid filesystem ID "
  const InvalidIdHint: string := "; expected ID in format <lxd-pool>:<volume-name>"

  function InvalidIdError(id: string): Error {
    Error(Generic, InvalidIdPrefix + Quote(id) + InvalidIdHint)
  }

  function FormatFilesystemId(pool: string, volume: string): string {
    pool + ":" + volume
  }

  /** Splits an ID into pool and volume name at its first ':'. */
  function ParseFilesystemId(id: string): Result<(string, string), Error> {
    match IndexOf(id, ':')
    case None => Failure(InvalidIdError(id))
    case Some(i) => Success((id[..i], id[i + 1..]))
  }

  /**
   * Parsing fails exactly when the ID has no ':' at all, and then with the
   * per-item "invalid filesystem ID" error; otherwise the pool part has no
   * ':' and the two parts format back to the ID.
   */
  lemma ParseFilesystemIdCases(id: string)
    ensures ParseFilesystemId(id).Success? <==> ':' in id
    ensures ParseFilesystemId(id).Success? ==>
      ':' !in ParseFilesystemId(id).value.0 &&
      FormatFilesystemId(ParseFilesystemId(id).value.0, ParseFilesystemId(id).value.1) == id
    ensures ParseFilesystemId(id).Failure? ==> ParseFilesystemId(id).error == InvalidIdError(id)
  {
    IndexOfFirst(id, ':');
    if IndexOf(id, ':').Some? {
      var i := IndexOf(id, ':').value;
      assert id == id[..i] + ":" + id[i + 1..];
    }
  }

  /** Formatting then parsing gives back the pool and the volume name. */
  lemma ParseFormat(pool: string, volume: string)
    requires ':' !in pool
    ensures ParseFilesystemId(FormatFilesystemId(pool, volume)) == Success((pool, volume))
  {
    var id := FormatFilesystemId(pool, volume);
    assert id[|pool|] == ':';
    IndexOfFirst(id, ':');
    var i := IndexOf(id, ':').value;
    assert i == |pool|;
    assert id[..i] == pool;
    assert id[i + 1..] == volume;
  }

  /** Every well-formed ID is the formatting of its own parts. */
  lemma FormatParse(id: string)
    requires ':' in id
    ensures ParseFilesystemId(id).Success?
    ensures FormatFilesystemId(ParseFilesystemId(id).value.0, ParseFilesystemId(id).value.1) == id
  {
    ParseFilesystemIdCases(id);
  }
}
