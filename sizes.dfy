/**
 * Volume sizes as LXD volume config stores them. Sizes are written as
 * "<N>MB" and read back as mebibytes: a decimal integer followed by an
 * optional multiplier suffix M, G, T, P, E, Z or Y, each alone or followed
 * by "B" or "iB", every step a factor of 1024 (so "10GB" is 10240 MiB); no
 * suffix means MiB.
 */
module Sizes {
  import opened Wrappers
  import opened Errors
  import opened Decimal

  const SizeSuffixes: string := "MGTPEZY"
  const NotANumberMessage: string := "expected a non-negative number, got "
  const BadSuffixMessage: string := "invalid multiplier suffix "
  const ExpectedSuffixWord: string := ", expected one of "

  function Pow1024(j: nat): (r: nat)
    ensures r >= 1
  {
    if j == 0 then 1 else 1024 * Pow1024(j - 1)
  }

  /** The three spellings of the j-th multiplier: "G", "GB" and "GiB" for j = 1. */
  predicate IsSuffixForm(suffix: string, j: nat)
    requires j < |SizeSuffixes|
  {
    suffix == [SizeSuffixes[j]] || suffix == [SizeSuffixes[j], 'B'] || suffix == [SizeSuffixes[j], 'i', 'B']
  }

  /** The multiplier of the first suffix at or after position j that the text spells. */
  function SuffixFrom(suffix: string, j: nat): Option<nat>
    requires j <= |SizeSuffixes|
    decreases |SizeSuffixes| - j
  {
    if j == |SizeSuffixes| then None
    else if IsSuffixForm(suffix, j) then Some(Pow1024(j))
    else SuffixFrom(suffix, j + 1)
  }

  function SuffixMultiplier(suffix: string): Option<nat> {
    SuffixFrom(suffix, 0)
  }

  /** The length of the longest all-digit prefix of s. */
  function DigitPrefixLength(s: string): (i: nat)
    ensures i <= |s| && AllDigits(s[..i])
    ensures i < |s| ==> !IsDigit(s[i])
    decreases |s|
  {
    if s == [] || !IsDigit(s[0]) then 0
    else
      var i := DigitPrefixLength(s[1..]);
      assert s[..i + 1] == [s[0]] + s[1..][..i];
      i + 1
  }

  /** The size a volume's "size" config entry denotes, in MiB. */
  function ParseSize(s: string): Result<nat, Error> {
    var i := DigitPrefixLength(s);
    ParseSplit(s, s[..i], s[i..])
  }

  /** ParseSize once s is split into its digits and the rest. */
  function ParseSplit(s: string, digits: string, suffix: string): Result<nat, Error>
    requires AllDigits(digits)
  {
    if digits == [] then
      Failure(Error(Generic, NotANumberMessage + Quote(s)))
    else if suffix == [] then
      Success(ParseDigits(digits))
    else match SuffixMultiplier(suffix)
      case None => Failure(Error(Generic, BadSuffixMessage + Quote(suffix) + ExpectedSuffixWord + SizeSuffixes))
      case Some(m) => Success(ParseDigits(digits) * m)
  }

  /** The "size" entry written when a volume is created: fmt.Sprintf("%dMB", n). */
  function FormatSizeMB(n: nat): string {
    NatToString(n) + "MB"
  }

  /** The digits of a numeral followed by a non-digit end where the numeral ends. */
  lemma {:induction false} DigitPrefixOfNumeral(d: string, unit: string)
    requires AllDigits(d)
    requires unit == [] || !IsDigit(unit[0])
    ensures DigitPrefixLength(d + unit) == |d|
    decreases |d|
  {
    if d != [] {
      assert (d + unit)[1..] == d[1..] + unit;
      DigitPrefixOfNumeral(d[1..], unit);
    } else {
      assert d + unit == unit;
    }
  }

  /** Each spelling of the j-th multiplier is found by the search, whatever earlier multiplier it starts from. */
  lemma {:induction false} SuffixFromFinds(unit: string, j: nat, i: nat)
    requires i <= j < |SizeSuffixes|
    requires IsSuffixForm(unit, j)
    ensures SuffixFrom(unit, i) == Some(Pow1024(j))
    decreases j - i
  {
    if i < j {
      assert SizeSuffixes[i] != SizeSuffixes[j];
      assert !IsSuffixForm(unit, i);
      SuffixFromFinds(unit, j, i + 1);
    }
  }

  /** A numeral followed by no suffix or by a spelling of the j-th multiplier parses to its value times that multiplier. */
  lemma ParseSizeOf(n: nat, unit: string, j: nat)
    requires j < |SizeSuffixes|
    requires unit == "" || IsSuffixForm(unit, j)
    ensures ParseSize(NatToString(n) + unit) == Success(n * (if unit == "" then 1 else Pow1024(j)))
  {
    var d := NatToString(n);
    var s := d + unit;
    DigitPrefixOfNumeral(d, unit);
    assert s[..|d|] == d;
    assert s[|d|..] == unit;
    ParseNatToString(n);
    if unit != "" {
      SuffixFromFinds(unit, j, 0);
    }
  }

  /** The size written at creation reads back as the same number of MiB. */
  lemma ParseFormatSize(n: nat)
    ensures ParseSize(FormatSizeMB(n)) == Success(n)
  {
    ParseSizeOf(n, "MB", 0);
  }

  /** "<n>GB" is n * 1024 MiB. */
  lemma ParseSizeGB(n: nat)
    ensures ParseSize(NatToString(n) + "GB") == Success(n * 1024)
  {
    ParseSizeOf(n, "GB", 1);
  }

  /** A string that does not start with a digit is not a size. */
  lemma ParseSizeNeedsDigits(s: string)
    requires s == [] || !IsDigit(s[0])
    ensures ParseSize(s).Failure?
  {
  }
}
