/**
 * The few java.lang.String operations the controllers rely on, over `seq<char>`.
 * Case conversion is ASCII-only; see README for what that leaves out.
 */
module Strings {

  /** `String.trim()` strips every character whose code is at most U+0020. */
  predicate IsTrimmable(c: char) {
    c <= ' '
  }

  /** The first index from `i` on that holds a character `trim()` keeps (or `|s|`). */
  function SkipStart(s: string, i: nat): (r: nat)
    requires i <= |s|
    ensures i <= r <= |s| && (r == |s| || !IsTrimmable(s[r]))
    decreases |s| - i
  {
    if i < |s| && IsTrimmable(s[i]) then SkipStart(s, i + 1) else i
  }

  /** The end, no lower than `lo`, of what `trim()` keeps of `s[..j]`. */
  function SkipEnd(s: string, lo: nat, j: nat): (r: nat)
    requires lo <= j <= |s|
    ensures lo <= r <= j && (r == lo || !IsTrimmable(s[r - 1]))
  {
    if lo < j && IsTrimmable(s[j - 1]) then SkipEnd(s, lo, j - 1) else j
  }

  lemma {:induction false} SkipStartTrimmable(s: string, i: nat)
    requires i <= |s|
    ensures forall k :: i <= k < SkipStart(s, i) ==> IsTrimmable(s[k])
    decreases |s| - i
  {
    if i < |s| && IsTrimmable(s[i]) {
      SkipStartTrimmable(s, i + 1);
    }
  }

  lemma {:induction false} SkipEndTrimmable(s: string, lo: nat, j: nat)
    requires lo <= j <= |s|
    ensures forall k :: SkipEnd(s, lo, j) <= k < j ==> IsTrimmable(s[k])
  {
    if lo < j && IsTrimmable(s[j - 1]) {
      SkipEndTrimmable(s, lo, j - 1);
    }
  }

  /** `s.trim()`: `s` without its leading and trailing characters at or below U+0020. */
  function Trim(s: string): (r: string)
    ensures |r| <= |s|
    ensures r == [] || (!IsTrimmable(r[0]) && !IsTrimmable(r[|r| - 1]))
  {
    var a := SkipStart(s, 0);
    s[a..SkipEnd(s, a, |s|)]
  }

  /**
   * What `trim()` promises: the result is the part of `s` between a trimmable prefix and a
   * trimmable suffix, and it neither starts nor ends with a trimmable character.
   */
  lemma TrimSpec(s: string)
    ensures exists k :: && OccursAt(s, Trim(s), k)
                        && (forall i :: 0 <= i < k ==> IsTrimmable(s[i]))
                        && (forall i :: k + |Trim(s)| <= i < |s| ==> IsTrimmable(s[i]))
  {
    var a := SkipStart(s, 0);
    SkipStartTrimmable(s, 0);
    SkipEndTrimmable(s, a, |s|);
    assert OccursAt(s, Trim(s), a);
  }

  /** A string is blank exactly when every character of it is trimmable. */
  lemma BlankIffAllTrimmable(s: string)
    ensures Trim(s) == [] <==> forall i :: 0 <= i < |s| ==> IsTrimmable(s[i])
  {
    var a := SkipStart(s, 0);
    SkipStartTrimmable(s, 0);
    SkipEndTrimmable(s, a, |s|);
    if forall i :: 0 <= i < |s| ==> IsTrimmable(s[i]) {
      assert a == |s|;
    }
  }

  /** `s.trim().isEmpty()`: the string holds nothing but trimmable characters. */
  predicate IsBlank(s: string) {
    Trim(s) == []
  }

  /** A request field counts as given when it is non-null and not blank. */
  predicate Present(o: Option<string>) {
    o.Some? && !IsBlank(o.value)
  }

  /** ASCII `Character.toLowerCase`. */
  function LowerChar(c: char): char {
    if 'A' <= c <= 'Z' then (c as int - 'A' as int + 'a' as int) as char else c
  }

  /** ASCII `Character.toUpperCase`. */
  function UpperChar(c: char): char {
    if 'a' <= c <= 'z' then (c as int - 'a' as int + 'A' as int) as char else c
  }

  /** `s.toLowerCase()`, character by character. */
  function ToLower(s: string): (r: string)
    ensures |r| == |s|
    ensures forall i :: 0 <= i < |s| ==> r[i] == LowerChar(s[i])
  {
    seq(|s|, i requires 0 <= i < |s| => LowerChar(s[i]))
  }

  /** `s.toUpperCase()`, character by character. */
  function ToUpper(s: string): (r: string)
    ensures |r| == |s|
    ensures forall i :: 0 <= i < |s| ==> r[i] == UpperChar(s[i])
  {
    seq(|s|, i requires 0 <= i < |s| => UpperChar(s[i]))
  }

  /** A character outside the Basic Multilingual Plane, which UTF-16 stores as a surrogate pair. */
  predicate IsSupplementary(c: char) {
    c as int > 0xFFFF
  }

  /** `s.length()`: the number of UTF-16 code units, two for each supplementary character. */
  function Utf16Length(s: string): (n: nat)
    ensures |s| <= n <= 2 * |s|
    ensures n == |s| <==> forall i :: 0 <= i < |s| ==> !IsSupplementary(s[i])
  {
    if s == [] then 0
    else
      var rest := Utf16Length(s[1..]);
      assert forall i :: 1 <= i < |s| ==> s[i] == s[1..][i - 1];
      (if IsSupplementary(s[0]) then 2 else 1) + rest
  }

  /** Three emoji make six code units: `length()` counts 6 where there are 3 characters. */
  lemma Utf16LengthExample()
    ensures |"\U{1F600}\U{1F600}\U{1F600}"| == 3
    ensures Utf16Length("\U{1F600}\U{1F600}\U{1F600}") == 6
  {
    var s := "\U{1F600}\U{1F600}\U{1F600}";
    assert s[1..][1..][1..] == [];
  }

  /** No upper-case ASCII letter occurs in `s`. */
  predicate IsLowerCase(s: string) {
    forall i :: 0 <= i < |s| ==> !('A' <= s[i] <= 'Z')
  }

  /** `t` occurs in `s` starting at index `k`. */
  predicate OccursAt(s: string, t: string, k: int) {
    0 <= k && k + |t| <= |s| && s[k..k + |t|] == t
  }

  /** `s.contains(t)`: `t` occurs in `s` starting at some index. */
  predicate Contains(s: string, t: string) {
    exists k | 0 <= k <= |s| :: OccursAt(s, t, k)
  }

  /** Lower-casing leaves a string without upper-case letters, so doing it twice changes nothing. */
  lemma ToLowerIsLowerCase(s: string)
    ensures IsLowerCase(ToLower(s))
    ensures ToLower(ToLower(s)) == ToLower(s)
  {
  }

  /** `s.indexOf(c)`: the first position of `c`, if any. */
  function IndexOf(s: string, c: char): (r: Option<nat>)
    ensures r.Some? ==> r.value < |s| && s[r.value] == c && forall i :: 0 <= i < r.value ==> s[i] != c
    ensures r.None? ==> forall i :: 0 <= i < |s| ==> s[i] != c
  {
    if s == [] then None
    else if s[0] == c then Some(0)
    else match IndexOf(s[1..], c)
      case None => None
      case Some(k) => Some(k + 1)
  }

  /** `s.lastIndexOf(c)`: the last position of `c`, if any. */
  function LastIndexOf(s: string, c: char): (r: Option<nat>)
    ensures r.Some? ==> r.value < |s| && s[r.value] == c && forall i :: r.value < i < |s| ==> s[i] != c
    ensures r.None? ==> forall i :: 0 <= i < |s| ==> s[i] != c
  {
    if s == [] then None
    else if s[|s| - 1] == c then Some(|s| - 1)
    else LastIndexOf(s[..|s| - 1], c)
  }

  /** A string that neither starts nor ends with a trimmable character is its own trim. */
  lemma TrimNoop(s: string)
    requires s == [] || (!IsTrimmable(s[0]) && !IsTrimmable(s[|s| - 1]))
    ensures Trim(s) == s
  {
    if s != [] {
      assert SkipStart(s, 0) == 0;
      assert s[0..|s|] == s;
    }
  }

  /** A string that starts with a visible character is not blank. */
  lemma NotBlank(s: string)
    requires s != [] && !IsTrimmable(s[0])
    ensures !IsBlank(s)
  {
    SkipEndTrimmable(s, 0, |s|);
  }

  /** Upper-casing changes nothing in a string of upper-case letters. */
  lemma ToUpperOfUpper(s: string)
    requires forall i :: 0 <= i < |s| ==> 'A' <= s[i] <= 'Z'
    ensures ToUpper(s) == s
  {
  }

  import opened Wrappers
}
