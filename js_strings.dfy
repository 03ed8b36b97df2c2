/**
 * The JavaScript string operations the framework uses, on `seq<char>`:
 * `toUpperCase` (ASCII letters only), `startsWith`, `indexOf`, `replace` with a
 * string pattern, `slice`, `split` with a string separator, `join`, and the
 * decimal rendering of a count inside a template literal.
 */
module JsStrings {
  import opened Js

  /** ASCII upper-casing of one character; every other character is left alone. */
  function UpperChar(c: char): char {
    if 'a' <= c <= 'z' then (c as int - 32) as char else c
  }

  /** `toUpperCase`, restricted to the ASCII letters. */
  function ToUpperCase(s: string): (r: string)
    ensures |r| == |s|
    ensures forall i :: 0 <= i < |s| ==> r[i] == UpperChar(s[i])
  {
    seq(|s|, i requires 0 <= i < |s| => UpperChar(s[i]))
  }

  /** `s.startsWith(p)`. */
  predicate StartsWith(s: string, p: string) {
    |p| <= |s| && s[..|p|] == p
  }

  /** `pat` occurs in `s` starting at index `j`. */
  predicate OccursAt(s: string, pat: string, j: int) {
    0 <= j && j + |pat| <= |s| && s[j..j + |pat|] == pat
  }

  /** `s.indexOf(pat, k)`: the first occurrence at or after `k`. */
  function IndexFrom(s: string, pat: string, k: nat): (r: Option<nat>)
    requires k <= |s|
    ensures r.Some? ==> k <= r.value && OccursAt(s, pat, r.value)
    ensures r.Some? ==> forall j :: k <= j < r.value ==> !OccursAt(s, pat, j)
    ensures r.None? ==> forall j :: k <= j ==> !OccursAt(s, pat, j)
    decreases |s| - k
  {
    if k + |pat| > |s| then None
    else if s[k..k + |pat|] == pat then Some(k)
    else if k == |s| then None
    else IndexFrom(s, pat, k + 1)
  }

  function IndexOf(s: string, pat: string): (r: Option<nat>)
    ensures r.Some? ==> OccursAt(s, pat, r.value) && forall j :: 0 <= j < r.value ==> !OccursAt(s, pat, j)
    ensures r.None? ==> forall j :: !OccursAt(s, pat, j)
  {
    IndexFrom(s, pat, 0)
  }

  /** `s.replace(pat, rep)` with a string pattern: only the first occurrence is replaced. */
  function ReplaceFirst(s: string, pat: string, rep: string): (r: string)
    ensures IndexOf(s, pat).None? ==> r == s
    ensures IndexOf(s, pat).Some? ==>
      var i := IndexOf(s, pat).value; r == s[..i] + rep + s[i + |pat|..]
  {
    match IndexOf(s, pat)
    case None => s
    case Some(i) => s[..i] + rep + s[i + |pat|..]
  }

  /** `s.slice(k)` for a non-negative `k`: an index past the end gives "". */
  function SliceFrom(s: string, k: nat): (r: string)
    ensures k <= |s| ==> r == s[k..]
    ensures k > |s| ==> r == ""
  {
    if k <= |s| then s[k..] else ""
  }

  /** `parts.join(sep)`. */
  function Join(parts: seq<string>, sep: string): string {
    if |parts| == 0 then ""
    else if |parts| == 1 then parts[0]
    else parts[0] + sep + Join(parts[1..], sep)
  }

  /**
   * `s.split(sep)` for a non-empty separator: the pieces between the occurrences
   * of `sep`, scanned left to right. Joining them with `sep` gives `s` back, no
   * piece contains `sep`, and every piece but the last ends where the leftmost
   * occurrence of `sep` in the text from that piece on begins.
   */
  function Split(s: string, sep: string): (r: seq<string>)
    requires |sep| > 0
    ensures |r| >= 1
    ensures Join(r, sep) == s
    ensures forall k, j :: 0 <= k < |r| ==> !OccursAt(r[k], sep, j)
    ensures forall k :: 0 <= k < |r| - 1 ==> IndexOf(Join(r[k..], sep), sep) == Some(|r[k]|)
    decreases |s|
  {
    match IndexOf(s, sep)
    case None => [s]
    case Some(i) =>
      var rest := Split(s[i + |sep|..], sep);
      FirstPiece(s, sep, i);
      var r := [s[..i]] + rest;
      assert r[1..] == rest;
      assert forall k :: 1 <= k < |r| ==> r[k..] == rest[k - 1..];
      assert r[0..] == r;
      r
  }

  /** Occurrences are taken leftmost first: `"aaa".split("aa")` is `["", "a"]`. */
  lemma SplitLeftmostExample()
    ensures Split("aaa", "aa") == ["", "a"]
  {
    assert IndexOf("aaa", "aa") == Some(0) by {
      assert "aaa"[0..2] == "aa";
    }
    assert "aaa"[2..] == "a";
    assert IndexOf("a", "aa") == None;
  }

  /** The text before the first occurrence of `sep` does not contain `sep`. */
  lemma FirstPiece(s: string, sep: string, i: nat)
    requires |sep| > 0 && IndexOf(s, sep) == Some(i)
    ensures s == s[..i] + sep + s[i + |sep|..]
    ensures forall j :: !OccursAt(s[..i], sep, j)
  {
    var head := s[..i];
    forall j | OccursAt(head, sep, j) ensures false {
      assert j < i;
      assert s[j..j + |sep|] == head[j..j + |sep|];
      assert OccursAt(s, sep, j);
    }
  }

  function Digit(d: nat): char
    requires d < 10
  {
    ('0' as int + d) as char
  }

  /** The decimal digits of `n`, as a template literal renders a count. */
  function NatToString(n: nat): (r: string)
    ensures |r| >= 1
    ensures forall i :: 0 <= i < |r| ==> '0' <= r[i] <= '9'
  {
    if n < 10 then [Digit(n)] else NatToString(n / 10) + [Digit(n % 10)]
  }

  /** The number a string of decimal digits denotes: the reference for `NatToString`. */
  function DecimalValue(s: string): nat
    requires forall i :: 0 <= i < |s| ==> '0' <= s[i] <= '9'
  {
    if s == [] then 0 else DecimalValue(s[..|s| - 1]) * 10 + (s[|s| - 1] as int - '0' as int)
  }

  lemma {:induction false} DecimalRoundTrip(n: nat)
    ensures DecimalValue(NatToString(n)) == n
  {
    if n >= 10 {
      var r := NatToString(n);
      assert r[..|r| - 1] == NatToString(n / 10);
      DecimalRoundTrip(n / 10);
    }
  }
}
