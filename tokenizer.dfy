/**
 * The message tokenizer of messageCreate.ts: the global regular expression
 * `("[^\b"]*?")|('[^\b']*?')|([^\b\s]*)` applied with `match`, then the empty
 * matches filtered out. Inside a character class `\b` is the backspace
 * character U+0008. At each position the first alternative that matches wins:
 * a double-quoted run up to the first closing `"`, a single-quoted run up to
 * the first closing `'`, or else the (possibly empty) greedy run of characters
 * that are neither whitespace nor backspace. An empty match advances the scan by
 * one character, and the scan also matches the empty string at the very end.
 */
module Tokenizer {
  import opened Js

  const Backspace: char := '\U{8}'

  /** The characters ECMAScript's `\s` matches: WhiteSpace and LineTerminator. */
  predicate IsSpace(c: char) {
    || c == '\t' || c == '\U{B}' || c == '\U{C}' || c == ' ' || c == '\U{A0}' || c == '\U{FEFF}'
    || c == '\U{1680}' || ('\U{2000}' <= c <= '\U{200A}') || c == '\U{202F}' || c == '\U{205F}' || c == '\U{3000}'
    || c == '\n' || c == '\r' || c == '\U{2028}' || c == '\U{2029}'
  }

  /** A character that ends a bare run: `[^\b\s]` rejects it. */
  predicate Stops(c: char) {
    c == Backspace || IsSpace(c)
  }

  predicate IsQuote(c: char) {
    c == '"' || c == '\''
  }

  /** Where `[^\bq]*?q` scanning from `j` finds its closing quote `q`, if it does. */
  function CloseFrom(s: string, q: char, j: nat): (r: Option<nat>)
    requires j <= |s|
    ensures r.Some? ==> j <= r.value < |s| && s[r.value] == q
    ensures r.Some? ==> forall k :: j <= k < r.value ==> s[k] != q && s[k] != Backspace
    ensures r.None? ==> forall e :: j <= e < |s| && s[e] == q ==> exists k :: j <= k < e && s[k] == Backspace
    decreases |s| - j
  {
    if j == |s| then None
    else if s[j] == q then Some(j)
    else if s[j] == Backspace then None
    else CloseFrom(s, q, j + 1)
  }

  /** The end of the greedy run `[^\b\s]*` starting at `j`. */
  function RunEnd(s: string, j: nat): (e: nat)
    requires j <= |s|
    ensures j <= e <= |s|
    ensures forall k :: j <= k < e ==> !Stops(s[k])
    ensures e < |s| ==> Stops(s[e])
    decreases |s| - j
  {
    if j == |s| || Stops(s[j]) then j else RunEnd(s, j + 1)
  }

  /** One match of the regular expression at position `p`: the matched text and where the scan resumes. */
  datatype Match = Match(text: string, next: nat)

  function MatchAt(s: string, p: nat): (m: Match)
    requires p <= |s|
    ensures p < m.next <= |s| + 1
  {
    if p < |s| && IsQuote(s[p]) && CloseFrom(s, s[p], p + 1).Some? then
      var e := CloseFrom(s, s[p], p + 1).value;
      Match(s[p..e + 1], e + 1)
    else
      var e := RunEnd(s, p);
      Match(s[p..e], if e == p then p + 1 else e)
  }

  /**
   * `s.match(re)` from position `p` on, including the empty matches: at most one
   * match per position, and the scan always ends with the empty match at the end.
   */
  function Matches(s: string, p: nat): (r: seq<string>)
    requires p <= |s| + 1
    decreases |s| + 1 - p
  {
    if p == |s| + 1 then []
    else
      var m := MatchAt(s, p);
      [m.text] + Matches(s, m.next)
  }

  /** The scan from any position up to the end finishes with the empty match at the end of the text. */
  lemma {:induction false} ScanEndsEmpty(s: string, p: nat)
    requires p <= |s|
    ensures var r := Matches(s, p); r != [] && r[|r| - 1] == ""
    decreases |s| - p
  {
    var m := MatchAt(s, p);
    ScanStep(s, p, m.text, m.next);
    var rest := Matches(s, m.next);
    if m.next <= |s| {
      ScanEndsEmpty(s, m.next);
      assert ([m.text] + rest)[|rest|] == rest[|rest| - 1];
    } else {
      assert rest == [];
    }
  }

  /** `.filter(arg => arg !== "")`. */
  function NonEmpty(ms: seq<string>): (r: seq<string>)
    ensures forall i :: 0 <= i < |r| ==> r[i] != ""
    ensures forall t <- r :: t in ms
  {
    if ms == [] then []
    else (if ms[0] == "" then [] else [ms[0]]) + NonEmpty(ms[1..])
  }

  function Tokenize(s: string): (r: seq<string>)
    ensures forall i :: 0 <= i < |r| ==> r[i] != ""
    ensures forall t <- r :: t in Matches(s, 0)
  {
    NonEmpty(Matches(s, 0))
  }

  /**
   * A token is either quoted (it starts and ends with the same quote character,
   * with neither that quote nor a backspace in between) or bare (non-empty, with
   * no whitespace and no backspace).
   */
  predicate Quoted(t: string) {
    && |t| >= 2 && IsQuote(t[0]) && t[|t| - 1] == t[0]
    && forall k :: 1 <= k < |t| - 1 ==> t[k] != t[0] && t[k] != Backspace
  }

  predicate Bare(t: string) {
    forall k :: 0 <= k < |t| ==> !Stops(t[k])
  }

  predicate WellFormed(t: string) {
    Quoted(t) || (t != "" && Bare(t))
  }

  lemma {:induction false} MatchesWellFormed(s: string, p: nat)
    requires p <= |s| + 1
    ensures forall t <- Matches(s, p) :: Quoted(t) || Bare(t)
    decreases |s| + 1 - p
  {
    if p <= |s| {
      var m := MatchAt(s, p);
      MatchesWellFormed(s, m.next);
      if p < |s| && IsQuote(s[p]) && CloseFrom(s, s[p], p + 1).Some? {
        var e := CloseFrom(s, s[p], p + 1).value;
        assert m.text == s[p..e + 1];
        assert forall k :: 1 <= k < |m.text| - 1 ==> m.text[k] == s[p + k];
        assert Quoted(m.text);
      } else {
        var e := RunEnd(s, p);
        assert forall k :: 0 <= k < |m.text| ==> m.text[k] == s[p + k];
      }
    }
  }

  /** No token is empty, and every token is quoted or a bare run without whitespace. */
  lemma TokensWellFormed(s: string)
    ensures forall t <- Tokenize(s) :: t != "" && WellFormed(t)
  {
    MatchesWellFormed(s, 0);
  }

  // ---------------------------------------------------------------------------
  // The scan reads only what lies ahead: matching after a prefix `x` is matching on
  // the rest. A quoted phrase with its closing quote is one token.

  /** `y` is what `s` holds from index `d` on. */
  predicate Shifted(s: string, d: nat, y: string) {
    d + |y| == |s| && forall i :: 0 <= i < |y| ==> s[d + i] == y[i]
  }

  lemma {:induction false} CloseShift(s: string, d: nat, y: string, q: char, j: nat)
    requires Shifted(s, d, y) && j <= |y|
    ensures CloseFrom(s, q, d + j) == if CloseFrom(y, q, j).Some? then Some(d + CloseFrom(y, q, j).value) else None
    decreases |y| - j
  {
    if j < |y| {
      assert s[d + j] == y[j];
      CloseShift(s, d, y, q, j + 1);
    }
  }

  lemma {:induction false} RunEndShift(s: string, d: nat, y: string, j: nat)
    requires Shifted(s, d, y) && j <= |y|
    ensures RunEnd(s, d + j) == d + RunEnd(y, j)
    decreases |y| - j
  {
    if j < |y| {
      assert s[d + j] == y[j];
      RunEndShift(s, d, y, j + 1);
    }
  }

  lemma MatchAtShift(s: string, d: nat, y: string, p: nat)
    requires Shifted(s, d, y) && p <= |y|
    ensures MatchAt(s, d + p) == Match(MatchAt(y, p).text, d + MatchAt(y, p).next)
  {
    if p < |y| {
      assert s[d + p] == y[p];
      CloseShift(s, d, y, y[p], p + 1);
      if IsQuote(y[p]) && CloseFrom(y, y[p], p + 1).Some? {
        var e := CloseFrom(y, y[p], p + 1).value;
        assert s[d + p..d + e + 1] == y[p..e + 1];
        return;
      }
    }
    RunEndShift(s, d, y, p);
    var e := RunEnd(y, p);
    assert s[d + p..d + e] == y[p..e];
  }

  lemma {:induction false} MatchesShift(s: string, d: nat, y: string, p: nat)
    requires Shifted(s, d, y) && p <= |y| + 1
    ensures Matches(s, d + p) == Matches(y, p)
    decreases |y| + 1 - p
  {
    if p <= |y| {
      var m := MatchAt(y, p);
      MatchesShift(s, d, y, m.next);
      MatchAtShift(s, d, y, p);
      ShiftStep(s, d, y, p, m.text, m.next);
    } else {
      assert d + p == |s| + 1;
      assert Matches(s, d + p) == [] == Matches(y, p);
    }
  }

  /** One step of `MatchesShift`: the same match `t`, then scans that agree from where it resumes. */
  lemma ShiftStep(s: string, d: nat, y: string, p: nat, t: string, n: nat)
    requires p <= |y| && d + |y| == |s| && n <= |y| + 1
    requires MatchAt(y, p) == Match(t, n) && MatchAt(s, d + p) == Match(t, d + n)
    requires Matches(s, d + n) == Matches(y, n)
    ensures Matches(s, d + p) == Matches(y, p)
  {
    assert Matches(s, d + p) == [t] + Matches(s, d + n) by {
      ScanStep(s, d + p, t, d + n);
    }
    assert Matches(y, p) == [t] + Matches(y, n) by {
      ScanStep(y, p, t, n);
    }
  }

  /**
   * A token that opens with a quote and has its closing quote, with no backspace
   * before it, is the whole phrase up to that first closing quote, quotes kept;
   * tokenizing goes on right after it.
   */
  lemma QuotedToken(q: char, b: string, c: string)
    requires IsQuote(q)
    requires forall k :: 0 <= k < |b| ==> b[k] != q && b[k] != Backspace
    ensures Tokenize([q] + b + [q] + c) == [[q] + b + [q]] + Tokenize(c)
  {
    var t := [q] + b + [q];
    var s := t + c;
    assert s[0] == q && s[|b| + 1] == q;
    assert forall k :: 1 <= k < |b| + 1 ==> s[k] == b[k - 1];
    assert CloseFrom(s, q, 1) == Some(|b| + 1);
    assert s[0..|b| + 2] == t;
    assert MatchAt(s, 0) == Match(t, |t|);
    assert Shifted(s, |t|, c) by {
      assert forall i :: 0 <= i < |c| ==> s[|t| + i] == c[i];
    }
    MatchesShift(s, |t|, c, 0);
    NonEmptyCons(t, Matches(c, 0));
  }

  // ---------------------------------------------------------------------------
  // With no quote characters, the tokens are the maximal runs of non-space characters.

  /**
   * The reference: a left-to-right scan that accumulates the current word in
   * `cur` and emits it at each whitespace/backspace and at the end.
   */
  function WordsFrom(s: string, i: nat, cur: string): seq<string>
    requires i <= |s|
    decreases |s| - i
  {
    if i == |s| then (if cur == "" then [] else [cur])
    else if Stops(s[i]) then (if cur == "" then [] else [cur]) + WordsFrom(s, i + 1, "")
    else WordsFrom(s, i + 1, cur + [s[i]])
  }

  function Words(s: string): seq<string> {
    WordsFrom(s, 0, "")
  }

  predicate NoQuotes(s: string) {
    forall k :: 0 <= k < |s| ==> !IsQuote(s[k])
  }

  lemma {:induction false} WordsAcrossRun(s: string, j: nat, e: nat, cur: string)
    requires j <= e <= |s|
    requires forall k :: j <= k < e ==> !Stops(s[k])
    ensures WordsFrom(s, j, cur) == WordsFrom(s, e, cur + s[j..e])
    decreases e - j
  {
    if j < e {
      WordsAcrossRun(s, j + 1, e, cur + [s[j]]);
      assert cur + [s[j]] + s[j + 1..e] == cur + s[j..e];
    } else {
      assert cur + s[j..e] == cur;
    }
  }

  lemma NonEmptyCons(x: string, r: seq<string>)
    ensures NonEmpty([x] + r) == (if x == "" then [] else [x]) + NonEmpty(r)
  {
    assert ([x] + r)[1..] == r;
  }

  lemma {:induction false} NoQuotesFrom(s: string, p: nat)
    requires NoQuotes(s) && p <= |s|
    ensures NonEmpty(Matches(s, p)) == WordsFrom(s, p, "")
    decreases |s| - p, 1
  {
    var e := RunEnd(s, p);
    var m := MatchAt(s, p);
    assert m == Match(s[p..e], if e == p then p + 1 else e);
    NonEmptyCons(m.text, Matches(s, m.next));
    if e == p {
      if p < |s| {
        NoQuotesFrom(s, p + 1);
      }
    } else {
      NoQuotesAfterRun(s, p, e);
    }
  }

  /** The step of `NoQuotesFrom` across a non-empty run `s[p..e]`. */
  lemma {:induction false} NoQuotesAfterRun(s: string, p: nat, e: nat)
    requires NoQuotes(s) && p <= |s| && e == RunEnd(s, p) && p < e
    ensures NonEmpty(Matches(s, e)) == WordsFrom(s, e, "")
    ensures WordsFrom(s, p, "") == [s[p..e]] + NonEmpty(Matches(s, e))
    decreases |s| - p, 0
  {
    WordsAcrossRun(s, p, e, "");
    assert "" + s[p..e] == s[p..e];
    assert MatchAt(s, e).text == "";
    NonEmptyCons("", Matches(s, MatchAt(s, e).next));
    if e < |s| {
      NoQuotesFrom(s, e + 1);
    }
  }

  lemma NoQuotesGivesWords(s: string)
    requires NoQuotes(s)
    ensures Tokenize(s) == Words(s)
  {
    NoQuotesFrom(s, 0);
  }

  const Example: string := "foo \"bar baz\" 'qux'"

  lemma ExampleRuns()
    ensures RunEnd(Example, 0) == 3 && RunEnd(Example, 3) == 3 && RunEnd(Example, 13) == 13 && RunEnd(Example, 19) == 19
  {
    var s := Example;
    assert s[3] == ' ' && s[13] == ' ';
    assert RunEnd(s, 2) == 3;
    assert RunEnd(s, 1) == 3;
  }

  lemma ExampleQuotes()
    ensures CloseFrom(Example, '"', 5) == Some(12) && CloseFrom(Example, '\'', 15) == Some(18)
  {
    var s := Example;
    assert s[12] == '"' && s[18] == '\'';
    assert CloseFrom(s, '"', 11) == Some(12);
    assert CloseFrom(s, '"', 9) == Some(12);
    assert CloseFrom(s, '"', 7) == Some(12);
    assert CloseFrom(s, '\'', 16) == Some(18);
  }

  /** One step of the scan: the match at `p` followed by the scan from where it resumes. */
  lemma ScanStep(s: string, p: nat, text: string, next: nat)
    requires p <= |s| && MatchAt(s, p) == Match(text, next)
    ensures Matches(s, p) == [text] + Matches(s, next)
  {
  }

  lemma ExampleEnd()
    ensures Matches(Example, 19) == [""]
  {
    var s := Example;
    assert MatchAt(s, 19) == Match("", 20) by {
      ExampleRuns();
      assert s[19..19] == "";
    }
    ScanStep(s, 19, "", 20);
  }

  lemma ExampleQux()
    ensures MatchAt(Example, 14) == Match("'qux'", 19)
  {
    var s := Example;
    ExampleQuotes();
    assert s[14] == '\'' && s[14..19] == "'qux'";
  }

  lemma ExampleBarBaz()
    ensures MatchAt(Example, 4) == Match("\"bar baz\"", 13)
  {
    var s := Example;
    ExampleQuotes();
    assert s[4] == '"' && s[4..13] == "\"bar baz\"";
  }

  lemma ExampleSpaces()
    ensures MatchAt(Example, 3) == Match("", 4) && MatchAt(Example, 13) == Match("", 14)
  {
    var s := Example;
    ExampleRuns();
    assert s[3] == ' ' && s[3..3] == "";
    assert s[13] == ' ' && s[13..13] == "";
  }

  lemma ExampleFoo()
    ensures MatchAt(Example, 0) == Match("foo", 3)
  {
    var s := Example;
    ExampleRuns();
    assert s[0] == 'f' && s[0..3] == "foo";
  }

  lemma ExampleMatches()
    ensures Matches(Example, 0) == ["foo", "", "\"bar baz\"", "", "'qux'", ""]
  {
    assert ["foo"] + ([""] + (["\"bar baz\""] + ([""] + (["'qux'"] + [""]))))
        == ["foo", "", "\"bar baz\"", "", "'qux'", ""];
    var s := Example;
    ExampleEnd();
    ExampleQux();
    ExampleBarBaz();
    ExampleSpaces();
    ExampleFoo();
    ScanStep(s, 14, "'qux'", 19);
    ScanStep(s, 13, "", 14);
    ScanStep(s, 4, "\"bar baz\"", 13);
    ScanStep(s, 3, "", 4);
    ScanStep(s, 0, "foo", 3);
  }

  /** A quoted phrase stays one token, quotes included: `foo "bar baz" 'qux'` gives three tokens. */
  lemma QuotedExample()
    ensures Tokenize(Example) == ["foo", "\"bar baz\"", "'qux'"]
  {
    ExampleMatches();
    NonEmptyCons("", []);
    NonEmptyCons("'qux'", [""]);
    NonEmptyCons("", ["'qux'", ""]);
    NonEmptyCons("\"bar baz\"", ["", "'qux'", ""]);
    NonEmptyCons("", ["\"bar baz\"", "", "'qux'", ""]);
    NonEmptyCons("foo", ["", "\"bar baz\"", "", "'qux'", ""]);
  }
}
