/**
 * Tokenising one line of a tool's output the way `line.trim().split("\\s+")`
 * does in Java: `String.trim` removes every leading and trailing character up
 * to U+0020, and splitting on runs of the regular-expression class `\s`
 * yields the maximal runs of other characters, or the single empty string
 * when nothing is left after trimming.
 */
module Tokenizer {

  /** The six characters of the Java regular-expression class `\s`. */
  predicate IsRegexSpace(c: char) {
    c == ' ' || c == '\t' || c == '\n' || c == '\r' || c as int == 11 || c as int == 12
  }

  /** The characters `String.trim` removes: every code point up to U+0020. */
  predicate IsTrimmed(c: char) {
    c as int <= 32
  }

  /** `s` without its leading characters up to U+0020. */
  function TrimStart(s: string): string {
    if s != [] && IsTrimmed(s[0]) then TrimStart(s[1..]) else s
  }

  /** `s` without its trailing characters up to U+0020. */
  function TrimEnd(s: string): string {
    if s != [] && IsTrimmed(s[|s| - 1]) then TrimEnd(s[..|s| - 1]) else s
  }

  /** `String.trim`: the line without its leading and trailing control characters and spaces. */
  function Trim(s: string): string {
    TrimEnd(TrimStart(s))
  }

  /** The number of characters of `s` before its first `\s` character. */
  function RunLength(s: string): nat {
    if s == [] || IsRegexSpace(s[0]) then 0 else 1 + RunLength(s[1..])
  }

  /** The maximal runs of non-`\s` characters of `s`, in order. */
  function Words(s: string): seq<string>
    decreases |s|
  {
    if s == [] then []
    else if IsRegexSpace(s[0]) then Words(s[1..])
    else
      RunLengthFacts(s);
      var n := RunLength(s);
      [s[..n]] + Words(s[n..])
  }

  /** `TrimStart` removes a prefix of trimmed characters, and stops at a character that is not. */
  lemma {:induction false} TrimStartFacts(s: string)
    ensures |TrimStart(s)| <= |s| && TrimStart(s) == s[|s| - |TrimStart(s)|..]
    ensures forall i :: 0 <= i < |s| - |TrimStart(s)| ==> IsTrimmed(s[i])
    ensures TrimStart(s) == [] || !IsTrimmed(TrimStart(s)[0])
  {
    if s != [] && IsTrimmed(s[0]) {
      TrimStartFacts(s[1..]);
    }
  }

  /** `TrimEnd` removes a suffix of trimmed characters, and stops at a character that is not. */
  lemma {:induction false} TrimEndFacts(s: string)
    ensures |TrimEnd(s)| <= |s| && TrimEnd(s) == s[..|TrimEnd(s)|]
    ensures forall i :: |TrimEnd(s)| <= i < |s| ==> IsTrimmed(s[i])
    ensures TrimEnd(s) == [] || !IsTrimmed(TrimEnd(s)[|TrimEnd(s)| - 1])
  {
    if s != [] && IsTrimmed(s[|s| - 1]) {
      TrimEndFacts(s[..|s| - 1]);
    }
  }

  /** `trim()` leaves no trimmed character at either end, and leaves nothing exactly when every character is trimmed. */
  lemma TrimFacts(s: string)
    ensures Trim(s) == [] || (!IsTrimmed(Trim(s)[0]) && !IsTrimmed(Trim(s)[|Trim(s)| - 1]))
    ensures Trim(s) == [] <==> forall i :: 0 <= i < |s| ==> IsTrimmed(s[i])
  {
    TrimStartFacts(s);
    TrimEndFacts(TrimStart(s));
    var t := TrimStart(s);
    var r := TrimEnd(t);
    if r != [] {
      assert r[0] == t[0];
    }
  }

  /** `RunLength` counts the characters before the first `\s` character. */
  lemma {:induction false} RunLengthFacts(s: string)
    ensures RunLength(s) <= |s|
    ensures forall i :: 0 <= i < RunLength(s) ==> !IsRegexSpace(s[i])
    ensures RunLength(s) < |s| ==> IsRegexSpace(s[RunLength(s)])
  {
    if s != [] && !IsRegexSpace(s[0]) {
      RunLengthFacts(s[1..]);
    }
  }

  /** Every word is non-empty and free of `\s`, and a string that starts with a word has one. */
  lemma {:induction false} WordsFacts(s: string)
    ensures forall i :: 0 <= i < |Words(s)| ==> Words(s)[i] != [] && forall c :: c in Words(s)[i] ==> !IsRegexSpace(c)
    ensures s != [] && !IsRegexSpace(s[0]) ==> Words(s) != []
    decreases |s|
  {
    if s == [] {
    } else if IsRegexSpace(s[0]) {
      WordsFacts(s[1..]);
    } else {
      var n := RunLength(s);
      RunLengthFacts(s);
      WordsFacts(s[n..]);
      assert Words(s) == [s[..n]] + Words(s[n..]);
    }
  }

  /** The tokens `line.trim().split("\\s+")` yields; never an empty array. */
  function Tokens(line: string): (r: seq<string>)
    ensures |r| >= 1
  {
    var t := Trim(line);
    if t == [] then [""]
    else
      TrimFacts(line);
      WordsFacts(t);
      Words(t)
  }

  /** A blank or whitespace-only line is the one line whose tokens include the empty string. */
  lemma {:induction false} EmptyTokenIffBlank(line: string)
    ensures "" in Tokens(line) <==> Tokens(line) == [""]
    ensures Tokens(line) == [""] <==> forall i :: 0 <= i < |line| ==> IsTrimmed(line[i])
  {
    TrimFacts(line);
    var t := Trim(line);
    if t != [] {
      WordsFacts(t);
      var w := Words(t);
      assert forall i :: 0 <= i < |w| ==> w[i] != "";
    }
  }

  /** The line a tool prints for these tokens: one space between neighbours. */
  function Join(toks: seq<string>): string {
    if |toks| == 0 then ""
    else if |toks| == 1 then toks[0]
    else toks[0] + " " + Join(toks[1..])
  }

  /** A token a tool prints: not empty, and no blank or control character in it. */
  predicate IsPrintedToken(tok: string) {
    tok != [] && forall i :: 0 <= i < |tok| ==> !IsTrimmed(tok[i])
  }

  lemma {:induction false} RunLengthOfToken(tok: string, rest: string)
    requires forall i :: 0 <= i < |tok| ==> !IsTrimmed(tok[i])
    requires rest == [] || rest[0] == ' '
    ensures RunLength(tok + rest) == |tok|
    decreases |tok|
  {
    if tok != [] {
      assert (tok + rest)[1..] == tok[1..] + rest;
      RunLengthOfToken(tok[1..], rest);
    }
  }

  lemma {:induction false} WordsOfJoin(toks: seq<string>)
    requires |toks| >= 1
    requires forall k :: 0 <= k < |toks| ==> IsPrintedToken(toks[k])
    ensures Join(toks) != [] && !IsTrimmed(Join(toks)[0]) && !IsTrimmed(Join(toks)[|Join(toks)| - 1])
    ensures Words(Join(toks)) == toks
    decreases |toks|
  {
    var t := toks[0];
    if |toks| == 1 {
      RunLengthOfToken(t, "");
      assert t + "" == t;
      assert t[|t|..] == [];
    } else {
      var rest := toks[1..];
      WordsOfJoin(rest);
      var s := Join(toks);
      assert s == t + (" " + Join(rest));
      RunLengthOfToken(t, " " + Join(rest));
      assert s[..|t|] == t;
      assert s[|t|..] == " " + Join(rest);
      assert (" " + Join(rest))[1..] == Join(rest);
      assert Words(s) == [t] + Words(" " + Join(rest));
    }
  }

  /** Round trip: tokenising the printed line gives back exactly the printed tokens. */
  lemma {:induction false} TokensOfJoin(toks: seq<string>)
    requires |toks| >= 1
    requires forall k :: 0 <= k < |toks| ==> IsPrintedToken(toks[k])
    ensures Tokens(Join(toks)) == toks
  {
    WordsOfJoin(toks);
    var s := Join(toks);
    assert TrimStart(s) == s;
    assert TrimEnd(s) == s;
  }
}
