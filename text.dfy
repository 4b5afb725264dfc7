/**
 * Text helpers the controller relies on: `String.Trim`, `string.IsNullOrWhiteSpace`,
 * `ToUpper` and `StringComparison.OrdinalIgnoreCase`, restricted to ASCII.
 * The functions carry no contracts of their own, so that the session's proofs stay cheap;
 * what they compute is stated by the lemmas below them.
 */
module Text {
  import opened Options

  /** White space as trimmed by `String.Trim` and skipped by number parsing: tab to carriage return, and space. */
  predicate IsWhite(c: char) {
    c == ' ' || ('\t' <= c <= '\r')
  }

  /** `string.IsNullOrWhiteSpace` on a present string. */
  predicate IsBlank(s: string) {
    forall i :: 0 <= i < |s| ==> IsWhite(s[i])
  }

  /** True when `s` neither starts nor ends with white space. */
  predicate Unpadded(s: string) {
    s == [] || (!IsWhite(s[0]) && !IsWhite(s[|s| - 1]))
  }

  /** `String.TrimStart`. */
  function TrimStart(s: string): string {
    if |s| > 0 && IsWhite(s[0]) then TrimStart(s[1..]) else s
  }

  /** `String.TrimEnd`. */
  function TrimEnd(s: string): string {
    if |s| > 0 && IsWhite(s[|s| - 1]) then TrimEnd(s[..|s| - 1]) else s
  }

  /** `String.Trim`: white space removed from both ends. */
  function Trim(s: string): string {
    TrimEnd(TrimStart(s))
  }

  /** `Console.ReadLine()?.Trim() ?? ""`: the trimmed line, or the empty string at end of input. */
  function UserInput(line: Option<string>): string {
    match line
    case None => []
    case Some(s) => Trim(s)
  }

  /** ASCII upper-casing: `a` to `z` become `A` to `Z`; every other character is left alone. */
  function UpperChar(c: char): char {
    if 'a' <= c <= 'z' then (c as int - 32) as char else c
  }

  /** `String.ToUpper`, character by character. */
  function Upper(s: string): string {
    if s == [] then [] else [UpperChar(s[0])] + Upper(s[1..])
  }

  /** `a.Equals(b, StringComparison.OrdinalIgnoreCase)`. */
  predicate EqualsIgnoreCase(a: string, b: string) {
    Upper(a) == Upper(b)
  }

  /** `TrimStart` drops a blank prefix and stops at the first non-white character. */
  lemma {:induction false} TrimStartShape(s: string)
    ensures |TrimStart(s)| <= |s|
    ensures TrimStart(s) == s[|s| - |TrimStart(s)|..]
    ensures IsBlank(s[..|s| - |TrimStart(s)|])
    ensures TrimStart(s) == [] || !IsWhite(TrimStart(s)[0])
  {
    if |s| > 0 && IsWhite(s[0]) {
      TrimStartShape(s[1..]);
      var n := |s| - |TrimStart(s)|;
      assert s[..n] == [s[0]] + s[1..][..n - 1];
    }
  }

  /** `TrimEnd` drops a blank suffix and stops at the last non-white character. */
  lemma {:induction false} TrimEndShape(s: string)
    ensures |TrimEnd(s)| <= |s|
    ensures TrimEnd(s) == s[..|TrimEnd(s)|]
    ensures IsBlank(s[|TrimEnd(s)|..])
    ensures TrimEnd(s) == [] || !IsWhite(TrimEnd(s)[|TrimEnd(s)| - 1])
  {
    if |s| > 0 && IsWhite(s[|s| - 1]) {
      var s' := s[..|s| - 1];
      TrimEndShape(s');
      var n := |TrimEnd(s)|;
      assert s[n..] == s'[n..] + [s[|s| - 1]];
    }
  }

  /** `Trim` keeps a contiguous part of `s`, drops only white space around it, and leaves no white space at either end. */
  lemma TrimShape(s: string)
    ensures Unpadded(Trim(s))
    ensures exists i :: 0 <= i <= |s| - |Trim(s)| && Trim(s) == s[i..i + |Trim(s)|]
                        && IsBlank(s[..i]) && IsBlank(s[i + |Trim(s)|..])
  {
    var t := TrimStart(s);
    var r := Trim(s);
    TrimStartShape(s);
    TrimEndShape(t);
    var i := |s| - |t|;
    assert r == s[i..i + |r|];
    assert s[i + |r|..] == t[|r|..];
    if r != [] {
      assert r[0] == t[0];
    }
  }

  /** The result of `UserInput` never starts or ends with white space. */
  lemma UserInputUnpadded(line: Option<string>)
    ensures Unpadded(UserInput(line))
  {
    if line.Some? {
      TrimShape(line.value);
    }
  }

  /** A string that is already trimmed is its own trim. */
  lemma TrimUnpadded(s: string)
    requires Unpadded(s)
    ensures Trim(s) == s
  {
    assert TrimStart(s) == s;
  }

  /** Trimming twice is trimming once. */
  lemma TrimIdempotent(s: string)
    ensures Trim(Trim(s)) == Trim(s)
  {
    TrimShape(s);
    TrimUnpadded(Trim(s));
  }

  /** A string trims to nothing exactly when it is blank; after trimming, blank means empty. */
  lemma TrimEmptyIffBlank(s: string)
    ensures Trim(s) == [] <==> IsBlank(s)
    ensures IsBlank(Trim(s)) <==> Trim(s) == []
  {
    TrimShape(s);
    var r := Trim(s);
    var i :| 0 <= i <= |s| - |r| && r == s[i..i + |r|] && IsBlank(s[..i]) && IsBlank(s[i + |r|..]);
    if r == [] {
      forall k | 0 <= k < |s| ensures IsWhite(s[k]) {
        if k < i { assert s[k] == s[..i][k]; } else { assert s[k] == s[i..][k - i]; }
      }
    } else {
      assert s[i] == r[0];
    }
  }

  /** `TrimStart` removes exactly a blank prefix that is followed by a non-white character. */
  lemma {:induction false} TrimStartPrefix(w: string, s: string)
    requires IsBlank(w) && s != [] && !IsWhite(s[0])
    ensures TrimStart(w + s) == s
  {
    if w == [] {
      assert w + s == s;
    } else {
      assert (w + s)[0] == w[0];
      assert (w + s)[1..] == w[1..] + s;
      TrimStartPrefix(w[1..], s);
    }
  }

  /** `TrimEnd` removes exactly a blank suffix that is preceded by a non-white character. */
  lemma {:induction false} TrimEndSuffix(s: string, w: string)
    requires IsBlank(w) && s != [] && !IsWhite(s[|s| - 1])
    ensures TrimEnd(s + w) == s
  {
    if w == [] {
      assert s + w == s;
    } else {
      var x := s + w;
      assert x[|x| - 1] == w[|w| - 1];
      assert x[..|x| - 1] == s + w[..|w| - 1];
      TrimEndSuffix(s, w[..|w| - 1]);
    }
  }

  /** White space added around a non-empty trimmed string does not survive trimming. */
  lemma TrimPadding(w1: string, s: string, w2: string)
    requires IsBlank(w1) && IsBlank(w2) && Unpadded(s) && s != []
    ensures Trim(w1 + s + w2) == s
  {
    assert w1 + s + w2 == w1 + (s + w2);
    TrimStartPrefix(w1, s + w2);
    TrimEndSuffix(s, w2);
  }

  /** `Upper` keeps the length and upper-cases each character in place. */
  lemma {:induction false} UpperAt(s: string)
    ensures |Upper(s)| == |s|
    ensures forall i :: 0 <= i < |s| ==> Upper(s)[i] == UpperChar(s[i])
  {
    if s != [] {
      UpperAt(s[1..]);
    }
  }

  /** The upper-cased form of a string is a single upper-case letter `k` exactly when the string is `k` in either case. */
  lemma UpperIsLetter(s: string, k: char)
    requires 'A' <= k <= 'Z'
    ensures Upper(s) == [k] <==> (s == [k] || s == [(k as int + 32) as char])
  {
    UpperAt(s);
    if Upper(s) == [k] {
      assert UpperChar(s[0]) == k;
      assert s == [s[0]];
    }
  }

  /** `"  Electronics  "` is read as `"Electronics"`. */
  lemma UserInputTrimsExample()
    ensures UserInput(Some("  Electronics  ")) == "Electronics"
  {
    TrimPadding("  ", "Electronics", "  ");
    assert "  " + "Electronics" + "  " == "  Electronics  ";
  }
}
