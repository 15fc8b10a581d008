/**
 * The standard-library string operations the element getters rely on:
 * `char::is_whitespace` / `str::split_whitespace` (for `classList`),
 * `[String]::join` (for `text`) and `str::to_uppercase` (for `tagName`).
 */
module Strings {

  /** Rust's `char::is_whitespace`: the Unicode White_Space property. */
  predicate IsWhitespace(c: char) {
    || c == ' '
    || '\t' <= c <= '\r'
    || c == '\U{85}' || c == '\U{A0}' || c == '\U{1680}'
    || '\U{2000}' <= c <= '\U{200A}'
    || c == '\U{2028}' || c == '\U{2029}' || c == '\U{202F}' || c == '\U{205F}' || c == '\U{3000}'
  }

  /** A token of `split_whitespace`: non-empty and free of whitespace. */
  predicate IsToken(s: string) {
    |s| > 0 && forall i :: 0 <= i < |s| ==> !IsWhitespace(s[i])
  }

  /** Length of the longest whitespace-free prefix of `s`. */
  function TokenEnd(s: string): (n: nat)
    ensures n <= |s|
    ensures forall i :: 0 <= i < n ==> !IsWhitespace(s[i])
    ensures n < |s| ==> IsWhitespace(s[n])
  {
    if s == [] || IsWhitespace(s[0]) then 0 else 1 + TokenEnd(s[1..])
  }

  /** `str::split_whitespace`: the maximal whitespace-free runs of `s`, in order. */
  function SplitWhitespace(s: string): (tokens: seq<string>)
    ensures forall i :: 0 <= i < |tokens| ==> IsToken(tokens[i])
    decreases |s|
  {
    if s == [] then []
    else if IsWhitespace(s[0]) then SplitWhitespace(s[1..])
    else
      var n := TokenEnd(s);
      [s[..n]] + SplitWhitespace(s[n..])
  }

  /** `s` with every whitespace character dropped. */
  function RemoveWhitespace(s: string): string {
    if s == [] then []
    else if IsWhitespace(s[0]) then RemoveWhitespace(s[1..])
    else [s[0]] + RemoveWhitespace(s[1..])
  }

  function Concat(parts: seq<string>): string {
    if parts == [] then [] else parts[0] + Concat(parts[1..])
  }

  /** `[String]::join(sep)`. */
  function Join(parts: seq<string>, sep: string): string {
    if parts == [] then []
    else if |parts| == 1 then parts[0]
    else parts[0] + sep + Join(parts[1..], sep)
  }

  /** `char::to_uppercase`, restricted to ASCII letters. */
  function UpperChar(c: char): char {
    if 'a' <= c <= 'z' then (c as int - 32) as char else c
  }

  predicate IsLowerAscii(c: char) {
    'a' <= c <= 'z'
  }

  /** `str::to_uppercase` (ASCII): letters are raised, everything else is kept. */
  function ToUpper(s: string): (r: string)
    ensures |r| == |s|
    ensures forall i :: 0 <= i < |s| ==> !IsLowerAscii(r[i])
    ensures forall i :: 0 <= i < |s| && !IsLowerAscii(s[i]) ==> r[i] == s[i]
    ensures forall i :: 0 <= i < |s| && IsLowerAscii(s[i]) ==> r[i] as int == s[i] as int - 32
  {
    seq(|s|, i requires 0 <= i < |s| => UpperChar(s[i]))
  }

  /** Two strings that differ only in the case of ASCII letters. */
  predicate EqualIgnoringCase(a: string, b: string) {
    |a| == |b| && forall i :: 0 <= i < |a| ==> UpperChar(a[i]) == UpperChar(b[i])
  }

  /** Upper-casing is case-insensitive: it identifies exactly the strings equal up to case. */
  lemma ToUpperIdentifiesCase(a: string, b: string)
    ensures ToUpper(a) == ToUpper(b) <==> EqualIgnoringCase(a, b)
  {
  }

  /** Leading whitespace produces no token: splitting skips it. */
  lemma {:induction false} SplitWhitespaceSkipsWhitespace(w: string, s: string)
    requires forall i :: 0 <= i < |w| ==> IsWhitespace(w[i])
    ensures SplitWhitespace(w + s) == SplitWhitespace(s)
    decreases |w|
  {
    if w == [] {
      assert w + s == s;
    } else {
      assert (w + s)[1..] == w[1..] + s;
      SplitWhitespaceSkipsWhitespace(w[1..], s);
    }
  }

  /** A token runs exactly up to the next whitespace: a token followed by whitespace is split off whole. */
  lemma {:induction false} SplitWhitespaceBreaksAtWhitespace(t: string, w: string, s: string)
    requires IsToken(t)
    requires |w| > 0 && IsWhitespace(w[0])
    ensures SplitWhitespace(t + w + s) == [t] + SplitWhitespace(w + s)
  {
    var x := t + w + s;
    TokenEndOfToken(t, w + s);
    assert x == t + (w + s);
    assert x[..|t|] == t;
    assert x[|t|..] == w + s;
  }

  /** Splitting keeps every non-whitespace character, in order, and nothing else. */
  lemma {:induction false} SplitWhitespaceKeepsContent(s: string)
    ensures Concat(SplitWhitespace(s)) == RemoveWhitespace(s)
    decreases |s|
  {
    if s == [] {
    } else if IsWhitespace(s[0]) {
      SplitWhitespaceKeepsContent(s[1..]);
    } else {
      var n := TokenEnd(s);
      SplitWhitespaceKeepsContent(s[n..]);
      RemoveWhitespaceOfToken(s, n);
    }
  }

  /** Dropping whitespace from a whitespace-free prefix leaves it as it is. */
  lemma {:induction false} RemoveWhitespaceOfToken(s: string, n: nat)
    requires n <= |s|
    requires forall i :: 0 <= i < n ==> !IsWhitespace(s[i])
    ensures RemoveWhitespace(s) == s[..n] + RemoveWhitespace(s[n..])
    decreases n
  {
    if n > 0 {
      RemoveWhitespaceOfToken(s[1..], n - 1);
      assert s[1..][..n - 1] == s[1..n];
      assert s[1..][n - 1..] == s[n..];
      assert s[..n] == [s[0]] + s[1..n];
    }
  }

  /** The token boundary of a token followed by whitespace (or nothing) is the token's end. */
  lemma {:induction false} TokenEndOfToken(t: string, rest: string)
    requires IsToken(t)
    requires rest == [] || IsWhitespace(rest[0])
    ensures TokenEnd(t + rest) == |t|
    decreases |t|
  {
    if |t| > 1 {
      TokenEndOfToken(t[1..], rest);
      assert (t + rest)[1..] == t[1..] + rest;
    } else {
      assert (t + rest)[1..] == rest;
    }
  }

  /** Round trip: splitting tokens joined by single spaces gives back the tokens. */
  lemma {:induction false} SplitJoinRoundTrip(tokens: seq<string>)
    requires forall i :: 0 <= i < |tokens| ==> IsToken(tokens[i])
    ensures SplitWhitespace(Join(tokens, " ")) == tokens
  {
    if |tokens| == 1 {
      var t := tokens[0];
      TokenEndOfToken(t, []);
      assert t + [] == t;
      assert t[..|t|] == t && t[|t|..] == [];
    } else if |tokens| > 1 {
      var t, rest := tokens[0], Join(tokens[1..], " ");
      var s := t + " " + rest;
      TokenEndOfToken(t, " " + rest);
      assert s == t + (" " + rest);
      assert s[..|t|] == t;
      assert s[|t|..] == " " + rest;
      assert (" " + rest)[1..] == rest;
      SplitJoinRoundTrip(tokens[1..]);
      assert tokens == [t] + tokens[1..];
    }
  }
}
