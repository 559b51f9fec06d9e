/** The JavaScript string operations the worker relies on: `endsWith`, `split` on the
    two comma characters, `trim`, and `join`, written as functions on `seq<char>`. */
module Strings {

  /** U+FF0C FULLWIDTH COMMA, the canonical separator of a normalised tagline. */
  const FullwidthComma: char := '\U{FF0C}'

  /** The characters matched by the character class `[，,]`. */
  predicate IsSeparator(c: char) {
    c == ',' || c == FullwidthComma
  }

  /** The characters `String.prototype.trim` removes: ECMAScript WhiteSpace
      (TAB, VT, FF, SP, NBSP, ZWNBSP and the Unicode space separators) and LineTerminator. */
  predicate IsWhitespace(c: char) {
    c == '\t' || c == '\n' || c == '\U{000B}' || c == '\U{000C}' || c == '\r' || c == ' '
    || c == '\U{00A0}' || c == '\U{1680}' || ('\U{2000}' <= c <= '\U{200A}')
    || c == '\U{2028}' || c == '\U{2029}' || c == '\U{202F}' || c == '\U{205F}'
    || c == '\U{3000}' || c == '\U{FEFF}'
  }

  predicate NoSeparator(s: string) {
    forall k :: 0 <= k < |s| ==> !IsSeparator(s[k])
  }

  /** Neither end of `s` is whitespace. */
  predicate Trimmed(s: string) {
    s == [] || (!IsWhitespace(s[0]) && !IsWhitespace(s[|s| - 1]))
  }

  /** `s.endsWith(suffix)`. */
  predicate EndsWith(s: string, suffix: string) {
    |suffix| <= |s| && s[|s| - |suffix|..] == suffix
  }

  /** `s.split(/[，,]/)`: the maximal separator-free runs of `s`, in order; one
      more piece than there are separators, so `""` splits into `[""]`. */
  function Split(s: string): (parts: seq<string>)
    ensures |parts| >= 1
    ensures forall i :: 0 <= i < |parts| ==> NoSeparator(parts[i])
    decreases |s|
  {
    if s == [] then [""]
    else
      var rest := Split(s[1..]);
      if IsSeparator(s[0]) then [""] + rest
      else [[s[0]] + rest[0]] + rest[1..]
  }

  /** `parts.join(sep)`. */
  function Join(parts: seq<string>, sep: string): string
    decreases |parts|
  {
    if parts == [] then ""
    else if |parts| == 1 then parts[0]
    else parts[0] + sep + Join(parts[1..], sep)
  }

  /** `s` with every separator replaced by the fullwidth comma. */
  function Canonical(s: string): (r: string)
    ensures |r| == |s|
    ensures forall k :: 0 <= k < |s| ==> r[k] == if IsSeparator(s[k]) then FullwidthComma else s[k]
  {
    if s == [] then "" else [if IsSeparator(s[0]) then FullwidthComma else s[0]] + Canonical(s[1..])
  }

  /** The length of the whitespace run at the front of `s`. */
  function LeadingWhitespace(s: string): (n: nat)
    ensures n <= |s|
  {
    if s != [] && IsWhitespace(s[0]) then 1 + LeadingWhitespace(s[1..]) else 0
  }

  /** The length of the whitespace run at the end of `s`. */
  function TrailingWhitespace(s: string): (n: nat)
    ensures n <= |s|
  {
    if s != [] && IsWhitespace(s[|s| - 1]) then 1 + TrailingWhitespace(s[..|s| - 1]) else 0
  }

  /** The leading run is whitespace and is maximal: the next character is not. */
  lemma {:induction false} LeadingWhitespaceRun(s: string)
    ensures forall k :: 0 <= k < LeadingWhitespace(s) ==> IsWhitespace(s[k])
    ensures LeadingWhitespace(s) < |s| ==> !IsWhitespace(s[LeadingWhitespace(s)])
  {
    if s != [] && IsWhitespace(s[0]) {
      LeadingWhitespaceRun(s[1..]);
    }
  }

  /** The trailing run is whitespace and is maximal: the character before it is not. */
  lemma {:induction false} TrailingWhitespaceRun(s: string)
    ensures forall k :: |s| - TrailingWhitespace(s) <= k < |s| ==> IsWhitespace(s[k])
    ensures TrailingWhitespace(s) < |s| ==> !IsWhitespace(s[|s| - 1 - TrailingWhitespace(s)])
  {
    if s != [] && IsWhitespace(s[|s| - 1]) {
      TrailingWhitespaceRun(s[..|s| - 1]);
    }
  }

  /** `s.trim()`: the leading whitespace run is dropped, then the trailing one. */
  function Trim(s: string): (r: string)
    ensures Trimmed(r)
  {
    var t := s[LeadingWhitespace(s)..];
    LeadingWhitespaceRun(s);
    TrailingWhitespaceRun(t);
    t[..|t| - TrailingWhitespace(t)]
  }

  /** What `trim` keeps is one contiguous run of its input. */
  lemma TrimIsSlice(s: string)
    ensures LeadingWhitespace(s) + |Trim(s)| <= |s|
    ensures Trim(s) == s[LeadingWhitespace(s)..LeadingWhitespace(s) + |Trim(s)|]
  {
  }

  /** What `trim` drops on either side of that run is whitespace. */
  lemma TrimDropsWhitespace(s: string)
    ensures forall k :: 0 <= k < LeadingWhitespace(s) ==> IsWhitespace(s[k])
    ensures forall k :: LeadingWhitespace(s) + |Trim(s)| <= k < |s| ==> IsWhitespace(s[k])
  {
    var n := LeadingWhitespace(s);
    var t := s[n..];
    LeadingWhitespaceRun(s);
    TrailingWhitespaceRun(t);
    forall k | n + |Trim(s)| <= k < |s| ensures IsWhitespace(s[k]) {
      assert s[k] == t[k - n];
    }
  }

  /** Trimming never brings in a separator. */
  lemma TrimKeepsNoSeparator(s: string)
    requires NoSeparator(s)
    ensures NoSeparator(Trim(s))
  {
    var r, n := Trim(s), LeadingWhitespace(s);
    TrimIsSlice(s);
    forall k | 0 <= k < |r| ensures !IsSeparator(r[k]) {
      assert r[k] == s[n + k];
    }
  }

  /** A string trims to the empty string exactly when it is all whitespace. */
  lemma TrimEmptyIff(s: string)
    ensures Trim(s) == [] <==> forall k :: 0 <= k < |s| ==> IsWhitespace(s[k])
  {
    TrimIsSlice(s);
    TrimDropsWhitespace(s);
    if Trim(s) != [] {
      assert !IsWhitespace(s[LeadingWhitespace(s)]);
    }
  }

  /** Trimming changes nothing on a string whose ends are not whitespace. */
  lemma TrimOfTrimmed(s: string)
    requires Trimmed(s)
    ensures Trim(s) == s
  {
    assert LeadingWhitespace(s) == 0;
    assert s[0..] == s;
    assert TrailingWhitespace(s) == 0;
  }

  /** Splitting a separator-free string gives the string back as the only piece. */
  lemma {:induction false} SplitNoSeparator(p: string)
    requires NoSeparator(p)
    ensures Split(p) == [p]
    decreases |p|
  {
    if p != [] {
      SplitNoSeparator(p[1..]);
      assert [p[0]] + p[1..] == p;
    }
  }

  /** A separator-free prefix followed by a separator ends exactly one piece. */
  lemma {:induction false} SplitPrefix(p: string, c: char, rest: string)
    requires NoSeparator(p) && IsSeparator(c)
    ensures Split(p + [c] + rest) == [p] + Split(rest)
    decreases |p|
  {
    var s := p + [c] + rest;
    if p == [] {
      assert s[1..] == rest;
    } else {
      assert s[1..] == p[1..] + [c] + rest;
      SplitPrefix(p[1..], c, rest);
      assert [p[0]] + p[1..] == p;
    }
  }

  /** Round trip: joining separator-free pieces with the fullwidth comma and splitting
      again gives the same pieces. */
  lemma {:induction false} SplitJoin(parts: seq<string>)
    requires |parts| >= 1
    requires forall i :: 0 <= i < |parts| ==> NoSeparator(parts[i])
    ensures Split(Join(parts, [FullwidthComma])) == parts
    decreases |parts|
  {
    if |parts| == 1 {
      SplitNoSeparator(parts[0]);
    } else {
      SplitJoin(parts[1..]);
      SplitPrefix(parts[0], FullwidthComma, Join(parts[1..], [FullwidthComma]));
      assert [parts[0]] + parts[1..] == parts;
    }
  }

  /** Round trip the other way: rejoining the pieces of `s` with the fullwidth comma
      gives `s` back, with each separator written as the fullwidth comma. */
  lemma {:induction false} JoinSplit(s: string)
    ensures Join(Split(s), [FullwidthComma]) == Canonical(s)
    decreases |s|
  {
    if s != [] {
      var rest := Split(s[1..]);
      JoinSplit(s[1..]);
      if !IsSeparator(s[0]) {
        var head := [s[0]] + rest[0];
        if |rest| == 1 {
          assert Split(s) == [head];
        } else {
          assert Split(s) == [head] + rest[1..];
          assert ([head] + rest[1..])[1..] == rest[1..];
        }
      } else {
        assert Split(s) == [""] + rest;
        assert ([""] + rest)[1..] == rest;
      }
    }
  }

  /** A character occurring in neither the pieces nor the separator does not occur in
      their join. */
  lemma {:induction false} JoinAvoids(parts: seq<string>, sep: string, c: char)
    requires forall i :: 0 <= i < |parts| ==> c !in parts[i]
    requires c !in sep
    ensures c !in Join(parts, sep)
    decreases |parts|
  {
    if |parts| > 1 {
      JoinAvoids(parts[1..], sep, c);
      var tail := Join(parts[1..], sep);
      assert c !in parts[0] && c !in sep && c !in tail;
      assert Join(parts, sep) == parts[0] + sep + tail;
    }
  }
}
