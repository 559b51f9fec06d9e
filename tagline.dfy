/** Tagline normalisation: `tagline.split(/[，,]/).map(s => s.trim()).filter(Boolean).join('，')`. */
module Tagline {
  import opened Strings

  /** `parts.map(s => s.trim())`. */
  function TrimAll(parts: seq<string>): (r: seq<string>)
    ensures |r| == |parts|
    ensures forall i :: 0 <= i < |r| ==> r[i] == Trim(parts[i])
  {
    seq(|parts|, i requires 0 <= i < |parts| => Trim(parts[i]))
  }

  /** `parts.filter(Boolean)`: a string is truthy exactly when it is not empty. */
  function DropEmpty(parts: seq<string>): (r: seq<string>)
    ensures forall i :: 0 <= i < |r| ==> r[i] != [] && r[i] in parts
    ensures forall i :: 0 <= i < |parts| && parts[i] != [] ==> parts[i] in r
    ensures (forall i :: 0 <= i < |parts| ==> parts[i] != []) ==> r == parts
    ensures (forall i :: 0 <= i < |parts| ==> parts[i] == []) ==> r == []
  {
    if parts == [] then []
    else if parts[0] == [] then DropEmpty(parts[1..])
    else [parts[0]] + DropEmpty(parts[1..])
  }

  /** One part is kept exactly when it is not empty. */
  lemma DropEmptySingleton(x: string)
    ensures DropEmpty([x]) == if x == [] then [] else [x]
  {
    assert [x][1..] == [];
  }

  /** Filtering distributes over concatenation. With `DropEmptySingleton` this pins the
      result down completely: the non-empty parts, each as often as it occurs, in their
      original order. */
  lemma {:induction false} DropEmptyAppend(front: seq<string>, back: seq<string>)
    ensures DropEmpty(front + back) == DropEmpty(front) + DropEmpty(back)
    decreases |front|
  {
    if front == [] {
      assert front + back == back;
    } else {
      assert (front + back)[1..] == front[1..] + back;
      DropEmptyAppend(front[1..], back);
    }
  }

  /** The phrases of a tagline, in order. */
  function Pieces(tagline: string): (r: seq<string>)
    ensures forall i :: 0 <= i < |r| ==> r[i] != [] && Trimmed(r[i]) && NoSeparator(r[i])
  {
    var split := Split(tagline);
    var trimmed := TrimAll(split);
    forall i | 0 <= i < |split| ensures NoSeparator(trimmed[i]) {
      TrimKeepsNoSeparator(split[i]);
    }
    DropEmpty(trimmed)
  }

  /** The normalised tagline: its phrases joined with the fullwidth comma. */
  function Normalize(tagline: string): string {
    Join(Pieces(tagline), [FullwidthComma])
  }

  /** A normalised tagline never contains an ASCII comma. */
  lemma NormalizeHasNoAsciiComma(tagline: string)
    ensures ',' !in Normalize(tagline)
  {
    CanonicalJoinHasNoAsciiComma(Pieces(tagline));
  }

  /** Separator-free phrases joined with the fullwidth comma contain no ASCII comma. */
  lemma CanonicalJoinHasNoAsciiComma(ps: seq<string>)
    requires forall i :: 0 <= i < |ps| ==> NoSeparator(ps[i])
    ensures ',' !in Join(ps, [FullwidthComma])
  {
    forall i | 0 <= i < |ps| ensures ',' !in ps[i] {
      SeparatorFreeHasNoComma(ps[i]);
    }
    assert ',' !in [FullwidthComma];
    JoinAvoids(ps, [FullwidthComma], ',');
  }

  lemma SeparatorFreeHasNoComma(p: string)
    requires NoSeparator(p)
    ensures ',' !in p
  {
  }

  /** Normalising a normalised tagline changes nothing: it has the same phrases. */
  lemma NormalizeIdempotent(tagline: string)
    ensures Pieces(Normalize(tagline)) == Pieces(tagline)
    ensures Normalize(Normalize(tagline)) == Normalize(tagline)
  {
    var ps := Pieces(tagline);
    var n := Normalize(tagline);
    if ps == [] {
      assert n == "";
      assert Split(n) == [""];
      assert Trim("") == "";
      assert TrimAll([""]) == [""];
    } else {
      SplitJoin(ps);
      assert Split(n) == ps;
      forall i | 0 <= i < |ps| ensures Trim(ps[i]) == ps[i] {
        TrimOfTrimmed(ps[i]);
      }
      assert TrimAll(ps) == ps;
      assert Pieces(n) == ps;
    }
  }

  /** Every piece that a string of whitespace and separators splits into is whitespace. */
  lemma {:induction false} SplitBlank(s: string)
    requires forall k :: 0 <= k < |s| ==> IsWhitespace(s[k]) || IsSeparator(s[k])
    ensures forall i, k :: 0 <= i < |Split(s)| && 0 <= k < |Split(s)[i]| ==> IsWhitespace(Split(s)[i][k])
    decreases |s|
  {
    if s != [] {
      SplitBlank(s[1..]);
    }
  }

  /** An empty tagline, or one made only of separators and whitespace, normalises to "". */
  lemma NormalizeBlank(tagline: string)
    requires forall k :: 0 <= k < |tagline| ==> IsWhitespace(tagline[k]) || IsSeparator(tagline[k])
    ensures Normalize(tagline) == ""
  {
    SplitBlank(tagline);
    BlankPiecesVanish(Split(tagline));
    assert Pieces(tagline) == [];
  }

  /** Trimming and dropping empties removes every all-whitespace piece. */
  lemma BlankPiecesVanish(parts: seq<string>)
    requires forall i, k :: 0 <= i < |parts| && 0 <= k < |parts[i]| ==> IsWhitespace(parts[i][k])
    ensures DropEmpty(TrimAll(parts)) == []
  {
    forall i | 0 <= i < |parts| ensures Trim(parts[i]) == [] {
      TrimEmptyIff(parts[i]);
    }
  }

  /** When the trimmed pieces of a split are all non-empty, they are the phrases. */
  lemma PiecesFromSplit(tagline: string, phrases: seq<string>)
    requires |Split(tagline)| == |phrases|
    requires forall i :: 0 <= i < |phrases| ==> Trim(Split(tagline)[i]) == phrases[i] && phrases[i] != []
    ensures Normalize(tagline) == Join(phrases, [FullwidthComma])
  {
    assert TrimAll(Split(tagline)) == phrases;
  }

  /** A one-character phrase is its own trim and its own split. */
  lemma Letter(a: char)
    requires !IsWhitespace(a) && !IsSeparator(a)
    ensures Trim([a]) == [a] && NoSeparator([a])
  {
    TrimOfTrimmed([a]);
  }

  lemma SplitAsciiShape(a: char, b: char, c: char)
    requires !IsSeparator(a) && !IsSeparator(b) && !IsSeparator(c)
    ensures Split([a, ',', ' ', b, ' ', ',', c]) == [[a], [' ', b, ' '], [c]]
  {
    assert [a, ',', ' ', b, ' ', ',', c] == [a] + [','] + [' ', b, ' ', ',', c];
    SplitPrefix([a], ',', [' ', b, ' ', ',', c]);
    assert [' ', b, ' ', ',', c] == [' ', b, ' '] + [','] + [c];
    SplitPrefix([' ', b, ' '], ',', [c]);
    SplitNoSeparator([c]);
  }

  lemma SplitFullwidthShape(a: char, b: char, c: char)
    requires !IsSeparator(a) && !IsSeparator(b) && !IsSeparator(c)
    ensures Split([a, FullwidthComma, b, FullwidthComma, ' ', c]) == [[a], [b], [' ', c]]
  {
    assert [a, FullwidthComma, b, FullwidthComma, ' ', c] == [a] + [FullwidthComma] + [b, FullwidthComma, ' ', c];
    SplitPrefix([a], FullwidthComma, [b, FullwidthComma, ' ', c]);
    assert [b, FullwidthComma, ' ', c] == [b] + [FullwidthComma] + [' ', c];
    SplitPrefix([b], FullwidthComma, [' ', c]);
    SplitNoSeparator([' ', c]);
  }

  lemma TrimPadded(b: char)
    requires !IsWhitespace(b)
    ensures Trim([' ', b, ' ']) == [b]
  {
    var s := [' ', b, ' '];
    assert LeadingWhitespace(s[1..]) == 0;
    assert LeadingWhitespace(s) == 1;
    var t := s[1..];
    assert t == [b, ' '];
    assert TrailingWhitespace(t[..1]) == 0;
    assert TrailingWhitespace(t) == 1;
  }

  lemma TrimIndented(c: char)
    requires !IsWhitespace(c)
    ensures Trim([' ', c]) == [c]
  {
    var s := [' ', c];
    assert LeadingWhitespace(s[1..]) == 0;
    assert LeadingWhitespace(s) == 1;
    assert s[1..] == [c];
    assert TrailingWhitespace([c]) == 0;
  }

  lemma JoinThree(a: char, b: char, c: char)
    ensures Join([[a], [b], [c]], [FullwidthComma]) == [a, FullwidthComma, b, FullwidthComma, c]
  {
    assert [[a], [b], [c]][1..] == [[b], [c]];
    assert [[b], [c]][1..] == [[c]];
    assert Join([[b], [c]], [FullwidthComma]) == [b] + [FullwidthComma] + [c];
    assert [a] + [FullwidthComma] + ([b] + [FullwidthComma] + [c]) == [a, FullwidthComma, b, FullwidthComma, c];
  }

  /** The pieces of an `"a, b ,c"`-shaped tagline trim to its three letters. */
  lemma AsciiShapePhrases(a: char, b: char, c: char)
    requires !IsWhitespace(a) && !IsSeparator(a)
    requires !IsWhitespace(b) && !IsSeparator(b)
    requires !IsWhitespace(c) && !IsSeparator(c)
    ensures var parts := Split([a, ',', ' ', b, ' ', ',', c]);
      |parts| == 3 && forall i :: 0 <= i < 3 ==> Trim(parts[i]) == [[a], [b], [c]][i]
  {
    SplitAsciiShape(a, b, c);
    var parts := Split([a, ',', ' ', b, ' ', ',', c]);
    Letter(a); TrimPadded(b); Letter(c);
    assert Trim(parts[0]) == [a] && Trim(parts[1]) == [b] && Trim(parts[2]) == [c];
  }

  /** The pieces of an `"a，b， c"`-shaped tagline trim to its three letters. */
  lemma FullwidthShapePhrases(a: char, b: char, c: char)
    requires !IsWhitespace(a) && !IsSeparator(a)
    requires !IsWhitespace(b) && !IsSeparator(b)
    requires !IsWhitespace(c) && !IsSeparator(c)
    ensures var parts := Split([a, FullwidthComma, b, FullwidthComma, ' ', c]);
      |parts| == 3 && forall i :: 0 <= i < 3 ==> Trim(parts[i]) == [[a], [b], [c]][i]
  {
    SplitFullwidthShape(a, b, c);
    var parts := Split([a, FullwidthComma, b, FullwidthComma, ' ', c]);
    Letter(a); Letter(b); TrimIndented(c);
    assert Trim(parts[0]) == [a] && Trim(parts[1]) == [b] && Trim(parts[2]) == [c];
  }

  /** `"a, b ,c"`-shaped taglines: ASCII commas with stray spaces on either side. */
  lemma NormalizeAsciiShape(a: char, b: char, c: char)
    requires !IsWhitespace(a) && !IsSeparator(a)
    requires !IsWhitespace(b) && !IsSeparator(b)
    requires !IsWhitespace(c) && !IsSeparator(c)
    ensures Normalize([a, ',', ' ', b, ' ', ',', c]) == [a, FullwidthComma, b, FullwidthComma, c]
  {
    AsciiShapePhrases(a, b, c);
    PiecesFromSplit([a, ',', ' ', b, ' ', ',', c], [[a], [b], [c]]);
    JoinThree(a, b, c);
  }

  /** `"a，b， c"`-shaped taglines: fullwidth commas, one followed by a space. */
  lemma NormalizeFullwidthShape(a: char, b: char, c: char)
    requires !IsWhitespace(a) && !IsSeparator(a)
    requires !IsWhitespace(b) && !IsSeparator(b)
    requires !IsWhitespace(c) && !IsSeparator(c)
    ensures Normalize([a, FullwidthComma, b, FullwidthComma, ' ', c]) == [a, FullwidthComma, b, FullwidthComma, c]
  {
    FullwidthShapePhrases(a, b, c);
    PiecesFromSplit([a, FullwidthComma, b, FullwidthComma, ' ', c], [[a], [b], [c]]);
    JoinThree(a, b, c);
  }

  /** `"a, b ,c"` and `"a，b， c"` both normalise to `"a，b，c"`. */
  lemma NormalizeExamples()
    ensures Normalize("a, b ,c") == "a\U{FF0C}b\U{FF0C}c"
    ensures Normalize("a\U{FF0C}b\U{FF0C} c") == "a\U{FF0C}b\U{FF0C}c"
  {
    NormalizeAsciiShape('a', 'b', 'c');
    NormalizeFullwidthShape('a', 'b', 'c');
  }

  /** A space after the comma is dropped: two phrases written `x, y` normalise to `x，y`. */
  lemma NormalizePair(x: string, y: string)
    requires x != [] && Trimmed(x) && NoSeparator(x)
    requires y != [] && Trimmed(y) && NoSeparator(y)
    ensures Normalize(x + ", " + y) == x + [FullwidthComma] + y
  {
    var rest := " " + y;
    assert x + ", " + y == x + [','] + rest;
    SplitPrefix(x, ',', rest);
    SplitNoSeparator(rest);
    assert Split(x + ", " + y) == [x, rest];
    TrimOfTrimmed(x);
    TrimLeadingSpace(y);
    PiecesFromSplit(x + ", " + y, [x, y]);
    assert [x, y][1..] == [y];
  }

  /** One leading space is all that `trim` removes from `" " + y` when `y` is trimmed. */
  lemma TrimLeadingSpace(y: string)
    requires y != [] && Trimmed(y)
    ensures Trim(" " + y) == y
  {
    var s := " " + y;
    assert s[1..] == y;
    assert LeadingWhitespace(y) == 0;
    assert LeadingWhitespace(s) == 1;
    TrimOfTrimmed(y);
  }
}
