/**
 String primitives the views rely on: case folding, substring search, whitespace
 trimming and splitting on a separator character. Foundation's locale-aware
 folding is modelled by an ASCII fold.
 */
module Text {

  // ---------------------------------------------------------------- case folding

  predicate IsUpper(c: char) { 'A' <= c <= 'Z' }

  /** ASCII lower-casing of one character; every other character is left alone. */
  function FoldChar(c: char): (r: char)
    ensures !IsUpper(r)
    ensures IsUpper(c) ==> r as int == c as int + 32
    ensures !IsUpper(c) ==> r == c
  {
    if IsUpper(c) then (c as int + 32) as char else c
  }

  /** `String.lowercased()` under the ASCII fold. */
  function Lower(s: string): (r: string)
    ensures |r| == |s|
    ensures forall i :: 0 <= i < |s| ==> r[i] == FoldChar(s[i])
  {
    seq(|s|, i requires 0 <= i < |s| => FoldChar(s[i]))
  }

  /** Lower-casing leaves no upper-case letter behind, and doing it again changes nothing. */
  lemma LowerIdempotent(s: string)
    ensures forall i :: 0 <= i < |Lower(s)| ==> !IsUpper(Lower(s)[i])
    ensures Lower(Lower(s)) == Lower(s)
  {
  }

  // ------------------------------------------------------------ substring search

  predicate StartsWith(s: string, prefix: string) {
    |prefix| <= |s| && s[..|prefix|] == prefix
  }

  /** `needle` occurs in `text` starting at position `i`. */
  predicate OccursAt(text: string, needle: string, i: int) {
    0 <= i && i + |needle| <= |text| && text[i..i + |needle|] == needle
  }

  /** `text.contains(needle)`: a case-sensitive substring test. */
  predicate Contains(text: string, needle: string)
    decreases |text|
  {
    StartsWith(text, needle) || (|text| > 0 && Contains(text[1..], needle))
  }

  /** The scanning definition of `Contains` agrees with the positional one. */
  lemma {:induction false} ContainsIffOccurs(text: string, needle: string)
    ensures Contains(text, needle) <==> exists i :: OccursAt(text, needle, i)
    decreases |text|
  {
    if StartsWith(text, needle) {
      assert OccursAt(text, needle, 0);
    }
    if |text| > 0 {
      ContainsIffOccurs(text[1..], needle);
      if Contains(text[1..], needle) {
        var i :| OccursAt(text[1..], needle, i);
        assert text[i + 1..i + 1 + |needle|] == text[1..][i..i + |needle|];
        assert OccursAt(text, needle, i + 1);
      }
      if i :| OccursAt(text, needle, i) {
        if i == 0 {
          assert StartsWith(text, needle);
        } else {
          assert text[1..][i - 1..i - 1 + |needle|] == text[i..i + |needle|];
          assert OccursAt(text[1..], needle, i - 1);
        }
      }
    }
  }

  /** A needle longer than the text never occurs in it. */
  lemma {:induction false} ContainsNeedsRoom(text: string, needle: string)
    requires |text| < |needle|
    ensures !Contains(text, needle)
    decreases |text|
  {
    if |text| > 0 {
      ContainsNeedsRoom(text[1..], needle);
    }
  }

  /** `text.localizedCaseInsensitiveContains(needle)` under the ASCII fold. */
  predicate ContainsIgnoringCase(text: string, needle: string) {
    Contains(Lower(text), Lower(needle))
  }

  /** Case-insensitive search cannot tell a text from its lower-cased form. */
  lemma ContainsIgnoringCaseOfLower(text: string, needle: string)
    ensures ContainsIgnoringCase(Lower(text), needle) == ContainsIgnoringCase(text, needle)
    ensures ContainsIgnoringCase(text, Lower(needle)) == ContainsIgnoringCase(text, needle)
  {
    LowerIdempotent(text);
    LowerIdempotent(needle);
  }

  // -------------------------------------------------------------------- trimming

  /**
   Membership in `CharacterSet.whitespacesAndNewlines`, modelled as the Unicode
   White_Space property: tab through carriage return, space, NEL, no-break
   space and the Zs, Zl and Zp separators.
   */
  predicate IsWhitespace(c: char) {
    || c == ' '
    || '\t' <= c <= '\r'
    || c == '\U{0085}'
    || c == '\U{00A0}'
    || c == '\U{1680}'
    || '\U{2000}' <= c <= '\U{200A}'
    || c == '\U{2028}'
    || c == '\U{2029}'
    || c == '\U{202F}'
    || c == '\U{205F}'
    || c == '\U{3000}'
  }

  predicate AllWhitespace(s: string) {
    forall i :: 0 <= i < |s| ==> IsWhitespace(s[i])
  }

  /** The index of the first character at or after `from` that is not whitespace (`|s|` if none). */
  function SkipLeading(s: string, from: nat): (n: nat)
    requires from <= |s|
    ensures from <= n <= |s|
    ensures forall i :: from <= i < n ==> IsWhitespace(s[i])
    ensures n < |s| ==> !IsWhitespace(s[n])
    decreases |s| - from
  {
    if from < |s| && IsWhitespace(s[from]) then SkipLeading(s, from + 1) else from
  }

  /** The end of `s[lo..upTo]` once its trailing whitespace is dropped. */
  function SkipTrailing(s: string, lo: nat, upTo: nat): (m: nat)
    requires lo <= upTo <= |s|
    ensures lo <= m <= upTo
    ensures forall i :: m <= i < upTo ==> IsWhitespace(s[i])
    ensures m > lo ==> !IsWhitespace(s[m - 1])
    decreases upTo
  {
    if upTo > lo && IsWhitespace(s[upTo - 1]) then SkipTrailing(s, lo, upTo - 1) else upTo
  }

  /** `trimmingCharacters(in: .whitespacesAndNewlines)`: drop leading, then trailing whitespace. */
  function Trim(s: string): string {
    var lo := SkipLeading(s, 0);
    s[lo..SkipTrailing(s, lo, |s|)]
  }

  /** A trimmed text starts and ends with a character that is not whitespace. */
  lemma TrimEnds(s: string)
    ensures |Trim(s)| > 0 ==> !IsWhitespace(Trim(s)[0]) && !IsWhitespace(Trim(s)[|Trim(s)| - 1])
  {
    var lo := SkipLeading(s, 0);
    var hi := SkipTrailing(s, lo, |s|);
    if hi > lo {
      assert Trim(s)[0] == s[lo] && Trim(s)[|Trim(s)| - 1] == s[hi - 1];
    }
  }

  /** Trimming yields the empty string exactly when the input is all whitespace. */
  lemma TrimEmptyIff(s: string)
    ensures Trim(s) == "" <==> AllWhitespace(s)
  {
    var lo := SkipLeading(s, 0);
    var hi := SkipTrailing(s, lo, |s|);
    assert |Trim(s)| == hi - lo;
  }

  /**
   Trimming keeps a contiguous slice of the input whose ends are not whitespace,
   removes only whitespace, and yields the empty string exactly when the input is
   all whitespace.
   */
  lemma TrimSpec(s: string)
    ensures exists lo, hi :: 0 <= lo <= hi <= |s| && Trim(s) == s[lo..hi]
                             && AllWhitespace(s[..lo]) && AllWhitespace(s[hi..])
    ensures |Trim(s)| > 0 ==> !IsWhitespace(Trim(s)[0]) && !IsWhitespace(Trim(s)[|Trim(s)| - 1])
    ensures Trim(s) == "" <==> AllWhitespace(s)
  {
    var lo := SkipLeading(s, 0);
    var hi := SkipTrailing(s, lo, |s|);
    assert AllWhitespace(s[..lo]);
    assert AllWhitespace(s[hi..]) by {
      forall i | 0 <= i < |s| - hi ensures IsWhitespace(s[hi..][i]) {
        assert s[hi..][i] == s[hi + i];
      }
    }
    TrimEnds(s);
    TrimEmptyIff(s);
  }

  // ------------------------------------------------------------------- splitting

  /** `components(separatedBy:)` for a one-character separator: always at least one piece. */
  function Split(s: string, sep: char): (parts: seq<string>)
    ensures |parts| >= 1
    ensures forall k :: 0 <= k < |parts| ==> sep !in parts[k]
    decreases |s|
  {
    if |s| == 0 then [""]
    else if s[0] == sep then [""] + Split(s[1..], sep)
    else
      var rest := Split(s[1..], sep);
      [[s[0]] + rest[0]] + rest[1..]
  }

  /** `joined(separator:)` for a one-character separator; the empty list joins to "". */
  function Join(parts: seq<string>, sep: char): string
    decreases |parts|
  {
    if |parts| == 0 then ""
    else if |parts| == 1 then parts[0]
    else parts[0] + [sep] + Join(parts[1..], sep)
  }

  lemma {:induction false} JoinConsHead(c: char, parts: seq<string>, sep: char)
    requires |parts| >= 1
    ensures Join([[c] + parts[0]] + parts[1..], sep) == [c] + Join(parts, sep)
  {
    var q := [[c] + parts[0]] + parts[1..];
    if |parts| > 1 {
      assert q[1..] == parts[1..];
    }
  }

  /** Joining the pieces back with the separator restores the original text. */
  lemma {:induction false} JoinSplit(s: string, sep: char)
    ensures Join(Split(s, sep), sep) == s
    decreases |s|
  {
    if |s| > 0 {
      JoinSplit(s[1..], sep);
      var rest := Split(s[1..], sep);
      if s[0] == sep {
        assert ([""] + rest)[1..] == rest;
        assert s == [s[0]] + s[1..];
      } else {
        JoinConsHead(s[0], rest, sep);
        assert s == [s[0]] + s[1..];
      }
    }
  }

  /** Splitting a text free of the separator gives the text itself. */
  lemma {:induction false} SplitWithoutSep(s: string, sep: char)
    requires sep !in s
    ensures Split(s, sep) == [s]
    decreases |s|
  {
    if |s| > 0 {
      SplitWithoutSep(s[1..], sep);
      assert s == [s[0]] + s[1..];
    }
  }

  /** A separator-free piece followed by the separator splits off as one piece. */
  lemma {:induction false} SplitAfterPiece(x: string, sep: char, y: string)
    requires sep !in x
    ensures Split(x + [sep] + y, sep) == [x] + Split(y, sep)
    decreases |x|
  {
    var s := x + [sep] + y;
    if |x| == 0 {
      assert s == [sep] + y;
      assert s[1..] == y;
    } else {
      assert s[1..] == x[1..] + [sep] + y;
      SplitAfterPiece(x[1..], sep, y);
      assert x == [x[0]] + x[1..];
    }
  }

  /** Splitting a join of separator-free pieces recovers the pieces. */
  lemma {:induction false} SplitJoin(parts: seq<string>, sep: char)
    requires |parts| >= 1
    requires forall k :: 0 <= k < |parts| ==> sep !in parts[k]
    ensures Split(Join(parts, sep), sep) == parts
    decreases |parts|
  {
    if |parts| == 1 {
      SplitWithoutSep(parts[0], sep);
    } else {
      SplitJoin(parts[1..], sep);
      SplitAfterPiece(parts[0], sep, Join(parts[1..], sep));
      assert parts == [parts[0]] + parts[1..];
    }
  }
}
