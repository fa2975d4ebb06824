/**
 * Character and string helpers shared by the backend and the two front ends.
 * `ToLower`/`toLowerCase` are treated as ASCII lowercasing; the two runtimes'
 * whitespace sets are kept apart because they differ in two code points.
 */
module Text {
  import opened Wrappers

  function LowerChar(c: char): char {
    if 'A' <= c <= 'Z' then (c as int + 32) as char else c
  }

  predicate IsUpperAscii(c: char) { 'A' <= c <= 'Z' }
  predicate IsLowerAscii(c: char) { 'a' <= c <= 'z' }
  predicate IsDigit(c: char) { '0' <= c <= '9' }

  /** ASCII lowercasing of a whole string. */
  function Lower(s: string): (r: string)
    ensures |r| == |s|
    ensures forall i :: 0 <= i < |s| ==> r[i] == LowerChar(s[i])
    ensures forall i :: 0 <= i < |r| ==> !IsUpperAscii(r[i])
  {
    seq(|s|, i requires 0 <= i < |s| => LowerChar(s[i]))
  }

  lemma LowerIdempotent(s: string)
    ensures Lower(Lower(s)) == Lower(s)
  {
  }

  /** `Char.IsWhiteSpace` of .NET: used by `string.IsNullOrWhiteSpace` and `string.Trim`. */
  predicate IsDotNetSpace(c: char) {
    var n := c as int;
    n == 0x20 || 0x09 <= n <= 0x0D || n == 0x85 || n == 0xA0 || n == 0x1680
    || 0x2000 <= n <= 0x200A || n == 0x2028 || n == 0x2029 || n == 0x202F
    || n == 0x205F || n == 0x3000
  }

  /** ECMAScript WhiteSpace and LineTerminator: the `\s` class and `String.prototype.trim`. */
  predicate IsJsSpace(c: char) {
    var n := c as int;
    n == 0x20 || 0x09 <= n <= 0x0D || n == 0xA0 || n == 0x1680
    || 0x2000 <= n <= 0x200A || n == 0x2028 || n == 0x2029 || n == 0x202F
    || n == 0x205F || n == 0x3000 || n == 0xFEFF
  }

  ghost predicate AllSatisfy(s: string, p: char -> bool) {
    forall i :: 0 <= i < |s| ==> p(s[i])
  }

  /** `string.IsNullOrEmpty`. */
  predicate IsNullOrEmpty(s: Option<string>) {
    s.None? || s.value == ""
  }

  /** `string.IsNullOrWhiteSpace`: absent, or every character is .NET whitespace. */
  function IsBlank(s: Option<string>): (b: bool)
    ensures b <==> s.None? || AllSatisfy(s.value, IsDotNetSpace)
  {
    match s
    case None => true
    case Some(v) => AllSpace(v, IsDotNetSpace)
  }

  function AllSpace(s: string, isSpace: char -> bool): (b: bool)
    ensures b <==> AllSatisfy(s, isSpace)
  {
    if s == [] then true else isSpace(s[0]) && AllSpace(s[1..], isSpace)
  }

  /** Index of the first character at or after `i` that is not in `isSpace`. */
  function SkipSpaceFrom(s: string, isSpace: char -> bool, i: nat): (j: nat)
    requires i <= |s|
    ensures i <= j <= |s|
    ensures j == |s| || !isSpace(s[j])
    ensures forall k :: i <= k < j ==> isSpace(s[k])
    decreases |s| - i
  {
    if i < |s| && isSpace(s[i]) then SkipSpaceFrom(s, isSpace, i + 1) else i
  }

  /** One past the last character before `j` that is not in `isSpace`. */
  function SkipSpaceBack(s: string, isSpace: char -> bool, j: nat): (i: nat)
    requires j <= |s|
    ensures i <= j
    ensures i == 0 || !isSpace(s[i - 1])
    ensures forall k :: i <= k < j ==> isSpace(s[k])
  {
    if j > 0 && isSpace(s[j - 1]) then SkipSpaceBack(s, isSpace, j - 1) else j
  }

  /** Drops leading characters in `isSpace`. */
  function TrimStart(s: string, isSpace: char -> bool): (r: string)
    ensures |r| <= |s| && r == s[|s| - |r|..]
    ensures r == [] || !isSpace(r[0])
    ensures forall k :: 0 <= k < |s| - |r| ==> isSpace(s[k])
  {
    s[SkipSpaceFrom(s, isSpace, 0)..]
  }

  /** Drops trailing characters in `isSpace`. */
  function TrimEnd(s: string, isSpace: char -> bool): (r: string)
    ensures |r| <= |s| && r == s[..|r|]
    ensures r == [] || !isSpace(r[|r| - 1])
    ensures forall k :: |r| <= k < |s| ==> isSpace(s[k])
  {
    s[..SkipSpaceBack(s, isSpace, |s|)]
  }

  /** `Trim()` of either runtime, given its whitespace set. */
  function Trim(s: string, isSpace: char -> bool): string {
    TrimEnd(TrimStart(s, isSpace), isSpace)
  }

  /** Trimming twice is trimming once: a trimmed string has no white space at either end. */
  lemma TrimIdempotent(s: string, isSpace: char -> bool)
    ensures Trim(Trim(s, isSpace), isSpace) == Trim(s, isSpace)
  {
    var t1 := TrimStart(s, isSpace);
    var t := TrimEnd(t1, isSpace);
    if t != [] {
      assert t[0] == t1[0];
      assert SkipSpaceFrom(t, isSpace, 0) == 0;
      assert TrimStart(t, isSpace) == t;
      assert SkipSpaceBack(t, isSpace, |t|) == |t|;
    }
  }

  /** ASCII lowercasing neither makes nor unmakes .NET white space. */
  lemma LowerKeepsDotNetSpace(s: string)
    ensures forall i :: 0 <= i < |s| ==> (IsDotNetSpace(Lower(s)[i]) <==> IsDotNetSpace(s[i]))
  {
  }

  /** Two strings with white space at the same positions skip the same leading run. */
  lemma {:induction false} SkipSpaceFromAgrees(s: string, s': string, isSpace: char -> bool, i: nat)
    requires |s'| == |s| && i <= |s|
    requires forall k :: 0 <= k < |s| ==> (isSpace(s'[k]) <==> isSpace(s[k]))
    ensures SkipSpaceFrom(s', isSpace, i) == SkipSpaceFrom(s, isSpace, i)
    decreases |s| - i
  {
    if i < |s| && isSpace(s[i]) {
      SkipSpaceFromAgrees(s, s', isSpace, i + 1);
    }
  }

  /** Two strings with white space at the same positions skip the same trailing run. */
  lemma {:induction false} SkipSpaceBackAgrees(s: string, s': string, isSpace: char -> bool, j: nat)
    requires |s'| == |s| && j <= |s|
    requires forall k :: 0 <= k < |s| ==> (isSpace(s'[k]) <==> isSpace(s[k]))
    ensures SkipSpaceBack(s', isSpace, j) == SkipSpaceBack(s, isSpace, j)
  {
    if j > 0 && isSpace(s[j - 1]) {
      SkipSpaceBackAgrees(s, s', isSpace, j - 1);
    }
  }

  /** Lowercasing and .NET trimming commute. */
  lemma TrimLowerCommute(s: string)
    ensures Trim(Lower(s), IsDotNetSpace) == Lower(Trim(s, IsDotNetSpace))
  {
    LowerKeepsDotNetSpace(s);
    SkipSpaceFromAgrees(s, Lower(s), IsDotNetSpace, 0);
    var a := SkipSpaceFrom(s, IsDotNetSpace, 0);
    var t := s[a..];
    var t' := Lower(s)[a..];
    assert TrimStart(Lower(s), IsDotNetSpace) == t';
    assert t' == Lower(t);
    LowerKeepsDotNetSpace(t);
    SkipSpaceBackAgrees(t, t', IsDotNetSpace, |t|);
    var b := SkipSpaceBack(t, IsDotNetSpace, |t|);
    assert t'[..b] == Lower(t[..b]);
  }

  /** Trimming leaves nothing exactly when the string is all whitespace. */
  lemma TrimEmptyIffAllSpace(s: string, isSpace: char -> bool)
    ensures Trim(s, isSpace) == [] <==> AllSatisfy(s, isSpace)
  {
  }

  /** A character outside the Basic Multilingual Plane, which UTF-16 stores as a surrogate pair. */
  predicate IsAstral(c: char) {
    c as int > 0xFFFF
  }

  /** The number of astral characters in `s`. */
  function AstralCount(s: string): nat {
    if s == [] then 0 else (if IsAstral(s[0]) then 1 else 0) + AstralCount(s[1..])
  }

  /**
   * JavaScript's `length`: UTF-16 code units, one per character plus one
   * more for each astral character.
   */
  function Utf16Length(s: string): (n: nat)
    ensures n == |s| + AstralCount(s)
    ensures |s| <= n <= 2 * |s|
    ensures (forall i :: 0 <= i < |s| ==> !IsAstral(s[i])) <==> n == |s|
  {
    if s == [] then 0
    else
      var rest := Utf16Length(s[1..]);
      assert forall i :: 1 <= i < |s| ==> s[i] == s[1..][i - 1];
      (if IsAstral(s[0]) then 2 else 1) + rest
  }

  /** Code units add up over concatenation. */
  lemma {:induction false} Utf16LengthConcat(a: string, b: string)
    ensures Utf16Length(a + b) == Utf16Length(a) + Utf16Length(b)
  {
    if a != [] {
      assert (a + b)[0] == a[0];
      assert (a + b)[1..] == a[1..] + b;
      Utf16LengthConcat(a[1..], b);
    } else {
      assert a + b == b;
    }
  }

  predicate IsPrefix(p: string, s: string) {
    |p| <= |s| && s[..|p|] == p
  }

  /** `needle` occurs in `hay` starting at index `i`. */
  predicate OccursAt(hay: string, needle: string, i: nat) {
    i + |needle| <= |hay| && hay[i..i + |needle|] == needle
  }

  /** `string.Contains` / `String.prototype.includes`. */
  function Contains(hay: string, needle: string): (b: bool)
    ensures b <==> exists i: nat :: OccursAt(hay, needle, i)
    decreases |hay|
  {
    if IsPrefix(needle, hay) then
      assert OccursAt(hay, needle, 0);
      true
    else if hay == [] then
      assert forall i: nat :: !OccursAt(hay, needle, i);
      false
    else
      var b := Contains(hay[1..], needle);
      assert forall i: nat :: OccursAt(hay[1..], needle, i) <==> OccursAt(hay, needle, i + 1) by {
        forall i: nat ensures OccursAt(hay[1..], needle, i) <==> OccursAt(hay, needle, i + 1) {
          if i + |needle| <= |hay[1..]| {
            assert hay[1..][i..i + |needle|] == hay[i + 1..i + 1 + |needle|];
          }
        }
      }
      assert b ==> exists i: nat :: OccursAt(hay, needle, i) by {
        if b {
          var i: nat :| OccursAt(hay[1..], needle, i);
          assert OccursAt(hay, needle, i + 1);
        }
      }
      assert (exists i: nat :: OccursAt(hay, needle, i)) ==> b by {
        if exists i: nat :: OccursAt(hay, needle, i) {
          var i: nat :| OccursAt(hay, needle, i);
          assert i != 0;
          assert OccursAt(hay[1..], needle, i - 1);
        }
      }
      b
  }
}
