/**
 The two string operations the codec advisor is built from: ASCII lower-casing
 (Python's `str.lower()` restricted to the letters `A`-`Z`) and substring
 containment (Python's `needle in hay`), plus `any(x in hay for x in needles)`.
 */
module AsciiText {

  predicate IsUpper(c: char) {
    'A' <= c <= 'Z'
  }

  /** Lower-cases one character: only `A`-`Z` change, each to its partner in `a`-`z`. */
  function LowerChar(c: char): (d: char)
    ensures !IsUpper(d)
    ensures d != c ==> IsUpper(c) && d as int - c as int == 'a' as int - 'A' as int
    ensures 'a' <= d <= 'z' <==> ('a' <= c <= 'z' || IsUpper(c))
  {
    if IsUpper(c) then (c as int - 'A' as int + 'a' as int) as char else c
  }

  /** `s.lower()`: the same length, every character lower-cased in place. */
  function Lower(s: string): (r: string)
    ensures |r| == |s|
    ensures forall i :: 0 <= i < |s| ==> r[i] == LowerChar(s[i])
  {
    if s == [] then [] else [LowerChar(s[0])] + Lower(s[1..])
  }

  /** Two strings are equal once case is ignored, compared character by character. */
  predicate EqualsIgnoringCase(a: string, b: string) {
    |a| == |b| && forall i :: 0 <= i < |a| ==> LowerChar(a[i]) == LowerChar(b[i])
  }

  /** Lower-casing twice is lower-casing once. */
  lemma LowerIdempotent(s: string)
    ensures Lower(Lower(s)) == Lower(s)
  {
  }

  /** A string without upper-case letters is its own lower-case form. */
  lemma LowerOfLowercase(s: string)
    requires forall i :: 0 <= i < |s| ==> !IsUpper(s[i])
    ensures Lower(s) == s
  {
  }

  /** Equal lower-case forms are exactly the strings equal up to case. */
  lemma LowerEqualIff(a: string, b: string)
    ensures Lower(a) == Lower(b) <==> EqualsIgnoringCase(a, b)
  {
  }

  /** `needle in hay` for Python strings; the empty needle is in every string. */
  predicate Contains(hay: string, needle: string)
    ensures |needle| == 0 ==> Contains(hay, needle)
    ensures Contains(hay, needle) ==> |needle| <= |hay|
    decreases |hay|
  {
    needle <= hay || (|hay| > 0 && Contains(hay[1..], needle))
  }

  /** `needle` occurs in `hay` starting at index `i`. */
  predicate OccursAt(hay: string, needle: string, i: nat) {
    i + |needle| <= |hay| && hay[i..i + |needle|] == needle
  }

  /** Contains agrees with the positional definition of a substring. */
  lemma {:induction false} ContainsIffOccurs(hay: string, needle: string)
    ensures Contains(hay, needle) <==> exists i: nat :: OccursAt(hay, needle, i)
    decreases |hay|
  {
    if needle <= hay {
      assert hay[0..|needle|] == needle;
      assert OccursAt(hay, needle, 0);
    } else if |hay| > 0 {
      ContainsIffOccurs(hay[1..], needle);
      var tail := hay[1..];
      if i: nat :| OccursAt(tail, needle, i) {
        assert hay[i + 1..i + 1 + |needle|] == tail[i..i + |needle|];
        assert OccursAt(hay, needle, i + 1);
      }
      if i: nat :| i > 0 && OccursAt(hay, needle, i) {
        assert tail[i - 1..i - 1 + |needle|] == hay[i..i + |needle|];
        assert OccursAt(tail, needle, i - 1);
      }
    }
  }

  /** Lower-casing preserves containment: if `needle` is in `hay`, then
      `needle.lower()` is in `hay.lower()` (so "DateTime" yields "date"). */
  lemma {:induction false} ContainsLower(hay: string, needle: string)
    requires Contains(hay, needle)
    ensures Contains(Lower(hay), Lower(needle))
    decreases |hay|
  {
    if needle <= hay {
      assert Lower(needle) <= Lower(hay);
    } else {
      ContainsLower(hay[1..], needle);
      assert Lower(hay)[1..] == Lower(hay[1..]);
    }
  }

  /** A needle with a character that `hay` lacks is not in `hay`. */
  lemma {:induction false} NotContainsMissingChar(hay: string, needle: string, j: nat)
    requires j < |needle| && needle[j] !in hay
    ensures !Contains(hay, needle)
    decreases |hay|
  {
    if |hay| > 0 {
      assert forall c :: c in hay[1..] ==> c in hay;
      NotContainsMissingChar(hay[1..], needle, j);
    }
  }

  /** `any(x in hay for x in needles)`. */
  predicate ContainsAny(hay: string, needles: seq<string>)
    ensures ContainsAny(hay, needles) <==> exists k :: 0 <= k < |needles| && Contains(hay, needles[k])
  {
    |needles| > 0 && (Contains(hay, needles[0]) || ContainsAny(hay, needles[1..]))
  }
}
