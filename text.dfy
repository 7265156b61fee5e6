/**
 * Text operations the router relies on: lowercasing a query and testing
 * whether a keyword occurs in it as a substring (Python's `str.lower()` and
 * `keyword in text`). Lowercasing is modelled on ASCII letters only.
 */
module Text {

  /** True when `c` is an ASCII capital letter. */
  predicate IsUpper(c: char) {
    'A' <= c <= 'Z'
  }

  /** Lowercases one character; characters that are not ASCII capitals are kept. */
  function LowerChar(c: char): (r: char)
    ensures !IsUpper(r)
    ensures IsUpper(c) ==> r as int == c as int + 32
    ensures !IsUpper(c) ==> r == c
  {
    if IsUpper(c) then (c as int + 32) as char else c
  }

  /** True when no character of `s` is an ASCII capital. */
  predicate IsLowerCase(s: string) {
    forall i :: 0 <= i < |s| ==> !IsUpper(s[i])
  }

  /** `s.lower()`: every character lowercased, in place and in order. */
  function Lower(s: string): (r: string)
    ensures |r| == |s|
    ensures forall i :: 0 <= i < |s| ==> r[i] == LowerChar(s[i])
    ensures IsLowerCase(r)
  {
    if s == [] then [] else [LowerChar(s[0])] + Lower(s[1..])
  }

  /** Lowercasing a lowercase string changes nothing. */
  lemma LowerOfLowerCase(s: string)
    requires IsLowerCase(s)
    ensures Lower(s) == s
  {
    assert forall i :: 0 <= i < |s| ==> Lower(s)[i] == s[i];
  }

  /** Lowercasing is idempotent. */
  lemma LowerIdempotent(s: string)
    ensures Lower(Lower(s)) == Lower(s)
  {
    LowerOfLowerCase(Lower(s));
  }

  /** Lowercasing works character by character, so it distributes over concatenation. */
  lemma {:induction false} LowerConcat(a: string, b: string)
    ensures Lower(a + b) == Lower(a) + Lower(b)
  {
    if a == [] {
      assert a + b == b;
    } else {
      assert (a + b)[1..] == a[1..] + b;
      LowerConcat(a[1..], b);
    }
  }

  /** A lowercase letter that the text has in neither case is absent from its lowercase form. */
  lemma LowerLacksLetter(s: string, c: char)
    requires 'a' <= c <= 'z'
    requires c !in s && (c as int - 32) as char !in s
    ensures c !in Lower(s)
  {
  }

  /** `kw` occurs in `s` starting at index `i`. */
  predicate OccursAt(s: string, kw: string, i: int) {
    0 <= i && i + |kw| <= |s| && s[i..i + |kw|] == kw
  }

  /** Reference meaning of Python's `kw in s` for strings: some window of `s` equals `kw`. */
  ghost predicate Occurs(s: string, kw: string) {
    exists i :: OccursAt(s, kw, i)
  }

  /** `s` begins with `p`. */
  predicate StartsWith(s: string, p: string) {
    |p| <= |s| && s[..|p|] == p
  }

  /** Substring search, scanning start positions from the left. */
  function Contains(s: string, kw: string): (r: bool)
    ensures r <==> Occurs(s, kw)
    decreases |s|
  {
    if StartsWith(s, kw) then
      assert OccursAt(s, kw, 0);
      true
    else if s == [] then
      false
    else
      var r := Contains(s[1..], kw);
      assert r ==> Occurs(s, kw) by {
        if r {
          var i :| OccursAt(s[1..], kw, i);
          assert s[i + 1..i + 1 + |kw|] == s[1..][i..i + |kw|];
          assert OccursAt(s, kw, i + 1);
        }
      }
      assert Occurs(s, kw) ==> r by {
        if Occurs(s, kw) {
          var i :| OccursAt(s, kw, i);
          assert i != 0;
          assert s[1..][i - 1..i - 1 + |kw|] == s[i..i + |kw|];
          assert OccursAt(s[1..], kw, i - 1);
        }
      }
      r
  }

  /** `any(kw in s for kw in kws)`. */
  function ContainsAny(s: string, kws: seq<string>): (r: bool)
    ensures r <==> exists k :: k in kws && Occurs(s, k)
  {
    if kws == [] then false
    else Contains(s, kws[0]) || ContainsAny(s, kws[1..])
  }

  /** A text built around `kw` contains it, at the length of what precedes it. */
  lemma OccursInConcat(a: string, kw: string, b: string)
    ensures OccursAt(a + kw + b, kw, |a|)
  {
    assert (a + kw + b)[|a|..|a| + |kw|] == kw;
  }

  /** A piece `w` of a text, whose lowercase form is `kw`, puts `kw` in the text's lowercase form. */
  lemma OccursInLowerConcat(a: string, w: string, b: string, kw: string)
    requires Lower(w) == kw
    ensures Occurs(Lower(a + w + b), kw)
  {
    LowerConcat(a + w, b);
    LowerConcat(a, w);
    OccursInConcat(Lower(a), kw, Lower(b));
  }

  /**
   * A keyword holding a letter that the text has in neither case does not
   * occur in the text's lowercase form.
   */
  lemma AbsentLetterNotInLower(s: string, kw: string, c: char)
    requires 'a' <= c <= 'z' && c in kw
    requires c !in s && (c as int - 32) as char !in s
    ensures !Occurs(Lower(s), kw)
  {
    LowerLacksLetter(s, c);
    AbsentCharNotOccurs(Lower(s), kw, c);
  }

  /** A keyword holding a character the text lacks does not occur in it. */
  lemma AbsentCharNotOccurs(s: string, kw: string, c: char)
    requires c in kw && c !in s
    ensures !Occurs(s, kw)
  {
  }
}
