/**
 * Case-insensitive text matching as the catalog's `icontains` and `iexact`
 * lookups use it, with ASCII letters folded to lower case.
 */
module CatalogText {
  function Lower(c: char): char
  {
    if 'A' <= c <= 'Z' then (c as int + 32) as char else c
  }

  function LowerString(s: string): (r: string)
    ensures |r| == |s| && forall i :: 0 <= i < |s| ==> r[i] == Lower(s[i])
  {
    seq(|s|, i requires 0 <= i < |s| => Lower(s[i]))
  }

  /** `needle` occurs in `hay` at some position. */
  predicate ContainsAt(hay: string, needle: string, i: int)
  {
    0 <= i <= |hay| - |needle| && hay[i..i + |needle|] == needle
  }

  predicate Contains(hay: string, needle: string)
  {
    exists i :: 0 <= i <= |hay| - |needle| && ContainsAt(hay, needle, i)
  }

  /** `field__icontains=value`. */
  predicate IContains(hay: string, needle: string)
  {
    Contains(LowerString(hay), LowerString(needle))
  }

  /** `field__iexact=value`. */
  predicate IExact(a: string, b: string)
  {
    LowerString(a) == LowerString(b)
  }

  /** Folding twice is folding once. */
  lemma LowerStringIdempotent(s: string)
    ensures LowerString(LowerString(s)) == LowerString(s)
  {
  }

  /** A match does not depend on the case the value is typed in. */
  lemma IContainsIgnoresCase(hay: string, needle: string)
    ensures IContains(hay, needle) == IContains(hay, LowerString(needle))
    ensures IContains(hay, needle) == IContains(LowerString(hay), needle)
  {
    LowerStringIdempotent(needle);
    LowerStringIdempotent(hay);
  }
}
