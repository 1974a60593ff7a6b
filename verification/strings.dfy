/** Substring search over strings, as PHP's `str_contains` performs it. */
module Strings {

  /** `needle` occurs in `hay` starting at offset `i`. */
  ghost predicate OccursAt(hay: string, needle: string, i: int)
  {
    0 <= i && i + |needle| <= |hay| && hay[i..i + |needle|] == needle
  }

  /** Occurrences in the tail of `hay` are exactly the occurrences in `hay` past offset 0. */
  lemma OccursInTail(hay: string, needle: string)
    requires |hay| > 0
    ensures (exists i :: OccursAt(hay[1..], needle, i)) <==> (exists i :: 1 <= i && OccursAt(hay, needle, i))
  {
    forall i | OccursAt(hay[1..], needle, i)
      ensures OccursAt(hay, needle, i + 1)
    {
      assert hay[1..][i..i + |needle|] == hay[i + 1..i + 1 + |needle|];
    }
    forall i | 1 <= i && OccursAt(hay, needle, i)
      ensures OccursAt(hay[1..], needle, i - 1)
    {
      assert hay[1..][i - 1..i - 1 + |needle|] == hay[i..i + |needle|];
    }
  }

  /**
   * `str_contains(hay, needle)`: true when `needle` occurs anywhere in `hay`.
   * The empty needle occurs in every string.
   */
  function Contains(hay: string, needle: string): (b: bool)
    ensures b <==> exists i :: OccursAt(hay, needle, i)
    decreases |hay|
  {
    if |needle| <= |hay| && hay[..|needle|] == needle then
      assert OccursAt(hay, needle, 0);
      true
    else if |hay| == 0 then
      false
    else
      assert !OccursAt(hay, needle, 0);
      OccursInTail(hay, needle);
      Contains(hay[1..], needle)
  }

  /** Searching for a one-character needle is a membership test. */
  lemma ContainsChar(hay: string, ch: char)
    ensures Contains(hay, [ch]) <==> ch in hay
  {
    if ch in hay {
      var i :| 0 <= i < |hay| && hay[i] == ch;
      assert hay[i..i + 1] == [ch];
      assert OccursAt(hay, [ch], i);
    }
    if Contains(hay, [ch]) {
      var i :| OccursAt(hay, [ch], i);
      assert hay[i] == hay[i..i + 1][0];
    }
  }
}
