/** Character-level text operations used by the equipment search:
    a simplified (ASCII-only) lower-casing and substring containment. */
module Text {

  /** Lower-cases one character: 'A'..'Z' map to 'a'..'z', every other
      character is left as it is. */
  function LowerChar(c: char): (r: char)
    ensures 'A' <= c <= 'Z' ==> 'a' <= r <= 'z' && r as int - c as int == 32
    ensures !('A' <= c <= 'Z') ==> r == c
    ensures !('A' <= r <= 'Z')
  {
    if 'A' <= c <= 'Z' then (c as int + 32) as char else c
  }

  /** Lower-cases a string character by character (`String.prototype.toLowerCase`
      restricted to ASCII letters). */
  function Lower(s: string): (r: string)
    ensures |r| == |s|
    ensures forall i :: 0 <= i < |s| ==> r[i] == LowerChar(s[i])
  {
    seq(|s|, i requires 0 <= i < |s| => LowerChar(s[i]))
  }

  /** Lower-casing twice is the same as lower-casing once. */
  lemma LowerIdempotent(s: string)
    ensures Lower(Lower(s)) == Lower(s)
  {
  }

  /** `String.prototype.includes`: `needle` occurs somewhere in `hay`
      (the empty needle occurs in every string). */
  predicate Contains(hay: string, needle: string)
    ensures needle == [] ==> Contains(hay, needle)
    ensures Contains(hay, needle) ==> |needle| <= |hay|
  {
    assert needle == [] ==> needle <= hay[0..];
    exists i :: 0 <= i <= |hay| && needle <= hay[i..]
  }

  /** Matching ignores case: a string that contains the needle still
      contains it once both are lower-cased. */
  lemma LowerPreservesContains(hay: string, needle: string)
    requires Contains(hay, needle)
    ensures Contains(Lower(hay), Lower(needle))
  {
    var i :| 0 <= i <= |hay| && needle <= hay[i..];
    assert Lower(needle) <= Lower(hay)[i..] by {
      forall k | 0 <= k < |needle|
        ensures Lower(needle)[k] == Lower(hay)[i..][k]
      {
        assert needle[k] == hay[i + k];
      }
    }
  }
}
