/**
 * The part of JavaScript's `Array.prototype.slice` that the item store relies on.
 * A relative index that is negative counts back from the end of the array, and
 * both ends are clamped to [0, length]; an empty range gives the empty array.
 */
module JsArray {

  /** The array position a relative `slice` argument stands for. */
  function RelativeIndex(rel: int, len: nat): (r: nat)
    ensures r <= len
    ensures 0 <= rel <= len ==> r == rel
    ensures rel > len ==> r == len
    ensures rel < 0 && 0 <= len + rel ==> r == len + rel
    ensures len + rel < 0 ==> r == 0
  {
    if rel < 0 then
      if len + rel < 0 then 0 else len + rel
    else if rel < len then rel
    else len
  }

  /** `s.slice(start, end)`. */
  function Slice<T>(s: seq<T>, start: int, end: int): (r: seq<T>)
    ensures |r| <= |s|
    ensures 0 <= start <= end <= |s| ==> r == s[start..end]
    ensures RelativeIndex(end, |s|) <= RelativeIndex(start, |s|) ==> r == []
  {
    var b, e := RelativeIndex(start, |s|), RelativeIndex(end, |s|);
    if b < e then s[b..e] else []
  }

  /** `s.slice(start)`: the end defaults to the length. */
  function SliceFrom<T>(s: seq<T>, start: int): (r: seq<T>)
    ensures 0 <= start <= |s| ==> r == s[start..]
    ensures start >= |s| ==> r == []
    ensures start == 0 ==> r == s
  {
    Slice(s, start, |s|)
  }

  /** Every element but the last; the empty sequence stays empty. */
  function DropLast<T>(s: seq<T>): seq<T> {
    if |s| == 0 then [] else s[..|s| - 1]
  }

  /** `s.slice(0, -1)` drops the last element, and gives the empty array from an empty one. */
  lemma SliceDropsLast<T>(s: seq<T>)
    ensures Slice(s, 0, -1) == DropLast(s)
    ensures |s| > 0 ==> |Slice(s, 0, -1)| == |s| - 1 && Slice(s, 0, -1) + [s[|s| - 1]] == s
  {
  }
}
