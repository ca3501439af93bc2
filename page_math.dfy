/** The integer arithmetic and array slicing that pagination is built on. */
module PageMath {

  /** `Math.ceil(n / d)` for a non-negative count and a positive page size. */
  function CeilDiv(n: nat, d: nat): (q: nat)
    requires d > 0
    ensures n <= q * d < n + d
    ensures q == 0 <==> n == 0
  {
    (n + d - 1) / d
  }

  /** `Math.ceil(n / d) || 1`: the store's page count, never below one. */
  function PagesOrOne(n: nat, d: nat): (p: nat)
    requires d > 0
    ensures p >= 1
    ensures n > 0 ==> p == CeilDiv(n, d)
    ensures n == 0 ==> p == 1
  {
    if CeilDiv(n, d) == 0 then 1 else CeilDiv(n, d)
  }

  /** Where a `slice` bound lands: a negative bound counts from the end,
      and every bound is clamped to the array. */
  function SliceBound(len: nat, b: int): (k: nat)
    ensures k <= len
    ensures 0 <= b ==> k == if b < len then b else len
  {
    if b < 0 then (if len + b < 0 then 0 else len + b)
    else if b < len then b else len
  }

  /** `s.slice(start, end)`: never fails; an empty result when the bounds cross. */
  function Slice<T>(s: seq<T>, start: int, end: int): (r: seq<T>)
    ensures var lo := SliceBound(|s|, start);
      |r| <= |s| - lo && r == s[lo..lo + |r|]
    ensures 0 <= start <= end ==> |r| <= end - start
    ensures |r| == if SliceBound(|s|, end) <= SliceBound(|s|, start) then 0 else SliceBound(|s|, end) - SliceBound(|s|, start)
    ensures 0 <= start && |s| <= start ==> r == []
  {
    var lo := SliceBound(|s|, start);
    var hi := SliceBound(|s|, end);
    if hi <= lo then [] else s[lo..hi]
  }
}
