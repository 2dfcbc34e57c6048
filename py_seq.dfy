/** Python's sequence indexing, as the analysis and the smoothing slice their arrays. */
module PySeq {

  /** A Python slice bound resolved against a length: negatives count from the end, then clamped. */
  function PyIndex(i: int, n: nat): (r: nat)
    ensures r <= n
    ensures 0 <= i <= n ==> r == i
    ensures -(n as int) <= i < 0 ==> r == (n as int) + i
  {
    if i < 0 then (if i + n < 0 then 0 else i + n) else if i > n then n else i
  }

  /** s[a:b] */
  function PySlice<T>(s: seq<T>, a: int, b: int): seq<T>
  {
    var lo, hi := PyIndex(a, |s|), PyIndex(b, |s|);
    if lo < hi then s[lo..hi] else []
  }

  /** s[::-1] */
  function Reverse<T>(s: seq<T>): (r: seq<T>)
    ensures |r| == |s|
    ensures forall k :: 0 <= k < |s| ==> r[k] == s[|s| - 1 - k]
  {
    seq(|s|, k requires 0 <= k < |s| => s[|s| - 1 - k])
  }
}
