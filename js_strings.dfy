/**
 * The two JavaScript string built-ins the profiler's key helpers rely on,
 * with the semantics of the ECMAScript `String.prototype` methods.
 */
module JsStrings {

  /** `s.indexOf(c)` for a one-character search string: the first index of `c`, or -1. */
  function IndexOf(s: string, c: char): (i: int)
    ensures -1 <= i < |s|
    ensures i == -1 <==> c !in s
    ensures 0 <= i ==> s[i] == c && c !in s[..i]
  {
    if |s| == 0 then -1
    else if s[0] == c then 0
    else
      var j := IndexOf(s[1..], c);
      assert s == [s[0]] + s[1..];
      if j == -1 then -1
      else
        assert s[..j + 1] == [s[0]] + s[1..][..j];
        j + 1
  }

  /** Clamps a position into `0..n`, as `substring` does with its arguments. */
  function Clamp(x: int, n: nat): (r: nat)
    ensures r <= n
    ensures 0 <= x <= n ==> r == x
  {
    if x < 0 then 0 else if x > n then n else x
  }

  /**
   * `s.substring(start, end)`: both positions are clamped into range and,
   * when the first exceeds the second, they are swapped.
   */
  function Substring(s: string, start: int, end: int): (r: string)
    ensures 0 <= start <= end <= |s| ==> r == s[start..end]
    ensures 0 <= end <= start <= |s| ==> r == s[end..start]
    ensures start <= 0 && end <= 0 ==> r == []
    ensures |s| <= start && |s| <= end ==> r == []
    ensures (start <= 0 && |s| <= end) || (end <= 0 && |s| <= start) ==> r == s
    ensures 0 <= start <= |s| && end < 0 ==> r == s[..start]
    ensures 0 <= end <= |s| && start < 0 ==> r == s[..end]
    ensures 0 <= start <= |s| < end ==> r == s[start..]
    ensures 0 <= end <= |s| < start ==> r == s[end..]
  {
    var a, b := Clamp(start, |s|), Clamp(end, |s|);
    if a <= b then s[a..b] else s[b..a]
  }
}
