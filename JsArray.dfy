/** The array operation the application shell uses on its lists. */
module JsArray {
  /** `Array.prototype.slice(0, n)`: the first `n` elements, or all of them when
      there are fewer. */
  function Take<T>(s: seq<T>, n: nat): (r: seq<T>)
    ensures |r| == if |s| <= n then |s| else n
    ensures r == s[..|r|]
  {
    if |s| <= n then s else s[..n]
  }
}
