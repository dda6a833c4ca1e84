// The two pieces of the browser environment that both core files read:
// an image element (its `src`, `name` and decoded natural size) and
// JavaScript's `String.prototype.substring(0, end)`.
module Dom {

  /** An `HTMLImageElement` as the core sees it. `naturalWidth` and
      `naturalHeight` are what the browser decoded from `src`. */
  datatype Image = Image(src: string, name: string, naturalWidth: nat, naturalHeight: nat)

  function Min(a: int, b: int): (r: int)
    ensures r <= a && r <= b && (r == a || r == b)
  {
    if a <= b then a else b
  }

  function Max(a: int, b: int): (r: int)
    ensures r >= a && r >= b && (r == a || r == b)
  {
    if a <= b then b else a
  }

  /** `s.substring(0, end)` for a non-negative `end`: the first `end`
      characters, or all of `s` when it is shorter. */
  function Substring0(s: string, end: nat): (r: string)
    ensures |r| == Min(|s|, end)
    ensures r <= s
  {
    s[..Min(|s|, end)]
  }
}
