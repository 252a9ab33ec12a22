/**
 * The few pieces of Python semantics the library relies on: truthiness of
 * the values it tests with `if x:` and `x or default`, `str.rstrip(c)` and
 * the slice `s[:k]`.
 */
module Python {
  import opened Wrappers

  /** A byte, as in Python's `bytes`. */
  newtype byte = b: int | 0 <= b < 256

  /** The kinds of value a caller passes as a policy option. */
  datatype Value = PyNone | PyStr(s: string) | PyInt(i: int) | PyBool(b: bool)

  /** Python truthiness: None, the empty string, 0 and False are false. */
  predicate Truthy(v: Value) {
    match v
    case PyNone => false
    case PyStr(s) => s != ""
    case PyInt(i) => i != 0
    case PyBool(b) => b
  }

  /** Truthiness of an argument that is either None or a string. */
  predicate Given(o: Option<string>) {
    o.Some? && o.value != ""
  }

  /** `o or default` for an argument that is either None or a string. */
  function Or(o: Option<string>, default: string): (r: string)
    ensures Given(o) ==> r == o.value
    ensures !Given(o) ==> r == default
  {
    if Given(o) then o.value else default
  }

  /** Does `t` end with `c` (a trailing occurrence)? */
  predicate EndsWith(t: string, c: char) {
    t != [] && t[|t| - 1] == c
  }

  /**
   * `s.rstrip(c)`: the longest prefix of `s` that does not end with `c`;
   * everything removed is `c`.
   */
  function RStrip(s: string, c: char): (r: string)
    ensures r <= s
    ensures !EndsWith(r, c)
    ensures forall i :: |r| <= i < |s| ==> s[i] == c
    decreases |s|
  {
    if EndsWith(s, c) then RStrip(s[..|s| - 1], c) else s
  }

  /**
   * The three properties of RStrip's contract determine its result: any prefix
   * of `s` that does not end with `c` and is followed only by `c` is RStrip(s, c).
   */
  lemma RStripUnique(s: string, c: char, t: string)
    requires t <= s
    requires !EndsWith(t, c)
    requires forall i :: |t| <= i < |s| ==> s[i] == c
    ensures t == RStrip(s, c)
  {
  }

  /** Stripping twice strips nothing more. */
  lemma RStripIdempotent(s: string, c: char)
    ensures RStrip(RStrip(s, c), c) == RStrip(s, c)
  {
    var r := RStrip(s, c);
    RStripUnique(r, c, r);
  }

  /** Python's slice `s[:k]`, where a negative `k` counts from the end. */
  function SliceTo(s: string, k: int): (r: string)
    ensures r <= s
    ensures 0 <= k <= |s| ==> |r| == k
    ensures |s| <= k ==> r == s
    ensures k < 0 ==> |r| == if |s| + k < 0 then 0 else |s| + k
  {
    if k >= 0 then
      (if k <= |s| then s[..k] else s)
    else
      (if |s| + k < 0 then [] else s[..|s| + k])
  }
}
