/**
 * Random hex strings. Where the platform has an entropy source, `randbytes(n)`
 * is the hex encoding of `n` random bytes. Otherwise it is the method of a
 * single fallback generator object that appends SHA-1 hex digests until it
 * has `2 * n` characters and cuts the result to that length.
 */
module RandomHex {
  import opened Wrappers
  import opened Python

  const HexDigits := "0123456789abcdef"

  predicate IsHexDigit(c: char) {
    '0' <= c <= '9' || 'a' <= c <= 'f'
  }

  predicate IsHex(s: string) {
    forall i :: 0 <= i < |s| ==> IsHexDigit(s[i])
  }

  /** The value of a hex digit; `binascii` accepts both cases. */
  function HexValue(c: char): Option<int> {
    if '0' <= c <= '9' then Some(c as int - '0' as int)
    else if 'a' <= c <= 'f' then Some(c as int - 'a' as int + 10)
    else if 'A' <= c <= 'F' then Some(c as int - 'A' as int + 10)
    else None
  }

  /** `binascii.hexlify`: two lower-case hex digits per byte, high nibble first. */
  function Hexlify(b: seq<byte>): (r: string)
    ensures |r| == 2 * |b|
    ensures IsHex(r)
  {
    if b == [] then ""
    else [HexDigits[b[0] as int / 16], HexDigits[b[0] as int % 16]] + Hexlify(b[1..])
  }

  /** `binascii.unhexlify`: None (an error) for an odd length or a non-hex character. */
  function Unhexlify(s: string): (r: Option<seq<byte>>)
    ensures r.Some? ==> 2 * |r.value| == |s|
    decreases |s|
  {
    if s == [] then Some([])
    else if |s| == 1 then None
    else
      match (HexValue(s[0]), HexValue(s[1]), Unhexlify(s[2..]))
      case (Some(hi), Some(lo), Some(rest)) => Some([(hi * 16 + lo) as byte] + rest)
      case _ => None
  }

  /** Each hex digit decodes to its position in HexDigits. */
  lemma HexDigitValue(n: int)
    requires 0 <= n < 16
    ensures HexValue(HexDigits[n]) == Some(n)
  {
  }

  /** Decoding a string that starts with two hex digits. */
  lemma UnhexlifyCons(hi: int, lo: int, rest: string)
    requires 0 <= hi < 16 && 0 <= lo < 16
    ensures Unhexlify([HexDigits[hi], HexDigits[lo]] + rest)
            == if Unhexlify(rest).Some? then Some([(hi * 16 + lo) as byte] + Unhexlify(rest).value) else None
  {
    var s := [HexDigits[hi], HexDigits[lo]] + rest;
    HexDigitValue(hi);
    HexDigitValue(lo);
    assert s[0] == HexDigits[hi] && s[1] == HexDigits[lo] && s[2..] == rest;
  }

  /** Hex encoding loses nothing: decoding it gives back the bytes. */
  lemma {:induction false} UnhexlifyHexlify(b: seq<byte>)
    ensures Unhexlify(Hexlify(b)) == Some(b)
  {
    if b != [] {
      var hi, lo := b[0] as int / 16, b[0] as int % 16;
      assert Hexlify(b) == [HexDigits[hi], HexDigits[lo]] + Hexlify(b[1..]);
      UnhexlifyHexlify(b[1..]);
      UnhexlifyCons(hi, lo, Hexlify(b[1..]));
      assert [(hi * 16 + lo) as byte] + b[1..] == b;
    }
  }

  /** `os.urandom(n)` refuses a negative count with ValueError. */
  datatype EntropyError = NegativeCount

  /**
   * `randbytes(n)` on a platform with `os.urandom`: `entropy` stands for the
   * `n` bytes it returns. A negative `n` fails; otherwise the result is a hex
   * string of `2 * n` characters that decodes back to those bytes.
   */
  function RandBytes(n: int, entropy: seq<byte>): (r: Result<string, EntropyError>)
    requires n >= 0 ==> |entropy| == n
    ensures r.Failure? <==> n < 0
    ensures r.Failure? ==> r.error == NegativeCount
    ensures r.Success? ==> |r.value| == 2 * n && IsHex(r.value)
    ensures r.Success? ==> Unhexlify(r.value) == Some(entropy)
  {
    if n < 0 then Failure(NegativeCount)
    else
      UnhexlifyHexlify(entropy);
      Success(Hexlify(entropy))
  }

  /** Length of a SHA-1 hex digest. */
  const DigestLength := 40

  predicate IsHexDigest(d: string) {
    |d| == DigestLength && IsHex(d)
  }

  /** The chunks of calls `from` .. `from + k - 1`, concatenated in call order. */
  function Chunks(digests: nat -> string, from: nat, k: nat): string {
    if k == 0 then "" else Chunks(digests, from, k - 1) + digests(from + k - 1)
  }

  /**
   * How many chunks, starting with call `from`, it takes to accumulate at
   * least `target` characters, when no chunk is empty.
   */
  function CallsNeeded(digests: nat -> string, from: nat, target: int): nat
    requires forall i :: digests(i) != ""
    decreases target
  {
    if target <= 0 then 0 else 1 + CallsNeeded(digests, from + 1, target - |digests(from)|)
  }

  /** Concatenating chunks from the front: the first chunk, then the rest. */
  lemma {:induction false} ChunksCons(digests: nat -> string, from: nat, k: nat)
    ensures Chunks(digests, from, k + 1) == digests(from) + Chunks(digests, from + 1, k)
  {
    if k > 0 {
      ChunksCons(digests, from, k - 1);
    }
  }

  /**
   * CallsNeeded is the least number of chunks reaching `target`: that many
   * reach it, and every smaller number falls short.
   */
  lemma {:induction false} CallsNeededIsLeast(digests: nat -> string, from: nat, target: int)
    requires forall i :: digests(i) != ""
    ensures |Chunks(digests, from, CallsNeeded(digests, from, target))| >= target
    ensures forall j :: 0 <= j < CallsNeeded(digests, from, target) ==> |Chunks(digests, from, j)| < target
    decreases target
  {
    if target > 0 {
      var k := CallsNeeded(digests, from, target);
      var rest := target - |digests(from)|;
      CallsNeededIsLeast(digests, from + 1, rest);
      ChunksCons(digests, from, k - 1);
      forall j | 0 <= j < k
        ensures |Chunks(digests, from, j)| < target
      {
        if j > 0 {
          ChunksCons(digests, from, j - 1);
        }
      }
    }
  }

  /** With 40-character chunks, `target` characters take ceil(target / 40) calls. */
  lemma {:induction false} CallsNeededDigests(digests: nat -> string, from: nat, target: int)
    requires forall i :: |digests(i)| == DigestLength
    ensures CallsNeeded(digests, from, target) == if target <= 0 then 0 else (target + 39) / 40
    decreases target
  {
    if target > 0 {
      CallsNeededDigests(digests, from + 1, target - DigestLength);
    }
  }

  /** Concatenated hex chunks are hex. */
  lemma {:induction false} ChunksHex(digests: nat -> string, from: nat, k: nat)
    requires forall i :: IsHex(digests(i))
    ensures IsHex(Chunks(digests, from, k))
  {
    if k > 0 {
      ChunksHex(digests, from, k - 1);
      var a, b := Chunks(digests, from, k - 1), digests(from + k - 1);
      assert forall i :: 0 <= i < |a + b| ==> (a + b)[i] == if i < |a| then a[i] else b[i - |a|];
    }
  }

  /** A prefix of a hex string is hex. */
  lemma PrefixHex(s: string, t: string)
    requires IsHex(t) && s <= t
    ensures IsHex(s)
  {
    forall i | 0 <= i < |s|
      ensures IsHexDigit(s[i])
    {
      assert s[i] == t[i];
    }
  }

  /**
   * The fallback generator. `digests(k)` is the hex digest its SHA-1 state
   * yields on call number `k` of GetBytes; the state and the clock readings
   * fed into it are not modelled.
   */
  class Prng {
    const digests: nat -> string
    var count: nat

    ghost predicate Valid() {
      forall i :: IsHexDigest(digests(i))
    }

    constructor (digests: nat -> string)
      requires forall i :: IsHexDigest(digests(i))
      ensures Valid() && this.digests == digests
      ensures count == 0
    {
      this.digests := digests;
      count := 0;
    }

    /** `_get_bytes`: one 40-character hex digest; counts the call. */
    method GetBytes() returns (chunk: string)
      requires Valid()
      modifies this`count
      ensures count == old(count) + 1
      ensures chunk == digests(old(count)) && IsHexDigest(chunk)
    {
      chunk := digests(count);
      count := count + 1;
    }

    /**
     * `randbytes(n)`: the first `2 * n` characters of the chunks of the
     * calls it makes, in call order. It calls GetBytes exactly as often as
     * needed to reach `2 * n` characters, which is ceil(2n / 40) times, and
     * not at all when `n <= 0`, when the result is "".
     */
    method RandBytes(n: int) returns (s: string)
      requires Valid()
      modifies this`count
      ensures count == old(count) + CallsNeeded(digests, old(count), 2 * n)
      ensures s == SliceTo(Chunks(digests, old(count), count - old(count)), 2 * n)
      ensures forall j :: 0 <= j < count - old(count) ==> |Chunks(digests, old(count), j)| < 2 * n
      ensures n >= 0 ==> |s| == 2 * n
      ensures n <= 0 ==> s == "" && count == old(count)
      ensures n > 0 ==> count == old(count) + (2 * n + 39) / 40
      ensures IsHex(s)
    {
      s := "";
      var chars := 2 * n;
      while |s| < chars
        invariant count >= old(count)
        invariant s == Chunks(digests, old(count), count - old(count))
        invariant CallsNeeded(digests, old(count), chars)
                  == (count - old(count)) + CallsNeeded(digests, count, chars - |s|)
        decreases chars - |s|
      {
        var chunk := GetBytes();
        s := s + chunk;
      }
      ghost var all := s;
      s := SliceTo(s, chars);
      CallsNeededDigests(digests, old(count), chars);
      CallsNeededIsLeast(digests, old(count), chars);
      ChunksHex(digests, old(count), count - old(count));
      PrefixHex(s, all);
    }
  }
}
