/** Bytes and the two primitive byte codecs the object payload format is built from:
    a little-endian base-128 variable-length natural number, and a length-prefixed field. */
module Bytes {
  import opened Wrappers

  newtype byte = x: int | 0 <= x < 256

  /** Base-128 encoding of `n`, low group first; the top bit of a byte says "more follows". */
  function EncodeNat(n: nat): (r: seq<byte>)
    ensures |r| >= 1
    decreases n
  {
    if n < 128 then [n as byte] else [(128 + n % 128) as byte] + EncodeNat(n / 128)
  }

  /** Reads one natural number off the front of `s`; returns it with the bytes that remain. */
  function DecodeNat(s: seq<byte>): (r: Option<(nat, seq<byte>)>)
    ensures r.Some? ==> |r.value.1| < |s|
    decreases |s|
  {
    if |s| == 0 then None
    else if s[0] < 128 then Some((s[0] as nat, s[1..]))
    else
      match DecodeNat(s[1..])
      case None => None
      case Some((m, rest)) => Some(((s[0] as nat - 128) + 128 * m, rest))
  }

  lemma {:induction false} DecodeEncodeNat(n: nat, rest: seq<byte>)
    ensures DecodeNat(EncodeNat(n) + rest) == Some((n, rest))
    decreases n
  {
    if n >= 128 {
      var s := EncodeNat(n) + rest;
      assert s[1..] == EncodeNat(n / 128) + rest;
      DecodeEncodeNat(n / 128, rest);
    }
  }

  /** A byte string preceded by its length. */
  function EncodeField(f: seq<byte>): (r: seq<byte>)
    ensures |r| > |f|
  {
    EncodeNat(|f|) + f
  }

  function DecodeField(s: seq<byte>): (r: Option<(seq<byte>, seq<byte>)>)
    ensures r.Some? ==> |r.value.0| < |s| && |r.value.1| < |s|
  {
    match DecodeNat(s)
    case None => None
    case Some((n, rest)) => if n <= |rest| then Some((rest[..n], rest[n..])) else None
  }

  lemma DecodeEncodeField(f: seq<byte>, rest: seq<byte>)
    ensures DecodeField(EncodeField(f) + rest) == Some((f, rest))
  {
    assert EncodeField(f) + rest == EncodeNat(|f|) + (f + rest);
    DecodeEncodeNat(|f|, f + rest);
    assert (f + rest)[..|f|] == f;
    assert (f + rest)[|f|..] == rest;
  }
}
