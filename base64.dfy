/** Strict Base64 (section 4 of RFC 4648), the encoding object payloads travel in inside a
    backup stream: the standard alphabet, `=` padding, no line breaks, and a decoder that
    refuses anything the encoder could not have produced (a length that is not a multiple
    of four, a character outside the alphabet, padding before the last quantum, or
    non-zero bits under the padding). */
module Base64 {
  import opened Wrappers
  import opened Bytes

  /** The character for a 6-bit value: A-Z, a-z, 0-9, '+', '/'. */
  function CharOf(v: int): (c: char)
    requires 0 <= v < 64
    ensures c != '='
  {
    if v < 26 then ('A' as int + v) as char
    else if v < 52 then ('a' as int + (v - 26)) as char
    else if v < 62 then ('0' as int + (v - 52)) as char
    else if v == 62 then '+'
    else '/'
  }

  /** The 6-bit value of an alphabet character; None for '=' and for every other character. */
  function SextetOf(c: char): (r: Option<int>)
    ensures r.Some? ==> 0 <= r.value < 64
  {
    if 'A' <= c <= 'Z' then Some(c as int - 'A' as int)
    else if 'a' <= c <= 'z' then Some(c as int - 'a' as int + 26)
    else if '0' <= c <= '9' then Some(c as int - '0' as int + 52)
    else if c == '+' then Some(62)
    else if c == '/' then Some(63)
    else None
  }

  lemma SextetOfCharOf(v: int)
    requires 0 <= v < 64
    ensures SextetOf(CharOf(v)) == Some(v)
  {
  }

  lemma CharOfSextetOf(c: char)
    requires SextetOf(c).Some?
    ensures CharOf(SextetOf(c).value) == c
  {
  }

  /** Three bytes as four characters. */
  function EncodeTriple(b0: byte, b1: byte, b2: byte): seq<char>
  {
    [CharOf(b0 as int / 4),
     CharOf((b0 as int % 4) * 16 + b1 as int / 16),
     CharOf((b1 as int % 16) * 4 + b2 as int / 64),
     CharOf(b2 as int % 64)]
  }

  /** `Base64.strict_encode64`. */
  function Encode(s: seq<byte>): (r: seq<char>)
    decreases |s|
  {
    if |s| == 0 then []
    else if |s| == 1 then
      [CharOf(s[0] as int / 4), CharOf((s[0] as int % 4) * 16), '=', '=']
    else if |s| == 2 then
      [CharOf(s[0] as int / 4), CharOf((s[0] as int % 4) * 16 + s[1] as int / 16),
       CharOf((s[1] as int % 16) * 4), '=']
    else EncodeTriple(s[0], s[1], s[2]) + Encode(s[3..])
  }

  /** A quantum of four alphabet characters, no padding. */
  function DecodeFull(q: seq<char>): (r: Option<seq<byte>>)
    requires |q| == 4
    ensures r.Some? ==> |r.value| == 3
  {
    match (SextetOf(q[0]), SextetOf(q[1]), SextetOf(q[2]), SextetOf(q[3]))
    case (Some(a), Some(b), Some(c), Some(d)) =>
      Some([(a * 4 + b / 16) as byte, ((b % 16) * 16 + c / 4) as byte, ((c % 4) * 64 + d) as byte])
    case _ => None
  }

  /** The last quantum, which alone may carry one or two '=' (with zero bits under them). */
  function DecodeLast(q: seq<char>): (r: Option<seq<byte>>)
    requires |q| == 4
    ensures r.Some? ==> 1 <= |r.value| <= 3
  {
    if q[2] == '=' && q[3] == '=' then
      match (SextetOf(q[0]), SextetOf(q[1]))
      case (Some(a), Some(b)) =>
        if b % 16 == 0 then Some([(a * 4 + b / 16) as byte]) else None
      case _ => None
    else if q[3] == '=' then
      match (SextetOf(q[0]), SextetOf(q[1]), SextetOf(q[2]))
      case (Some(a), Some(b), Some(c)) =>
        if c % 4 == 0 then Some([(a * 4 + b / 16) as byte, ((b % 16) * 16 + c / 4) as byte]) else None
      case _ => None
    else DecodeFull(q)
  }

  /** `Base64.strict_decode64`: None where Ruby raises ArgumentError. */
  function Decode(s: seq<char>): (r: Option<seq<byte>>)
    decreases |s|
  {
    if |s| == 0 then Some([])
    else if |s| < 4 then None
    else if |s| == 4 then DecodeLast(s)
    else
      match (DecodeFull(s[..4]), Decode(s[4..]))
      case (Some(head), Some(tail)) => Some(head + tail)
      case _ => None
  }

  lemma Split4(x: int)
    requires 0 <= x < 256
    ensures x == 4 * (x / 4) + x % 4 && 0 <= x % 4 < 4 && x / 4 < 64
  {
  }

  lemma Split16(x: int)
    requires 0 <= x < 256
    ensures x == 16 * (x / 16) + x % 16 && 0 <= x % 16 < 16 && x / 16 < 16
  {
  }

  lemma Split64(x: int)
    requires 0 <= x < 256
    ensures x == 64 * (x / 64) + x % 64 && 0 <= x % 64 < 64 && x / 64 < 4
  {
  }

  lemma Unsplit(hi: int, lo: int, k: int)
    requires k == 4 || k == 16 || k == 64
    requires 0 <= lo < k
    ensures (k * hi + lo) / k == hi && (k * hi + lo) % k == lo
  {
  }

  /** The sextets of three bytes put them back together. */
  lemma TripleArith(b0: int, b1: int, b2: int)
    requires 0 <= b0 < 256 && 0 <= b1 < 256 && 0 <= b2 < 256
    ensures var a, b, c, d := b0 / 4, (b0 % 4) * 16 + b1 / 16, (b1 % 16) * 4 + b2 / 64, b2 % 64;
      a * 4 + b / 16 == b0 && (b % 16) * 16 + c / 4 == b1 && (c % 4) * 64 + d == b2
  {
    Split4(b0);
    Split16(b1);
    Split64(b2);
    Unsplit(b0 % 4, b1 / 16, 16);
    Unsplit(b1 % 16, b2 / 64, 4);
  }

  /** Four sextets, put together as three bytes and split again, come back unchanged. */
  lemma QuadArith(a: int, b: int, c: int, d: int)
    requires 0 <= a < 64 && 0 <= b < 64 && 0 <= c < 64 && 0 <= d < 64
    ensures var b0, b1, b2 := a * 4 + b / 16, (b % 16) * 16 + c / 4, (c % 4) * 64 + d;
      0 <= b0 < 256 && 0 <= b1 < 256 && 0 <= b2 < 256 &&
      b0 / 4 == a && (b0 % 4) * 16 + b1 / 16 == b && (b1 % 16) * 4 + b2 / 64 == c && b2 % 64 == d
  {
    Split16(b);
    Split4(c);
    Unsplit(a, b / 16, 4);
    Unsplit(b % 16, c / 4, 16);
    Unsplit(c % 4, d, 64);
  }

  lemma DecodeTriple(b0: byte, b1: byte, b2: byte)
    ensures DecodeFull(EncodeTriple(b0, b1, b2)) == Some([b0, b1, b2])
    ensures DecodeLast(EncodeTriple(b0, b1, b2)) == Some([b0, b1, b2])
  {
    var a, b, c, d := b0 as int / 4, (b0 as int % 4) * 16 + b1 as int / 16,
                      (b1 as int % 16) * 4 + b2 as int / 64, b2 as int % 64;
    TripleArith(b0 as int, b1 as int, b2 as int);
    SextetOfCharOf(a);
    SextetOfCharOf(b);
    SextetOfCharOf(c);
    SextetOfCharOf(d);
    var q := EncodeTriple(b0, b1, b2);
    assert q == [CharOf(a), CharOf(b), CharOf(c), CharOf(d)];
  }

  lemma DecodeOne(b0: byte)
    ensures Decode(Encode([b0])) == Some([b0])
  {
    var a, b := b0 as int / 4, (b0 as int % 4) * 16;
    Split4(b0 as int);
    Unsplit(b0 as int % 4, 0, 16);
    SextetOfCharOf(a);
    SextetOfCharOf(b);
    assert Encode([b0]) == [CharOf(a), CharOf(b), '=', '='];
  }

  lemma DecodeTwo(b0: byte, b1: byte)
    ensures Decode(Encode([b0, b1])) == Some([b0, b1])
  {
    var a, b, c := b0 as int / 4, (b0 as int % 4) * 16 + b1 as int / 16, (b1 as int % 16) * 4;
    TripleArith(b0 as int, b1 as int, 0);
    Split16(b1 as int);
    Unsplit(b1 as int % 16, 0, 4);
    SextetOfCharOf(a);
    SextetOfCharOf(b);
    SextetOfCharOf(c);
    assert Encode([b0, b1]) == [CharOf(a), CharOf(b), CharOf(c), '='];
  }

  /** Decoding what the encoder produced gives back the original bytes. */
  lemma {:induction false} DecodeEncode(s: seq<byte>)
    ensures Decode(Encode(s)) == Some(s)
    decreases |s|
  {
    if |s| == 1 {
      assert [s[0]] == s;
      DecodeOne(s[0]);
    } else if |s| == 2 {
      assert [s[0], s[1]] == s;
      DecodeTwo(s[0], s[1]);
    } else if |s| >= 3 {
      DecodeMore(s);
    }
  }

  lemma {:induction false} DecodeMore(s: seq<byte>)
    requires |s| >= 3
    ensures Decode(Encode(s)) == Some(s)
    decreases |s|, 0
  {
    var q := EncodeTriple(s[0], s[1], s[2]);
    var e := Encode(s);
    assert e == q + Encode(s[3..]);
    DecodeTriple(s[0], s[1], s[2]);
    DecodeEncode(s[3..]);
    assert [s[0], s[1], s[2]] + s[3..] == s;
    if |s| == 3 {
      assert s == [s[0], s[1], s[2]];
      assert e == q && |q| == 4;
      assert Decode(e) == DecodeLast(q);
    } else {
      assert e[..4] == q;
      assert e[4..] == Encode(s[3..]);
    }
  }

  lemma EncodeOfDecodeFull(q: seq<char>)
    requires |q| == 4 && DecodeFull(q).Some?
    ensures var b := DecodeFull(q).value; EncodeTriple(b[0], b[1], b[2]) == q
  {
    var a, b, c, d := SextetOf(q[0]).value, SextetOf(q[1]).value, SextetOf(q[2]).value, SextetOf(q[3]).value;
    CharOfSextetOf(q[0]);
    CharOfSextetOf(q[1]);
    CharOfSextetOf(q[2]);
    CharOfSextetOf(q[3]);
    QuadArith(a, b, c, d);
    var b0, b1, b2 := (a * 4 + b / 16) as byte, ((b % 16) * 16 + c / 4) as byte, ((c % 4) * 64 + d) as byte;
    assert DecodeFull(q).value == [b0, b1, b2];
    assert EncodeTriple(b0, b1, b2) == [CharOf(a), CharOf(b), CharOf(c), CharOf(d)];
  }

  lemma PadArith(a: int, b: int)
    requires 0 <= a < 64 && 0 <= b < 64 && b % 16 == 0
    ensures var b0 := a * 4 + b / 16; 0 <= b0 < 256 && b0 / 4 == a && (b0 % 4) * 16 == b
  {
    Split16(b);
    Unsplit(a, b / 16, 4);
  }

  lemma EncodeOfDecodeTwoPads(q: seq<char>)
    requires |q| == 4 && q[2] == '=' && q[3] == '=' && DecodeLast(q).Some?
    ensures Encode(DecodeLast(q).value) == q
  {
    var a, b := SextetOf(q[0]).value, SextetOf(q[1]).value;
    CharOfSextetOf(q[0]);
    CharOfSextetOf(q[1]);
    PadArith(a, b);
    var b0 := (a * 4 + b / 16) as byte;
    assert DecodeLast(q).value == [b0];
  }

  lemma EncodeOfDecodeOnePad(q: seq<char>)
    requires |q| == 4 && q[2] != '=' && q[3] == '=' && DecodeLast(q).Some?
    ensures Encode(DecodeLast(q).value) == q
  {
    var a, b, c := SextetOf(q[0]).value, SextetOf(q[1]).value, SextetOf(q[2]).value;
    CharOfSextetOf(q[0]);
    CharOfSextetOf(q[1]);
    CharOfSextetOf(q[2]);
    QuadArith(a, b, c, 0);
    var b0, b1 := (a * 4 + b / 16) as byte, ((b % 16) * 16 + c / 4) as byte;
    assert DecodeLast(q).value == [b0, b1];
  }

  lemma EncodeOfDecodeLast(q: seq<char>)
    requires |q| == 4 && DecodeLast(q).Some?
    ensures Encode(DecodeLast(q).value) == q
  {
    if q[2] == '=' && q[3] == '=' {
      EncodeOfDecodeTwoPads(q);
    } else if q[3] == '=' {
      EncodeOfDecodeOnePad(q);
    } else {
      EncodeOfDecodeFull(q);
      var b := DecodeFull(q).value;
      assert Encode(b) == EncodeTriple(b[0], b[1], b[2]) + Encode(b[3..]);
    }
  }

  /** Strictness: the decoder accepts only the encoder's own output, so every accepted
      text is the one canonical encoding of what it decodes to. */
  lemma {:induction false} EncodeDecode(s: seq<char>)
    requires Decode(s).Some?
    ensures Encode(Decode(s).value) == s
    decreases |s|
  {
    if |s| == 4 {
      EncodeOfDecodeLast(s);
    } else if |s| > 4 {
      var head := DecodeFull(s[..4]).value;
      var tail := Decode(s[4..]).value;
      EncodeDecode(s[4..]);
      EncodeOfDecodeFull(s[..4]);
      var b := head + tail;
      assert b[..3] == head && b[3..] == tail;
      assert Encode(b) == EncodeTriple(b[0], b[1], b[2]) + Encode(b[3..]);
      assert s == s[..4] + s[4..];
    }
  }
}
