/** Base64Encode (otel_config.cpp) against a decoder for section 4 of RFC 4648. */
module Base64 {
  import opened Common

  /** The alphabet: A-Z, a-z, 0-9, + and /. */
  function Digit(v: nat): char
    requires v < 64
  {
    if v < 26 then 'A' + v as char
    else if v < 52 then 'a' + (v - 26) as char
    else if v < 62 then '0' + (v - 52) as char
    else if v == 62 then '+'
    else '/'
  }

  function Value(c: char): Option<nat> {
    if 'A' <= c <= 'Z' then Some(c as int - 'A' as int)
    else if 'a' <= c <= 'z' then Some(c as int - 'a' as int + 26)
    else if '0' <= c <= '9' then Some(c as int - '0' as int + 52)
    else if c == '+' then Some(62)
    else if c == '/' then Some(63)
    else None
  }

  lemma DigitsAndValues(c: char, v: nat)
    requires v < 64
    ensures Value(c) == Some(v) <==> c == Digit(v)
    ensures Digit(v) != '=' && (Value(c).Some? ==> Value(c).value < 64)
  {
  }

  function Quad(triplet: nat): (q: string)
    requires triplet < 0x100_0000
    ensures |q| == 4
  {
    [Digit(triplet / 262144), Digit(triplet / 4096 % 64), Digit(triplet / 64 % 64), Digit(triplet % 64)]
  }

  function Triplet(a: byte, b: byte, c: byte): (t: nat)
    ensures t < 0x100_0000
  {
    var a': nat, b': nat, c': nat := a, b, c;
    65536 * a' + 256 * b' + c'
  }

  function Encode(input: seq<byte>): string {
    if input == [] then []
    else if |input| == 1 then Quad(Triplet(input[0], 0, 0))[..2] + "=="
    else if |input| == 2 then Quad(Triplet(input[0], input[1], 0))[..3] + "="
    else Quad(Triplet(input[0], input[1], input[2])) + Encode(input[3..])
  }

  lemma EncodeFrom(input: seq<byte>, i: nat)
    requires i <= |input|
    ensures i + 2 < |input| ==>
              Encode(input[i..]) == Quad(Triplet(input[i], input[i + 1], input[i + 2])) + Encode(input[i + 3..])
    ensures i + 2 == |input| ==> Encode(input[i..]) == Quad(Triplet(input[i], input[i + 1], 0))[..3] + "="
    ensures i + 1 == |input| ==> Encode(input[i..]) == Quad(Triplet(input[i], 0, 0))[..2] + "=="
    ensures i == |input| ==> Encode(input[i..]) == []
  {
    hide Quad, Triplet;
    if i + 2 < |input| {
      assert input[i..][3..] == input[i + 3..];
    }
  }

  method Base64Encode(input: seq<byte>) returns (out: string)
    ensures out == Encode(input)
  {
    hide Triplet, Digit, Encode;
    out := [];
    var i := 0;
    assert input[0..] == input;
    while i + 2 < |input|
      invariant 0 <= i <= |input|
      invariant out + Encode(input[i..]) == Encode(input)
    {
      EncodeFrom(input, i);
      var triplet := Triplet(input[i], input[i + 1], input[i + 2]);
      ghost var before := out;
      out := out + [Digit(triplet / 262144)];
      out := out + [Digit(triplet / 4096 % 64)];
      out := out + [Digit(triplet / 64 % 64)];
      out := out + [Digit(triplet % 64)];
      assert out == before + Quad(triplet);
      i := i + 3;
    }
    EncodeFrom(input, i);
    var remaining := |input| - i;
    if remaining == 1 {
      var triplet := Triplet(input[i], 0, 0);
      out := out + [Digit(triplet / 262144)] + [Digit(triplet / 4096 % 64)] + ['='] + ['='];
    } else if remaining == 2 {
      var triplet := Triplet(input[i], input[i + 1], 0);
      out := out + [Digit(triplet / 262144)] + [Digit(triplet / 4096 % 64)] + [Digit(triplet / 64 % 64)] + ['='];
    }
  }

  /** The sextets of three bytes. */
  lemma TripletSextets(a: byte, b: byte, c: byte)
    ensures var a': nat, b': nat, c': nat, t := a, b, c, Triplet(a, b, c);
            && t / 262144 == a' / 4 && t / 4096 % 64 == a' % 4 * 16 + b' / 16
            && t / 64 % 64 == b' % 16 * 4 + c' / 64 && t % 64 == c' % 64
  {
    var a': nat, b': nat, c': nat := a, b, c;
    Sextets(a' / 4, a' % 4 * 16 + b' / 16, b' % 16 * 4 + c' / 64, c' % 64, Triplet(a, b, c));
  }

  /** Group by group: the 24 bits of three bytes, six at a time. */
  lemma {:induction false} EncodedGroup(input: seq<byte>, g: nat)
    requires 3 * g + 2 < |input|
    ensures |Encode(input)| >= 4 * g + 4
    ensures var a: nat, b: nat, c: nat := input[3 * g], input[3 * g + 1], input[3 * g + 2];
            Encode(input)[4 * g..4 * g + 4] ==
            [Digit(a / 4), Digit(a % 4 * 16 + b / 16), Digit(b % 16 * 4 + c / 64), Digit(c % 64)]
  {
    hide Triplet, Digit;
    TripletSextets(input[0], input[1], input[2]);
    if g > 0 {
      hide Quad;
      EncodedGroup(input[3..], g - 1);
      var head := Quad(Triplet(input[0], input[1], input[2]));
      assert Encode(input) == head + Encode(input[3..]);
      assert Encode(input)[4 * g..4 * g + 4] == Encode(input[3..])[4 * g - 4..4 * g];
    }
  }

  lemma EncodedShort(input: seq<byte>)
    requires 1 <= |input| <= 2
    ensures var a: nat, b: nat := input[0], if |input| == 2 then input[1] else 0;
            Encode(input) ==
            [Digit(a / 4), Digit(a % 4 * 16 + b / 16), if |input| == 2 then Digit(b % 16 * 4) else '=', '=']
  {
    hide Triplet, Digit;
    TripletSextets(input[0], if |input| == 2 then input[1] else 0, 0);
  }

  /** What is left over: one byte as two digits, two bytes as three, and padding. */
  lemma {:induction false} EncodedTail(input: seq<byte>)
    requires |input| % 3 != 0
    ensures var g := |input| / 3;
            var a: nat, b: nat := input[3 * g], if |input| % 3 == 2 then input[3 * g + 1] else 0;
            && |Encode(input)| == 4 * g + 4
            && Encode(input)[4 * g..] ==
               [Digit(a / 4), Digit(a % 4 * 16 + b / 16), if |input| % 3 == 2 then Digit(b % 16 * 4) else '=', '=']
  {
    hide Triplet, Digit, Quad, Encode;
    if |input| <= 2 {
      EncodedShort(input);
    } else {
      EncodedTail(input[3..]);
      EncodeMore(input);
      var g := |input| / 3;
      assert |input[3..]| / 3 == g - 1 && input[3..][3 * (g - 1)] == input[3 * g];
      assert Encode(input)[4 * g..] == Encode(input[3..])[4 * (g - 1)..];
    }
  }

  /** Table 1 of RFC 4648. */
  lemma Alphabet(v: nat)
    requires v < 64
    ensures v < 26 ==> Digit(v) == "ABCDEFGHIJKLMNOPQRSTUVWXYZ"[v]
    ensures 26 <= v < 52 ==> Digit(v) == "abcdefghijklmnopqrstuvwxyz"[v - 26]
    ensures 52 <= v < 62 ==> Digit(v) == "0123456789"[v - 52]
    ensures v == 62 ==> Digit(v) == '+'
    ensures v == 63 ==> Digit(v) == '/'
  {
  }

  /** Four digits as 24 bits. */
  function Group(s: string): Option<nat>
    requires |s| == 4
  {
    match (Value(s[0]), Value(s[1]), Value(s[2]), Value(s[3]))
    case (Some(a), Some(b), Some(c), Some(d)) => Some(262144 * a + 4096 * b + 64 * c + d)
    case _ => None
  }

  function Bytes(t: nat): seq<byte>
    requires t < 0x100_0000
  {
    [t / 65536, t / 256 % 256, t % 256]
  }

  lemma GroupBound(s: string)
    requires |s| == 4
    ensures Group(s).Some? ==> Group(s).value < 0x100_0000
  {
  }

  /** A strict decoder: whole groups, padding only at the end, and no bits set under it. */
  function Decode(s: string): Option<seq<byte>> {
    if s == [] then Some([])
    else if |s| < 4 then None
    else if |s| == 4 && s[2] == '=' && s[3] == '=' then
      var g := Group(s[..2] + "AA");
      GroupBound(s[..2] + "AA");
      if g.Some? && g.value % 65536 == 0 then Some(Bytes(g.value)[..1]) else None
    else if |s| == 4 && s[3] == '=' then
      var g := Group(s[..3] + "A");
      GroupBound(s[..3] + "A");
      if g.Some? && g.value % 256 == 0 then Some(Bytes(g.value)[..2]) else None
    else
      var g := Group(s[..4]);
      GroupBound(s[..4]);
      var rest := Decode(s[4..]);
      if g.Some? && rest.Some? then Some(Bytes(g.value) + rest.value) else None
  }

  lemma Sextets(a: nat, b: nat, c: nat, d: nat, t: nat)
    requires a < 64 && b < 64 && c < 64 && d < 64 && t < 0x100_0000
    ensures t == 262144 * a + 4096 * b + 64 * c + d <==>
            a == t / 262144 && b == t / 4096 % 64 && c == t / 64 % 64 && d == t % 64
  {
    var x, y := t / 64, t / 4096;
    assert t == 64 * x + t % 64 && x == 64 * y + x % 64 && y == 64 * (t / 262144) + y % 64;
    if t == 262144 * a + 4096 * b + 64 * c + d {
      assert x == 4096 * a + 64 * b + c;
      assert y == 64 * a + b;
    }
  }

  lemma GroupIffQuad(s: string, t: nat)
    requires |s| == 4 && t < 0x100_0000
    ensures Group(s) == Some(t) <==> s == Quad(t)
  {
    DigitsAndValues(s[0], t / 262144);
    DigitsAndValues(s[1], t / 4096 % 64);
    DigitsAndValues(s[2], t / 64 % 64);
    DigitsAndValues(s[3], t % 64);
    hide Value, Digit;
    if Group(s).Some? {
      Sextets(Value(s[0]).value, Value(s[1]).value, Value(s[2]).value, Value(s[3]).value, t);
    }
  }

  lemma BytesIffTriplet(t: nat, a: byte, b: byte, c: byte)
    requires t < 0x100_0000
    ensures Bytes(t) == [a, b, c] <==> t == Triplet(a, b, c)
  {
    if t == Triplet(a, b, c) {
      var b': nat, c': nat := b, c;
      assert t / 256 == 256 * a + b';
    }
  }

  /** A digit is never padding. */
  lemma QuadHasNoPadding(t: nat)
    requires t < 0x100_0000
    ensures forall k :: 0 <= k < 4 ==> Quad(t)[k] != '=' && Value(Quad(t)[k]).Some?
  {
    DigitsAndValues(Digit(t / 262144), t / 262144);
    DigitsAndValues(Digit(t / 4096 % 64), t / 4096 % 64);
    DigitsAndValues(Digit(t / 64 % 64), t / 64 % 64);
    DigitsAndValues(Digit(t % 64), t % 64);
    hide Value, Digit;
  }

  lemma LowSextets(t: nat)
    requires t < 0x100_0000
    ensures t % 65536 == 0 ==> t / 64 % 64 == 0 && t % 64 == 0
    ensures t % 256 == 0 ==> t % 64 == 0
  {
    if t % 65536 == 0 {
      var q := t / 65536;
      Sextets(q / 4, 16 * (q % 4), 0, 0, t);
    }
    if t % 256 == 0 {
      var q := t / 256;
      assert t == 64 * (4 * q);
    }
  }

  /** Bits that are not there encode as the digit for zero. */
  lemma ZeroTail(t: nat)
    requires t < 0x100_0000
    ensures t % 65536 == 0 ==> Quad(t)[2..] == "AA"
    ensures t % 256 == 0 ==> Quad(t)[3] == 'A'
  {
    assert Digit(0) == 'A';
    hide Digit;
    LowSextets(t);
  }

  lemma DecodeOneByte(a: byte)
    ensures Decode(Quad(Triplet(a, 0, 0))[..2] + "==") == Some([a])
  {
    var t := Triplet(a, 0, 0);
    var s := Quad(t)[..2] + "==";
    GroupIffQuad(Quad(t), t);
    ZeroTail(t);
    BytesIffTriplet(t, a, 0, 0);
    assert t % 65536 == 0;
    hide Group, Quad, Triplet, Bytes;
    assert s[..2] + "AA" == Quad(t) && Bytes(t)[..1] == [a];
  }

  lemma DecodeTwoBytes(a: byte, b: byte)
    ensures Decode(Quad(Triplet(a, b, 0))[..3] + "=") == Some([a, b])
  {
    var t := Triplet(a, b, 0);
    var s := Quad(t)[..3] + "=";
    GroupIffQuad(Quad(t), t);
    QuadHasNoPadding(t);
    ZeroTail(t);
    BytesIffTriplet(t, a, b, 0);
    assert t % 256 == 0;
    hide Group, Quad, Triplet, Bytes;
    assert s[2] == Quad(t)[2] && s[..3] + "A" == Quad(t) && Bytes(t)[..2] == [a, b];
  }

  lemma DecodeQuad(t: nat, rest: string)
    requires t < 0x100_0000 && Decode(rest).Some?
    ensures Decode(Quad(t) + rest) == Some(Bytes(t) + Decode(rest).value)
  {
    var s := Quad(t) + rest;
    GroupIffQuad(Quad(t), t);
    QuadHasNoPadding(t);
    assert s[3] == Quad(t)[3] && s[..4] == Quad(t) && s[4..] == rest;
    hide Group, Quad, Bytes;
  }

  lemma {:induction false} DecodeEncode(input: seq<byte>)
    ensures Decode(Encode(input)) == Some(input)
  {
    assert Decode([]) == Some([]);
    hide Decode, Quad, Triplet, Bytes;
    if |input| == 1 {
      assert input == [input[0]];
      DecodeOneByte(input[0]);
    } else if |input| == 2 {
      assert input == [input[0], input[1]];
      DecodeTwoBytes(input[0], input[1]);
    } else if |input| > 2 {
      DecodeEncode(input[3..]);
      var t := Triplet(input[0], input[1], input[2]);
      DecodeQuad(t, Encode(input[3..]));
      BytesIffTriplet(t, input[0], input[1], input[2]);
      assert Bytes(t) == input[..3] && input == input[..3] + input[3..];
      assert Encode(input) == Quad(t) + Encode(input[3..]);
    }
  }

  /** What four accepted digits stand for encodes as these digits. */
  lemma GroupEncodes(s: string)
    requires |s| == 4 && Group(s).Some?
    ensures var t := Group(s).value;
            && t < 0x100_0000 && s == Quad(t)
            && Triplet(Bytes(t)[0], Bytes(t)[1], Bytes(t)[2]) == t
  {
    var t := Group(s).value;
    GroupBound(s);
    GroupIffQuad(s, t);
    hide Group, Quad;
    BytesIffTriplet(t, Bytes(t)[0], Bytes(t)[1], Bytes(t)[2]);
  }

  lemma EncodeDecodeOne(s: string)
    requires |s| == 4 && s[2] == '=' && s[3] == '=' && Decode(s).Some?
    ensures Encode(Decode(s).value) == s
  {
    hide Group, Quad, Triplet;
    var padded := s[..2] + "AA";
    GroupEncodes(padded);
    assert Decode(s).value == Bytes(Group(padded).value)[..1];
    assert s == s[..2] + "==" && padded[..2] == s[..2];
  }

  lemma EncodeDecodeTwo(s: string)
    requires |s| == 4 && s[2] != '=' && s[3] == '=' && Decode(s).Some?
    ensures Encode(Decode(s).value) == s
  {
    hide Group, Quad, Triplet;
    var padded := s[..3] + "A";
    GroupEncodes(padded);
    assert Decode(s).value == Bytes(Group(padded).value)[..2];
    assert s == s[..3] + "=" && padded[..3] == s[..3];
  }

  lemma EncodeDecodeMore(s: string)
    requires |s| >= 4 && !(|s| == 4 && s[3] == '=') && Decode(s).Some?
    ensures Decode(s[4..]).Some?
    ensures Encode(Decode(s[4..]).value) == s[4..] ==> Encode(Decode(s).value) == s
  {
    hide Group, Quad, Triplet;
    GroupEncodes(s[..4]);
    var b, rest := Bytes(Group(s[..4]).value), Decode(s[4..]).value;
    assert Decode(s).value == b + rest;
    assert (b + rest)[3..] == rest && s == s[..4] + s[4..];
  }

  lemma {:induction false} EncodeDecode(s: string)
    ensures Decode(s).Some? ==> Encode(Decode(s).value) == s
  {
    hide Group, Bytes, Quad, Triplet;
    if Decode(s).Some? && s != [] {
      if |s| == 4 && s[2] == '=' && s[3] == '=' {
        EncodeDecodeOne(s);
      } else if |s| == 4 && s[3] == '=' {
        EncodeDecodeTwo(s);
      } else {
        EncodeDecodeMore(s);
        EncodeDecode(s[4..]);
      }
    }
  }

  /** The strings the decoder accepts are exactly the encodings, each read as what it encodes;
      so encoding is injective and loses nothing. */
  lemma DecodeIffEncode(s: string, input: seq<byte>)
    ensures Decode(s) == Some(input) <==> s == Encode(input)
  {
    DecodeEncode(input);
    EncodeDecode(s);
  }

  lemma EncodeIsInjective(a: seq<byte>, b: seq<byte>)
    requires Encode(a) == Encode(b)
    ensures a == b
  {
    DecodeEncode(a);
    DecodeEncode(b);
  }

  function PaddingLength(n: nat): nat {
    if n % 3 == 1 then 2 else if n % 3 == 2 then 1 else 0
  }

  lemma {:induction false} EncodeLength(input: seq<byte>)
    ensures |Encode(input)| == 4 * ((|input| + 2) / 3)
  {
    hide Quad, Triplet;
    if |input| > 2 {
      EncodeLength(input[3..]);
    }
  }

  /** Character `k` is a digit, or padding within the last `pad` places. */
  predicate ShapedAt(s: string, k: nat, pad: nat)
    requires k < |s|
  {
    if k < |s| - pad then Value(s[k]).Some? else s[k] == '='
  }

  lemma ShapedShort(input: seq<byte>, k: nat)
    requires 1 <= |input| <= 2 && k < 4 == |Encode(input)|
    ensures ShapedAt(Encode(input), k, PaddingLength(|input|))
  {
    QuadHasNoPadding(Triplet(input[0], if |input| > 1 then input[1] else 0, 0));
    hide Quad, Triplet, Value;
  }

  lemma ShapedLong(t: nat, rest: string, k: nat, pad: nat)
    requires t < 0x100_0000 && k < 4 + |rest| && pad <= |rest|
    requires k >= 4 ==> ShapedAt(rest, k - 4, pad)
    ensures ShapedAt(Quad(t) + rest, k, pad)
  {
    QuadHasNoPadding(t);
    hide Quad, Value;
  }

  lemma EncodeMore(input: seq<byte>)
    requires |input| > 2
    ensures Encode(input) == Quad(Triplet(input[0], input[1], input[2])) + Encode(input[3..])
  {
    hide Quad, Triplet;
  }

  lemma PaddingStays(n: nat)
    requires n > 2
    ensures PaddingLength(n) == PaddingLength(n - 3)
    ensures PaddingLength(n) <= 4 * ((n - 3 + 2) / 3)
  {
    assert n % 3 == (n - 3) % 3;
  }

  /** Padding stands at the end only, and everything before it is a digit. */
  lemma {:induction false} EncodeShape(input: seq<byte>, k: nat)
    requires k < |Encode(input)|
    ensures ShapedAt(Encode(input), k, PaddingLength(|input|))
  {
    hide Quad, Triplet, ShapedAt, Value, Encode, PaddingLength;
    EncodeLength(input);
    if input == [] {
    } else if |input| <= 2 {
      ShapedShort(input, k);
    } else {
      EncodeMore(input);
      EncodeLength(input[3..]);
      PaddingStays(|input|);
      if k >= 4 {
        EncodeShape(input[3..], k - 4);
      }
      ShapedLong(Triplet(input[0], input[1], input[2]), Encode(input[3..]), k, PaddingLength(|input|));
    }
  }
}
