/** UTF-8 as section 3 of RFC 3629 writes it: decoding is the exact inverse of encoding. */
module Utf8 {
  import opened Bytes
  import opened Wrappers
  import opened Text

  /** One character in one to four bytes. */
  function EncodeChar(c: char): (r: seq<Byte>)
    ensures 1 <= |r| <= 4
  {
    var n := c as int;
    if n < 0x80 then [n]
    else if n < 0x800 then [0xC0 + n / 64, 0x80 + n % 64]
    else if n < 0x10000 then [0xE0 + n / 4096, 0x80 + n / 64 % 64, 0x80 + n % 64]
    else [0xF0 + n / 262144, 0x80 + n / 4096 % 64, 0x80 + n / 64 % 64, 0x80 + n % 64]
  }

  function Encode(s: string): seq<Byte> {
    if s == "" then [] else EncodeChar(s[0]) + Encode(s[1..])
  }

  lemma TwoDigits(n: int)
    requires 0 <= n
    ensures n == n / 64 * 64 + n % 64 && 0 <= n % 64 < 64 && n / 4096 == n / 64 / 64 && n / 262144 == n / 4096 / 64
  {
  }

  lemma ShortChar(c: char, rest: seq<Byte>)
    requires c as int < 0x800
    ensures SequenceLength(EncodeChar(c) + rest) == |EncodeChar(c)| && FirstChar(EncodeChar(c) + rest) == c
  {
    TwoDigits(c as int);
  }

  lemma ThreeByteChar(c: char, rest: seq<Byte>)
    requires 0x800 <= c as int < 0x10000
    ensures SequenceLength(EncodeChar(c) + rest) == |EncodeChar(c)| && FirstChar(EncodeChar(c) + rest) == c
  {
    TwoDigits(c as int);
    TwoDigits(c as int / 64);
  }

  lemma FourByteChar(c: char, rest: seq<Byte>)
    requires 0x10000 <= c as int
    ensures SequenceLength(EncodeChar(c) + rest) == |EncodeChar(c)| && FirstChar(EncodeChar(c) + rest) == c
  {
    TwoDigits(c as int);
    TwoDigits(c as int / 64);
    TwoDigits(c as int / 4096);
  }

  lemma CharIsDecoded(c: char, rest: seq<Byte>)
    ensures SequenceLength(EncodeChar(c) + rest) == |EncodeChar(c)| && FirstChar(EncodeChar(c) + rest) == c
  {
    if c as int < 0x800 {
      ShortChar(c, rest);
    } else if c as int < 0x10000 {
      ThreeByteChar(c, rest);
    } else {
      FourByteChar(c, rest);
    }
  }

  /** Every text comes back. */
  lemma {:induction false} DecodeEncode(s: string)
    ensures FromUtf8(Encode(s)) == Some(s)
  {
    if s != "" {
      var bytes, first := Encode(s), EncodeChar(s[0]);
      CharIsDecoded(s[0], Encode(s[1..]));
      DecodeEncode(s[1..]);
      assert bytes[|first|..] == Encode(s[1..]);
      assert [s[0]] + s[1..] == s;
    }
  }

  lemma Sixty4(a: int, b: int)
    requires 0 <= b < 64
    ensures (a * 64 + b) / 64 == a && (a * 64 + b) % 64 == b
  {
  }

  lemma TwoBytes(b0: Byte, b1: Byte, c: char)
    requires 0xC2 <= b0 <= 0xDF && Continuation(b1) && c as int == (b0 - 0xC0) * 64 + Low6(b1)
    ensures EncodeChar(c) == [b0, b1]
  {
    Sixty4(b0 - 0xC0, Low6(b1));
  }

  lemma ThreeBytes(b0: Byte, b1: Byte, b2: Byte, c: char)
    requires 0xE0 <= b0 <= 0xEF && Continuation(b1) && Continuation(b2) && (b0 == 0xE0 ==> b1 >= 0xA0)
    requires c as int == (b0 - 0xE0) * 4096 + Low6(b1) * 64 + Low6(b2)
    ensures EncodeChar(c) == [b0, b1, b2]
  {
    Sixty4((b0 - 0xE0) * 64 + Low6(b1), Low6(b2));
    Sixty4(b0 - 0xE0, Low6(b1));
    TwoDigits(c as int);
  }

  lemma FourBytes(b0: Byte, b1: Byte, b2: Byte, b3: Byte, c: char)
    requires 0xF0 <= b0 <= 0xF4 && Continuation(b1) && Continuation(b2) && Continuation(b3) && (b0 == 0xF0 ==> b1 >= 0x90)
    requires c as int == (b0 - 0xF0) * 262144 + Low6(b1) * 4096 + Low6(b2) * 64 + Low6(b3)
    ensures EncodeChar(c) == [b0, b1, b2, b3]
  {
    Sixty4(((b0 - 0xF0) * 64 + Low6(b1)) * 64 + Low6(b2), Low6(b3));
    Sixty4((b0 - 0xF0) * 64 + Low6(b1), Low6(b2));
    Sixty4(b0 - 0xF0, Low6(b1));
    TwoDigits(c as int);
  }

  lemma FirstIsEncoded(bytes: seq<Byte>)
    requires SequenceLength(bytes) > 0
    ensures EncodeChar(FirstChar(bytes)) == bytes[..SequenceLength(bytes)]
  {
    var n, c := SequenceLength(bytes), FirstChar(bytes);
    if n == 2 {
      TwoBytes(bytes[0], bytes[1], c);
    } else if n == 3 {
      ThreeBytes(bytes[0], bytes[1], bytes[2], c);
    } else if n == 4 {
      FourBytes(bytes[0], bytes[1], bytes[2], bytes[3], c);
    }
  }

  lemma EncodeStep(c: char, tail: string)
    ensures Encode([c] + tail) == EncodeChar(c) + Encode(tail)
  {
    assert ([c] + tail)[1..] == tail;
  }

  /** And bytes are only read as text if they are its encoding. */
  lemma {:induction false} EncodeDecode(bytes: seq<Byte>, s: string)
    requires FromUtf8(bytes) == Some(s)
    ensures Encode(s) == bytes
    decreases |bytes|
  {
    if bytes != [] {
      var n := SequenceLength(bytes);
      var tail := FromUtf8(bytes[n..]).value;
      FirstIsEncoded(bytes);
      EncodeDecode(bytes[n..], tail);
      EncodeStep(FirstChar(bytes), tail);
      Rejoin(bytes, n);
    }
  }

  lemma Rejoin(bytes: seq<Byte>, n: nat)
    requires n <= |bytes|
    ensures bytes == bytes[..n] + bytes[n..]
  {
  }

  /** Bytes are text if and only if some text is encoded so. */
  lemma TextExactly(bytes: seq<Byte>, s: string)
    ensures FromUtf8(bytes) == Some(s) <==> Encode(s) == bytes
  {
    DecodeEncode(s);
    if FromUtf8(bytes) == Some(s) {
      EncodeDecode(bytes, s);
    }
  }

  /** The length of a text is that of its encoding. */
  lemma {:induction false} LengthInBytes(s: string)
    ensures ByteLength(s) == |Encode(s)|
  {
    if s != "" {
      LengthInBytes(s[1..]);
    }
  }
}
