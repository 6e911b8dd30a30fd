/** Python's strict `str.encode("utf-8")` and `bytes.decode("utf-8")`.
    Dafny's `char` is a Unicode scalar value, which is exactly what UTF-8 can encode. */
module Utf8 {
  import opened Wrappers

  type byte = b: int | 0 <= b < 256

  predicate IsScalar(cp: int) {
    0 <= cp < 0xD800 || 0xE000 <= cp < 0x11_0000
  }

  /** The UTF-8 form of one code point (one to four bytes). */
  function EncodeChar(c: char): seq<byte> {
    var cp := c as int;
    if cp < 0x80 then [cp]
    else if cp < 0x800 then [0xC0 + cp / 64, 0x80 + cp % 64]
    else if cp < 0x1_0000 then [0xE0 + cp / 4096, 0x80 + (cp / 64) % 64, 0x80 + cp % 64]
    else [0xF0 + cp / 262144, 0x80 + (cp / 4096) % 64, 0x80 + (cp / 64) % 64, 0x80 + cp % 64]
  }

  /** `s.encode("utf-8")`. */
  function Encode(s: string): seq<byte> {
    if s == [] then [] else EncodeChar(s[0]) + Encode(s[1..])
  }

  predicate IsCont(b: byte) {
    0x80 <= b < 0xC0
  }

  /** Length of the well-formed sequence at the head of `b`, or 0 where the strict
      decoder raises: a stray continuation byte, an overlong form, a surrogate,
      a code point above U+10FFFF or a truncated sequence. */
  function HeadLength(b: seq<byte>): nat
    requires |b| > 0
  {
    var b0 := b[0];
    if b0 < 0x80 then 1
    else if 0xC2 <= b0 <= 0xDF then
      if |b| >= 2 && IsCont(b[1]) then 2 else 0
    else if 0xE0 <= b0 <= 0xEF then
      var lo := if b0 == 0xE0 then 0xA0 else 0x80;
      var hi := if b0 == 0xED then 0x9F else 0xBF;
      if |b| >= 3 && lo <= b[1] <= hi && IsCont(b[2]) then 3 else 0
    else if 0xF0 <= b0 <= 0xF4 then
      var lo := if b0 == 0xF0 then 0x90 else 0x80;
      var hi := if b0 == 0xF4 then 0x8F else 0xBF;
      if |b| >= 4 && lo <= b[1] <= hi && IsCont(b[2]) && IsCont(b[3]) then 4 else 0
    else 0
  }

  /** The code point of the well-formed sequence at the head of `b`. */
  function DecodeHead(b: seq<byte>): char
    requires |b| > 0 && HeadLength(b) > 0
  {
    var n := HeadLength(b);
    var b0: int := b[0];
    if n == 1 then b0 as char
    else if n == 2 then ((b0 - 0xC0) * 64 + (b[1] as int - 0x80)) as char
    else if n == 3 then ((b0 - 0xE0) * 4096 + (b[1] as int - 0x80) * 64 + (b[2] as int - 0x80)) as char
    else ((b0 - 0xF0) * 262144 + (b[1] as int - 0x80) * 4096 + (b[2] as int - 0x80) * 64 + (b[3] as int - 0x80)) as char
  }

  /** `b.decode("utf-8")`; `None` where Python raises `UnicodeDecodeError`. */
  function Decode(b: seq<byte>): Option<string>
    decreases |b|
  {
    if b == [] then Some([])
    else
      var n := HeadLength(b);
      if n == 0 then None
      else match Decode(b[n..])
        case None => None
        case Some(rest) => Some([DecodeHead(b)] + rest)
  }

  /** Base-64 digits of a number below 64^4, as the encoder takes them apart. */
  lemma Digits(cp: int)
    requires 0 <= cp < 262144 * 64
    ensures cp % 64 + (cp / 64) % 64 * 64 + (cp / 4096) % 64 * 4096 + cp / 262144 * 262144 == cp
    ensures cp / 64 / 64 == cp / 4096 && cp / 4096 / 64 == cp / 262144
  {
    var a := cp / 64;
    var b := a / 64;
    var c := b / 64;
    assert cp == a * 64 + cp % 64;
    assert a == b * 64 + a % 64;
    assert b == c * 64 + b % 64;
    assert cp == c * 262144 + (b % 64) * 4096 + (a % 64) * 64 + cp % 64;
    assert cp / 4096 == b;
    assert cp / 262144 == c;
  }

  /** A number written with base-64 digits is taken apart into those digits. */
  lemma Undigits(w: int, x: int, y: int, z: int)
    requires 0 <= w < 64 && 0 <= x < 64 && 0 <= y < 64 && 0 <= z < 64
    ensures var cp := w * 262144 + x * 4096 + y * 64 + z;
      && cp % 64 == z && (cp / 64) % 64 == y && (cp / 4096) % 64 == x && cp / 262144 == w
  {
    var cp := w * 262144 + x * 4096 + y * 64 + z;
    assert cp / 64 == w * 4096 + x * 64 + y;
    assert cp / 4096 == w * 64 + x;
  }

  /** The encoder emits only well-formed sequences, and the decoder reads each back. */
  lemma EncodeCharDecodes(c: char, tail: seq<byte>)
    ensures var e := EncodeChar(c);
      && 1 <= |e| <= 4
      && HeadLength(e + tail) == |e|
      && DecodeHead(e + tail) == c
  {
    var cp := c as int;
    Digits(cp);
    var e := EncodeChar(c);
    var b := e + tail;
    if cp < 0x80 {
    } else if cp < 0x800 {
      assert b[0] == 0xC0 + cp / 64 && b[1] == 0x80 + cp % 64;
      assert HeadLength(b) == 2;
    } else if cp < 0x1_0000 {
      assert b[0] == 0xE0 + cp / 4096 && b[1] == 0x80 + (cp / 64) % 64 && b[2] == 0x80 + cp % 64;
      assert HeadLength(b) == 3;
    } else {
      assert b[0] == 0xF0 + cp / 262144 && b[1] == 0x80 + (cp / 4096) % 64;
      assert b[2] == 0x80 + (cp / 64) % 64 && b[3] == 0x80 + cp % 64;
      assert HeadLength(b) == 4;
    }
  }

  /** A two-byte code point is encoded by its two base-64 digits. */
  lemma EncodeTwo(x: int, y: int)
    requires 2 <= x < 32 && 0 <= y < 64
    ensures EncodeChar((x * 64 + y) as char) == [0xC0 + x, 0x80 + y]
  {
    Undigits(0, 0, x, y);
  }

  /** A three-byte code point is encoded by its three base-64 digits. */
  lemma EncodeThree(x: int, y: int, z: int)
    requires 0 <= x < 16 && 0 <= y < 64 && 0 <= z < 64
    requires 0x800 <= x * 4096 + y * 64 + z && IsScalar(x * 4096 + y * 64 + z)
    ensures EncodeChar((x * 4096 + y * 64 + z) as char) == [0xE0 + x, 0x80 + y, 0x80 + z]
  {
    Undigits(0, x, y, z);
  }

  /** A four-byte code point is encoded by its four base-64 digits. */
  lemma EncodeFour(w: int, x: int, y: int, z: int)
    requires 0 <= w < 5 && 0 <= x < 64 && 0 <= y < 64 && 0 <= z < 64
    requires 0x1_0000 <= w * 262144 + x * 4096 + y * 64 + z < 0x11_0000
    ensures EncodeChar((w * 262144 + x * 4096 + y * 64 + z) as char) == [0xF0 + w, 0x80 + x, 0x80 + y, 0x80 + z]
  {
    Undigits(w, x, y, z);
  }

  /** The decoder consumes exactly the bytes that the encoder produces for the code point it reads. */
  lemma DecodeHeadEncodes(b: seq<byte>)
    requires |b| > 0 && HeadLength(b) > 0
    ensures EncodeChar(DecodeHead(b)) == b[..HeadLength(b)]
  {
    var n := HeadLength(b);
    var b0: int := b[0];
    if n == 2 {
      EncodeTwo(b0 - 0xC0, b[1] - 0x80);
      assert b[..2] == [b0, b[1]];
    } else if n == 3 {
      EncodeThree(b0 - 0xE0, b[1] - 0x80, b[2] - 0x80);
      assert b[..3] == [b0, b[1], b[2]];
    } else if n == 4 {
      EncodeFour(b0 - 0xF0, b[1] - 0x80, b[2] - 0x80, b[3] - 0x80);
      assert b[..4] == [b0, b[1], b[2], b[3]];
    }
  }

  /** Encoding and then decoding gives back the string. */
  lemma {:induction false} DecodeEncode(s: string)
    ensures Decode(Encode(s)) == Some(s)
  {
    if s != [] {
      var e := EncodeChar(s[0]);
      EncodeCharDecodes(s[0], Encode(s[1..]));
      assert (e + Encode(s[1..]))[|e|..] == Encode(s[1..]);
      DecodeEncode(s[1..]);
      assert [s[0]] + s[1..] == s;
    }
  }

  /** One step of `Decode` on accepted bytes. */
  lemma DecodeStep(b: seq<byte>)
    requires b != [] && Decode(b).Some?
    ensures HeadLength(b) > 0 && Decode(b[HeadLength(b)..]).Some?
    ensures Decode(b).value == [DecodeHead(b)] + Decode(b[HeadLength(b)..]).value
  {
  }

  /** One step of `Encode`. */
  lemma EncodeStep(c: char, rest: string)
    ensures Encode([c] + rest) == EncodeChar(c) + Encode(rest)
  {
    assert ([c] + rest)[1..] == rest;
  }

  /** Whatever decodes, encodes back to the same bytes. */
  lemma {:induction false} EncodeDecode(b: seq<byte>)
    requires Decode(b).Some?
    ensures Encode(Decode(b).value) == b
  {
    if b != [] {
      DecodeStep(b);
      var n := HeadLength(b);
      var rest := Decode(b[n..]).value;
      EncodeDecode(b[n..]);
      DecodeHeadEncodes(b);
      EncodeStep(DecodeHead(b), rest);
      assert b == b[..n] + b[n..];
    }
  }
}
