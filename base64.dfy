/** Base 64 encoding with padding, as in section 4 of RFC 4648 (Python's
    `base64.b64encode(...).decode("utf-8")`), with a strict decoder that
    accepts exactly the canonical encodings. */
module Base64 {
  import opened Wrappers
  import opened Utf8

  type sextet = v: int | 0 <= v < 64

  /** The alphabet of Table 1 in RFC 4648. */
  function Symbol(v: sextet): char {
    if v < 26 then ('A' as int + v) as char
    else if v < 52 then ('a' as int + (v - 26)) as char
    else if v < 62 then ('0' as int + (v - 52)) as char
    else if v == 62 then '+'
    else '/'
  }

  /** Inverse of `Symbol`; `None` for characters outside the alphabet (including the pad `=`). */
  function Value(c: char): Option<sextet> {
    if 'A' <= c <= 'Z' then Some(c as int - 'A' as int)
    else if 'a' <= c <= 'z' then Some(c as int - 'a' as int + 26)
    else if '0' <= c <= '9' then Some(c as int - '0' as int + 52)
    else if c == '+' then Some(62)
    else if c == '/' then Some(63)
    else None
  }

  lemma ValueSymbol(v: sextet)
    ensures Value(Symbol(v)) == Some(v)
  {
  }

  lemma SymbolValue(c: char)
    requires Value(c).Some?
    ensures Symbol(Value(c).value) == c
  {
  }

  /** Three bytes become four symbols. */
  function EncodeGroup(b0: byte, b1: byte, b2: byte): string {
    [Symbol(b0 / 4), Symbol((b0 % 4) * 16 + b1 / 16), Symbol((b1 % 16) * 4 + b2 / 64), Symbol(b2 % 64)]
  }

  /** `base64.b64encode(b).decode("utf-8")`. */
  function Encode(b: seq<byte>): string
    decreases |b|
  {
    if |b| == 0 then ""
    else if |b| == 1 then [Symbol(b[0] / 4), Symbol((b[0] % 4) * 16), '=', '=']
    else if |b| == 2 then [Symbol(b[0] / 4), Symbol((b[0] % 4) * 16 + b[1] / 16), Symbol((b[1] % 16) * 4), '=']
    else EncodeGroup(b[0], b[1], b[2]) + Encode(b[3..])
  }

  /** One unpadded quantum of four symbols becomes three bytes. */
  function DecodeQuantum(q: string): Option<seq<byte>>
    requires |q| == 4
  {
    if Value(q[0]).None? || Value(q[1]).None? || Value(q[2]).None? || Value(q[3]).None? then None
    else
      var v0: int, v1: int, v2: int, v3: int := Value(q[0]).value, Value(q[1]).value, Value(q[2]).value, Value(q[3]).value;
      Some([v0 * 4 + v1 / 16, (v1 % 16) * 16 + v2 / 4, (v2 % 4) * 64 + v3])
  }

  /** The final quantum with one or two pad characters; its unused bits must be zero. */
  function DecodePadded(q: string): Option<seq<byte>>
    requires |q| == 4 && q[3] == '='
  {
    if Value(q[0]).None? || Value(q[1]).None? then None
    else
      var v0: int, v1: int := Value(q[0]).value, Value(q[1]).value;
      if q[2] == '=' then
        if v1 % 16 == 0 then Some([v0 * 4 + v1 / 16]) else None
      else if Value(q[2]).None? then None
      else
        var v2: int := Value(q[2]).value;
        if v2 % 4 == 0 then Some([v0 * 4 + v1 / 16, (v1 % 16) * 16 + v2 / 4]) else None
  }

  /** Strict decoding: whole quanta of four characters, padding only at the end,
      and unused bits of a padded quantum equal to zero. */
  function Decode(s: string): Option<seq<byte>>
    decreases |s|
  {
    if |s| == 0 then Some([])
    else if |s| < 4 then None
    else if |s| == 4 && s[3] == '=' then DecodePadded(s)
    else
      match (DecodeQuantum(s[..4]), Decode(s[4..]))
      case (Some(head), Some(rest)) => Some(head + rest)
      case _ => None
  }

  /** Four characters per started group of three bytes. */
  lemma {:induction false} EncodeLength(b: seq<byte>)
    ensures |Encode(b)| == 4 * ((|b| + 2) / 3)
  {
    if |b| >= 3 {
      EncodeLength(b[3..]);
      var n := |b|;
      assert (n + 2) / 3 == (n - 3 + 2) / 3 + 1;
    }
  }

  /** The arithmetic of one full quantum: sextets to bytes and back. */
  lemma QuantumArith(v0: sextet, v1: sextet, v2: sextet, v3: sextet)
    ensures var b0, b1, b2 := v0 * 4 + v1 / 16, (v1 % 16) * 16 + v2 / 4, (v2 % 4) * 64 + v3;
      && 0 <= b0 < 256 && 0 <= b1 < 256 && 0 <= b2 < 256
      && b0 / 4 == v0 && (b0 % 4) * 16 + b1 / 16 == v1 && (b1 % 16) * 4 + b2 / 64 == v2 && b2 % 64 == v3
  {
  }

  /** The arithmetic of one full quantum: bytes to sextets and back. */
  lemma GroupArith(b0: byte, b1: byte, b2: byte)
    ensures var v0, v1, v2, v3 := b0 / 4, (b0 % 4) * 16 + b1 / 16, (b1 % 16) * 4 + b2 / 64, b2 % 64;
      && 0 <= v1 < 64 && 0 <= v2 < 64
      && v0 * 4 + v1 / 16 == b0 && (v1 % 16) * 16 + v2 / 4 == b1 && (v2 % 4) * 64 + v3 == b2
  {
  }

  /** A full quantum decodes back to its three bytes. */
  lemma QuantumDecodesGroup(b0: byte, b1: byte, b2: byte)
    ensures DecodeQuantum(EncodeGroup(b0, b1, b2)) == Some([b0, b1, b2])
  {
    var v0: sextet, v1: sextet, v2: sextet, v3: sextet := b0 / 4, (b0 % 4) * 16 + b1 / 16, (b1 % 16) * 4 + b2 / 64, b2 % 64;
    GroupArith(b0, b1, b2);
    ValueSymbol(v0);
    ValueSymbol(v1);
    ValueSymbol(v2);
    ValueSymbol(v3);
    var q := EncodeGroup(b0, b1, b2);
    assert q == [Symbol(v0), Symbol(v1), Symbol(v2), Symbol(v3)];
    assert DecodeQuantum(q) == Some([v0 * 4 + v1 / 16, (v1 % 16) * 16 + v2 / 4, (v2 % 4) * 64 + v3]);
  }

  /** An accepted full quantum is the encoding of the three bytes it gives. */
  lemma GroupEncodesQuantum(q: string)
    requires |q| == 4 && DecodeQuantum(q).Some?
    ensures var b := DecodeQuantum(q).value; EncodeGroup(b[0], b[1], b[2]) == q
  {
    var v0, v1, v2, v3 := Value(q[0]).value, Value(q[1]).value, Value(q[2]).value, Value(q[3]).value;
    SymbolValue(q[0]);
    SymbolValue(q[1]);
    SymbolValue(q[2]);
    SymbolValue(q[3]);
    SextetsEncode(v0, v1, v2, v3);
    assert q == [Symbol(v0), Symbol(v1), Symbol(v2), Symbol(v3)];
  }

  /** Four sextets, packed into three bytes, encode back to their own symbols. */
  lemma SextetsEncode(v0: sextet, v1: sextet, v2: sextet, v3: sextet)
    ensures var b0: int, b1: int, b2: int := v0 * 4 + v1 / 16, (v1 % 16) * 16 + v2 / 4, (v2 % 4) * 64 + v3;
      && 0 <= b0 < 256 && 0 <= b1 < 256 && 0 <= b2 < 256
      && EncodeGroup(b0, b1, b2) == [Symbol(v0), Symbol(v1), Symbol(v2), Symbol(v3)]
  {
    QuantumArith(v0, v1, v2, v3);
  }

  /** The arithmetic of a final quantum holding one byte. */
  lemma OneByteArith(b0: byte)
    ensures var v1 := (b0 % 4) * 16; 0 <= v1 < 64 && v1 % 16 == 0 && (b0 / 4) * 4 + v1 / 16 == b0
  {
  }

  /** The arithmetic of a final quantum holding two bytes. */
  lemma TwoByteArith(b0: byte, b1: byte)
    ensures var v1, v2 := (b0 % 4) * 16 + b1 / 16, (b1 % 16) * 4;
      && 0 <= v1 < 64 && 0 <= v2 < 64 && v2 % 4 == 0
      && (b0 / 4) * 4 + v1 / 16 == b0 && (v1 % 16) * 16 + v2 / 4 == b1
  {
  }

  lemma PaddedDecodesOne(b0: byte)
    ensures var q := Encode([b0]); |q| == 4 && q[3] == '=' && DecodePadded(q) == Some([b0])
  {
    var v0: sextet, v1: sextet := b0 / 4, (b0 % 4) * 16;
    OneByteArith(b0);
    ValueSymbol(v0);
    ValueSymbol(v1);
    var q := Encode([b0]);
    assert q == [Symbol(v0), Symbol(v1), '=', '='];
    assert DecodePadded(q) == Some([v0 * 4 + v1 / 16]);
  }

  lemma PaddedDecodesTwo(b0: byte, b1: byte)
    ensures var q := Encode([b0, b1]); |q| == 4 && q[3] == '=' && DecodePadded(q) == Some([b0, b1])
  {
    var v0: sextet, v1: sextet, v2: sextet := b0 / 4, (b0 % 4) * 16 + b1 / 16, (b1 % 16) * 4;
    TwoByteArith(b0, b1);
    ValueSymbol(v0);
    ValueSymbol(v1);
    ValueSymbol(v2);
    var q := Encode([b0, b1]);
    assert q == [Symbol(v0), Symbol(v1), Symbol(v2), '='];
    assert q[2] != '=';
    assert DecodePadded(q) == Some([v0 * 4 + v1 / 16, (v1 % 16) * 16 + v2 / 4]);
  }

  /** The padded final quantum decodes back to its one or two bytes. */
  lemma PaddedDecodes(b: seq<byte>)
    requires 1 <= |b| <= 2
    ensures var q := Encode(b); |q| == 4 && q[3] == '=' && DecodePadded(q) == Some(b)
  {
    if |b| == 1 {
      assert b == [b[0]];
      PaddedDecodesOne(b[0]);
    } else {
      assert b == [b[0], b[1]];
      PaddedDecodesTwo(b[0], b[1]);
    }
  }

  /** An accepted padded quantum is the encoding of the bytes it gives. */
  lemma PaddedEncodes(q: string)
    requires |q| == 4 && q[3] == '=' && DecodePadded(q).Some?
    ensures Encode(DecodePadded(q).value) == q
  {
    SymbolValue(q[0]);
    SymbolValue(q[1]);
    if q[2] != '=' {
      SymbolValue(q[2]);
      QuantumArith(Value(q[0]).value, Value(q[1]).value, Value(q[2]).value, 0);
    } else {
      QuantumArith(Value(q[0]).value, Value(q[1]).value, 0, 0);
    }
  }

  /** One step of `Decode` over a full quantum that is not the padded last one. */
  lemma DecodeQuantumThen(q: string, t: string)
    requires |q| == 4 && q[3] != '=' && DecodeQuantum(q).Some? && Decode(t).Some?
    ensures Decode(q + t) == Some(DecodeQuantum(q).value + Decode(t).value)
  {
    var s := q + t;
    assert s[..4] == q && s[4..] == t;
  }

  /** Decoding an encoding gives back the bytes. */
  lemma {:induction false} DecodeEncode(b: seq<byte>)
    ensures Decode(Encode(b)) == Some(b)
  {
    if 1 <= |b| <= 2 {
      PaddedDecodes(b);
    } else if |b| >= 3 {
      var q := EncodeGroup(b[0], b[1], b[2]);
      assert Encode(b) == q + Encode(b[3..]);
      QuantumDecodesGroup(b[0], b[1], b[2]);
      DecodeEncode(b[3..]);
      assert q[3] == Symbol(b[2] % 64) != '=';
      DecodeQuantumThen(q, Encode(b[3..]));
      assert b == [b[0], b[1], b[2]] + b[3..];
    }
  }

  /** Whatever the strict decoder accepts is the canonical encoding of what it returns. */
  lemma {:induction false} EncodeDecode(s: string)
    requires Decode(s).Some?
    ensures Encode(Decode(s).value) == s
  {
    if |s| == 4 && s[3] == '=' {
      PaddedEncodes(s);
    } else if |s| > 0 {
      var head := DecodeQuantum(s[..4]).value;
      var rest := Decode(s[4..]).value;
      var b := head + rest;
      GroupEncodesQuantum(s[..4]);
      EncodeDecode(s[4..]);
      assert b[..3] == head && b[3..] == rest;
      assert Encode(b) == EncodeGroup(b[0], b[1], b[2]) + Encode(b[3..]);
      assert s == s[..4] + s[4..];
    }
  }
}
