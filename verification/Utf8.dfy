/** UTF-8 as section 3 of RFC 3629 defines it. */
module Utf8 {
  import opened Options
  import opened Bytes
  import opened Sequences

  function CodePoint(c: char): (cp: nat)
    ensures cp < 0xD800 || 0xE000 <= cp < 0x11_0000
  {
    c as int
  }

  function EncodeChar(c: char): (r: seq<Byte>)
    ensures 1 <= |r| <= 4
    ensures !IsContinuation(r[0]) && forall i | 0 < i < |r| :: IsContinuation(r[i])
  {
    var cp := CodePoint(c);
    if cp < 0x80 then [cp]
    else if cp < 0x800 then [0xC0 + cp / 0x40, 0x80 + cp % 0x40]
    else if cp < 0x1_0000 then [0xE0 + cp / 0x40 / 0x40, 0x80 + cp / 0x40 % 0x40, 0x80 + cp % 0x40]
    else [0xF0 + cp / 0x40 / 0x40 / 0x40, 0x80 + cp / 0x40 / 0x40 % 0x40, 0x80 + cp / 0x40 % 0x40, 0x80 + cp % 0x40]
  }

  /** A byte whose two highest bits are 10. */
  predicate IsContinuation(b: Byte) {
    b / 0x40 == 2
  }

  function Encode(text: string): seq<Byte> {
    if text == [] then [] else EncodeChar(text[0]) + Encode(text[1..])
  }

  function Size(text: string): nat {
    |Encode(text)|
  }

  predicate IsScalar(cp: int) {
    0 <= cp < 0xD800 || 0xE000 <= cp < 0x11_0000
  }

  // The code points that sequences of two, three and four bytes stand for.

  function TwoBytes(a: int, b: int): int {
    (a - 0xC0) * 0x40 + (b - 0x80)
  }

  function ThreeBytes(a: int, b: int, c: int): int {
    ((a - 0xE0) * 0x40 + (b - 0x80)) * 0x40 + (c - 0x80)
  }

  function FourBytes(a: int, b: int, c: int, d: int): int {
    (((a - 0xF0) * 0x40 + (b - 0x80)) * 0x40 + (c - 0x80)) * 0x40 + (d - 0x80)
  }

  /** The character at the front of some bytes and how many of them it takes. */
  function DecodeFirst(data: seq<Byte>): (r: Option<(char, nat)>)
    requires data != []
    ensures r.Some? ==> 1 <= r.value.1 <= |data|
  {
    var continuations := Continuations(data);
    if data[0] < 0x80 then Some((data[0] as char, 1))
    else if 0xC2 <= data[0] < 0xE0 && continuations >= 1 then
      Some((TwoBytes(data[0], data[1]) as char, 2))
    else if 0xE0 <= data[0] < 0xF0 && continuations >= 2 then
      var cp := ThreeBytes(data[0], data[1], data[2]);
      if cp >= 0x800 && IsScalar(cp) then Some((cp as char, 3)) else None
    else if 0xF0 <= data[0] < 0xF5 && continuations >= 3 then
      var cp := FourBytes(data[0], data[1], data[2], data[3]);
      if cp >= 0x1_0000 && IsScalar(cp) then Some((cp as char, 4)) else None
    else None
  }

  /** How many of the three bytes after the first are continuation bytes, in a row. */
  function Continuations(data: seq<Byte>): (n: nat)
    requires data != []
    ensures n <= 3 && n < |data| && forall i | 1 <= i <= n :: IsContinuation(data[i])
  {
    if |data| < 2 || !IsContinuation(data[1]) then 0
    else if |data| < 3 || !IsContinuation(data[2]) then 1
    else if |data| < 4 || !IsContinuation(data[3]) then 2
    else 3
  }

  /** The text that some bytes encode, if they are valid. */
  function Decode(data: seq<Byte>): Option<string> {
    if data == [] then Some("")
    else match DecodeFirst(data)
      case None => None
      case Some((c, n)) =>
        match Decode(data[n..]) case None => None case Some(rest) => Some([c] + rest)
  }

  /** Splitting off the lowest six bits and putting them back. */
  lemma SixBits(high: int, low: int)
    requires 0 <= low < 0x40
    ensures (high * 0x40 + low) / 0x40 == high && (high * 0x40 + low) % 0x40 == low
  {
  }

  lemma CodePointOfEncoded(c: char)
    ensures
      var e, cp := EncodeChar(c), CodePoint(c);
      && (|e| == 1 ==> e[0] == cp < 0x80)
      && (|e| == 2 ==> TwoBytes(e[0], e[1]) == cp && 0xC2 <= e[0] < 0xE0)
      && (|e| == 3 ==> ThreeBytes(e[0], e[1], e[2]) == cp && 0xE0 <= e[0] < 0xF0 && 0x800 <= cp < 0x1_0000)
      && (|e| == 4 ==> FourBytes(e[0], e[1], e[2], e[3]) == cp && 0xF0 <= e[0] < 0xF5 && 0x1_0000 <= cp)
  {
  }

  lemma DecodeFirstOfEncoded(c: char, rest: seq<Byte>)
    ensures DecodeFirst(EncodeChar(c) + rest) == Some((c, |EncodeChar(c)|))
  {
    var e := EncodeChar(c);
    var data := e + rest;
    assert forall i | 0 <= i < |e| :: data[i] == e[i];
    assert Continuations(data) >= |e| - 1;
    CodePointOfEncoded(c);
    assert CodePoint(c) as char == c;
  }

  /** Decoding what was encoded gives the text back. */
  lemma {:induction false} RoundTrip(text: string)
    ensures Decode(Encode(text)) == Some(text)
  {
    if text != [] {
      var e, rest := EncodeChar(text[0]), Encode(text[1..]);
      RoundTrip(text[1..]);
      DecodeFirstOfEncoded(text[0], rest);
      assert (e + rest)[|e|..] == rest;
      assert text == [text[0]] + text[1..];
    }
  }

  lemma EncodeTwo(c: char, a: Byte, b: Byte)
    requires CodePoint(c) == TwoBytes(a, b) && 0xC2 <= a < 0xE0 && IsContinuation(b)
    ensures EncodeChar(c) == [a, b]
  {
    SixBits(a - 0xC0, b - 0x80);
  }

  lemma EncodeThree(ch: char, a: Byte, b: Byte, c: Byte)
    requires CodePoint(ch) == ThreeBytes(a, b, c) && 0x800 <= CodePoint(ch) < 0x1_0000
    requires 0xE0 <= a < 0xF0 && IsContinuation(b) && IsContinuation(c)
    ensures EncodeChar(ch) == [a, b, c]
  {
    var high: int := (a as int - 0xE0) * 0x40 + (b as int - 0x80);
    SixBits(a - 0xE0, b - 0x80);
    SixBits(high, c - 0x80);
  }

  lemma EncodeFour(ch: char, a: Byte, b: Byte, c: Byte, d: Byte)
    requires CodePoint(ch) == FourBytes(a, b, c, d) && 0x1_0000 <= CodePoint(ch)
    requires 0xF0 <= a < 0xF5 && IsContinuation(b) && IsContinuation(c) && IsContinuation(d)
    ensures EncodeChar(ch) == [a, b, c, d]
  {
    var top: int := (a as int - 0xF0) * 0x40 + (b as int - 0x80);
    var high: int := top * 0x40 + (c as int - 0x80);
    SixBits(a - 0xF0, b - 0x80);
    SixBits(top, c - 0x80);
    SixBits(high, d - 0x80);
  }

  lemma EncodeFirstOfDecoded(data: seq<Byte>)
    requires data != [] && DecodeFirst(data).Some?
    ensures EncodeChar(DecodeFirst(data).value.0) == data[..DecodeFirst(data).value.1]
  {
    var (c, n) := DecodeFirst(data).value;
    if n == 2 {
      EncodeTwo(c, data[0], data[1]);
    } else if n == 3 {
      EncodeThree(c, data[0], data[1], data[2]);
    } else if n == 4 {
      EncodeFour(c, data[0], data[1], data[2], data[3]);
    }
  }

  /** Encoding what was decoded gives the bytes back. */
  lemma {:induction false} DecodedEncodes(data: seq<Byte>)
    requires Decode(data).Some?
    ensures Encode(Decode(data).value) == data
  {
    if data != [] {
      var c, n, rest := FirstDecoded(data);
      DecodedEncodes(data[n..]);
      EncodeStep(c, rest);
      assert data == data[..n] + data[n..];
    }
  }

  lemma FirstDecoded(data: seq<Byte>) returns (c: char, n: nat, rest: string)
    requires data != [] && Decode(data).Some?
    ensures 0 < n <= |data| && EncodeChar(c) == data[..n]
    ensures Decode(data[n..]) == Some(rest) && Decode(data).value == [c] + rest
  {
    c, n := DecodeFirst(data).value.0, DecodeFirst(data).value.1;
    DecodeStep(data, c, n);
    EncodeFirstOfDecoded(data);
    rest := Decode(data[n..]).value;
  }

  lemma EncodeStep(c: char, rest: string)
    ensures Encode([c] + rest) == EncodeChar(c) + Encode(rest)
  {
    assert ([c] + rest)[1..] == rest;
  }

  lemma DecodeStep(data: seq<Byte>, c: char, n: nat)
    requires data != [] && Decode(data).Some? && DecodeFirst(data) == Some((c, n))
    ensures n <= |data| && Decode(data[n..]).Some? && Decode(data).value == [c] + Decode(data[n..]).value
  {
  }

  lemma {:induction false} EncodeAppend(a: string, b: string)
    ensures Encode(a + b) == Encode(a) + Encode(b)
  {
    if a == [] {
      assert a + b == b;
    } else {
      EncodeAppend(a[1..], b);
      assert (a + b)[1..] == a[1..] + b && (a + b)[0] == a[0];
      Associative(EncodeChar(a[0]), Encode(a[1..]), Encode(b));
    }
  }

  /** Longer prefixes take more bytes. */
  lemma SizeSplits(text: string, k: nat)
    requires k <= |text|
    ensures Encode(text) == Encode(text[..k]) + Encode(text[k..])
    ensures Size(text) == Size(text[..k]) + Size(text[k..])
  {
    var head, rest := text[..k], text[k..];
    assert text == head + rest;
    EncodeAppend(head, rest);
  }

  lemma SizeOfNext(text: string, k: nat)
    requires k < |text|
    ensures Encode(text[..k + 1]) == Encode(text[..k]) + EncodeChar(text[k])
    ensures Encode(text[k..]) == EncodeChar(text[k]) + Encode(text[k + 1..])
  {
    EncodeAppend(text[..k], [text[k]]);
    assert text[..k + 1] == text[..k] + [text[k]];
    assert Encode([text[k]]) == EncodeChar(text[k]) + Encode([]);
    assert text[k..][1..] == text[k + 1..];
  }

  /** A byte that is no continuation byte starts a character: the bytes before it encode a prefix of the text. */
  lemma {:induction false} BoundaryBefore(text: string, p: nat) returns (k: nat)
    requires p < Size(text) && !IsContinuation(Encode(text)[p])
    ensures k < |text| && Size(text[..k]) == p
  {
    if p == 0 {
      k := 0;
    } else {
      var first := EncodeChar(text[0]);
      assert p >= |first|;
      assert Encode(text)[p] == Encode(text[1..])[p - |first|];
      var j := BoundaryBefore(text[1..], p - |first|);
      k := j + 1;
      assert text[..k][1..] == text[1..][..j] && text[..k][0] == text[0];
    }
  }

  /** The start of a character is no continuation byte. */
  lemma StartOfChar(text: string, k: nat)
    requires k < |text|
    ensures Size(text[..k]) < Size(text) && !IsContinuation(Encode(text)[Size(text[..k])])
  {
    SizeSplits(text, k);
    SizeOfNext(text, k);
    assert Encode(text)[Size(text[..k])] == Encode(text[k..])[0];
  }
}
