/** The two text encodings a file is tried with, as Python's strict
    decoders see them: UTF-8 as defined in sections 3 and 4 of RFC 3629, and the
    Windows-1252 code page. A failure is a `DecodeError` carrying what
    Python's `UnicodeDecodeError` carries: codec name, the failing byte
    range and a reason. */
module TextCodecs {
  import opened Common

  datatype DecodeError = DecodeError(codec: string, start: nat, end: nat, reason: string, badByte: byte)

  /** The error moved `k` bytes further into the input. */
  function Shift(e: DecodeError, k: nat): DecodeError
  {
    e.(start := e.start + k, end := e.end + k)
  }

  /** `str(e)` for a `UnicodeDecodeError`. */
  function DecodeErrorText(e: DecodeError): (r: string)
    ensures StartsWith(r, "'" + e.codec + "' codec can't decode ")
  {
    var where :=
      if e.end == e.start + 1 then "byte 0x" + Hex2(e.badByte) + " in position " + NatToDecimal(e.start)
      else "bytes in position " + NatToDecimal(e.start) + "-" + NatToDecimal(if e.end > 0 then e.end - 1 else 0);
    assert ("'" + e.codec + "' codec can't decode " + where + ": " + e.reason)[..|"'" + e.codec + "' codec can't decode "|]
        == "'" + e.codec + "' codec can't decode ";
    "'" + e.codec + "' codec can't decode " + where + ": " + e.reason
  }

  // ---------------------------------------------------------------------
  // UTF-8
  // ---------------------------------------------------------------------

  const Utf8Name: string := "utf-8"

  /** How many bytes a sequence starting with `b0` has; 0 for a byte that
      cannot start one (a continuation byte, C0, C1, F5 to FF). */
  function SeqLen(b0: byte): (n: nat)
    ensures n <= 4
  {
    if b0 < 0x80 then 1
    else if 0xC2 <= b0 <= 0xDF then 2
    else if 0xE0 <= b0 <= 0xEF then 3
    else if 0xF0 <= b0 <= 0xF4 then 4
    else 0
  }

  /** Byte `k` (k >= 1) of a sequence led by `b0` is acceptable: the second
      byte's range is narrowed after E0, ED, F0 and F4 so that overlong
      forms, surrogates and values above 10FFFF are refused. */
  predicate ByteOk(b0: byte, k: nat, b: byte)
  {
    if k == 1 then
      (if b0 == 0xE0 then 0xA0 else if b0 == 0xF0 then 0x90 else 0x80) <= b
      && b <= (if b0 == 0xED then 0x9F else if b0 == 0xF4 then 0x8F else 0xBF)
    else 0x80 <= b <= 0xBF
  }

  /** The error for bytes `k` to `n - 1` of a sequence at the start of `bs`:
      the first missing byte ends the data, the first bad one is an invalid
      continuation byte. */
  function TailError(bs: seq<byte>, n: nat, k: nat): (r: Option<DecodeError>)
    requires bs != [] && 1 <= k <= n && k <= |bs|
    ensures r.None? <==> n <= |bs| && forall j :: k <= j < n ==> ByteOk(bs[0], j, bs[j])
    ensures r.Some? ==> r.value.start == 0 && 0 < r.value.end <= |bs| && r.value.codec == Utf8Name
    decreases n - k
  {
    if k == n then None
    else if k >= |bs| then Some(DecodeError(Utf8Name, 0, |bs|, "unexpected end of data", bs[0]))
    else if !ByteOk(bs[0], k, bs[k]) then Some(DecodeError(Utf8Name, 0, k, "invalid continuation byte", bs[0]))
    else TailError(bs, n, k + 1)
  }

  /** The scalar value encoded by a complete, valid sequence of `n` bytes. */
  function ScalarOf(bs: seq<byte>, n: nat): (c: char)
    requires 1 <= n <= |bs| && n == SeqLen(bs[0])
    requires forall j :: 1 <= j < n ==> ByteOk(bs[0], j, bs[j])
  {
    if n == 1 then bs[0] as char
    else if n == 2 then ((bs[0] as int - 0xC0) * 64 + (bs[1] as int - 0x80)) as char
    else if n == 3 then
      assert ByteOk(bs[0], 1, bs[1]) && ByteOk(bs[0], 2, bs[2]);
      ((bs[0] as int - 0xE0) * 4096 + (bs[1] as int - 0x80) * 64 + (bs[2] as int - 0x80)) as char
    else
      assert ByteOk(bs[0], 1, bs[1]) && ByteOk(bs[0], 2, bs[2]) && ByteOk(bs[0], 3, bs[3]);
      ((bs[0] as int - 0xF0) * 262144 + (bs[1] as int - 0x80) * 4096 + (bs[2] as int - 0x80) * 64 + (bs[3] as int - 0x80)) as char
  }

  /** The first character of non-empty input and its length in bytes. */
  function DecodeChar(bs: seq<byte>): (r: Result<(char, nat), DecodeError>)
    requires bs != []
    ensures r.Ok? ==> 1 <= r.value.1 <= |bs|
    ensures r.Err? ==> r.error.start == 0 && 0 < r.error.end <= |bs| && r.error.codec == Utf8Name
  {
    var n := SeqLen(bs[0]);
    if n == 0 then Err(DecodeError(Utf8Name, 0, 1, "invalid start byte", bs[0]))
    else
      match TailError(bs, n, 1)
      case Some(e) => Err(e)
      case None => Ok((ScalarOf(bs, n), n))
  }

  /** `bytes.decode("utf-8", errors="strict")`. */
  function DecodeUtf8(bs: seq<byte>): (r: Result<string, DecodeError>)
    ensures r.Err? ==> r.error.start < r.error.end <= |bs| && r.error.codec == Utf8Name
    decreases |bs|
  {
    if bs == [] then Ok([])
    else
      match DecodeChar(bs)
      case Err(e) => Err(e)
      case Ok((c, n)) =>
        match DecodeUtf8(bs[n..])
        case Err(e) => Err(Shift(e, n))
        case Ok(s) => Ok([c] + s)
  }

  /** The UTF-8 form of one character. */
  function EncodeChar(c: char): (r: seq<byte>)
    ensures 1 <= |r| <= 4 && |r| == SeqLen(r[0])
  {
    var v := c as int;
    if v < 0x80 then [v]
    else if v < 0x800 then [0xC0 + v / 64, 0x80 + v % 64]
    else if v < 0x10000 then [0xE0 + v / 4096, 0x80 + (v / 64) % 64, 0x80 + v % 64]
    else [0xF0 + v / 262144, 0x80 + (v / 4096) % 64, 0x80 + (v / 64) % 64, 0x80 + v % 64]
  }

  function EncodeUtf8(s: string): seq<byte>
    decreases |s|
  {
    if s == [] then [] else EncodeChar(s[0]) + EncodeUtf8(s[1..])
  }

  /** Encoding one character gives a valid sequence that decodes back to it,
      whatever follows. */
  lemma DecodeEncodeChar(c: char, rest: seq<byte>)
    ensures DecodeChar(EncodeChar(c) + rest) == Ok((c, |EncodeChar(c)|))
  {
    var v := c as int;
    if v < 0x80 {
      assert (EncodeChar(c) + rest)[0] == v as byte;
    } else if v < 0x800 {
      DecodeEncodeTwo(c, rest);
    } else if v < 0x10000 {
      DecodeEncodeThree(c, rest);
    } else {
      DecodeEncodeFour(c, rest);
    }
  }

  lemma DecodeEncodeTwo(c: char, rest: seq<byte>)
    requires 0x80 <= c as int < 0x800
    ensures DecodeChar(EncodeChar(c) + rest) == Ok((c, 2))
  {
    var e := EncodeChar(c);
    var bs := e + rest;
    assert bs[0] == e[0] && bs[1] == e[1];
    assert ByteOk(bs[0], 1, bs[1]);
    assert TailError(bs, 2, 2).None?;
    assert TailError(bs, 2, 1).None?;
  }

  lemma DecodeEncodeThree(c: char, rest: seq<byte>)
    requires 0x800 <= c as int < 0x10000
    ensures DecodeChar(EncodeChar(c) + rest) == Ok((c, 3))
  {
    var v := c as int;
    var e := EncodeChar(c);
    var bs := e + rest;
    assert bs[0] == e[0] && bs[1] == e[1] && bs[2] == e[2];
    var q := v / 64;
    assert v == q * 64 + v % 64;
    assert q == (v / 4096) * 64 + q % 64;
    assert ByteOk(bs[0], 1, bs[1]);
    assert ByteOk(bs[0], 2, bs[2]);
    assert TailError(bs, 3, 3).None?;
    assert TailError(bs, 3, 2).None?;
    assert TailError(bs, 3, 1).None?;
  }

  lemma DecodeEncodeFour(c: char, rest: seq<byte>)
    requires 0x10000 <= c as int
    ensures DecodeChar(EncodeChar(c) + rest) == Ok((c, 4))
  {
    var v := c as int;
    var e := EncodeChar(c);
    var bs := e + rest;
    assert bs[0] == e[0] && bs[1] == e[1] && bs[2] == e[2] && bs[3] == e[3];
    var q := v / 64;
    var q2 := v / 4096;
    assert v == q * 64 + v % 64;
    assert q == q2 * 64 + q % 64;
    assert q2 == (v / 262144) * 64 + q2 % 64;
    assert ByteOk(bs[0], 1, bs[1]);
    assert ByteOk(bs[0], 2, bs[2]);
    assert ByteOk(bs[0], 3, bs[3]);
    assert TailError(bs, 4, 4).None?;
    assert TailError(bs, 4, 3).None?;
    assert TailError(bs, 4, 2).None?;
    assert TailError(bs, 4, 1).None?;
  }

  lemma TwoByteForm(b0: int, b1: int)
    requires 0xC2 <= b0 <= 0xDF && 0x80 <= b1 <= 0xBF
    ensures var v := (b0 - 0xC0) * 64 + (b1 - 0x80);
      0x80 <= v < 0x800 && 0xC0 + v / 64 == b0 && 0x80 + v % 64 == b1
  {
  }

  lemma ThreeByteForm(b0: int, b1: int, b2: int)
    requires 0xE0 <= b0 <= 0xEF && 0x80 <= b1 <= 0xBF && 0x80 <= b2 <= 0xBF
    requires b0 == 0xE0 ==> b1 >= 0xA0
    ensures var v := (b0 - 0xE0) * 4096 + (b1 - 0x80) * 64 + (b2 - 0x80);
      0x800 <= v < 0x10000 && 0xE0 + v / 4096 == b0 && 0x80 + (v / 64) % 64 == b1 && 0x80 + v % 64 == b2
  {
    var v := (b0 - 0xE0) * 4096 + (b1 - 0x80) * 64 + (b2 - 0x80);
    var q := (b0 - 0xE0) * 64 + (b1 - 0x80);
    assert v == q * 64 + (b2 - 0x80);
    assert v / 64 == q;
  }

  lemma FourByteForm(b0: int, b1: int, b2: int, b3: int)
    requires 0xF0 <= b0 <= 0xF4 && 0x80 <= b1 <= 0xBF && 0x80 <= b2 <= 0xBF && 0x80 <= b3 <= 0xBF
    requires b0 == 0xF0 ==> b1 >= 0x90
    ensures var v := (b0 - 0xF0) * 262144 + (b1 - 0x80) * 4096 + (b2 - 0x80) * 64 + (b3 - 0x80);
      0x10000 <= v && 0xF0 + v / 262144 == b0 && 0x80 + (v / 4096) % 64 == b1
      && 0x80 + (v / 64) % 64 == b2 && 0x80 + v % 64 == b3
  {
    var v := (b0 - 0xF0) * 262144 + (b1 - 0x80) * 4096 + (b2 - 0x80) * 64 + (b3 - 0x80);
    var q := (b0 - 0xF0) * 4096 + (b1 - 0x80) * 64 + (b2 - 0x80);
    var q2 := (b0 - 0xF0) * 64 + (b1 - 0x80);
    assert v == q * 64 + (b3 - 0x80);
    assert v / 64 == q;
    assert v == q2 * 4096 + ((b2 - 0x80) * 64 + (b3 - 0x80));
    assert v / 4096 == q2;
  }

  /** A character decoded from valid input re-encodes to the same bytes. */
  lemma EncodeDecodedChar(bs: seq<byte>)
    requires bs != [] && DecodeChar(bs).Ok?
    ensures EncodeChar(DecodeChar(bs).value.0) == bs[..DecodeChar(bs).value.1]
  {
    var n := SeqLen(bs[0]);
    assert TailError(bs, n, 1).None?;
    if n == 2 {
      EncodeDecodedTwo(bs);
    } else if n == 3 {
      EncodeDecodedThree(bs);
    } else if n == 4 {
      EncodeDecodedFour(bs);
    } else {
      assert bs[..1] == [bs[0]];
    }
  }

  lemma EncodeDecodedTwo(bs: seq<byte>)
    requires 2 <= |bs| && SeqLen(bs[0]) == 2 && ByteOk(bs[0], 1, bs[1])
    ensures EncodeChar(ScalarOf(bs, 2)) == bs[..2]
  {
    TwoByteForm(bs[0] as int, bs[1] as int);
  }

  lemma EncodeDecodedThree(bs: seq<byte>)
    requires 3 <= |bs| && SeqLen(bs[0]) == 3 && ByteOk(bs[0], 1, bs[1]) && ByteOk(bs[0], 2, bs[2])
    ensures EncodeChar(ScalarOf(bs, 3)) == bs[..3]
  {
    ThreeByteForm(bs[0] as int, bs[1] as int, bs[2] as int);
  }

  lemma EncodeDecodedFour(bs: seq<byte>)
    requires 4 <= |bs| && SeqLen(bs[0]) == 4
    requires ByteOk(bs[0], 1, bs[1]) && ByteOk(bs[0], 2, bs[2]) && ByteOk(bs[0], 3, bs[3])
    ensures EncodeChar(ScalarOf(bs, 4)) == bs[..4]
  {
    FourByteForm(bs[0] as int, bs[1] as int, bs[2] as int, bs[3] as int);
  }

  /** Every string survives a UTF-8 round trip. */
  lemma {:induction false} DecodeEncodeUtf8(s: string)
    ensures DecodeUtf8(EncodeUtf8(s)) == Ok(s)
    decreases |s|
  {
    if s != [] {
      var e := EncodeChar(s[0]);
      var bs := EncodeUtf8(s);
      DecodeEncodeChar(s[0], EncodeUtf8(s[1..]));
      assert bs[|e|..] == EncodeUtf8(s[1..]);
      DecodeEncodeUtf8(s[1..]);
      assert s == [s[0]] + s[1..];
    }
  }

  /** Bytes that decode re-encode to themselves: the decoder accepts only
      the encoder's output. */
  lemma {:induction false} EncodeDecodedUtf8(bs: seq<byte>)
    requires DecodeUtf8(bs).Ok?
    ensures EncodeUtf8(DecodeUtf8(bs).value) == bs
    decreases |bs|
  {
    if bs != [] {
      var c, n := DecodeChar(bs).value.0, DecodeChar(bs).value.1;
      var tail := DecodeUtf8(bs[n..]).value;
      var s := [c] + tail;
      assert DecodeUtf8(bs).value == s;
      assert s[0] == c && s[1..] == tail;
      assert EncodeUtf8(s) == EncodeChar(c) + EncodeUtf8(tail);
      EncodeDecodedChar(bs);
      EncodeDecodedUtf8(bs[n..]);
      assert bs == bs[..n] + bs[n..];
    }
  }

  /** Pure ASCII decodes character for character. */
  lemma {:induction false} AsciiDecodes(bs: seq<byte>)
    requires forall i :: 0 <= i < |bs| ==> bs[i] < 0x80
    ensures DecodeUtf8(bs).Ok?
    ensures |DecodeUtf8(bs).value| == |bs|
    ensures forall i :: 0 <= i < |bs| ==> DecodeUtf8(bs).value[i] as int == bs[i]
    decreases |bs|
  {
    if bs != [] {
      AsciiDecodes(bs[1..]);
    }
  }

  /** A lone continuation byte, or C0, C1 and F5 to FF, is refused as a start. */
  lemma InvalidStartByte(bs: seq<byte>)
    requires bs != [] && ((0x80 <= bs[0] <= 0xC1) || bs[0] >= 0xF5)
    ensures DecodeUtf8(bs).Err?
    ensures DecodeUtf8(bs).error == DecodeError(Utf8Name, 0, 1, "invalid start byte", bs[0])
  {
  }

  // ---------------------------------------------------------------------
  // Windows-1252
  // ---------------------------------------------------------------------

  /** Python reports cp1252 failures from its character-map codec. */
  const CharmapName: string := "charmap"

  /** The five byte values cp1252 leaves undefined. */
  predicate Cp1252Undefined(b: byte)
  {
    b == 0x81 || b == 0x8D || b == 0x8F || b == 0x90 || b == 0x9D
  }

  /** The characters of bytes 80 to 9F; the entries at the undefined
      bytes are never used. */
  const Cp1252High: seq<char> := [
    '\U{20AC}', '\U{FFFD}', '\U{201A}', '\U{0192}', '\U{201E}', '\U{2026}', '\U{2020}', '\U{2021}',
    '\U{02C6}', '\U{2030}', '\U{0160}', '\U{2039}', '\U{0152}', '\U{FFFD}', '\U{017D}', '\U{FFFD}',
    '\U{FFFD}', '\U{2018}', '\U{2019}', '\U{201C}', '\U{201D}', '\U{2022}', '\U{2013}', '\U{2014}',
    '\U{02DC}', '\U{2122}', '\U{0161}', '\U{203A}', '\U{0153}', '\U{FFFD}', '\U{017E}', '\U{0178}'
  ]

  /** The character a cp1252 byte stands for. Bytes outside 80 to 9F stand
      for the same code point. */
  function Cp1252Char(b: byte): (r: Option<char>)
    ensures r.None? <==> Cp1252Undefined(b)
    ensures (b < 0x80 || b >= 0xA0) ==> r == Some(b as char)
  {
    if b < 0x80 || b >= 0xA0 then Some(b as char)
    else if Cp1252Undefined(b) then None
    else Some(Cp1252High[b - 0x80])
  }

  const UndefinedReason: string := "character maps to <undefined>"

  /** `bytes.decode("cp1252", errors="strict")`: one character per byte;
      fails at the first undefined byte (`DecodeCp1252Ok`,
      `DecodeCp1252Err`). */
  function DecodeCp1252(bs: seq<byte>): (r: Result<string, DecodeError>)
    ensures r.Err? ==> r.error.start < |bs| && r.error.codec == CharmapName
    decreases |bs|
  {
    if bs == [] then Ok([])
    else if Cp1252Undefined(bs[0]) then Err(DecodeError(CharmapName, 0, 1, UndefinedReason, bs[0]))
    else
      match DecodeCp1252(bs[1..])
      case Err(e) => Err(Shift(e, 1))
      case Ok(t) => Ok([Cp1252Char(bs[0]).value] + t)
  }

  /** Decoding succeeds iff no byte is undefined, and then gives the
      table's character for every byte. */
  lemma {:induction false} DecodeCp1252Ok(bs: seq<byte>)
    ensures DecodeCp1252(bs).Ok? <==> forall i :: 0 <= i < |bs| ==> !Cp1252Undefined(bs[i])
    ensures DecodeCp1252(bs).Ok? ==>
      |DecodeCp1252(bs).value| == |bs|
      && forall i :: 0 <= i < |bs| ==> Some(DecodeCp1252(bs).value[i]) == Cp1252Char(bs[i])
    decreases |bs|
  {
    if bs != [] && !Cp1252Undefined(bs[0]) {
      var tail := bs[1..];
      DecodeCp1252Ok(tail);
      assert forall i :: 1 <= i < |bs| ==> bs[i] == tail[i - 1];
      if DecodeCp1252(tail).Ok? {
        var t := [Cp1252Char(bs[0]).value] + DecodeCp1252(tail).value;
        assert DecodeCp1252(bs).value == t;
        assert forall i :: 1 <= i < |bs| ==> t[i] == DecodeCp1252(tail).value[i - 1];
      } else {
        var k :| 0 <= k < |tail| && Cp1252Undefined(tail[k]);
        assert Cp1252Undefined(bs[k + 1]);
      }
    }
  }

  /** A failure reports the first undefined byte, as Python's `charmap`
      codec does. */
  lemma {:induction false} DecodeCp1252Err(bs: seq<byte>)
    requires DecodeCp1252(bs).Err?
    ensures var p := DecodeCp1252(bs).error.start;
      p < |bs| && Cp1252Undefined(bs[p]) && (forall i :: 0 <= i < p ==> !Cp1252Undefined(bs[i]))
      && DecodeCp1252(bs).error == DecodeError(CharmapName, p, p + 1, UndefinedReason, bs[p])
    decreases |bs|
  {
    if !Cp1252Undefined(bs[0]) {
      var tail := bs[1..];
      DecodeCp1252Err(tail);
      var p := DecodeCp1252(tail).error.start;
      assert DecodeCp1252(bs).error == Shift(DecodeCp1252(tail).error, 1);
      assert forall i :: 1 <= i <= p + 1 ==> bs[i] == tail[i - 1];
    }
  }
}
