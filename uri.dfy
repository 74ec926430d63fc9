/** `encodeURIComponent` as the share link uses it: every character except
    the ones it leaves alone (ASCII letters, digits and `-_.!~*'()`) is
    written as its UTF-8 bytes, each as `%` and two upper-case hexadecimal
    digits (the percent-encoding of section 2.1 of RFC 3986). The decoder
    beside it is the inverse that a receiver applies. */
module Uri {
  import opened Common

  newtype byte = x: int | 0 <= x < 256

  /** The characters `encodeURIComponent` does not escape. */
  predicate Unreserved(c: char) {
    'A' <= c <= 'Z' || 'a' <= c <= 'z' || '0' <= c <= '9'
    || c == '-' || c == '_' || c == '.' || c == '!' || c == '~' || c == '*'
    || c == '\'' || c == '(' || c == ')'
  }

  // ---------------------------------------------------------------- UTF-8

  /** Whether `b` is a UTF-8 continuation byte `10xxxxxx`. */
  predicate Continuation(b: byte) {
    0x80 <= b < 0xC0
  }

  /** The UTF-8 encoding of one Unicode scalar value, six bits per
      continuation byte. */
  function Utf8(c: char): (bs: seq<byte>)
    ensures 1 <= |bs| <= 4
    ensures forall i :: 1 <= i < |bs| ==> Continuation(bs[i])
  {
    var v := c as int;
    var q1, r0 := v / 64, v % 64;
    var q2, r1 := q1 / 64, q1 % 64;
    var q3, r2 := q2 / 64, q2 % 64;
    if v < 0x80 then [v as byte]
    else if v < 0x800 then [(0xC0 + q1) as byte, (0x80 + r0) as byte]
    else if v < 0x10000 then [(0xE0 + q2) as byte, (0x80 + r1) as byte, (0x80 + r0) as byte]
    else [(0xF0 + q3) as byte, (0x80 + r2) as byte, (0x80 + r1) as byte, (0x80 + r0) as byte]
  }

  /** The UTF-8 encoding of a string. */
  function Utf8String(s: string): seq<byte> {
    if s == [] then [] else Utf8(s[0]) + Utf8String(s[1..])
  }

  /** The value carried by continuation bytes after a lead value. */
  function Accumulate(lead: int, cont: seq<byte>): int
    decreases |cont|
  {
    if cont == [] then lead else Accumulate(lead * 64 + (cont[0] as int - 0x80), cont[1..])
  }

  /** Decodes the first character of a UTF-8 byte sequence and says how many
      bytes it took; `None` for a malformed, overlong or surrogate sequence. */
  function Utf8Head(bs: seq<byte>): (r: Option<(char, nat)>)
    ensures r.Some? ==> 1 <= r.value.1 <= |bs|
  {
    if bs == [] then None
    else
      var b0 := bs[0];
      var n := if b0 < 0x80 then 1 else if 0xC2 <= b0 < 0xE0 then 2
               else if 0xE0 <= b0 < 0xF0 then 3 else if 0xF0 <= b0 < 0xF5 then 4 else 0;
      if n == 0 || |bs| < n || !(forall i :: 1 <= i < n ==> Continuation(bs[i])) then None
      else
        var lead := if n == 1 then b0 as int else if n == 2 then b0 as int - 0xC0
                    else if n == 3 then b0 as int - 0xE0 else b0 as int - 0xF0;
        var v := Accumulate(lead, bs[1..n]);
        var least := if n == 1 then 0 else if n == 2 then 0x80 else if n == 3 then 0x800 else 0x10000;
        if least <= v <= 0x10FFFF && !(0xD800 <= v < 0xE000) then Some((v as char, n)) else None
  }

  /** Decodes a whole UTF-8 byte sequence. */
  function DecodeUtf8(bs: seq<byte>): Option<string>
    decreases |bs|
  {
    if bs == [] then Some([])
    else match Utf8Head(bs)
      case None => None
      case Some((c, n)) =>
        match DecodeUtf8(bs[n..])
        case None => None
        case Some(rest) => Some([c] + rest)
  }

  /** The first character's bytes decode to that character, whatever follows. */
  lemma Utf8HeadOf(c: char, rest: seq<byte>)
    ensures Utf8Head(Utf8(c) + rest) == Some((c, |Utf8(c)|))
  {
    var bs := Utf8(c) + rest;
    var n := |Utf8(c)|;
    assert bs[..n] == Utf8(c);
    assert bs[1..n] == Utf8(c)[1..];
    var v := c as int;
    if v < 0x80 {
    } else if v < 0x800 {
      Utf8HeadTwo(c);
    } else if v < 0x10000 {
      Utf8HeadThree(c);
    } else {
      Utf8HeadFour(c);
    }
  }

  /** One continuation byte carrying `r` moves the value `q` to `q * 64 + r`. */
  lemma AccumulateStep(q: int, r: int, rest: seq<byte>)
    requires 0 <= r < 64
    ensures Accumulate(q, [(0x80 + r) as byte] + rest) == Accumulate(q * 64 + r, rest)
  {
    assert ([(0x80 + r) as byte] + rest)[1..] == rest;
  }

  /** The continuation byte of a two-byte character restores its value. */
  lemma Utf8HeadTwo(c: char)
    requires 0x80 <= c as int < 0x800
    ensures Accumulate(Utf8(c)[0] as int - 0xC0, Utf8(c)[1..]) == c as int
  {
    var v := c as int;
    var q1, r0 := v / 64, v % 64;
    assert Utf8(c)[1..] == [(0x80 + r0) as byte] + [];
    AccumulateStep(q1, r0, []);
  }

  /** The continuation bytes of a three-byte character restore its value. */
  lemma Utf8HeadThree(c: char)
    requires 0x800 <= c as int < 0x10000
    ensures Accumulate(Utf8(c)[0] as int - 0xE0, Utf8(c)[1..]) == c as int
  {
    var v := c as int;
    var q1, r0 := v / 64, v % 64;
    var q2, r1 := q1 / 64, q1 % 64;
    var last := [(0x80 + r0) as byte];
    assert Utf8(c)[1..] == [(0x80 + r1) as byte] + last;
    AccumulateStep(q2, r1, last);
    AccumulateStep(q1, r0, []);
    assert last + [] == last;
  }

  /** The continuation bytes of a four-byte character restore its value. */
  lemma Utf8HeadFour(c: char)
    requires 0x10000 <= c as int
    ensures Accumulate(Utf8(c)[0] as int - 0xF0, Utf8(c)[1..]) == c as int
  {
    var v := c as int;
    var q1, r0 := v / 64, v % 64;
    var q2, r1 := q1 / 64, q1 % 64;
    var q3, r2 := q2 / 64, q2 % 64;
    var last := [(0x80 + r0) as byte];
    var two := [(0x80 + r1) as byte] + last;
    assert Utf8(c)[0] as int - 0xF0 == q3;
    assert Utf8(c)[1..] == [(0x80 + r2) as byte] + two;
    AccumulateStep(q3, r2, two);
    assert q3 * 64 + r2 == q2;
    AccumulateStep(q2, r1, last);
    assert q2 * 64 + r1 == q1;
    AccumulateStep(q1, r0, []);
    assert last + [] == last;
  }

  /** UTF-8 decoding undoes UTF-8 encoding. */
  lemma {:induction false} Utf8RoundTrip(s: string)
    ensures DecodeUtf8(Utf8String(s)) == Some(s)
  {
    if s != [] {
      var bs := Utf8String(s);
      Utf8HeadOf(s[0], Utf8String(s[1..]));
      assert bs[|Utf8(s[0])|..] == Utf8String(s[1..]);
      Utf8RoundTrip(s[1..]);
      assert [s[0]] + s[1..] == s;
    }
  }

  // ---------------------------------------------------------------- percent-encoding

  /** An upper-case hexadecimal digit, as the escapes are written. */
  function HexDigit(n: nat): (c: char)
    requires n < 16
    ensures Unreserved(c) && HexValue(c) == Some(n)
  {
    if n < 10 then ('0' as int + n) as char else ('A' as int + n - 10) as char
  }

  /** The value of a hexadecimal digit of either case. */
  function HexValue(c: char): Option<nat> {
    if '0' <= c <= '9' then Some(c as int - '0' as int)
    else if 'A' <= c <= 'F' then Some(c as int - 'A' as int + 10)
    else if 'a' <= c <= 'f' then Some(c as int - 'a' as int + 10)
    else None
  }

  /** One byte as `%XX`. */
  function Escape(b: byte): (r: string)
    ensures forall i :: 0 <= i < |r| ==> Unreserved(r[i]) || r[i] == '%'
  {
    ['%', HexDigit(b as int / 16), HexDigit(b as int % 16)]
  }

  function EscapeAll(bs: seq<byte>): (r: string)
    ensures forall i :: 0 <= i < |r| ==> Unreserved(r[i]) || r[i] == '%'
  {
    if bs == [] then [] else Escape(bs[0]) + EscapeAll(bs[1..])
  }

  /** One character as `encodeURIComponent` writes it. */
  function EncodeChar(c: char): (r: string)
    ensures forall i :: 0 <= i < |r| ==> Unreserved(r[i]) || r[i] == '%'
  {
    if Unreserved(c) then [c] else EscapeAll(Utf8(c))
  }

  /** `encodeURIComponent(s)`. Its result is URL-safe: every character is
      unreserved or the `%` of an escape. */
  function EncodeURIComponent(s: string): (r: string)
    ensures forall i :: 0 <= i < |r| ==> Unreserved(r[i]) || r[i] == '%'
  {
    if s == [] then [] else EncodeChar(s[0]) + EncodeURIComponent(s[1..])
  }

  /** The bytes a percent-encoded text stands for: `%XX` is one byte, any
      other character its own UTF-8 bytes; `None` for a broken escape. */
  function PercentBytes(e: string): Option<seq<byte>>
    decreases |e|
  {
    if e == [] then Some([])
    else if e[0] == '%' then
      if |e| >= 3 && HexValue(e[1]).Some? && HexValue(e[2]).Some? then
        var b := (HexValue(e[1]).value * 16 + HexValue(e[2]).value) as byte;
        match PercentBytes(e[3..])
        case Some(rest) => Some([b] + rest)
        case None => None
      else None
    else
      match PercentBytes(e[1..])
      case Some(rest) => Some(Utf8(e[0]) + rest)
      case None => None
  }

  /** `decodeURIComponent(e)`; `None` where it throws `URIError`. */
  function DecodeURIComponent(e: string): Option<string> {
    match PercentBytes(e)
    case Some(bs) => DecodeUtf8(bs)
    case None => None
  }

  /** One escape reads back as its byte, ahead of whatever follows. */
  lemma PercentBytesEscape(b: byte, rest: string)
    ensures PercentBytes(Escape(b) + rest) ==
      match PercentBytes(rest) case Some(t) => Some([b] + t) case None => None
  {
    var e := Escape(b) + rest;
    assert e[0] == '%' && e[1] == HexDigit(b as int / 16) && e[2] == HexDigit(b as int % 16);
    assert e[3..] == rest;
  }

  /** Escaped bytes read back as those bytes, ahead of whatever follows. */
  lemma {:induction false} PercentBytesEscaped(bs: seq<byte>, rest: string)
    ensures PercentBytes(EscapeAll(bs) + rest) ==
      match PercentBytes(rest) case Some(t) => Some(bs + t) case None => None
  {
    if bs == [] {
      assert EscapeAll(bs) + rest == rest;
      if PercentBytes(rest).Some? {
        assert bs + PercentBytes(rest).value == PercentBytes(rest).value;
      }
    } else {
      var tail := EscapeAll(bs[1..]) + rest;
      EscapeAllCons(bs, rest);
      PercentBytesEscape(bs[0], tail);
      PercentBytesEscaped(bs[1..], rest);
      if PercentBytes(rest).Some? {
        ConsAppend(bs, PercentBytes(rest).value);
      }
    }
  }

  /** Escaping a non-empty byte sequence escapes its first byte first. */
  lemma EscapeAllCons(bs: seq<byte>, rest: string)
    requires bs != []
    ensures EscapeAll(bs) + rest == Escape(bs[0]) + (EscapeAll(bs[1..]) + rest)
  {
  }

  /** Re-attaching the first element before a concatenation. */
  lemma ConsAppend(bs: seq<byte>, t: seq<byte>)
    requires bs != []
    ensures [bs[0]] + (bs[1..] + t) == bs + t
  {
    assert bs == [bs[0]] + bs[1..];
  }

  /** One encoded character reads back as that character's UTF-8 bytes. */
  lemma PercentBytesChar(c: char, rest: string)
    ensures PercentBytes(EncodeChar(c) + rest) ==
      match PercentBytes(rest) case Some(t) => Some(Utf8(c) + t) case None => None
  {
    if Unreserved(c) {
      assert (EncodeChar(c) + rest)[1..] == rest;
    } else {
      PercentBytesEscaped(Utf8(c), rest);
    }
  }

  /** The bytes behind `encodeURIComponent(s)` are the UTF-8 bytes of `s`. */
  lemma {:induction false} PercentBytesEncoded(s: string)
    ensures PercentBytes(EncodeURIComponent(s)) == Some(Utf8String(s))
  {
    if s != [] {
      PercentBytesChar(s[0], EncodeURIComponent(s[1..]));
      PercentBytesEncoded(s[1..]);
    }
  }

  /** Decoding the encoded text recovers the text. */
  lemma EncodeDecode(s: string)
    ensures DecodeURIComponent(EncodeURIComponent(s)) == Some(s)
  {
    PercentBytesEncoded(s);
    Utf8RoundTrip(s);
  }

  /** Distinct texts have distinct encodings. */
  lemma EncodeInjective(s: string, t: string)
    requires EncodeURIComponent(s) == EncodeURIComponent(t)
    ensures s == t
  {
    EncodeDecode(s);
    EncodeDecode(t);
  }
}
