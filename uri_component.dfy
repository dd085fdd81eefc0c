/**
  * The standard `encodeURIComponent` that the booking page applies to its WhatsApp
  * message (js/booking.js line 82), and a matching decoder.
  *
  * Encoding follows section 2.1 of RFC 3986: a character outside the unescaped set is
  * written as its UTF-8 bytes (section 3 of RFC 3629), each as `%` and two upper-case
  * hexadecimal digits. The unescaped set is the unreserved set of section 2.3 of
  * RFC 3986 (letters, digits, `-`, `.`, `_`, `~`) plus `!`, `'`, `(`, `)` and `*`.
  *
  * Decoding runs the other way: `%XX` triples and literal characters become bytes, and
  * the bytes are read back as strict UTF-8.
  */
module UriComponent {
  import opened Wrappers

  newtype byte = x: int | 0 <= x < 256

  // ---------------------------------------------------------------------------
  // Encoding
  // ---------------------------------------------------------------------------

  /** The characters `encodeURIComponent` copies unchanged. */
  predicate IsUnescaped(c: char) {
    || ('A' <= c <= 'Z')
    || ('a' <= c <= 'z')
    || ('0' <= c <= '9')
    || c in "-_.!~*'()"
  }

  /** The UTF-8 encoding of one Unicode scalar value. */
  function Utf8Char(c: char): (bs: seq<byte>)
    ensures 1 <= |bs| <= 4
  {
    var cp := c as int;
    if cp < 0x80 then
      [cp as byte]
    else if cp < 0x800 then
      [(0xC0 + cp / 0x40) as byte, (0x80 + cp % 0x40) as byte]
    else if cp < 0x1_0000 then
      [(0xE0 + cp / 0x1000) as byte, (0x80 + cp / 0x40 % 0x40) as byte, (0x80 + cp % 0x40) as byte]
    else
      [(0xF0 + cp / 0x4_0000) as byte, (0x80 + cp / 0x1000 % 0x40) as byte,
       (0x80 + cp / 0x40 % 0x40) as byte, (0x80 + cp % 0x40) as byte]
  }

  /** The UTF-8 encoding of a whole string. */
  function Utf8(s: string): seq<byte> {
    if s == [] then [] else Utf8Char(s[0]) + Utf8(s[1..])
  }

  /** The upper-case hexadecimal digit for `v`. */
  function HexDigit(v: int): (d: char)
    requires 0 <= v < 16
    ensures IsUpperHex(d) && HexValue(d) == Some(v)
  {
    if v < 10 then ('0' as int + v) as char else ('A' as int + v - 10) as char
  }

  /** One byte as `%` followed by two upper-case hexadecimal digits. */
  function PercentTriple(b: byte): string {
    ['%', HexDigit(b as int / 16), HexDigit(b as int % 16)]
  }

  function PercentBytes(bs: seq<byte>): string {
    if bs == [] then [] else PercentTriple(bs[0]) + PercentBytes(bs[1..])
  }

  function EncodeChar(c: char): string {
    if IsUnescaped(c) then [c] else PercentBytes(Utf8Char(c))
  }

  /** `encodeURIComponent(s)`. */
  function EncodeUriComponent(s: string): string {
    if s == [] then [] else EncodeChar(s[0]) + EncodeUriComponent(s[1..])
  }

  // ---------------------------------------------------------------------------
  // The shape of encoded text
  // ---------------------------------------------------------------------------

  predicate IsUpperHex(c: char) {
    ('0' <= c <= '9') || ('A' <= c <= 'F')
  }

  /** `s` is a run of unescaped characters and `%XX` triples with upper-case digits. */
  predicate IsEncodedForm(s: string)
    decreases |s|
  {
    || s == []
    || (IsUnescaped(s[0]) && IsEncodedForm(s[1..]))
    || (|s| >= 3 && s[0] == '%' && IsUpperHex(s[1]) && IsUpperHex(s[2]) && IsEncodedForm(s[3..]))
  }

  // ---------------------------------------------------------------------------
  // Decoding
  // ---------------------------------------------------------------------------

  function HexValue(c: char): (v: Option<int>)
    ensures v.Some? ==> 0 <= v.value < 16
  {
    if '0' <= c <= '9' then Some(c as int - '0' as int)
    else if 'A' <= c <= 'F' then Some(c as int - 'A' as int + 10)
    else if 'a' <= c <= 'f' then Some(c as int - 'a' as int + 10)
    else None
  }

  function Prepend<T>(prefix: seq<T>, rest: Option<seq<T>>): Option<seq<T>> {
    if rest.None? then None else Some(prefix + rest.value)
  }

  /**
    * Turns `%XX` triples into the bytes they name; every other character stands for
    * its own UTF-8 bytes. A `%` without two hexadecimal digits after it is an error.
    */
  function PercentDecode(s: string): Option<seq<byte>>
    decreases |s|
  {
    if s == [] then Some([])
    else if s[0] == '%' then
      if |s| < 3 then None
      else
        var hi, lo := HexValue(s[1]), HexValue(s[2]);
        if hi.None? || lo.None? then None
        else Prepend([(hi.value * 16 + lo.value) as byte], PercentDecode(s[3..]))
    else
      Prepend(Utf8Char(s[0]), PercentDecode(s[1..]))
  }

  predicate IsContinuation(b: byte) {
    0x80 <= b < 0xC0
  }

  /**
    * Reads the first UTF-8 sequence of `bs`: the scalar value and how many bytes it
    * took. Overlong forms, surrogates and values past U+10FFFF are errors.
    */
  function DecodeFirst(bs: seq<byte>): (r: Option<(char, nat)>)
    requires bs != []
    ensures r.Some? ==> 1 <= r.value.1 <= |bs|
  {
    var b0 := bs[0] as int;
    if b0 < 0x80 then
      Some((b0 as char, 1))
    else if 0xC2 <= b0 < 0xE0 && |bs| >= 2 && IsContinuation(bs[1]) then
      var cp := (b0 - 0xC0) * 0x40 + (bs[1] as int - 0x80);
      Some((cp as char, 2))
    else if 0xE0 <= b0 < 0xF0 && |bs| >= 3 && IsContinuation(bs[1]) && IsContinuation(bs[2]) then
      var cp := (b0 - 0xE0) * 0x1000 + (bs[1] as int - 0x80) * 0x40 + (bs[2] as int - 0x80);
      if cp < 0x800 || (0xD800 <= cp < 0xE000) then None else Some((cp as char, 3))
    else if 0xF0 <= b0 < 0xF5 && |bs| >= 4
      && IsContinuation(bs[1]) && IsContinuation(bs[2]) && IsContinuation(bs[3])
    then
      var cp := (b0 - 0xF0) * 0x4_0000 + (bs[1] as int - 0x80) * 0x1000
        + (bs[2] as int - 0x80) * 0x40 + (bs[3] as int - 0x80);
      if cp < 0x1_0000 || cp >= 0x11_0000 then None else Some((cp as char, 4))
    else
      None
  }

  /** Strict UTF-8 decoding of a whole byte sequence. */
  function Utf8Decode(bs: seq<byte>): Option<string>
    decreases |bs|
  {
    if bs == [] then Some([])
    else
      var first := DecodeFirst(bs);
      if first.None? then None
      else
        var rest := Utf8Decode(bs[first.value.1..]);
        if rest.None? then None else Some([first.value.0] + rest.value)
  }

  /** `decodeURIComponent(s)`, with `None` where it would throw `URIError`. */
  function DecodeUriComponent(s: string): Option<string> {
    var bs := PercentDecode(s);
    if bs.None? then None else Utf8Decode(bs.value)
  }

  // ---------------------------------------------------------------------------
  // Properties
  // ---------------------------------------------------------------------------

  /** A character is copied as it is exactly when it is in the unescaped set. */
  lemma EncodeCharKeepsOnlyUnescaped(c: char)
    ensures EncodeChar(c) == [c] <==> IsUnescaped(c)
    ensures !IsUnescaped(c) ==> |EncodeChar(c)| >= 3 && EncodeChar(c)[0] == '%'
  {
    if !IsUnescaped(c) {
      var bs := Utf8Char(c);
      assert PercentBytes(bs) == PercentTriple(bs[0]) + PercentBytes(bs[1..]);
    }
  }

  lemma {:induction false} PercentBytesEncodedForm(bs: seq<byte>, t: string)
    requires IsEncodedForm(t)
    ensures IsEncodedForm(PercentBytes(bs) + t)
  {
    if bs != [] {
      PercentBytesEncodedForm(bs[1..], t);
      var s := PercentBytes(bs) + t;
      assert s == PercentTriple(bs[0]) + (PercentBytes(bs[1..]) + t);
      assert s[3..] == PercentBytes(bs[1..]) + t;
      assert s[1] == HexDigit(bs[0] as int / 16) && s[2] == HexDigit(bs[0] as int % 16);
    } else {
      assert PercentBytes(bs) + t == t;
    }
  }

  /** The output of `encodeURIComponent` consists of unescaped characters and `%XX` triples. */
  lemma {:induction false} EncodedFormOfEncode(s: string)
    ensures IsEncodedForm(EncodeUriComponent(s))
  {
    if s != [] {
      EncodedFormOfEncode(s[1..]);
      var t := EncodeUriComponent(s[1..]);
      if IsUnescaped(s[0]) {
        assert (EncodeChar(s[0]) + t)[1..] == t;
      } else {
        PercentBytesEncodedForm(Utf8Char(s[0]), t);
      }
    }
  }

  lemma {:induction false} PercentBytesDecode(bs: seq<byte>, t: string)
    ensures PercentDecode(PercentBytes(bs) + t) == Prepend(bs, PercentDecode(t))
  {
    if bs != [] {
      var b := bs[0];
      var s := PercentBytes(bs) + t;
      assert s == PercentTriple(b) + (PercentBytes(bs[1..]) + t);
      assert s[3..] == PercentBytes(bs[1..]) + t;
      assert s[0] == '%' && s[1] == HexDigit(b as int / 16) && s[2] == HexDigit(b as int % 16);
      assert (b as int / 16) * 16 + b as int % 16 == b as int;
      PercentBytesDecode(bs[1..], t);
      var rest := PercentDecode(t);
      assert rest.Some? ==> [b] + (bs[1..] + rest.value) == bs + rest.value;
    } else {
      assert PercentBytes(bs) + t == t;
      var rest := PercentDecode(t);
      assert rest.Some? ==> bs + rest.value == rest.value;
    }
  }

  lemma {:induction false} PercentDecodeOfEncode(s: string)
    ensures PercentDecode(EncodeUriComponent(s)) == Some(Utf8(s))
  {
    if s != [] {
      var c, t := s[0], EncodeUriComponent(s[1..]);
      PercentDecodeOfEncode(s[1..]);
      if IsUnescaped(c) {
        assert (EncodeChar(c) + t)[1..] == t;
      } else {
        PercentBytesDecode(Utf8Char(c), t);
      }
    }
  }

  /** Dividing by 64 twice is dividing by 4096, and so on up the UTF-8 byte positions. */
  lemma DivideInSteps(cp: nat)
    ensures cp / 0x1000 == cp / 0x40 / 0x40
    ensures cp / 0x4_0000 == cp / 0x1000 / 0x40
  {
    var q1, r1 := cp / 0x40, cp % 0x40;
    var q2, r2 := q1 / 0x40, q1 % 0x40;
    var q3, r3 := q2 / 0x40, q2 % 0x40;
    assert cp == 0x1000 * q2 + (0x40 * r2 + r1);
    assert cp == 0x4_0000 * q3 + (0x1000 * r3 + 0x40 * r2 + r1);
  }

  /** The first UTF-8 sequence of a character's encoding decodes back to that character. */
  lemma DecodeFirstOfUtf8Char(c: char, rest: seq<byte>)
    ensures DecodeFirst(Utf8Char(c) + rest) == Some((c, |Utf8Char(c)|))
  {
    var cp := c as int;
    var bs := Utf8Char(c) + rest;
    if cp < 0x80 {
    } else if cp < 0x800 {
      assert bs[0] as int - 0xC0 == cp / 0x40;
      assert bs[1] as int - 0x80 == cp % 0x40;
    } else if cp < 0x1_0000 {
      DivideInSteps(cp);
      assert bs[0] as int - 0xE0 == cp / 0x1000;
      assert bs[1] as int - 0x80 == cp / 0x40 % 0x40;
      assert bs[2] as int - 0x80 == cp % 0x40;
    } else {
      DivideInSteps(cp);
      assert bs[0] as int - 0xF0 == cp / 0x4_0000;
      assert bs[1] as int - 0x80 == cp / 0x1000 % 0x40;
      assert bs[2] as int - 0x80 == cp / 0x40 % 0x40;
      assert bs[3] as int - 0x80 == cp % 0x40;
    }
  }

  /** Strict UTF-8 decoding undoes UTF-8 encoding. */
  lemma {:induction false} Utf8RoundTrip(s: string)
    ensures Utf8Decode(Utf8(s)) == Some(s)
  {
    if s != [] {
      var head := Utf8Char(s[0]);
      var bs := Utf8(s);
      DecodeFirstOfUtf8Char(s[0], Utf8(s[1..]));
      assert bs[|head|..] == Utf8(s[1..]);
      Utf8RoundTrip(s[1..]);
      assert [s[0]] + s[1..] == s;
    }
  }

  /** Decoding the output of `encodeURIComponent` gives back the original text. */
  lemma DecodeEncode(s: string)
    ensures DecodeUriComponent(EncodeUriComponent(s)) == Some(s)
  {
    PercentDecodeOfEncode(s);
    Utf8RoundTrip(s);
  }
}
