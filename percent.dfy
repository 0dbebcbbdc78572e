/** Percent-encoding as `urllib.parse.quote(text, safe="")` does it: the text is
    encoded as UTF-8 and every byte outside the unreserved set of RFC 3986,
    section 2.3 (ASCII letters, digits, `-`, `.`, `_`, `~`) is written as `%`
    followed by two upper-case hexadecimal digits (RFC 3986, section 2.1). */
module Percent {
  import opened Wrappers

  type Byte = b: int | 0 <= b < 256

  /** A continuation byte `10xxxxxx` carrying the six bits `v`. */
  function Cont(v: int): Byte
    requires 0 <= v < 64
  {
    0x80 + v
  }

  /** The UTF-8 encoding of one Unicode scalar value. */
  function Utf8Char(c: char): (r: seq<Byte>)
    ensures 1 <= |r| <= 4
  {
    var n := c as int;
    if n < 0x80 then [n]
    else if n < 0x800 then [0xC0 + n / 64, Cont(n % 64)]
    else if n < 0x10000 then [0xE0 + n / 4096, Cont((n / 64) % 64), Cont(n % 64)]
    else [0xF0 + n / 262144, Cont((n / 4096) % 64), Cont((n / 64) % 64), Cont(n % 64)]
  }

  /** `str.encode("utf-8")`. */
  function Utf8Encode(s: string): seq<Byte>
  {
    if s == [] then [] else Utf8Char(s[0]) + Utf8Encode(s[1..])
  }

  predicate IsCont(b: Byte)
  {
    0x80 <= b < 0xC0
  }

  predicate IsScalar(n: int)
  {
    (0 <= n < 0xD800) || (0xE000 <= n < 0x110000)
  }

  /** Decodes the first character of `b`: the character and the number of bytes it used,
      or `None` when `b` does not start with a well-formed, shortest-form sequence. */
  function Utf8DecodeFirst(b: seq<Byte>): (r: Option<(char, nat)>)
    requires b != []
    ensures r.Some? ==> 1 <= r.value.1 <= |b|
  {
    var b0: int := b[0];
    if b0 < 0x80 then Some((b0 as char, 1))
    else if 0xC2 <= b0 < 0xE0 && |b| >= 2 && IsCont(b[1]) then
      var b1: int := b[1];
      Some((((b0 - 0xC0) * 64 + (b1 - 0x80)) as char, 2))
    else if 0xE0 <= b0 < 0xF0 && |b| >= 3 && IsCont(b[1]) && IsCont(b[2]) then
      var b1: int, b2: int := b[1], b[2];
      var n := (b0 - 0xE0) * 4096 + (b1 - 0x80) * 64 + (b2 - 0x80);
      if 0x800 <= n && IsScalar(n) then Some((n as char, 3)) else None
    else if 0xF0 <= b0 < 0xF5 && |b| >= 4 && IsCont(b[1]) && IsCont(b[2]) && IsCont(b[3]) then
      var b1: int, b2: int, b3: int := b[1], b[2], b[3];
      var n := (b0 - 0xF0) * 262144 + (b1 - 0x80) * 4096 + (b2 - 0x80) * 64 + (b3 - 0x80);
      if 0x10000 <= n && IsScalar(n) then Some((n as char, 4)) else None
    else None
  }

  /** `bytes.decode("utf-8")`, with `None` for the `UnicodeDecodeError`. */
  function Utf8Decode(b: seq<Byte>): Option<string>
    decreases |b|
  {
    if b == [] then Some([])
    else
      match Utf8DecodeFirst(b)
      case None => None
      case Some((c, k)) =>
        match Utf8Decode(b[k..])
        case None => None
        case Some(s) => Some([c] + s)
  }

  lemma Decodes2(n: int, b: seq<Byte>)
    requires 0x80 <= n < 0x800 && |b| >= 2
    requires b[0] == 0xC0 + n / 64 && b[1] == 0x80 + n % 64
    ensures Utf8DecodeFirst(b) == Some((n as char, 2))
  {
    assert (n / 64) * 64 + n % 64 == n;
  }

  lemma Decodes3(n: int, b: seq<Byte>)
    requires 0x800 <= n < 0x10000 && IsScalar(n) && |b| >= 3
    requires b[0] == 0xE0 + n / 4096 && b[1] == 0x80 + (n / 64) % 64 && b[2] == 0x80 + n % 64
    ensures Utf8DecodeFirst(b) == Some((n as char, 3))
  {
    var q := n / 64;
    assert q * 64 + n % 64 == n;
    assert (q / 64) * 64 + q % 64 == q;
    assert q / 64 == n / 4096;
  }

  lemma Decodes4(n: int, b: seq<Byte>)
    requires 0x10000 <= n < 0x110000 && |b| >= 4
    requires b[0] == 0xF0 + n / 262144 && b[1] == 0x80 + (n / 4096) % 64
    requires b[2] == 0x80 + (n / 64) % 64 && b[3] == 0x80 + n % 64
    ensures Utf8DecodeFirst(b) == Some((n as char, 4))
  {
    var q := n / 64;
    var q2 := q / 64;
    assert q * 64 + n % 64 == n;
    assert q2 * 64 + q % 64 == q;
    assert q2 == n / 4096;
    assert (q2 / 64) * 64 + q2 % 64 == q2;
    assert q2 / 64 == n / 262144;
  }

  lemma Utf8CharDecodes(c: char, rest: seq<Byte>)
    ensures Utf8DecodeFirst(Utf8Char(c) + rest) == Some((c, |Utf8Char(c)|))
  {
    var n := c as int;
    var b := Utf8Char(c) + rest;
    if n < 0x80 {
    } else if n < 0x800 {
      Decodes2(n, b);
    } else if n < 0x10000 {
      Decodes3(n, b);
    } else {
      Decodes4(n, b);
    }
  }

  /** Decoding the UTF-8 encoding of a string gives the string back. */
  lemma {:induction false} Utf8RoundTrip(s: string)
    ensures Utf8Decode(Utf8Encode(s)) == Some(s)
  {
    if s != [] {
      var b := Utf8Encode(s);
      Utf8CharDecodes(s[0], Utf8Encode(s[1..]));
      assert b[|Utf8Char(s[0])|..] == Utf8Encode(s[1..]);
      Utf8RoundTrip(s[1..]);
      assert [s[0]] + s[1..] == s;
    }
  }

  /** The unreserved characters of RFC 3986, section 2.3, as byte values. */
  predicate Unreserved(b: Byte)
  {
    ('A' as int <= b <= 'Z' as int) || ('a' as int <= b <= 'z' as int)
    || ('0' as int <= b <= '9' as int) || b == '-' as int || b == '.' as int
    || b == '_' as int || b == '~' as int
  }

  function HexDigit(d: int): (c: char)
    requires 0 <= d < 16
  {
    if d < 10 then ('0' as int + d) as char else ('A' as int + d - 10) as char
  }

  /** The value of an upper-case hexadecimal digit, or `None`. */
  function HexValue(c: char): (r: Option<int>)
    ensures r.Some? ==> 0 <= r.value < 16
  {
    if '0' <= c <= '9' then Some(c as int - '0' as int)
    else if 'A' <= c <= 'F' then Some(c as int - 'A' as int + 10)
    else None
  }

  /** One byte, percent-encoded unless it is unreserved. */
  function EncodeByte(b: Byte): (r: string)
  {
    if Unreserved(b) then [b as char] else ['%', HexDigit(b / 16), HexDigit(b % 16)]
  }

  function EncodeBytes(b: seq<Byte>): string
  {
    if b == [] then [] else EncodeByte(b[0]) + EncodeBytes(b[1..])
  }

  /** `urllib.parse.quote(s, safe="")`. */
  function Quote(s: string): string
  {
    EncodeBytes(Utf8Encode(s))
  }

  /** Percent-decoding into bytes: `%XX` becomes the byte `XX`, an unreserved
      character stands for itself, anything else is malformed. */
  function DecodeBytes(t: string): Option<seq<Byte>>
    decreases |t|
  {
    if t == [] then Some([])
    else if t[0] == '%' then
      if |t| >= 3 && HexValue(t[1]).Some? && HexValue(t[2]).Some? then
        match DecodeBytes(t[3..])
        case None => None
        case Some(rest) => Some([HexValue(t[1]).value * 16 + HexValue(t[2]).value] + rest)
      else None
    else if t[0] as int < 256 && Unreserved(t[0] as int) then
      match DecodeBytes(t[1..])
      case None => None
      case Some(rest) => Some([t[0] as int] + rest)
    else None
  }

  /** Percent-decoding followed by UTF-8 decoding: the inverse of `Quote`. */
  function Unquote(t: string): Option<string>
  {
    match DecodeBytes(t)
    case None => None
    case Some(b) => Utf8Decode(b)
  }

  lemma EncodeByteDecodes(b: Byte, rest: string)
    ensures DecodeBytes(EncodeByte(b) + rest) ==
      (match DecodeBytes(rest) case None => None case Some(r) => Some([b] + r))
  {
    var t := EncodeByte(b) + rest;
    if Unreserved(b) {
      assert t[1..] == rest;
    } else {
      assert t[3..] == rest;
      assert HexValue(HexDigit(b / 16)) == Some(b / 16);
      assert HexValue(HexDigit(b % 16)) == Some(b % 16);
    }
  }

  lemma {:induction false} BytesRoundTrip(b: seq<Byte>)
    ensures DecodeBytes(EncodeBytes(b)) == Some(b)
  {
    if b != [] {
      EncodeByteDecodes(b[0], EncodeBytes(b[1..]));
      BytesRoundTrip(b[1..]);
      assert [b[0]] + b[1..] == b;
    }
  }

  /** Decoding a quoted token gives the token back. */
  lemma QuoteRoundTrip(s: string)
    ensures Unquote(Quote(s)) == Some(s)
  {
    BytesRoundTrip(Utf8Encode(s));
    Utf8RoundTrip(s);
  }

  lemma {:induction false} EncodeBytesFree(b: seq<Byte>, c: char)
    requires c as int < 256 && !Unreserved(c as int) && c != '%' && !('0' <= c <= '9') && !('A' <= c <= 'F')
    ensures forall i :: 0 <= i < |EncodeBytes(b)| ==> EncodeBytes(b)[i] != c
  {
    if b != [] {
      EncodeBytesFree(b[1..], c);
    }
  }

  /** A quoted token never contains a `+`: the separator of the search string. */
  lemma QuoteHasNoPlus(s: string)
    ensures forall i :: 0 <= i < |Quote(s)| ==> Quote(s)[i] != '+'
  {
    EncodeBytesFree(Utf8Encode(s), '+');
  }
}
