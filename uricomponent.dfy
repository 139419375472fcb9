/**
 * `encodeURIComponent` as ECMAScript defines it: the unreserved characters
 * (ASCII letters, digits and - _ . ! ~ * ' ( )) stand for themselves, every
 * other character becomes the `%XY` escapes (upper-case hex) of its UTF-8
 * bytes. `Decode` is `decodeURIComponent`, the inverse a receiving server applies.
 */
module UriComponent {
  import opened Wrappers
  import Utf8

  predicate Unreserved(c: char) {
    ('A' <= c <= 'Z') || ('a' <= c <= 'z') || ('0' <= c <= '9') || c in "-_.!~*'()"
  }

  function HexDigit(n: int): (c: char)
    requires 0 <= n < 16
    ensures Unreserved(c)
  {
    if n < 10 then ('0' as int + n) as char else ('A' as int + n - 10) as char
  }

  /** The value of a hex digit in either case. */
  function HexValue(c: char): (r: Option<int>)
    ensures r.Some? ==> 0 <= r.value < 16
  {
    if '0' <= c <= '9' then Some(c as int - '0' as int)
    else if 'A' <= c <= 'F' then Some(c as int - 'A' as int + 10)
    else if 'a' <= c <= 'f' then Some(c as int - 'a' as int + 10)
    else None
  }

  /** The escape `%XY` of one byte. */
  function EscapeByte(b: Utf8.Byte): (r: string)
    ensures |r| == 3
  {
    ['%', HexDigit(b / 16), HexDigit(b % 16)]
  }

  /** The escapes of a byte sequence, one per byte. */
  function Escape(bs: seq<Utf8.Byte>): (r: string)
    ensures |r| == 3 * |bs|
  {
    if bs == [] then [] else EscapeByte(bs[0]) + Escape(bs[1..])
  }

  /** One character: itself if unreserved, else the escapes of its UTF-8 bytes (at least one). */
  function EncodeChar(c: char): (r: string)
    ensures |r| == 1 <==> Unreserved(c)
    ensures |r| >= 1
  {
    if Unreserved(c) then [c] else Escape(Utf8.EncodeChar(c))
  }

  /**
   * `encodeURIComponent(s)`. The result is never shorter than `s`, and it is
   * exactly as long as `s` when no character of `s` needs escaping.
   */
  function Encode(s: string): (r: string)
    ensures |r| >= |s|
    ensures |r| == |s| <==> forall i | 0 <= i < |s| :: Unreserved(s[i])
  {
    if s == [] then [] else EncodeChar(s[0]) + Encode(s[1..])
  }

  /**
   * Text that can stand as a query parameter value: nothing in it ends the
   * value (`&`, `#`), separates a key (`=`), or is read as a space (`+`).
   */
  predicate QuerySafe(t: string) {
    forall i | 0 <= i < |t| :: Unreserved(t[i]) || t[i] == '%'
  }

  lemma {:induction false} EscapeQuerySafe(bs: seq<Utf8.Byte>)
    ensures QuerySafe(Escape(bs))
  {
    if bs != [] {
      EscapeQuerySafe(bs[1..]);
    }
  }

  /** Only unreserved characters and `%` come out of the encoder. */
  lemma {:induction false} EncodeQuerySafe(s: string)
    ensures QuerySafe(Encode(s))
  {
    if s != [] {
      if !Unreserved(s[0]) {
        EscapeQuerySafe(Utf8.EncodeChar(s[0]));
      }
      EncodeQuerySafe(s[1..]);
    }
  }

  /** A string of unreserved characters is passed through unchanged. */
  lemma {:induction false} EncodeUnreservedIdentity(s: string)
    requires forall i | 0 <= i < |s| :: Unreserved(s[i])
    ensures Encode(s) == s
  {
    if s != [] {
      EncodeUnreservedIdentity(s[1..]);
      assert [s[0]] + s[1..] == s;
    }
  }

  /** Reads one `%XY` escape off the front of `t`. */
  function ReadByte(t: string): (r: Option<(Utf8.Byte, string)>)
    ensures r.Some? ==> |r.value.1| == |t| - 3
  {
    if |t| >= 3 && t[0] == '%' && HexValue(t[1]).Some? && HexValue(t[2]).Some?
    then Some((HexValue(t[1]).value * 16 + HexValue(t[2]).value, t[3..]))
    else None
  }

  /** Reads `k` escapes off the front of `t`. */
  function ReadBytes(t: string, k: nat): (r: Option<(seq<Utf8.Byte>, string)>)
    ensures r.Some? ==> |r.value.0| == k && |r.value.1| == |t| - 3 * k
  {
    if k == 0 then Some(([], t))
    else match ReadByte(t)
      case None => None
      case Some((b, rest)) =>
        match ReadBytes(rest, k - 1)
        case None => None
        case Some((bs, rest')) => Some(([b] + bs, rest'))
  }

  /** `decodeURIComponent(t)`; None where it would throw a URIError. */
  function Decode(t: string): Option<string>
    decreases |t|
  {
    if t == [] then Some([])
    else if t[0] != '%' then
      match Decode(t[1..])
      case None => None
      case Some(rest) => Some([t[0]] + rest)
    else match ReadByte(t)
      case None => None
      case Some((lead, _)) =>
        var n := Utf8.LeadLength(lead);
        if n == 0 then None
        else match ReadBytes(t, n)
          case None => None
          case Some((bs, rest)) =>
            match Utf8.DecodeChar(bs)
            case None => None
            case Some(c) =>
              match Decode(rest)
              case None => None
              case Some(more) => Some([c] + more)
  }

  lemma HexRoundTrip(n: int)
    requires 0 <= n < 16
    ensures HexValue(HexDigit(n)) == Some(n)
  {
  }

  /** Reading one byte's escape gives the byte back. */
  lemma ReadEscape(b: Utf8.Byte, rest: string)
    ensures ReadByte(EscapeByte(b) + rest) == Some((b, rest))
  {
    var t := EscapeByte(b) + rest;
    HexRoundTrip(b / 16);
    HexRoundTrip(b % 16);
    assert t[1] == HexDigit(b / 16) && t[2] == HexDigit(b % 16);
    assert t[3..] == rest;
  }

  /** A byte followed by the rest of `bs` reads as `bs`. */
  lemma ReadBytesStep(t: string, bs: seq<Utf8.Byte>, tail: string, rest: string)
    requires bs != []
    requires ReadByte(t) == Some((bs[0], tail))
    requires ReadBytes(tail, |bs| - 1) == Some((bs[1..], rest))
    ensures ReadBytes(t, |bs|) == Some((bs, rest))
  {
    assert [bs[0]] + bs[1..] == bs;
  }

  /** The escapes of `bs` read as `bs` once those of its tail do. */
  lemma ReadEscapesCons(bs: seq<Utf8.Byte>, rest: string)
    requires bs != []
    requires ReadBytes(Escape(bs[1..]) + rest, |bs| - 1) == Some((bs[1..], rest))
    ensures ReadBytes(Escape(bs) + rest, |bs|) == Some((bs, rest))
  {
    var tail := Escape(bs[1..]) + rest;
    assert Escape(bs) + rest == EscapeByte(bs[0]) + tail;
    ReadEscape(bs[0], tail);
    ReadBytesStep(Escape(bs) + rest, bs, tail, rest);
  }

  /** Reading the escapes of `bs` gives `bs` back and leaves what follows. */
  lemma {:induction false} ReadEscapes(bs: seq<Utf8.Byte>, rest: string)
    ensures ReadBytes(Escape(bs) + rest, |bs|) == Some((bs, rest))
  {
    if bs == [] {
      assert Escape(bs) + rest == rest;
    } else {
      ReadEscapes(bs[1..], rest);
      ReadEscapesCons(bs, rest);
    }
  }

  /** How `Decode` proceeds over one escaped character. */
  lemma DecodeEscapedStep(t: string, bs: seq<Utf8.Byte>, tail: string, rest: string, c: char)
    requires t != [] && t[0] == '%' && bs != []
    requires ReadByte(t) == Some((bs[0], tail))
    requires Utf8.LeadLength(bs[0]) == |bs|
    requires ReadBytes(t, |bs|) == Some((bs, rest))
    requires Utf8.DecodeChar(bs) == Some(c)
    ensures Decode(t) ==
      match Decode(rest) case None => None case Some(more) => Some([c] + more)
  {
  }

  /** An unreserved character decodes as itself. */
  lemma DecodeUnreservedThen(c: char, rest: string)
    requires Unreserved(c)
    ensures Decode([c] + rest) ==
      match Decode(rest) case None => None case Some(more) => Some([c] + more)
  {
    assert ([c] + rest)[1..] == rest;
  }

  /** The escapes of a character's UTF-8 bytes decode as that character. */
  lemma DecodeEscapedThen(c: char, rest: string)
    ensures Decode(Escape(Utf8.EncodeChar(c)) + rest) ==
      match Decode(rest) case None => None case Some(more) => Some([c] + more)
  {
    var bs := Utf8.EncodeChar(c);
    var t := Escape(bs) + rest;
    var tail := Escape(bs[1..]) + rest;
    assert t == EscapeByte(bs[0]) + tail;
    ReadEscape(bs[0], tail);
    ReadEscapes(bs, rest);
    Utf8.LeadLengthOfEncoding(c);
    Utf8.DecodeEncodeChar(c);
    DecodeEscapedStep(t, bs, tail, rest, c);
  }

  /** Decoding the encoding of one character and what follows it. */
  lemma DecodeEncodeCharThen(c: char, rest: string)
    ensures Decode(EncodeChar(c) + rest) ==
      match Decode(rest) case None => None case Some(more) => Some([c] + more)
  {
    if Unreserved(c) {
      DecodeUnreservedThen(c, rest);
    } else {
      DecodeEscapedThen(c, rest);
    }
  }

  /** `decodeURIComponent(encodeURIComponent(s)) == s`. */
  lemma {:induction false} DecodeEncode(s: string)
    ensures Decode(Encode(s)) == Some(s)
  {
    if s != [] {
      DecodeEncodeCharThen(s[0], Encode(s[1..]));
      DecodeEncode(s[1..]);
      assert [s[0]] + s[1..] == s;
    }
  }

  /** An overlong escape sequence, such as `%C0%80` for U+0000, is refused as `decodeURIComponent` refuses it. */
  lemma OverlongEscapeRejected()
    ensures Decode("%C0%80") == None
  {
    assert "%C0%80"[3..] == "%80" && "%80"[3..] == "";
    assert ReadByte("%C0%80") == Some((0xC0, "%80"));
    assert ReadByte("%80") == Some((0x80, ""));
    var none: seq<Utf8.Byte> := [];
    assert ReadBytes("", 0) == Some((none, ""));
    assert ReadBytes("%80", 1) == Some(([0x80] + none, ""));
    assert ReadBytes("%C0%80", 2) == Some(([0xC0] + ([0x80] + none), ""));
    assert [0xC0] + ([0x80] + none) == [0xC0, 0x80];
    assert Utf8.DecodeChar([0xC0, 0x80]) == None;
  }
}
