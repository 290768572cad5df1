/** Percent-decoding as the `urlencoding` crate's `decode` does it: every `%` followed by two
    hexadecimal digits stands for the byte they spell (section 2.1 of RFC 3986), any other
    `%` is kept as it is, and the decoded bytes must form valid UTF-8 (RFC 3629) or the
    decoding fails. */
module Percent {
  import opened Basics
  import opened Text

  predicate IsHex(c: char) {
    '0' <= c <= '9' || 'a' <= c <= 'f' || 'A' <= c <= 'F'
  }

  function HexValue(c: char): (v: nat)
    requires IsHex(c)
    ensures v < 16
  {
    if '0' <= c <= '9' then c as nat - '0' as nat
    else if 'a' <= c <= 'f' then c as nat - 'a' as nat + 10
    else c as nat - 'A' as nat + 10
  }

  /** The byte a well-formed escape `%hl` stands for. */
  function EscapedByte(h: char, l: char): char
    requires IsHex(h) && IsHex(l)
  {
    (HexValue(h) * 16 + HexValue(l)) as char
  }

  /** The byte-level decoding: escapes replaced by their bytes, everything else copied. */
  function DecodeBytes(s: string): (r: string)
    ensures |r| <= |s|
  {
    if s == [] then []
    else if s[0] == '%' && |s| >= 3 && IsHex(s[1]) && IsHex(s[2]) then
      [EscapedByte(s[1], s[2])] + DecodeBytes(s[3..])
    else [s[0]] + DecodeBytes(s[1..])
  }

  predicate Continuation(c: char) {
    0x80 <= c as int <= 0xBF
  }

  /** Well-formed UTF-8 byte sequences, per the table in section 4 of RFC 3629. */
  predicate ValidUtf8(s: string) {
    if s == [] then true
    else
      var b := s[0] as int;
      if b < 0x80 then ValidUtf8(s[1..])
      else if 0xC2 <= b <= 0xDF then
        |s| >= 2 && Continuation(s[1]) && ValidUtf8(s[2..])
      else if 0xE0 <= b <= 0xEF then
        |s| >= 3 && Continuation(s[1]) && Continuation(s[2])
        && (b == 0xE0 ==> 0xA0 <= s[1] as int)
        && (b == 0xED ==> s[1] as int <= 0x9F)
        && ValidUtf8(s[3..])
      else if 0xF0 <= b <= 0xF4 then
        |s| >= 4 && Continuation(s[1]) && Continuation(s[2]) && Continuation(s[3])
        && (b == 0xF0 ==> 0x90 <= s[1] as int)
        && (b == 0xF4 ==> s[1] as int <= 0x8F)
        && ValidUtf8(s[4..])
      else false
  }

  /** `urlencoding::decode`: a string without `%` comes back unchanged; otherwise the
      decoded bytes, provided they are valid UTF-8. */
  function Decode(s: string): (r: Option<string>)
    ensures '%' !in s ==> r == Some(s)
    ensures r.Some? ==> |r.value| <= |s|
  {
    if '%' !in s then Some(s)
    else
      var bytes := DecodeBytes(s);
      if ValidUtf8(bytes) then Some(bytes) else None
  }

  /** Text without `%` decodes to itself. */
  lemma {:induction false} DecodeBytesPlain(s: string)
    requires '%' !in s
    ensures DecodeBytes(s) == s
  {
    if s != [] {
      DecodeBytesPlain(s[1..]);
      assert [s[0]] + s[1..] == s;
    }
  }

  /** The upper-case hexadecimal digit for `v`. */
  function HexDigit(v: nat): (c: char)
    requires v < 16
    ensures IsHex(c) && HexValue(c) == v
  {
    if v < 10 then ('0' as nat + v) as char else ('A' as nat + v - 10) as char
  }

  predicate IsByte(c: char) {
    c as int < 256
  }

  /** Escapes every byte as `%HH`; the inverse of decoding. */
  function Encode(s: string): (r: string)
    requires forall c :: c in s ==> IsByte(c)
    ensures |r| == 3 * |s|
  {
    if s == [] then []
    else
      assert s[0] in s;
      var b := s[0] as nat;
      assert b / 16 < 16 by { assert IsByte(s[0]); }
      ['%', HexDigit(b / 16), HexDigit(b % 16)] + Encode(s[1..])
  }

  /** Decoding undoes encoding. */
  lemma {:induction false} DecodeEncode(s: string)
    requires forall c :: c in s ==> IsByte(c)
    ensures DecodeBytes(Encode(s)) == s
  {
    if s != [] {
      var e := Encode(s);
      assert e[3..] == Encode(s[1..]);
      DecodeEncode(s[1..]);
      assert EscapedByte(e[1], e[2]) == s[0];
      assert [s[0]] + s[1..] == s;
    }
  }

  /** Each piece decoded on its own. */
  function DecodeEach(ts: seq<string>): (r: seq<string>)
    ensures |r| == |ts|
  {
    if ts == [] then [] else [DecodeBytes(ts[0])] + DecodeEach(ts[1..])
  }

  /** A separator that is neither `%` nor a hexadecimal digit is never part of an escape, so
      decoding works piece by piece between the separators. */
  lemma {:induction false} DecodeJoin(ts: seq<string>, c: char)
    requires |ts| >= 1 && c != '%' && !IsHex(c)
    ensures DecodeBytes(Join(ts, c)) == Join(DecodeEach(ts), c)
  {
    if |ts| > 1 {
      DecodeJoin(ts[1..], c);
      DecodeBeforeSeparator(ts[0], Join(ts[1..], c), c);
      assert DecodeEach(ts)[1..] == DecodeEach(ts[1..]);
    }
  }

  lemma {:induction false} DecodeBeforeSeparator(a: string, b: string, c: char)
    requires c != '%' && !IsHex(c)
    ensures DecodeBytes(a + [c] + b) == DecodeBytes(a) + [c] + DecodeBytes(b)
  {
    var s := a + [c] + b;
    if a == [] {
      assert s == [c] + b && s[1..] == b;
    } else if a[0] == '%' && |a| >= 3 && IsHex(a[1]) && IsHex(a[2]) {
      assert s[..3] == a[..3] && s[3..] == a[3..] + [c] + b;
      var e := [EscapedByte(a[1], a[2])];
      calc {
        DecodeBytes(s);
        e + DecodeBytes(a[3..] + [c] + b);
        { DecodeBeforeSeparator(a[3..], b, c); }
        e + (DecodeBytes(a[3..]) + [c] + DecodeBytes(b));
        (e + DecodeBytes(a[3..])) + [c] + DecodeBytes(b);
      }
    } else {
      assert s[0] == a[0] && s[1..] == a[1..] + [c] + b;
      assert !(s[0] == '%' && |s| >= 3 && IsHex(s[1]) && IsHex(s[2])) by {
        if s[0] == '%' && |a| < 3 {
          assert |a| == 1 ==> s[1] == c;
          assert |a| == 2 ==> s[2] == c;
        }
      }
      calc {
        DecodeBytes(s);
        [a[0]] + DecodeBytes(a[1..] + [c] + b);
        { DecodeBeforeSeparator(a[1..], b, c); }
        [a[0]] + (DecodeBytes(a[1..]) + [c] + DecodeBytes(b));
        ([a[0]] + DecodeBytes(a[1..])) + [c] + DecodeBytes(b);
      }
    }
  }
}
