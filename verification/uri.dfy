/**
 * ECMAScript's `encodeURIComponent`: every character outside the URI
 * "unreserved" set (ASCII letters, digits and `- _ . ! ~ * ' ( )`) is
 * replaced by the percent-escapes of its UTF-8 bytes, in upper-case hex.
 * Characters here are Unicode scalar values, so the lone-surrogate error
 * of the JavaScript function cannot arise.
 */
module Uri {

  predicate IsUnreserved(c: char) {
    || 'A' <= c <= 'Z'
    || 'a' <= c <= 'z'
    || '0' <= c <= '9'
    || c == '-' || c == '_' || c == '.' || c == '!' || c == '~'
    || c == '*' || c == '\'' || c == '(' || c == ')'
  }

  predicate IsUpperHexDigit(c: char) {
    '0' <= c <= '9' || 'A' <= c <= 'F'
  }

  /** A character that can appear in the output of `EncodeUriComponent`. */
  predicate IsEncodedChar(c: char) {
    IsUnreserved(c) || c == '%' || IsUpperHexDigit(c)
  }

  predicate IsByte(b: int) {
    0 <= b < 256
  }

  /** The UTF-8 encoding of one Unicode scalar value. */
  function Utf8(c: char): (bytes: seq<int>)
    ensures 1 <= |bytes| <= 4
    ensures forall k :: 0 <= k < |bytes| ==> IsByte(bytes[k])
    ensures |bytes| == 1 <==> c as int < 0x80
    ensures |bytes| == 1 ==> bytes[0] == c as int
  {
    var cp := c as int;
    if cp < 0x80 then [cp]
    else if cp < 0x800 then [0xC0 + cp / 0x40, 0x80 + cp % 0x40]
    else if cp < 0x1_0000 then [0xE0 + cp / 0x1000, 0x80 + (cp / 0x40) % 0x40, 0x80 + cp % 0x40]
    else [0xF0 + cp / 0x4_0000, 0x80 + (cp / 0x1000) % 0x40, 0x80 + (cp / 0x40) % 0x40, 0x80 + cp % 0x40]
  }

  function HexDigit(d: int): (c: char)
    requires 0 <= d < 16
    ensures IsUpperHexDigit(c)
  {
    if d < 10 then ('0' as int + d) as char else ('A' as int + d - 10) as char
  }

  /** `%XX` for each byte. */
  function PercentEscapes(bytes: seq<int>): (s: string)
    requires forall k :: 0 <= k < |bytes| ==> IsByte(bytes[k])
    ensures |s| == 3 * |bytes|
    ensures forall i :: 0 <= i < |s| ==> s[i] == '%' || IsUpperHexDigit(s[i])
  {
    if |bytes| == 0 then []
    else
      assert IsByte(bytes[0]);
      ['%', HexDigit(bytes[0] / 16), HexDigit(bytes[0] % 16)] + PercentEscapes(bytes[1..])
  }

  function EncodeChar(c: char): (s: string)
    ensures forall i :: 0 <= i < |s| ==> IsEncodedChar(s[i])
    ensures IsUnreserved(c) ==> s == [c]
    ensures !IsUnreserved(c) ==> |s| >= 3 && s[0] == '%'
  {
    if IsUnreserved(c) then [c] else PercentEscapes(Utf8(c))
  }

  /** `encodeURIComponent(s)`. */
  function EncodeUriComponent(s: string): (r: string)
    ensures forall i :: 0 <= i < |r| ==> IsEncodedChar(r[i])
    ensures |r| >= |s|
  {
    if |s| == 0 then [] else EncodeChar(s[0]) + EncodeUriComponent(s[1..])
  }

  /** Text made only of unreserved characters passes through unchanged. */
  lemma {:induction false} EncodeUnreservedIsIdentity(s: string)
    requires forall i :: 0 <= i < |s| ==> IsUnreserved(s[i])
    ensures EncodeUriComponent(s) == s
  {
    if |s| > 0 {
      EncodeUnreservedIsIdentity(s[1..]);
      assert s == [s[0]] + s[1..];
    }
  }

  /** An encoded component never contains a character that separates URL parts. */
  lemma EncodedHasNoDelimiters(s: string)
    ensures var r := EncodeUriComponent(s);
      forall i :: 0 <= i < |r| ==> r[i] != '&' && r[i] != '=' && r[i] != '?' && r[i] != '#' && r[i] != '/' && r[i] != ' '
  {
  }

  /** Any text holding a character outside the unreserved set grows under the encoding, so it is changed. */
  lemma {:induction false} EncodeChangesReserved(s: string, j: int)
    requires 0 <= j < |s| && !IsUnreserved(s[j])
    ensures |EncodeUriComponent(s)| >= |s| + 2
    ensures EncodeUriComponent(s) != s
  {
    if j > 0 {
      EncodeChangesReserved(s[1..], j - 1);
    }
  }
}
