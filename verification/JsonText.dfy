/**
 JSON strings as System.Text.Json writes them by default (section 7 of RFC 8259): every
 character outside printable ASCII and the characters " & ' + < > ` are written \uXXXX,
 the backslash and five control characters with a short escape. Reading back is the
 inverse, which makes the written form uniquely decodable.
 */
module JsonText {
  import opened Results

  function HexDigit(n: nat): char
    requires n < 16
  {
    if n < 10 then '0' + n as char else 'A' + (n - 10) as char
  }

  function HexValue(c: char): Option<nat> {
    if '0' <= c <= '9' then Some((c - '0') as nat)
    else if 'A' <= c <= 'F' then Some((c - 'A') as nat + 10)
    else None
  }

  lemma HexDigitReadsBack(n: nat)
    requires n < 16
    ensures HexValue(HexDigit(n)) == Some(n)
  {
  }

  function Hex4(u: nat): (r: string)
    requires u < 0x1_0000
    ensures |r| == 4
  {
    [HexDigit(u / 0x1000), HexDigit(u / 0x100 % 16), HexDigit(u / 16 % 16), HexDigit(u % 16)]
  }

  function ReadHex4(s: string): Option<nat> {
    if |s| < 4 then None
    else match (HexValue(s[0]), HexValue(s[1]), HexValue(s[2]), HexValue(s[3]))
      case (Some(a), Some(b), Some(c), Some(d)) => Some(a * 0x1000 + b * 0x100 + c * 16 + d)
      case _ => None
  }

  lemma FourDigitsReadBack(a: nat, b: nat, c: nat, d: nat, rest: string)
    requires a < 16 && b < 16 && c < 16 && d < 16
    ensures ReadHex4([HexDigit(a), HexDigit(b), HexDigit(c), HexDigit(d)] + rest) ==
            Some(a * 0x1000 + b * 0x100 + c * 16 + d)
  {
    HexDigitReadsBack(a);
    HexDigitReadsBack(b);
    HexDigitReadsBack(c);
    HexDigitReadsBack(d);
    var s := [HexDigit(a), HexDigit(b), HexDigit(c), HexDigit(d)] + rest;
    assert s[0] == HexDigit(a) && s[1] == HexDigit(b) && s[2] == HexDigit(c) && s[3] == HexDigit(d);
  }

  lemma DigitsOf(u: nat)
    requires u < 0x1_0000
    ensures u / 0x1000 < 16
    ensures u / 0x1000 * 0x1000 + u / 0x100 % 16 * 0x100 + u / 16 % 16 * 16 + u % 16 == u
  {
    var a := u / 16;
    var b := a / 16;
    assert u == 16 * a + u % 16 && a == 16 * b + a % 16 && b == 16 * (b / 16) + b % 16;
    assert u / 0x100 == b && u / 0x1000 == b / 16;
  }

  lemma Hex4ReadsBack(u: nat, rest: string)
    requires u < 0x1_0000
    ensures ReadHex4(Hex4(u) + rest) == Some(u)
  {
    DigitsOf(u);
    FourDigitsReadBack(u / 0x1000, u / 0x100 % 16, u / 16 % 16, u % 16, rest);
  }

  function ShortEscape(c: char): Option<char> {
    match c as int
    case 0x5C => Some('\\')
    case 8 => Some('b')
    case 9 => Some('t')
    case 10 => Some('n')
    case 12 => Some('f')
    case 13 => Some('r')
    case _ => None
  }

  function FromShortEscape(c: char): Option<char> {
    match c
    case '\\' => Some('\\')
    case 'b' => Some(8 as char)
    case 't' => Some(9 as char)
    case 'n' => Some(10 as char)
    case 'f' => Some(12 as char)
    case 'r' => Some(13 as char)
    case _ => None
  }

  // Characters the default encoder writes as they are.
  predicate IsPlain(c: char) {
    var u := c as int;
    0x20 <= u < 0x7F && u != 0x22 && u != 0x26 && u != 0x27 && u != 0x2B && u != 0x3C && u != 0x3E && u != 0x60
        && u != 0x5C
  }

  function Unicode(u: nat): string
    requires u < 0x1_0000
  {
    "\\u" + Hex4(u)
  }

  // One character; outside the basic plane, its two surrogates.
  function EscapeChar(c: char): string {
    var u := c as nat;
    if IsPlain(c) then [c]
    else if ShortEscape(c).Some? then ['\\', ShortEscape(c).value]
    else if u < 0x1_0000 then Unicode(u)
    else Unicode(0xD800 + (u - 0x1_0000) / 0x400) + Unicode(0xDC00 + (u - 0x1_0000) % 0x400)
  }

  function Escape(text: string): string {
    if text == "" then "" else EscapeChar(text[0]) + Escape(text[1..])
  }

  // ----- Reading back -----

  predicate IsScalar(u: int) {
    0 <= u < 0xD800 || 0xE000 <= u < 0x11_0000
  }

  // The code unit of a \u escape at the head of s.
  function ReadUnicode(s: string): Option<nat> {
    if |s| >= 2 && s[0] == '\\' && s[1] == 'u' then ReadHex4(s[2..]) else None
  }

  // The first character of an escaped text, and what follows it.
  function ReadChar(s: string): Option<(char, string)> {
    if s == "" || s[0] == '"' then None
    else if s[0] != '\\' then Some((s[0], s[1..]))
    else if |s| >= 2 && FromShortEscape(s[1]).Some? then Some((FromShortEscape(s[1]).value, s[2..]))
    else match ReadUnicode(s)
      case None => None
      case Some(u) =>
        if |s| < 6 then None
        else if IsScalar(u) then Some((u as char, s[6..]))
        else match ReadUnicode(s[6..])
          case Some(low) =>
            var scalar := 0x1_0000 + (u - 0xD800) * 0x400 + (low - 0xDC00);
            if |s| >= 12 && 0xD800 <= u < 0xDC00 && 0xDC00 <= low < 0xE000 && IsScalar(scalar)
            then Some((scalar as char, s[12..])) else None
          case None => None
  }

  lemma UnicodeReadsBack(u: nat, rest: string)
    requires u < 0x1_0000
    ensures ReadUnicode(Unicode(u) + rest) == Some(u) && (Unicode(u) + rest)[6..] == rest
  {
    Hex4ReadsBack(u, rest);
    assert (Unicode(u) + rest)[2..] == Hex4(u) + rest;
  }

  // The two halves of a surrogate pair read back one after the other.
  lemma HalvesReadBack(high: nat, low: nat, rest: string, s: string)
    requires high < 0x1_0000 && low < 0x1_0000 && s == Unicode(high) + Unicode(low) + rest
    ensures ReadUnicode(s) == Some(high) && |s| >= 12 && ReadUnicode(s[6..]) == Some(low) && s[12..] == rest
  {
    assert s == Unicode(high) + (Unicode(low) + rest);
    UnicodeReadsBack(high, Unicode(low) + rest);
    UnicodeReadsBack(low, rest);
    assert s[12..] == s[6..][6..];
  }

  lemma PairReadsBack(c: char, rest: string)
    requires c as int >= 0x1_0000
    ensures ReadChar(EscapeChar(c) + rest) == Some((c, rest))
  {
    var v := c as nat - 0x1_0000;
    var high, low := 0xD800 + v / 0x400, 0xDC00 + v % 0x400;
    var s := EscapeChar(c) + rest;
    assert EscapeChar(c) == Unicode(high) + Unicode(low);
    HalvesReadBack(high, low, rest, s);
    assert 0x1_0000 + (high - 0xD800) * 0x400 + (low - 0xDC00) == c as int;
  }

  // Whatever follows, an escaped character reads back as itself.
  lemma CharReadsBack(c: char, rest: string)
    ensures ReadChar(EscapeChar(c) + rest) == Some((c, rest))
  {
    var u := c as nat;
    var s := EscapeChar(c) + rest;
    if IsPlain(c) {
      assert s[1..] == rest;
    } else if ShortEscape(c).Some? {
      assert s[2..] == rest;
    } else if u < 0x1_0000 {
      UnicodeReadsBack(u, rest);
    } else {
      PairReadsBack(c, rest);
    }
  }

  // The text up to the closing quote, and what follows the quote.
  function ReadText(s: string): Option<(string, string)>
    decreases |s|
  {
    if s == "" then None
    else if s[0] == '"' then Some(("", s[1..]))
    else match ReadChar(s)
      case None => None
      case Some((c, rest)) =>
        if |rest| >= |s| then None
        else match ReadText(rest)
          case None => None
          case Some((text, after)) => Some(([c] + text, after))
  }

  lemma EscapedIsNotClosing(c: char)
    ensures |EscapeChar(c)| > 0 && EscapeChar(c)[0] != '"'
  {
  }

  // One more character in front of a text that reads back.
  lemma CharInFront(c: char, tail: string, text: string, rest: string)
    requires ReadText(tail) == Some((text, rest))
    ensures ReadText(EscapeChar(c) + tail) == Some(([c] + text, rest))
  {
    EscapedIsNotClosing(c);
    CharReadsBack(c, tail);
    assert (EscapeChar(c) + tail)[0] == EscapeChar(c)[0];
  }

  lemma {:induction false} TextReadsBack(text: string, rest: string)
    ensures ReadText(Escape(text) + "\"" + rest) == Some((text, rest))
  {
    if text == "" {
      assert ("\"" + rest)[1..] == rest && "" + "\"" + rest == "\"" + rest;
    } else {
      var tail := Escape(text[1..]) + "\"" + rest;
      assert Escape(text) + "\"" + rest == EscapeChar(text[0]) + tail;
      TextReadsBack(text[1..], rest);
      CharInFront(text[0], tail, text[1..], rest);
      assert [text[0]] + text[1..] == text;
    }
  }

  // ----- Decimal numbers -----

  function Digits(n: nat): (r: string)
    ensures |r| > 0 && forall i | 0 <= i < |r| :: '0' <= r[i] <= '9'
  {
    if n < 10 then ['0' + n as char] else Digits(n / 10) + ['0' + (n % 10) as char]
  }

  function DigitsValue(s: string): nat {
    if s == "" then 0
    else
      var last := s[|s| - 1];
      DigitsValue(s[..|s| - 1]) * 10 + (if '0' <= last <= '9' then (last - '0') as nat else 0)
  }

  lemma {:induction false} DigitsReadBack(n: nat)
    ensures DigitsValue(Digits(n)) == n
  {
    if n >= 10 {
      DigitsReadBack(n / 10);
      assert Digits(n)[..|Digits(n)| - 1] == Digits(n / 10);
    } else {
      assert Digits(n)[..0] == "";
    }
  }

  // The digits up to the next slash, as a number, and what follows the slash.
  function ReadNumber(s: string): Option<(nat, string)> {
    var end := SlashAt(s);
    if end < |s| then Some((DigitsValue(s[..end]), s[end + 1..])) else None
  }

  function SlashAt(s: string): (i: nat)
    ensures i <= |s| && (i < |s| ==> s[i] == '/') && forall k | 0 <= k < i :: s[k] != '/'
  {
    if s == "" || s[0] == '/' then 0
    else
      var rest := SlashAt(s[1..]);
      assert forall k | 1 <= k < 1 + rest :: s[k] == s[1..][k - 1];
      1 + rest
  }

  lemma NumberReadsBack(n: nat, rest: string)
    ensures ReadNumber(Digits(n) + "/" + rest) == Some((n, rest))
  {
    var s := Digits(n) + "/" + rest;
    var k := |Digits(n)|;
    assert s[k] == '/' && forall i | 0 <= i < k :: s[i] == Digits(n)[i];
    assert SlashAt(s) == k;
    assert s[..k] == Digits(n) && s[k + 1..] == rest;
    DigitsReadBack(n);
  }
}
