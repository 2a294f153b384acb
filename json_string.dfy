/**
 * JSON string literals as Python's `json.dumps` writes them with its default
 * `ensure_ascii=True`, and a decoder for string literals following section 7
 * of RFC 8259.
 *
 * The writer leaves every character from ' ' to '~' as it is, except '"' and
 * '\'; it writes '"', '\', backspace, form feed, line feed, carriage return
 * and tab as two-character escapes; every other character becomes `\uXXXX`
 * with four lower-case hexadecimal digits, and a character above U+FFFF
 * becomes the UTF-16 surrogate pair written as two such escapes.
 */
module JsonString {
  import opened Outcomes

  const Quote: char := '"'
  const Backslash: char := '\\'
  const Backspace: char := '\U{0008}'
  const FormFeed: char := '\U{000C}'

  /** The characters `ensure_ascii` lets through unescaped (besides '"' and '\'). */
  predicate Printable(c: char) {
    ' ' <= c <= '~'
  }

  predicate AllPrintable(s: string) {
    forall i :: 0 <= i < |s| ==> Printable(s[i])
  }

  /** The value of one hexadecimal digit, of either case. */
  function HexValue(c: char): (r: Option<nat>)
    ensures r.Some? <==> ('0' <= c <= '9' || 'a' <= c <= 'f' || 'A' <= c <= 'F')
    ensures r.Some? ==> r.value < 16
  {
    if '0' <= c <= '9' then Some(c as int - '0' as int)
    else if 'a' <= c <= 'f' then Some(c as int - 'a' as int + 10)
    else if 'A' <= c <= 'F' then Some(c as int - 'A' as int + 10)
    else None
  }

  /** The lower-case hexadecimal digit of `d`, as Python's `x` format writes it. */
  function HexDigit(d: nat): (c: char)
    requires d < 16
    ensures '0' <= c <= '9' || 'a' <= c <= 'f'
  {
    if d < 10 then ('0' as int + d) as char else ('a' as int + d - 10) as char
  }

  /** Reading a digit back gives the number it was written for. */
  lemma HexValueOfDigit(d: nat)
    requires d < 16
    ensures HexValue(HexDigit(d)) == Some(d)
  {
  }

  /** The number written by four hexadecimal digits. */
  function ParseHex4(t: string): (r: Option<nat>)
    requires |t| == 4
    ensures r.Some? ==> r.value < 0x1_0000
    ensures r.Some? <==> forall i :: 0 <= i < 4 ==> HexValue(t[i]).Some?
  {
    var a :- HexValue(t[0]);
    var b :- HexValue(t[1]);
    var c :- HexValue(t[2]);
    var d :- HexValue(t[3]);
    Some(((a * 16 + b) * 16 + c) * 16 + d)
  }

  /** `'\\u{0:04x}'.format(n)`: a six-character escape that reads back as `n`. */
  function UnicodeEscape(n: nat): (r: string)
    requires n < 0x1_0000
    ensures |r| == 6 && r[0] == Backslash && r[1] == 'u'
    ensures AllPrintable(r)
  {
    var d0, m0 := n / 0x1000, n % 0x1000;
    var d1, m1 := m0 / 0x100, m0 % 0x100;
    var d2, d3 := m1 / 0x10, m1 % 0x10;
    [Backslash, 'u', HexDigit(d0), HexDigit(d1), HexDigit(d2), HexDigit(d3)]
  }

  /** The four digits of `UnicodeEscape(n)` read back as `n`. */
  lemma ParseUnicodeEscape(n: nat)
    requires n < 0x1_0000
    ensures ParseHex4(UnicodeEscape(n)[2..]) == Some(n)
  {
    var d0, m0 := n / 0x1000, n % 0x1000;
    var d1, m1 := m0 / 0x100, m0 % 0x100;
    var d2, d3 := m1 / 0x10, m1 % 0x10;
    HexValueOfDigit(d0);
    HexValueOfDigit(d1);
    HexValueOfDigit(d2);
    HexValueOfDigit(d3);
  }

  /**
   * `\uXXXX` for a character of the basic plane; for one above U+FFFF, the
   * escapes of its UTF-16 surrogate pair.
   */
  function EscapeCodePoint(c: char): (r: string)
    ensures |r| == 6 || |r| == 12
    ensures AllPrintable(r) && r[0] == Backslash && r[1] == 'u'
  {
    if c as int < 0x1_0000 then UnicodeEscape(c as int)
    else
      // Python writes 0xd800 | ((n >> 10) & 0x3ff) and 0xdc00 | (n & 0x3ff);
      // since n < 0x10_0000 these are the sums below.
      var n := c as int - 0x1_0000;
      UnicodeEscape(0xD800 + n / 0x400) + UnicodeEscape(0xDC00 + n % 0x400)
  }

  /** The text that stands for one character inside a string literal. */
  function EscapeChar(c: char): (r: string)
    ensures 0 < |r| && r[0] != Quote
    ensures AllPrintable(r)
    ensures r == [c] <==> Printable(c) && c != Quote && c != Backslash
    ensures r != [c] ==> r[0] == Backslash
  {
    if c == Quote then [Backslash, Quote]
    else if c == Backslash then [Backslash, Backslash]
    else if c == '\n' then [Backslash, 'n']
    else if c == '\r' then [Backslash, 'r']
    else if c == '\t' then [Backslash, 't']
    else if c == Backspace then [Backslash, 'b']
    else if c == FormFeed then [Backslash, 'f']
    else if Printable(c) then [c]
    else EscapeCodePoint(c)
  }

  /** The body of a string literal: every character escaped, in order. */
  function Escape(s: string): (r: string)
    ensures |r| >= |s|
  {
    if s == [] then [] else EscapeChar(s[0]) + Escape(s[1..])
  }

  /** `json.dumps(s)` for a string `s`: the escaped body between double quotes. */
  function EncodeString(s: string): (r: string)
    ensures |r| >= |s| + 2 && r[0] == Quote && r[|r| - 1] == Quote
  {
    [Quote] + Escape(s) + [Quote]
  }

  /** The character a two-character escape `\e` stands for. */
  function SimpleEscape(e: char): (r: Option<char>) {
    match e
    case '"' => Some(Quote)
    case '\\' => Some(Backslash)
    case '/' => Some('/')
    case 'b' => Some(Backspace)
    case 'f' => Some(FormFeed)
    case 'n' => Some('\n')
    case 'r' => Some('\r')
    case 't' => Some('\t')
    case _ => None
  }

  /**
   * A `\uXXXX` escape at the start of `t`, or a surrogate pair written as two
   * of them; the decoded character and how many characters it took.  A lone
   * surrogate is refused: it is not a character.
   */
  function DecodeUnicode(t: string): (r: Option<(char, nat)>)
    requires |t| >= 2 && t[0] == Backslash && t[1] == 'u'
    ensures r.Some? ==> r.value.1 <= |t| && (r.value.1 == 6 || r.value.1 == 12)
  {
    if |t| < 6 then None
    else
      var hi :- ParseHex4(t[2..6]);
      if 0xD800 <= hi < 0xDC00 then
        if |t| < 12 || t[6] != Backslash || t[7] != 'u' then None
        else
          var lo :- ParseHex4(t[8..12]);
          if 0xDC00 <= lo < 0xE000 then
            Some((((hi - 0xD800) * 0x400 + (lo - 0xDC00) + 0x1_0000) as char, 12))
          else None
      else if 0xDC00 <= hi < 0xE000 then None
      else Some((hi as char, 6))
  }

  /** The next character of a string body and how many characters stand for it. */
  function NextChar(t: string): (r: Option<(char, nat)>)
    requires 0 < |t|
    ensures r.Some? ==> 0 < r.value.1 <= |t|
  {
    if t[0] == Backslash then
      if |t| < 2 then None
      else if t[1] == 'u' then DecodeUnicode(t)
      else
        var c :- SimpleEscape(t[1]);
        Some((c, 2))
    else if t[0] < ' ' then None  // raw control characters are not allowed
    else Some((t[0], 1))
  }

  /**
   * Decodes a string body up to and including its closing quote; gives the
   * decoded string and the text after the quote, which is a proper suffix of
   * the input.
   */
  function DecodeBody(t: string): (r: Option<(string, string)>)
    ensures r.Some? ==> |r.value.1| < |t|
    decreases |t|
  {
    if t == [] then None
    else if t[0] == Quote then Some(([], t[1..]))
    else
      var (c, k) :- NextChar(t);
      var (s, rest) :- DecodeBody(t[k..]);
      Some(([c] + s, rest))
  }

  /** Decodes a string literal at the start of `t`; gives the string and what follows it. */
  function DecodeString(t: string): (r: Option<(string, string)>)
    ensures r.Some? ==> |r.value.1| + 2 <= |t|
  {
    if t == [] || t[0] != Quote then None else DecodeBody(t[1..])
  }

  /** A `\uXXXX` escape of a character of the basic plane reads back as that character. */
  lemma DecodeUnicodeOfBasic(c: char, tail: string)
    requires c as int < 0x1_0000
    ensures DecodeUnicode(UnicodeEscape(c as int) + tail) == Some((c, 6))
  {
    var e := UnicodeEscape(c as int);
    var t := e + tail;
    assert t[2..6] == e[2..];
    ParseUnicodeEscape(c as int);
  }

  /** The surrogate pair written for a character above U+FFFF reads back as that character. */
  lemma DecodeUnicodeOfAstral(c: char, tail: string)
    requires c as int >= 0x1_0000
    ensures var n := c as int - 0x1_0000;
      DecodeUnicode(UnicodeEscape(0xD800 + n / 0x400) + UnicodeEscape(0xDC00 + n % 0x400) + tail) == Some((c, 12))
  {
    var n := c as int - 0x1_0000;
    var hi, lo := 0xD800 + n / 0x400, 0xDC00 + n % 0x400;
    var e1, e2 := UnicodeEscape(hi), UnicodeEscape(lo);
    var t := e1 + e2 + tail;
    ParseUnicodeEscape(hi);
    ParseUnicodeEscape(lo);
    assert t[2..6] == e1[2..];
    assert t[6] == e2[0] && t[7] == e2[1];
    assert t[8..12] == e2[2..];
    assert (hi - 0xD800) * 0x400 + (lo - 0xDC00) + 0x1_0000 == c as int;
  }

  /** The decoder reads back the character each escape stands for, and the whole escape. */
  lemma NextCharOfEscape(c: char, tail: string)
    ensures NextChar(EscapeChar(c) + tail) == Some((c, |EscapeChar(c)|))
  {
    var e := EscapeChar(c);
    var t := e + tail;
    if c == Quote || c == Backslash || c == '\n' || c == '\r' || c == '\t' || c == Backspace || c == FormFeed {
      assert t[0] == Backslash && t[1] == e[1];
    } else if Printable(c) {
      assert t[0] == c;
    } else if c as int < 0x1_0000 {
      assert e == UnicodeEscape(c as int);
      DecodeUnicodeOfBasic(c, tail);
    } else {
      var n := c as int - 0x1_0000;
      assert e == UnicodeEscape(0xD800 + n / 0x400) + UnicodeEscape(0xDC00 + n % 0x400);
      DecodeUnicodeOfAstral(c, tail);
    }
  }

  /** Decoding an escaped body followed by a quote gives back the string and the rest. */
  lemma {:induction false} DecodeBodyOfEscape(s: string, rest: string)
    ensures DecodeBody(Escape(s) + [Quote] + rest) == Some((s, rest))
  {
    if s == [] {
      assert Escape(s) + [Quote] + rest == [Quote] + rest;
    } else {
      var e := EscapeChar(s[0]);
      var tail := Escape(s[1..]) + [Quote] + rest;
      assert Escape(s) + [Quote] + rest == e + tail;
      NextCharOfEscape(s[0], tail);
      assert (e + tail)[|e|..] == tail;
      DecodeBodyOfEscape(s[1..], rest);
      assert [s[0]] + s[1..] == s;
    }
  }

  /** Round trip: a string literal decodes to the string it was written from, whatever follows it. */
  lemma DecodeEncodeString(s: string, rest: string)
    ensures DecodeString(EncodeString(s) + rest) == Some((s, rest))
  {
    var t := EncodeString(s) + rest;
    assert t[1..] == Escape(s) + [Quote] + rest;
    DecodeBodyOfEscape(s, rest);
  }

  /** Escaping is injective: two strings with the same literal are the same string. */
  lemma EncodeStringInjective(a: string, b: string)
    requires EncodeString(a) == EncodeString(b)
    ensures a == b
  {
    DecodeEncodeString(a, []);
    DecodeEncodeString(b, []);
    assert EncodeString(a) + [] == EncodeString(b) + [];
  }

  /** `ensure_ascii`: every character of a string literal is printable ASCII. */
  lemma {:induction false} EncodeStringPrintable(s: string)
    ensures AllPrintable(EncodeString(s))
  {
    EscapePrintable(s);
  }

  lemma {:induction false} EscapePrintable(s: string)
    ensures AllPrintable(Escape(s))
  {
    if s != [] {
      EscapePrintable(s[1..]);
      var e, r := EscapeChar(s[0]), Escape(s[1..]);
      assert Escape(s) == e + r;
      assert forall i :: 0 <= i < |e + r| ==> (e + r)[i] == if i < |e| then e[i] else r[i - |e|];
    }
  }

  /** A string with nothing to escape is written as it is, between quotes. */
  lemma {:induction false} EscapeOfPlain(s: string)
    requires forall i :: 0 <= i < |s| ==> Printable(s[i]) && s[i] != Quote && s[i] != Backslash
    ensures Escape(s) == s
  {
    if s != [] {
      EscapeOfPlain(s[1..]);
      assert [s[0]] + s[1..] == s;
    }
  }

  /** Non-ASCII characters of the basic plane, such as U+2019 RIGHT SINGLE QUOTATION MARK, become `\uXXXX`. */
  lemma EscapeRightSingleQuote()
    ensures EscapeChar('\U{2019}') == "\\u2019"
  {
  }
}
