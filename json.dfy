/**
 * The slice of JSON the chat wire protocol uses: objects with one string
 * member, as Python's `json.dumps` writes them with its default settings
 * (`ensure_ascii=True`, separators `", "` and `": "`), and as JavaScript's
 * `JSON.parse` reads them back.
 */
module Json {
  import opened Wrappers
  import opened Text

  /** A one-member JSON object `{key: value}` whose value is a string. */
  datatype Payload = Payload(key: string, value: string)

  /** Lower-case hexadecimal digit, as Python's `'{0:04x}'` writes it. */
  function HexDigit(d: nat): (c: char)
    requires d < 16
  {
    if d < 10 then (('0' as int) + d) as char else (('a' as int) + d - 10) as char
  }

  /** Value of a hexadecimal digit of either case, as `JSON.parse` accepts it. */
  function HexValue(c: char): (r: Option<nat>)
    ensures r.Some? ==> r.value < 16
  {
    if '0' <= c <= '9' then Some(c as int - '0' as int)
    else if 'a' <= c <= 'f' then Some(c as int - 'a' as int + 10)
    else if 'A' <= c <= 'F' then Some(c as int - 'A' as int + 10)
    else None
  }

  /** Four hexadecimal digits of a 16-bit code unit. */
  function Hex4(n: nat): (r: string)
    requires n < 0x1_0000
    ensures |r| == 4
  {
    var n1 := n / 16;
    var n2 := n1 / 16;
    [HexDigit(n2 / 16), HexDigit(n2 % 16), HexDigit(n1 % 16), HexDigit(n % 16)]
  }

  function ParseHex4(d: string): (r: Option<nat>)
    requires |d| == 4
    ensures r.Some? ==> r.value < 0x1_0000
  {
    match (HexValue(d[0]), HexValue(d[1]), HexValue(d[2]), HexValue(d[3]))
    case (Some(a), Some(b), Some(c), Some(e)) => Some(a * 0x1000 + b * 0x100 + c * 0x10 + e)
    case _ => None
  }

  lemma HexDigitValue(d: nat)
    requires d < 16
    ensures HexValue(HexDigit(d)) == Some(d)
  {
  }

  /** Reading back four written digits gives the code unit. */
  lemma Hex4RoundTrip(n: nat)
    requires n < 0x1_0000
    ensures ParseHex4(Hex4(n)) == Some(n)
  {
    var n1 := n / 16;
    var n2 := n1 / 16;
    HexDigitValue(n2 / 16);
    HexDigitValue(n2 % 16);
    HexDigitValue(n1 % 16);
    HexDigitValue(n % 16);
    assert n == n1 * 16 + n % 16;
    assert n1 == n2 * 16 + n1 % 16;
    assert n2 == n2 / 16 * 16 + n2 % 16;
  }

  const HighSurrogateBase := 0xD800
  const LowSurrogateBase := 0xDC00

  /** `\uXXXX` for one UTF-16 code unit. */
  function UnitEscape(u: nat): (r: string)
    requires u < 0x1_0000
    ensures |r| == 6
  {
    "\\u" + Hex4(u)
  }

  /**
   * How `json.dumps` writes one character inside a string literal: the short
   * escapes, printable ASCII as itself, every other character below U+10000 as
   * `\uXXXX`, and the rest as a UTF-16 surrogate pair.
   */
  function EscapeChar(c: char): (r: string)
    ensures |r| >= 1
  {
    if c == '"' then "\\\""
    else if c == '\\' then "\\\\"
    else if c == '\n' then "\\n"
    else if c == '\r' then "\\r"
    else if c == '\t' then "\\t"
    else if c == '\U{8}' then "\\b"
    else if c == '\U{C}' then "\\f"
    else if ' ' <= c <= '~' then [c]
    else if (c as int) < 0x1_0000 then UnitEscape(c as int)
    else
      var v := c as int - 0x1_0000;
      UnitEscape(HighSurrogateBase + v / 0x400) + UnitEscape(LowSurrogateBase + v % 0x400)
  }

  function Escape(s: string): (r: string)
  {
    if s == [] then "" else EscapeChar(s[0]) + Escape(s[1..])
  }

  /** A JSON string literal. */
  function Quote(s: string): string
  {
    "\"" + Escape(s) + "\""
  }

  /** `json.dumps({key: value})`. */
  function Encode(p: Payload): string
  {
    "{" + Quote(p.key) + ": " + Quote(p.value) + "}"
  }

  predicate IsPrintableAscii(c: char) { ' ' <= c <= '~' }

  /** Every character of `s` is printable ASCII. */
  predicate AllPrintable(s: string)
  {
    forall i :: 0 <= i < |s| ==> IsPrintableAscii(s[i])
  }

  /** Reads one code unit written as four hex digits after `\u` at the head of `s`. */
  function UnitAt(s: string): Option<nat>
  {
    if |s| >= 6 && s[0] == '\\' && s[1] == 'u' then ParseHex4(s[2..6]) else None
  }

  /** The character a two-character escape `\x` stands for. */
  function ShortEscape(x: char): Option<char>
  {
    match x
    case '"' => Some('"')
    case '\\' => Some('\\')
    case '/' => Some('/')
    case 'b' => Some('\U{8}')
    case 'f' => Some('\U{C}')
    case 'n' => Some('\n')
    case 'r' => Some('\r')
    case 't' => Some('\t')
    case _ => None
  }

  /**
   * A `\uXXXX` escape, or a surrogate pair of two of them, at the head of
   * `s`: the character and the number of input characters it took.  A
   * surrogate code unit that is not part of a pair is refused, because a
   * Dafny character cannot hold it.
   */
  function DecodeUnicodeEscape(s: string): (r: Option<(char, nat)>)
    ensures r.Some? ==> 6 <= r.value.1 <= |s|
  {
    match UnitAt(s)
    case None => None
    case Some(u) =>
      if u < HighSurrogateBase || u >= 0xE000 then Some((u as char, 6))
      else if u >= LowSurrogateBase then None
      else
        match UnitAt(s[6..])
        case None => None
        case Some(w) =>
          if LowSurrogateBase <= w < 0xE000 then
            Some(((0x1_0000 + (u - HighSurrogateBase) * 0x400 + (w - LowSurrogateBase)) as char, 12))
          else None
  }

  /**
   * `JSON.parse` reading one character of a string literal at the head of
   * `s` (which does not start with the closing quote): the character and the
   * number of input characters it took.  Raw control characters are refused.
   */
  function DecodeOne(s: string): (r: Option<(char, nat)>)
    requires s != []
    ensures r.Some? ==> 1 <= r.value.1 <= |s|
  {
    if s[0] == '\\' then
      if |s| < 2 then None
      else if ShortEscape(s[1]).Some? then Some((ShortEscape(s[1]).value, 2))
      else DecodeUnicodeEscape(s)
    else if s[0] < ' ' then None
    else Some((s[0], 1))
  }

  /** Reads string-literal characters up to the closing quote; returns them and what follows it. */
  function Unescape(s: string): Option<(string, string)>
    decreases |s|
  {
    if s == [] then None
    else if s[0] == '"' then Some(("", s[1..]))
    else
      match DecodeOne(s)
      case None => None
      case Some((c, k)) =>
        match Unescape(s[k..])
        case None => None
        case Some((t, rest)) => Some(([c] + t, rest))
  }

  /** The part of an object after its key: `": "`, the string value, `"}"`. */
  function ParseValuePart(rest: string): Option<string>
  {
    if !StartsWith(rest, ": \"") then None
    else
      match Unescape(rest[3..])
      case None => None
      case Some((value, tail)) => if tail == "}" then Some(value) else None
  }

  /** `JSON.parse` of a text laid out as `Encode` lays it out; anything else is refused. */
  function Parse(s: string): Option<Payload>
  {
    if !StartsWith(s, "{\"") then None
    else
      match Unescape(s[2..])
      case None => None
      case Some((key, rest)) =>
        match ParseValuePart(rest)
        case None => None
        case Some(value) => Some(Payload(key, value))
  }

  /** A written `\uXXXX` escape is read back as its code unit. */
  lemma UnitAtEscape(u: nat, tail: string)
    requires u < 0x1_0000
    ensures UnitAt(UnitEscape(u) + tail) == Some(u)
  {
    var s := UnitEscape(u) + tail;
    Hex4RoundTrip(u);
    assert s[2..6] == Hex4(u);
  }

  /** A character below U+10000 written as `\uXXXX` is read back as itself. */
  lemma DecodeUnit(c: char, tail: string)
    requires (c as int) < 0x1_0000
    ensures DecodeOne(UnitEscape(c as int) + tail) == Some((c, 6))
  {
    var s := UnitEscape(c as int) + tail;
    UnitAtEscape(c as int, tail);
    assert DecodeUnicodeEscape(s) == Some((c, 6));
  }

  /** A high and a low surrogate written as two `\uXXXX` escapes are read back as the character they pair to. */
  lemma DecodeSurrogates(hi: nat, lo: nat, tail: string)
    requires HighSurrogateBase <= hi < LowSurrogateBase && LowSurrogateBase <= lo < 0xE000
    ensures DecodeUnicodeEscape(UnitEscape(hi) + UnitEscape(lo) + tail)
            == Some(((0x1_0000 + (hi - HighSurrogateBase) * 0x400 + (lo - LowSurrogateBase)) as char, 12))
  {
    var after := UnitEscape(lo) + tail;
    var s := UnitEscape(hi) + after;
    assert UnitEscape(hi) + UnitEscape(lo) + tail == s;
    UnitAtEscape(hi, after);
    UnitAtEscape(lo, tail);
    assert s[6..] == after;
  }

  /** A character above U+FFFF written as a surrogate pair is read back as itself. */
  lemma DecodePair(c: char, tail: string)
    requires (c as int) >= 0x1_0000
    ensures var v := c as int - 0x1_0000;
            DecodeUnicodeEscape(UnitEscape(HighSurrogateBase + v / 0x400) + UnitEscape(LowSurrogateBase + v % 0x400) + tail)
              == Some((c, 12))
  {
    var v := c as int - 0x1_0000;
    var q, r := v / 0x400, v % 0x400;
    assert v == q * 0x400 + r && q < 0x400;
    var hi, lo := HighSurrogateBase + q, LowSurrogateBase + r;
    DecodeSurrogates(hi, lo, tail);
    assert 0x1_0000 + (hi - HighSurrogateBase) * 0x400 + (lo - LowSurrogateBase) == c as int;
    assert ((c as int) as char) == c;
  }

  /** Each escaped character is read back as itself. */
  lemma DecodeEscapeChar(c: char, tail: string)
    ensures DecodeOne(EscapeChar(c) + tail) == Some((c, |EscapeChar(c)|))
  {
    if c == '"' || c == '\\' || c == '\n' || c == '\r' || c == '\t' || c == '\U{8}' || c == '\U{C}' {
    } else if ' ' <= c <= '~' {
    } else if (c as int) < 0x1_0000 {
      DecodeUnit(c, tail);
    } else {
      DecodeEscapePair(c, tail);
    }
  }

  /** The escape of a character above U+FFFF is the escapes of its high and low surrogates. */
  lemma PairEscape(c: char)
    requires (c as int) >= 0x1_0000
    ensures var v := c as int - 0x1_0000;
            EscapeChar(c) == UnitEscape(HighSurrogateBase + v / 0x400) + UnitEscape(LowSurrogateBase + v % 0x400)
  {
  }

  /** A character above U+FFFF: its escape is twelve characters long and is read back as itself. */
  lemma DecodeEscapePair(c: char, tail: string)
    requires (c as int) >= 0x1_0000
    ensures |EscapeChar(c)| == 12 && DecodeOne(EscapeChar(c) + tail) == Some((c, 12))
  {
    var e := EscapeChar(c);
    PairEscape(c);
    DecodePair(c, tail);
    assert e[0] == '\\' && e[1] == 'u';
    DecodeOneUnicode(e, tail, (c, 12));
  }

  /** A text that starts with `\u` is read as a unicode escape. */
  lemma DecodeOneUnicode(e: string, tail: string, r: (char, nat))
    requires |e| >= 2 && e[0] == '\\' && e[1] == 'u'
    requires DecodeUnicodeEscape(e + tail) == Some(r)
    ensures DecodeOne(e + tail) == Some(r)
  {
    assert (e + tail)[0] == '\\' && (e + tail)[1] == 'u';
  }

  /** The head of an escaped text never looks like the closing quote. */
  lemma EscapeCharHead(c: char)
    ensures EscapeChar(c)[0] != '"'
  {
  }

  /** `JSON.parse` undoes `json.dumps` on string literals. */
  lemma {:induction false} UnescapeEscape(s: string, rest: string)
    ensures Unescape(Escape(s) + "\"" + rest) == Some((s, rest))
  {
    if s == [] {
    } else {
      var e := EscapeChar(s[0]);
      var after := Escape(s[1..]) + "\"" + rest;
      assert Escape(s) + "\"" + rest == e + after;
      EscapeCharHead(s[0]);
      DecodeEscapeChar(s[0], after);
      assert (e + after)[|e|..] == after;
      UnescapeEscape(s[1..], rest);
      assert [s[0]] + s[1..] == s;
    }
  }

  /** The wire text of a payload parses back to the payload. */
  lemma ParseEncode(p: Payload)
    ensures Parse(Encode(p)) == Some(p)
  {
    var afterKey := ": " + Quote(p.value) + "}";
    EncodeShape(p);
    UnescapeEscape(p.key, afterKey);
    ParseValuePartEncode(p.value);
  }

  lemma EncodeShape(p: Payload)
    ensures StartsWith(Encode(p), "{\"")
    ensures Encode(p)[2..] == Escape(p.key) + "\"" + (": " + Quote(p.value) + "}")
  {
    ObjectShape(Escape(p.key), Escape(p.value));
  }

  /** The layout of a one-member object around its escaped key `k` and value `v`. */
  lemma ObjectShape(k: string, v: string)
    ensures var s := "{" + ("\"" + k + "\"") + ": " + ("\"" + v + "\"") + "}";
            StartsWith(s, "{\"") && s[2..] == k + "\"" + (": " + ("\"" + v + "\"") + "}")
            && s == "{\"" + k + "\": \"" + v + "\"}"
  {
    var rest := ": " + ("\"" + v + "\"") + "}";
    var s := "{" + ("\"" + k + "\"") + rest;
    assert s == ['{', '"'] + (k + "\"" + rest);
  }

  lemma ParseValuePartEncode(v: string)
    ensures ParseValuePart(": " + Quote(v) + "}") == Some(v)
  {
    var rest := ": " + Quote(v) + "}";
    assert rest == ": \"" + (Escape(v) + "\"" + "}");
    assert rest[3..] == Escape(v) + "\"" + "}";
    UnescapeEscape(v, "}");
  }

  /** A `\uXXXX` escape is printable ASCII. */
  lemma UnitEscapePrintable(u: nat)
    requires u < 0x1_0000
    ensures AllPrintable(UnitEscape(u))
  {
    var e := UnitEscape(u);
    assert e == ['\\', 'u'] + Hex4(u);
  }

  /** The escape of one character is printable ASCII. */
  lemma EscapeCharPrintable(c: char)
    ensures AllPrintable(EscapeChar(c))
  {
    if ' ' <= c <= '~' || c == '\n' || c == '\r' || c == '\t' || c == '\U{8}' || c == '\U{C}' {
    } else if (c as int) < 0x1_0000 {
      UnitEscapePrintable(c as int);
    } else {
      PairEscapePrintable(c);
    }
  }

  /** The surrogate-pair escape of a character above U+FFFF is printable ASCII. */
  lemma PairEscapePrintable(c: char)
    requires (c as int) >= 0x1_0000
    ensures AllPrintable(EscapeChar(c))
  {
    var v := c as int - 0x1_0000;
    PairEscape(c);
    UnitsPrintable(HighSurrogateBase + v / 0x400, LowSurrogateBase + v % 0x400);
  }

  /** Two `\uXXXX` escapes in a row are printable ASCII. */
  lemma UnitsPrintable(hi: nat, lo: nat)
    requires hi < 0x1_0000 && lo < 0x1_0000
    ensures AllPrintable(UnitEscape(hi) + UnitEscape(lo))
  {
    UnitEscapePrintable(hi);
    UnitEscapePrintable(lo);
    var e := UnitEscape(hi) + UnitEscape(lo);
    forall i | 0 <= i < |e| ensures IsPrintableAscii(e[i]) {
      if i >= 6 {
        assert e[i] == UnitEscape(lo)[i - 6];
      }
    }
  }

  /** Everything `json.dumps` writes here is printable ASCII. */
  lemma {:induction false} EscapePrintable(s: string)
    ensures AllPrintable(Escape(s))
  {
    if s != [] {
      EscapePrintable(s[1..]);
      var e, t := EscapeChar(s[0]), Escape(s[1..]);
      EscapeCharPrintable(s[0]);
      assert Escape(s) == e + t;
      forall i | 0 <= i < |e + t| ensures IsPrintableAscii((e + t)[i]) {
        if i >= |e| {
          assert (e + t)[i] == t[i - |e|];
        }
      }
    }
  }

  /** Two printable texts laid out as a one-member object give a printable, brace-delimited text. */
  lemma ObjectPrintable(k: string, v: string)
    requires AllPrintable(k) && AllPrintable(v)
    ensures var s := "{\"" + k + "\": \"" + v + "\"}";
            |s| >= 2 && s[0] == '{' && s[|s| - 1] == '}' && AllPrintable(s)
  {
    var s := "{\"" + k + "\": \"" + v + "\"}";
    forall i | 0 <= i < |s| ensures IsPrintableAscii(s[i]) {
      if i < 2 {
      } else if i < 2 + |k| {
        assert s[i] == k[i - 2];
      } else if i < 6 + |k| {
      } else if i < 6 + |k| + |v| {
        assert s[i] == v[i - 6 - |k|];
      }
    }
  }

  /** The wire text of a payload is printable ASCII and is delimited by braces. */
  lemma EncodePrintable(p: Payload)
    ensures var s := Encode(p);
            |s| >= 2 && s[0] == '{' && s[|s| - 1] == '}' && AllPrintable(s)
  {
    var k, v := Escape(p.key), Escape(p.value);
    EscapePrintable(p.key);
    EscapePrintable(p.value);
    ObjectPrintable(k, v);
    ObjectShape(k, v);
  }
}
