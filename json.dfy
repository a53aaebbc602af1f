/** The one JSON document the credential store writes and reads back: the object
    `{identifier, password}` as `JSON.stringify` prints it (RFC 8259, with the escapes
    section 25.5.2.3 of ECMA-262 picks), and the part of `JSON.parse` that reads such a
    document. */
module Json {
  import opened Wrappers
  import Base64

  datatype Credentials = Credentials(identifier: string, password: string)

  function HexDigit(v: int): (c: char)
    requires 0 <= v < 16
  {
    if v < 10 then ('0' as int + v) as char else ('a' as int + v - 10) as char
  }

  /** The value of a hexadecimal digit of either case, or -1. */
  function HexValue(c: char): (v: int)
    ensures -1 <= v < 16
  {
    if '0' <= c <= '9' then c as int - '0' as int
    else if 'a' <= c <= 'f' then c as int - 'a' as int + 10
    else if 'A' <= c <= 'F' then c as int - 'A' as int + 10
    else -1
  }

  /** How `JSON.stringify` writes one character inside a string literal. */
  function EscapeChar(c: char): (r: string)
    ensures |r| >= 1
  {
    if c == '"' then "\\\""
    else if c == '\\' then "\\\\"
    else if c == '\U{8}' then "\\b"
    else if c == '\U{C}' then "\\f"
    else if c == '\n' then "\\n"
    else if c == '\r' then "\\r"
    else if c == '\t' then "\\t"
    else if c < ' ' then "\\u00" + [HexDigit(c as int / 16), HexDigit(c as int % 16)]
    else [c]
  }

  function Escape(s: string): string
  {
    if s == [] then [] else EscapeChar(s[0]) + Escape(s[1..])
  }

  /** `JSON.stringify(s)` for a string. */
  function Quote(s: string): string
  {
    "\"" + Escape(s) + "\""
  }

  /** `JSON.stringify({ identifier, password })`. */
  function Stringify(c: Credentials): string
  {
    "{\"identifier\":" + Quote(c.identifier) + ",\"password\":" + Quote(c.password) + "}"
  }

  /** The character a one-letter escape stands for, if the letter is one. */
  function ShortEscape(e: char): Option<char>
  {
    if e == '"' then Some('"')
    else if e == '\\' then Some('\\')
    else if e == '/' then Some('/')
    else if e == 'b' then Some('\U{8}')
    else if e == 'f' then Some('\U{C}')
    else if e == 'n' then Some('\n')
    else if e == 'r' then Some('\r')
    else if e == 't' then Some('\t')
    else None
  }

  /** The code unit of a `\uXXXX` escape whose four digits start `t`, or -1. */
  function UnicodeEscape(t: string): (v: int)
    requires |t| >= 4
    ensures -1 <= v < 0x10000
  {
    var d0, d1, d2, d3 := HexValue(t[0]), HexValue(t[1]), HexValue(t[2]), HexValue(t[3]);
    if d0 < 0 || d1 < 0 || d2 < 0 || d3 < 0 then -1
    else ((d0 * 16 + d1) * 16 + d2) * 16 + d3
  }

  /** Reads the characters of a string literal up to its closing quote, which `t` no
      longer starts with; gives the text and what follows the closing quote. A raw
      control character, an unknown escape, a `\u` escape of a UTF-16 surrogate and a
      missing closing quote are errors. */
  function ParseChars(t: string): (r: Option<(string, string)>)
    ensures r.Some? ==> |r.value.1| < |t|
    decreases |t|
  {
    if t == [] then None
    else if t[0] == '"' then Some(([], t[1..]))
    else if t[0] < ' ' then None
    else if t[0] == '\\' then
      if |t| < 2 then None
      else if t[1] == 'u' then
        if |t| < 6 then None
        else
          var v := UnicodeEscape(t[2..6]);
          if v < 0 || (0xD800 <= v < 0xE000) then None
          else Prepend(v as char, ParseChars(t[6..]))
      else
        match ShortEscape(t[1])
        case None => None
        case Some(c) => Prepend(c, ParseChars(t[2..]))
    else Prepend(t[0], ParseChars(t[1..]))
  }

  function Prepend(c: char, r: Option<(string, string)>): (p: Option<(string, string)>)
    ensures p.Some? <==> r.Some?
    ensures p.Some? ==> p.value.1 == r.value.1
  {
    match r
    case None => None
    case Some((s, rest)) => Some(([c] + s, rest))
  }

  /** A string literal at the start of `t`. */
  function ParseString(t: string): (r: Option<(string, string)>)
    ensures r.Some? ==> |r.value.1| < |t|
  {
    if t != [] && t[0] == '"' then ParseChars(t[1..]) else None
  }

  /** `JSON.parse(text)` when the text is the credentials object in the layout
      `JSON.stringify` prints it; None stands for a thrown SyntaxError and for a
      document of any other shape. */
  function ParseCredentials(text: string): Option<Credentials>
  {
    var open := "{\"identifier\":";
    var sep := ",\"password\":";
    if !(open <= text) then None
    else match ParseString(text[|open|..])
      case None => None
      case Some((identifier, rest)) =>
        if !(sep <= rest) then None
        else match ParseString(rest[|sep|..])
          case None => None
          case Some((password, tail)) =>
            if tail == "}" then Some(Credentials(identifier, password)) else None
  }

  /** The escape of a control character reads back as that character. */
  lemma ControlRoundTrip(c: char, more: string)
    requires c < ' ' && c != '\U{8}' && c != '\U{C}' && c != '\n' && c != '\r' && c != '\t'
    ensures ParseChars(EscapeChar(c) + more) == Prepend(c, ParseChars(more))
  {
    var t := EscapeChar(c) + more;
    var hi, lo := c as int / 16, c as int % 16;
    assert t[2..6] == ['0', '0', HexDigit(hi), HexDigit(lo)];
    assert UnicodeEscape(t[2..6]) == c as int;
    assert t[6..] == more;
  }

  /** One escaped character reads back as itself, whatever follows it. */
  lemma EscapeCharRoundTrip(c: char, more: string)
    ensures ParseChars(EscapeChar(c) + more) == Prepend(c, ParseChars(more))
  {
    var t := EscapeChar(c) + more;
    if c == '"' || c == '\\' || c == '\U{8}' || c == '\U{C}' || c == '\n' || c == '\r' || c == '\t' {
      assert t[2..] == more;
    } else if c < ' ' {
      ControlRoundTrip(c, more);
    } else {
      assert t[1..] == more;
    }
  }

  /** The escaped text of `s`, then the closing quote, reads back as `s`. */
  lemma {:induction false} EscapeRoundTrip(s: string, rest: string)
    ensures ParseChars(Escape(s) + "\"" + rest) == Some((s, rest))
  {
    if s == [] {
      assert Escape(s) + "\"" + rest == "\"" + rest;
      assert ("\"" + rest)[1..] == rest;
    } else {
      var more := Escape(s[1..]) + "\"" + rest;
      assert Escape(s) + "\"" + rest == EscapeChar(s[0]) + more;
      EscapeCharRoundTrip(s[0], more);
      EscapeRoundTrip(s[1..], rest);
      assert [s[0]] + s[1..] == s;
    }
  }

  lemma QuoteRoundTrip(s: string, rest: string)
    ensures ParseString(Quote(s) + rest) == Some((s, rest))
  {
    var t := Quote(s) + rest;
    assert t[1..] == Escape(s) + "\"" + rest;
    EscapeRoundTrip(s, rest);
  }

  lemma PrefixOf(a: string, b: string)
    ensures a <= a + b && (a + b)[|a|..] == b
  {
  }

  /** `JSON.parse(JSON.stringify(c))` gives back `c`. */
  lemma {:induction false} RoundTrip(c: Credentials)
    ensures ParseCredentials(Stringify(c)) == Some(c)
  {
    var open := "{\"identifier\":";
    var sep := ",\"password\":";
    var afterId := sep + (Quote(c.password) + "}");
    assert Stringify(c) == open + (Quote(c.identifier) + afterId);
    PrefixOf(open, Quote(c.identifier) + afterId);
    QuoteRoundTrip(c.identifier, afterId);
    PrefixOf(sep, Quote(c.password) + "}");
    QuoteRoundTrip(c.password, "}");
  }

  lemma Latin1Concat(a: string, b: string)
    ensures Base64.IsLatin1(a + b) <==> Base64.IsLatin1(a) && Base64.IsLatin1(b)
  {
    if Base64.IsLatin1(a + b) {
      assert forall i :: 0 <= i < |a| ==> a[i] == (a + b)[i];
      assert forall i :: 0 <= i < |b| ==> b[i] == (a + b)[|a| + i];
    }
  }

  /** Escaping keeps every character above U+001F and writes the rest in ASCII, so the
      escaped text is within Latin-1 exactly when the original is. */
  lemma {:induction false} EscapeLatin1(s: string)
    ensures Base64.IsLatin1(Escape(s)) <==> Base64.IsLatin1(s)
  {
    if s != [] {
      EscapeLatin1(s[1..]);
      Latin1Concat(EscapeChar(s[0]), Escape(s[1..]));
      Latin1Concat([s[0]], s[1..]);
      assert [s[0]] + s[1..] == s;
    }
  }

  /** A quoted string is within Latin-1 exactly when the string is. */
  lemma QuoteLatin1(s: string)
    ensures Base64.IsLatin1(Quote(s)) <==> Base64.IsLatin1(s)
  {
    EscapeLatin1(s);
    Latin1Concat("\"", Escape(s));
    Latin1Concat("\"" + Escape(s), "\"");
  }

  lemma Latin1Five(a: string, b: string, c: string, d: string, e: string)
    ensures Base64.IsLatin1(a + b + c + d + e)
      <==> Base64.IsLatin1(a) && Base64.IsLatin1(b) && Base64.IsLatin1(c)
           && Base64.IsLatin1(d) && Base64.IsLatin1(e)
  {
    Latin1Concat(a, b);
    Latin1Concat(a + b, c);
    Latin1Concat(a + b + c, d);
    Latin1Concat(a + b + c + d, e);
  }

  /** The document is within Latin-1 exactly when both fields are. */
  lemma StringifyLatin1(c: Credentials)
    ensures Base64.IsLatin1(Stringify(c)) <==> Base64.IsLatin1(c.identifier) && Base64.IsLatin1(c.password)
  {
    var open := "{\"identifier\":";
    var sep := ",\"password\":";
    QuoteLatin1(c.identifier);
    QuoteLatin1(c.password);
    assert Base64.IsLatin1(open) && Base64.IsLatin1(sep) && Base64.IsLatin1("}");
    Latin1Five(open, Quote(c.identifier), sep, Quote(c.password), "}");
  }
}
