/** `btoa` and `atob` of the HTML standard: base64 as in section 4 of RFC 4648 over
    strings whose characters are all at most U+00FF (each character is one byte).
    `btoa` refuses any other character; `atob` is the standard's "forgiving-base64
    decode": it ignores ASCII white space, accepts the padding as optional, and fails
    on any other stray character. */
module Base64 {
  import opened Wrappers

  predicate IsLatin1(s: string) { forall i :: 0 <= i < |s| ==> s[i] as int < 256 }

  /** The 64-character alphabet of RFC 4648, table 1. */
  function SextetChar(v: int): (c: char)
    requires 0 <= v < 64
  {
    if v < 26 then ('A' as int + v) as char
    else if v < 52 then ('a' as int + v - 26) as char
    else if v < 62 then ('0' as int + v - 52) as char
    else if v == 62 then '+'
    else '/'
  }

  predicate InAlphabet(c: char)
  {
    'A' <= c <= 'Z' || 'a' <= c <= 'z' || '0' <= c <= '9' || c == '+' || c == '/'
  }

  /** The value of an alphabet character (0 for any other character, which the decoder
      rejects before it gets here). */
  function SextetValue(c: char): (v: int)
    ensures 0 <= v < 64
    ensures InAlphabet(c) ==> SextetChar(v) == c
  {
    if 'A' <= c <= 'Z' then c as int - 'A' as int
    else if 'a' <= c <= 'z' then c as int - 'a' as int + 26
    else if '0' <= c <= '9' then c as int - '0' as int + 52
    else if c == '+' then 62
    else if c == '/' then 63
    else 0
  }

  lemma SextetCharInAlphabet(v: int)
    requires 0 <= v < 64
    ensures InAlphabet(SextetChar(v)) && SextetValue(SextetChar(v)) == v
  {
  }

  /** Three bytes become four characters. */
  function EncodeGroup(b0: int, b1: int, b2: int): (r: string)
    requires 0 <= b0 < 256 && 0 <= b1 < 256 && 0 <= b2 < 256
    ensures |r| == 4 && forall i :: 0 <= i < 4 ==> InAlphabet(r[i])
  {
    SextetCharInAlphabet(b0 / 4);
    SextetCharInAlphabet((b0 % 4) * 16 + b1 / 16);
    SextetCharInAlphabet((b1 % 16) * 4 + b2 / 64);
    SextetCharInAlphabet(b2 % 64);
    [SextetChar(b0 / 4), SextetChar((b0 % 4) * 16 + b1 / 16),
     SextetChar((b1 % 16) * 4 + b2 / 64), SextetChar(b2 % 64)]
  }

  /** The characters of the encoding before its padding: a group of four per three
      bytes, then two characters for a last single byte or three for a last pair. */
  function EncodeUnpadded(s: string): (r: string)
    requires IsLatin1(s)
    ensures forall i :: 0 <= i < |r| ==> InAlphabet(r[i])
    ensures s != [] ==> |r| >= 2
  {
    if |s| >= 3 then EncodeGroup(s[0] as int, s[1] as int, s[2] as int) + EncodeUnpadded(s[3..])
    else if |s| == 2 then
      SextetCharInAlphabet(s[0] as int / 4);
      SextetCharInAlphabet((s[0] as int % 4) * 16 + s[1] as int / 16);
      SextetCharInAlphabet((s[1] as int % 16) * 4);
      [SextetChar(s[0] as int / 4), SextetChar((s[0] as int % 4) * 16 + s[1] as int / 16),
       SextetChar((s[1] as int % 16) * 4)]
    else if |s| == 1 then
      SextetCharInAlphabet(s[0] as int / 4);
      SextetCharInAlphabet((s[0] as int % 4) * 16);
      [SextetChar(s[0] as int / 4), SextetChar((s[0] as int % 4) * 16)]
    else []
  }

  /** `=` characters that complete the last block of four. */
  function Padding(s: string): (r: string)
    ensures r == "" || r == "=" || r == "=="
  {
    if |s| >= 3 then Padding(s[3..]) else if |s| == 2 then "=" else if |s| == 1 then "==" else ""
  }

  /** `btoa(s)`: fails (an InvalidCharacterError) when a character is beyond U+00FF. */
  function Btoa(s: string): (r: Option<string>)
    ensures r.Some? <==> IsLatin1(s)
  {
    if IsLatin1(s) then Some(EncodeUnpadded(s) + Padding(s)) else None
  }

  /** ASCII white space as the forgiving decoder strips it. */
  predicate IsAsciiWhitespace(c: char)
  {
    c == '\t' || c == '\n' || c == '\U{C}' || c == '\r' || c == ' '
  }

  function StripWhitespace(s: string): (r: string)
    ensures |r| <= |s|
    ensures (forall i :: 0 <= i < |s| ==> !IsAsciiWhitespace(s[i])) ==> r == s
  {
    if s == [] then []
    else if IsAsciiWhitespace(s[0]) then StripWhitespace(s[1..])
    else [s[0]] + StripWhitespace(s[1..])
  }

  /** Drops one or two trailing `=` when the length is a multiple of four. */
  function StripPadding(s: string): string
  {
    if |s| % 4 == 0 && |s| >= 2 && s[|s| - 2..] == "==" then s[..|s| - 2]
    else if |s| % 4 == 0 && |s| >= 1 && s[|s| - 1] == '=' then s[..|s| - 1]
    else s
  }

  /** Decodes alphabet characters four at a time; a final block of two or three
      characters gives one or two bytes, and the left-over bits are dropped. */
  function DecodeChars(s: string): (r: string)
    ensures IsLatin1(r)
  {
    if |s| <= 1 then []
    else if |s| == 2 then
      [(SextetValue(s[0]) * 4 + SextetValue(s[1]) / 16) as char]
    else if |s| == 3 then
      [(SextetValue(s[0]) * 4 + SextetValue(s[1]) / 16) as char,
       ((SextetValue(s[1]) % 16) * 16 + SextetValue(s[2]) / 4) as char]
    else
      var c0, c1, c2, c3 := SextetValue(s[0]), SextetValue(s[1]), SextetValue(s[2]), SextetValue(s[3]);
      [(c0 * 4 + c1 / 16) as char, ((c1 % 16) * 16 + c2 / 4) as char, ((c2 % 4) * 64 + c3) as char]
        + DecodeChars(s[4..])
  }

  /** `atob(s)`: None where the standard throws an InvalidCharacterError. */
  function Atob(s: string): (r: Option<string>)
    ensures r.Some? ==> IsLatin1(r.value)
  {
    var t := StripPadding(StripWhitespace(s));
    if |t| % 4 == 1 then None
    else if exists i :: 0 <= i < |t| && !InAlphabet(t[i]) then None
    else Some(DecodeChars(t))
  }

  /** The sextets of a group put back together give the three bytes. */
  lemma SextetArithmetic(b0: int, b1: int, b2: int)
    requires 0 <= b0 < 256 && 0 <= b1 < 256 && 0 <= b2 < 256
    ensures (b0 / 4) * 4 + ((b0 % 4) * 16 + b1 / 16) / 16 == b0
    ensures (((b0 % 4) * 16 + b1 / 16) % 16) * 16 + ((b1 % 16) * 4 + b2 / 64) / 4 == b1
    ensures (((b1 % 16) * 4 + b2 / 64) % 4) * 64 + b2 % 64 == b2
  {
  }

  lemma GroupRoundTrip(b0: int, b1: int, b2: int)
    requires 0 <= b0 < 256 && 0 <= b1 < 256 && 0 <= b2 < 256
    ensures var g := EncodeGroup(b0, b1, b2);
      (forall i :: 0 <= i < 4 ==> InAlphabet(g[i]))
      && DecodeChars(g) == [b0 as char, b1 as char, b2 as char]
  {
    var c0, c1, c2, c3 := b0 / 4, (b0 % 4) * 16 + b1 / 16, (b1 % 16) * 4 + b2 / 64, b2 % 64;
    SextetCharInAlphabet(c0);
    SextetCharInAlphabet(c1);
    SextetCharInAlphabet(c2);
    SextetCharInAlphabet(c3);
    SextetArithmetic(b0, b1, b2);
    var g := EncodeGroup(b0, b1, b2);
    assert g == [SextetChar(c0), SextetChar(c1), SextetChar(c2), SextetChar(c3)];
    assert g[4..] == [];
    assert DecodeChars(g) == [(c0 * 4 + c1 / 16) as char, ((c1 % 16) * 16 + c2 / 4) as char,
                              ((c2 % 4) * 64 + c3) as char] + DecodeChars(g[4..]);
  }

  lemma ModFourStep(x: nat, y: nat)
    requires y == 4 + x
    ensures y % 4 == x % 4
  {
  }

  /** A leading block of four characters decodes on its own. */
  lemma DecodeBlock(g: string, rest: string)
    requires |g| == 4
    ensures DecodeChars(g + rest) == DecodeChars(g) + DecodeChars(rest)
  {
    assert (g + rest)[4..] == rest;
    assert g[4..] == [];
  }

  lemma LeadingBytes(s: string)
    requires |s| >= 3
    ensures s == [s[0] as int as char, s[1] as int as char, s[2] as int as char] + s[3..]
  {
  }

  lemma SingleRoundTrip(b0: int)
    requires 0 <= b0 < 256
    ensures DecodeChars([SextetChar(b0 / 4), SextetChar((b0 % 4) * 16)]) == [b0 as char]
  {
    SextetCharInAlphabet(b0 / 4);
    SextetCharInAlphabet((b0 % 4) * 16);
  }

  lemma PairRoundTrip(b0: int, b1: int)
    requires 0 <= b0 < 256 && 0 <= b1 < 256
    ensures DecodeChars([SextetChar(b0 / 4), SextetChar((b0 % 4) * 16 + b1 / 16),
                         SextetChar((b1 % 16) * 4)]) == [b0 as char, b1 as char]
  {
    var c0, c1, c2 := b0 / 4, (b0 % 4) * 16 + b1 / 16, (b1 % 16) * 4;
    SextetCharInAlphabet(c0);
    SextetCharInAlphabet(c1);
    SextetCharInAlphabet(c2);
    SextetArithmetic(b0, b1, 0);
  }

  lemma TailRoundTrip(s: string)
    requires IsLatin1(s) && |s| < 3
    ensures DecodeChars(EncodeUnpadded(s)) == s
  {
    if |s| == 1 {
      SingleTail(s);
    } else if |s| == 2 {
      PairTail(s);
    }
  }

  lemma SingleTail(s: string)
    requires IsLatin1(s) && |s| == 1
    ensures DecodeChars(EncodeUnpadded(s)) == s
  {
    var b0 := s[0] as int;
    assert EncodeUnpadded(s) == [SextetChar(b0 / 4), SextetChar((b0 % 4) * 16)];
    SingleRoundTrip(b0);
    assert s == [b0 as char];
  }

  lemma PairTail(s: string)
    requires IsLatin1(s) && |s| == 2
    ensures DecodeChars(EncodeUnpadded(s)) == s
  {
    var b0, b1 := s[0] as int, s[1] as int;
    assert EncodeUnpadded(s) == [SextetChar(b0 / 4), SextetChar((b0 % 4) * 16 + b1 / 16),
                                 SextetChar((b1 % 16) * 4)];
    PairRoundTrip(b0, b1);
    assert s == [b0 as char, b1 as char];
  }

  /** Decoding the unpadded encoding gives back the bytes. */
  lemma {:induction false} UnpaddedRoundTrip(s: string)
    requires IsLatin1(s)
    ensures DecodeChars(EncodeUnpadded(s)) == s
  {
    if |s| < 3 {
      TailRoundTrip(s);
    } else {
      assert IsLatin1(s[3..]);
      var g := EncodeGroup(s[0] as int, s[1] as int, s[2] as int);
      var tail := EncodeUnpadded(s[3..]);
      calc {
        DecodeChars(EncodeUnpadded(s));
        DecodeChars(g + tail);
        { DecodeBlock(g, tail); }
        DecodeChars(g) + DecodeChars(tail);
        { GroupRoundTrip(s[0] as int, s[1] as int, s[2] as int); UnpaddedRoundTrip(s[3..]); }
        [s[0] as int as char, s[1] as int as char, s[2] as int as char] + s[3..];
        { LeadingBytes(s); }
        s;
      }
    }
  }

  lemma UnpaddedStep(s: string)
    requires IsLatin1(s) && |s| >= 3
    ensures IsLatin1(s[3..])
    ensures |EncodeUnpadded(s)| == 4 + |EncodeUnpadded(s[3..])|
    ensures Padding(s) == Padding(s[3..])
  {
    assert |EncodeGroup(s[0] as int, s[1] as int, s[2] as int)| == 4;
  }

  /** The encoding and its padding fill whole blocks of four, and the padding is at
      most two characters. */
  lemma {:induction false} EncodedLength(s: string)
    requires IsLatin1(s)
    ensures (|EncodeUnpadded(s)| + |Padding(s)|) % 4 == 0
    ensures |EncodeUnpadded(s)| % 4 != 1
    ensures |Padding(s)| <= 2 && (s == [] ==> Padding(s) == "")
  {
    if |s| >= 3 {
      UnpaddedStep(s);
      EncodedLength(s[3..]);
      ModFourStep(|EncodeUnpadded(s[3..])| + |Padding(s[3..])|, |EncodeUnpadded(s)| + |Padding(s)|);
      ModFourStep(|EncodeUnpadded(s[3..])|, |EncodeUnpadded(s)|);
    }
  }

  lemma StripWhitespaceKeeps(s: string)
    requires forall i :: 0 <= i < |s| ==> InAlphabet(s[i]) || s[i] == '='
    ensures StripWhitespace(s) == s
  {
  }

  lemma NoWhitespace(body: string, pad: string)
    requires forall i :: 0 <= i < |body| ==> InAlphabet(body[i])
    requires pad == "" || pad == "=" || pad == "=="
    ensures StripWhitespace(body + pad) == body + pad
  {
    var e := body + pad;
    assert forall i :: 0 <= i < |e| ==> InAlphabet(e[i]) || e[i] == '=' by {
      forall i | 0 <= i < |e| ensures InAlphabet(e[i]) || e[i] == '=' {
        if i < |body| { assert e[i] == body[i]; } else { assert e[i] == pad[i - |body|]; }
      }
    }
    StripWhitespaceKeeps(e);
  }

  /** Removing the padding of `btoa`'s output leaves the unpadded encoding. */
  lemma PaddingStripped(s: string)
    requires IsLatin1(s)
    ensures StripPadding(StripWhitespace(EncodeUnpadded(s) + Padding(s))) == EncodeUnpadded(s)
  {
    var body, pad := EncodeUnpadded(s), Padding(s);
    EncodedLength(s);
    NoWhitespace(body, pad);
    StripPaddingOf(body, pad);
  }

  /** Alphabet characters followed by up to two `=` that fill whole blocks of four:
      stripping the padding leaves the alphabet characters. */
  lemma StripPaddingOf(body: string, pad: string)
    requires forall i :: 0 <= i < |body| ==> InAlphabet(body[i])
    requires pad == "" || pad == "=" || pad == "=="
    requires (|body| + |pad|) % 4 == 0
    requires body == [] ==> pad == ""
    ensures StripPadding(body + pad) == body
  {
    var e := body + pad;
    if pad == "==" {
      assert e[|e| - 2..] == "==";
      assert e[..|e| - 2] == body;
    } else if pad == "=" {
      assert e[..|e| - 1] == body;
      assert e[|e| - 2] == body[|body| - 1];
    } else if body != [] {
      assert e == body;
      assert InAlphabet(body[|body| - 1]);
    } else {
      assert e == [];
    }
  }

  /** `atob(btoa(s)) == s` for every string `btoa` accepts. */
  lemma RoundTrip(s: string)
    requires IsLatin1(s)
    ensures Btoa(s).Some? && Atob(Btoa(s).value) == Some(s)
  {
    var body := EncodeUnpadded(s);
    PaddingStripped(s);
    EncodedLength(s);
    assert !exists i :: 0 <= i < |body| && !InAlphabet(body[i]);
    UnpaddedRoundTrip(s);
  }
}
