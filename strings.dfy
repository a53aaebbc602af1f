/** Character and string helpers standing in for the JavaScript string built-ins the
    components call: `replace(/\D/g, '')`, `startsWith`, `includes`, `toLowerCase`,
    `trim` and number-to-string conversion. */
module Strings {

  predicate IsDigit(c: char) { '0' <= c <= '9' }

  predicate AllDigits(s: string) { forall i :: 0 <= i < |s| ==> IsDigit(s[i]) }

  /** `s.replace(/\D/g, '')`: the digits of `s`, in order. */
  function DigitsOf(s: string): (r: string)
    ensures AllDigits(r)
    ensures |r| <= |s|
    ensures AllDigits(s) ==> r == s
  {
    if s == [] then []
    else if IsDigit(s[0]) then [s[0]] + DigitsOf(s[1..])
    else DigitsOf(s[1..])
  }

  /** Cleaning keeps exactly the digits: a character is in the result if and only if
      it is a digit of the input. */
  lemma {:induction false} DigitsOfKeepsDigits(s: string, c: char)
    ensures c in DigitsOf(s) <==> c in s && IsDigit(c)
  {
    if s != [] {
      DigitsOfKeepsDigits(s[1..], c);
      assert s == [s[0]] + s[1..];
    }
  }

  /** Cleaning is distributive over concatenation. */
  lemma {:induction false} DigitsOfAppend(a: string, b: string)
    ensures DigitsOf(a + b) == DigitsOf(a) + DigitsOf(b)
  {
    if a != [] {
      assert (a + b)[0] == a[0];
      assert (a + b)[1..] == a[1..] + b;
      DigitsOfAppend(a[1..], b);
      if IsDigit(a[0]) {
        calc {
          DigitsOf(a + b);
          [a[0]] + DigitsOf(a[1..] + b);
          [a[0]] + (DigitsOf(a[1..]) + DigitsOf(b));
          ([a[0]] + DigitsOf(a[1..])) + DigitsOf(b);
        }
      }
    } else {
      assert a + b == b;
    }
  }

  /** `s.startsWith(p)`. */
  predicate StartsWith(s: string, p: string) { p <= s }

  /** `s.includes(t)`: `t` occurs in `s` as a contiguous block. */
  predicate Contains(s: string, t: string)
    decreases |s|
  {
    t <= s || (|s| > 0 && Contains(s[1..], t))
  }

  /** `t` occurs in `s` starting at index `i`. */
  predicate OccursAt(s: string, t: string, i: int)
  {
    0 <= i && i + |t| <= |s| && s[i..i + |t|] == t
  }

  /** `includes` means an occurrence at some index. */
  lemma {:induction false} ContainsIff(s: string, t: string)
    ensures Contains(s, t) <==> exists i :: OccursAt(s, t, i)
    decreases |s|
  {
    if t <= s {
      assert OccursAt(s, t, 0);
    } else if |s| == 0 {
      assert t != [];
    } else {
      ContainsIff(s[1..], t);
      if exists i :: OccursAt(s, t, i) {
        var i :| OccursAt(s, t, i);
        assert i != 0;
        assert s[1..][i - 1..i - 1 + |t|] == s[i..i + |t|];
        assert OccursAt(s[1..], t, i - 1);
      }
      if Contains(s[1..], t) {
        var i :| OccursAt(s[1..], t, i);
        assert s[i + 1..i + 1 + |t|] == s[1..][i..i + |t|];
        assert OccursAt(s, t, i + 1);
      }
    }
  }

  /** Every string includes the empty string. */
  lemma ContainsEmpty(s: string)
    ensures Contains(s, "")
  {
  }

  /** An occurrence inside a part is an occurrence in the whole. */
  lemma OccursAfter(a: string, t: string, b: string)
    ensures OccursAt(a + t + b, t, |a|)
  {
    assert (a + t + b)[|a|..|a| + |t|] == t;
  }

  lemma ContainsInfix(a: string, t: string, b: string)
    ensures Contains(a + t + b, t)
  {
    OccursAfter(a, t, b);
    ContainsIff(a + t + b, t);
  }

  /** `s.includes(c)` for a one-character string is membership. */
  lemma ContainsChar(s: string, c: char)
    ensures Contains(s, [c]) <==> c in s
  {
    ContainsIff(s, [c]);
    if c in s {
      var i :| 0 <= i < |s| && s[i] == c;
      assert OccursAt(s, [c], i);
    }
    if exists i :: OccursAt(s, [c], i) {
      var i :| OccursAt(s, [c], i);
      assert s[i] == s[i..i + 1][0];
    }
  }

  /** `s.length` in JavaScript: UTF-16 code units, two for a character beyond
      U+FFFF. */
  function Utf16Length(s: string): (n: nat)
    ensures |s| <= n <= 2 * |s|
    ensures (forall i :: 0 <= i < |s| ==> s[i] as int <= 0xFFFF) ==> n == |s|
  {
    if s == [] then 0 else (if s[0] as int > 0xFFFF then 2 else 1) + Utf16Length(s[1..])
  }

  /** `String.prototype.toLowerCase` on one character, for the Basic Latin and Latin-1
      letters: A-Z and U+00C0-U+00DE except U+00D7 map 0x20 down; every other character
      is left alone. */
  function LowerChar(c: char): (r: char)
    ensures IsDigit(c) ==> r == c
    ensures r == c || ('A' <= c <= 'Z' && r as int == c as int + 32)
                   || ('\U{C0}' <= c <= '\U{DE}' && c != '\U{D7}' && r as int == c as int + 32)
  {
    if 'A' <= c <= 'Z' || ('\U{C0}' <= c <= '\U{DE}' && c != '\U{D7}') then (c as int + 32) as char
    else c
  }

  function ToLower(s: string): (r: string)
    ensures |r| == |s|
    ensures forall i :: 0 <= i < |s| ==> r[i] == LowerChar(s[i])
  {
    if s == [] then [] else [LowerChar(s[0])] + ToLower(s[1..])
  }

  /** Lower-casing is idempotent: an already lower-cased string is unchanged. */
  lemma ToLowerIdempotent(s: string)
    ensures ToLower(ToLower(s)) == ToLower(s)
  {
    var l := ToLower(s);
    assert forall i :: 0 <= i < |l| ==> LowerChar(l[i]) == l[i];
  }

  /** `s.toLowerCase().includes(t.toLowerCase())`: the search used by the admin lists. */
  predicate IncludesIgnoringCase(s: string, t: string)
  {
    Contains(ToLower(s), ToLower(t))
  }

  /** Lower-casing the search term first changes nothing: the search does it anyway. */
  lemma IncludesLoweredTerm(s: string, t: string)
    ensures IncludesIgnoringCase(s, ToLower(t)) <==> IncludesIgnoringCase(s, t)
  {
    ToLowerIdempotent(t);
  }

  /** The empty search term is included in every string. */
  lemma IncludesEmptyTerm(s: string)
    ensures IncludesIgnoringCase(s, "")
  {
    assert ToLower("") == "";
    ContainsEmpty(ToLower(s));
  }

  /** The characters `String.prototype.trim` removes: WhiteSpace and LineTerminator of
      sections 12.2 and 12.3 of ECMA-262. */
  predicate IsJsWhitespace(c: char)
  {
    c == '\t' || c == '\n' || c == '\U{B}' || c == '\U{C}' || c == '\r' || c == ' '
    || c == '\U{A0}' || c == '\U{1680}' || ('\U{2000}' <= c <= '\U{200A}')
    || c == '\U{2028}' || c == '\U{2029}' || c == '\U{202F}' || c == '\U{205F}'
    || c == '\U{3000}' || c == '\U{FEFF}'
  }

  /** Where `trimStart` cuts: the number of leading white-space characters. */
  function TrimStartIndex(s: string): (i: nat)
    ensures i <= |s|
    ensures forall k :: 0 <= k < i ==> IsJsWhitespace(s[k])
    ensures i < |s| ==> !IsJsWhitespace(s[i])
  {
    if s != [] && IsJsWhitespace(s[0]) then 1 + TrimStartIndex(s[1..]) else 0
  }

  /** Where `trimEnd` cuts: the length without the trailing white-space characters. */
  function TrimEndIndex(s: string): (j: nat)
    ensures j <= |s|
    ensures forall k :: j <= k < |s| ==> IsJsWhitespace(s[k])
    ensures 0 < j ==> !IsJsWhitespace(s[j - 1])
  {
    if s != [] && IsJsWhitespace(s[|s| - 1]) then TrimEndIndex(s[..|s| - 1]) else |s|
  }

  /** `s.trim()`: white space removed from the start, then from the end. */
  function Trim(s: string): string
  {
    var t := s[TrimStartIndex(s)..];
    t[..TrimEndIndex(t)]
  }

  /** `trim` leaves a block of `s` with no white space at either end, made of everything
      between the leading and the trailing white space, and changes nothing when there
      is none to remove. */
  lemma TrimSpec(s: string)
    ensures exists i, j ::
      && 0 <= i <= j <= |s| && Trim(s) == s[i..j]
      && (forall k :: 0 <= k < i ==> IsJsWhitespace(s[k]))
      && (forall k :: j <= k < |s| ==> IsJsWhitespace(s[k]))
    ensures Trim(s) != [] ==> !IsJsWhitespace(Trim(s)[0]) && !IsJsWhitespace(Trim(s)[|Trim(s)| - 1])
    ensures (s == [] || (!IsJsWhitespace(s[0]) && !IsJsWhitespace(s[|s| - 1]))) ==> Trim(s) == s
  {
    var i := TrimStartIndex(s);
    var t := s[i..];
    var j := TrimEndIndex(t);
    assert Trim(s) == s[i..i + j];
    assert forall k :: i + j <= k < |s| ==> IsJsWhitespace(s[k]) by {
      forall k | i + j <= k < |s| ensures IsJsWhitespace(s[k]) {
        assert s[k] == t[k - i];
      }
    }
    if Trim(s) != [] {
      assert Trim(s)[0] == t[0];
      assert Trim(s)[|Trim(s)| - 1] == t[j - 1];
    }
  }

  /** Trimming twice is trimming once. */
  lemma TrimIdempotent(s: string)
    ensures Trim(Trim(s)) == Trim(s)
  {
    TrimSpec(s);
    TrimSpec(Trim(s));
  }

  /** Decimal text of a natural number, as `String(n)` writes it. */
  function NatToString(n: nat): (r: string)
    ensures |r| > 0 && AllDigits(r)
    decreases n
  {
    var d := ['0' + (n % 10) as char];
    if n < 10 then d else NatToString(n / 10) + d
  }

  /** Decimal text of an integer, with a leading minus sign when negative. */
  function IntToString(n: int): string
  {
    if n < 0 then "-" + NatToString(-n) else NatToString(n)
  }
}
