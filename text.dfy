/** The string primitives the app relies on: JavaScript's `trim`, decimal
    rendering of numbers (`String(n)`), `padStart(2, '0')` and the ASCII part
    of `toUpperCase`. Strings are sequences of characters. */
module Text {

  /** The characters JavaScript's `String.prototype.trim` removes: the
      WhiteSpace and LineTerminator code points of ECMAScript. */
  predicate IsWhitespace(c: char) {
    || c == ' ' || c == '\t' || c == '\n' || c == '\r'
    || c as int == 0x0B || c as int == 0x0C || c as int == 0xA0
    || c as int == 0x1680 || (0x2000 <= c as int <= 0x200A)
    || c as int == 0x2028 || c as int == 0x2029 || c as int == 0x202F
    || c as int == 0x205F || c as int == 0x3000 || c as int == 0xFEFF
  }

  predicate AllWhitespace(s: string) {
    forall i :: 0 <= i < |s| ==> IsWhitespace(s[i])
  }

  /** Drops the leading whitespace: the result is the suffix of `s` that
      starts at its first non-whitespace character. */
  function TrimStart(s: string): (r: string)
    ensures |r| <= |s| && r == s[|s| - |r|..]
    ensures AllWhitespace(s[..|s| - |r|])
    ensures r == [] || !IsWhitespace(r[0])
  {
    if |s| > 0 && IsWhitespace(s[0]) then TrimStart(s[1..]) else s
  }

  /** Drops the trailing whitespace: the result is the prefix of `s` that
      ends at its last non-whitespace character. */
  function TrimEnd(s: string): (r: string)
    ensures |r| <= |s| && r == s[..|r|]
    ensures AllWhitespace(s[|r|..])
    ensures r == [] || !IsWhitespace(r[|r| - 1])
  {
    if |s| > 0 && IsWhitespace(s[|s| - 1]) then TrimEnd(s[..|s| - 1]) else s
  }

  /** JavaScript's `s.trim()`. */
  function Trim(s: string): (r: string)
    ensures |r| <= |s|
    ensures r == [] || (!IsWhitespace(r[0]) && !IsWhitespace(r[|r| - 1]))
  {
    TrimEnd(TrimStart(s))
  }

  /** `s.trim()` is falsy (empty) exactly when `s` is all whitespace. */
  lemma TrimEmptyIff(s: string)
    ensures Trim(s) == [] <==> AllWhitespace(s)
  {
    var t := TrimStart(s);
    if Trim(s) == [] {
      assert t == [] by {
        assert t[0..] == t;
      }
      assert s[..|s| - |t|] == s;
    } else {
      var r := Trim(s);
      assert !IsWhitespace(r[0]);
      assert r[0] == t[0] == s[|s| - |t|];
    }
  }

  /** A text that neither starts nor ends with whitespace is its own trim. */
  lemma TrimUnpadded(s: string)
    requires s != [] && !IsWhitespace(s[0]) && !IsWhitespace(s[|s| - 1])
    ensures Trim(s) == s
  {
    assert TrimStart(s) == s;
  }

  /** Leading whitespace is dropped whatever follows it. */
  lemma {:induction false} TrimStartBlanks(w: string, s: string)
    requires AllWhitespace(w)
    ensures TrimStart(w + s) == TrimStart(s)
    decreases |w|
  {
    if w == [] {
      assert w + s == s;
    } else {
      assert (w + s)[0] == w[0];
      assert (w + s)[1..] == w[1..] + s;
      assert AllWhitespace(w[1..]) by {
        forall i | 0 <= i < |w| - 1 ensures IsWhitespace(w[1..][i]) {
          assert w[1..][i] == w[i + 1];
        }
      }
      TrimStartBlanks(w[1..], s);
    }
  }

  /** Trailing whitespace is dropped whatever precedes it. */
  lemma {:induction false} TrimEndBlanks(s: string, w: string)
    requires AllWhitespace(w)
    ensures TrimEnd(s + w) == TrimEnd(s)
    decreases |w|
  {
    if w == [] {
      assert s + w == s;
    } else {
      var v := w[..|w| - 1];
      assert (s + w)[|s + w| - 1] == w[|w| - 1];
      assert (s + w)[..|s + w| - 1] == s + v;
      assert AllWhitespace(v) by {
        forall i | 0 <= i < |v| ensures IsWhitespace(v[i]) {
          assert v[i] == w[i];
        }
      }
      TrimEndBlanks(s, v);
    }
  }

  /** Trimming the start of `s + w` either removes all of `s` (when `s` is
      blank) or keeps `w` whole after the trimmed `s`. */
  lemma {:induction false} TrimStartAppend(s: string, w: string)
    ensures AllWhitespace(s) ==> TrimStart(s + w) == TrimStart(w)
    ensures !AllWhitespace(s) ==> TrimStart(s + w) == TrimStart(s) + w
    decreases |s|
  {
    if s == [] {
      assert s + w == w;
    } else if IsWhitespace(s[0]) {
      assert TrimStart(s + w) == TrimStart(s[1..] + w) by {
        assert (s + w)[0] == s[0];
        assert (s + w)[1..] == s[1..] + w;
      }
      TrimStartAppend(s[1..], w);
      AllWhitespaceUncons(s);
    } else {
      assert (s + w)[0] == s[0];
      assert !AllWhitespace(s);
    }
  }

  /** A text is all whitespace exactly when its first character and its
      tail are. */
  lemma AllWhitespaceUncons(s: string)
    requires s != []
    ensures AllWhitespace(s) <==> IsWhitespace(s[0]) && AllWhitespace(s[1..])
  {
    if IsWhitespace(s[0]) && AllWhitespace(s[1..]) {
      forall i | 0 <= i < |s| ensures IsWhitespace(s[i]) {
        if i > 0 { assert s[i] == s[1..][i - 1]; }
      }
    } else if !IsWhitespace(s[0]) {
      assert !AllWhitespace(s);
    } else {
      var i :| 0 <= i < |s[1..]| && !IsWhitespace(s[1..][i]);
      assert s[i + 1] == s[1..][i];
    }
  }

  /** Whitespace typed before or after a text does not change its trimmed
      value. */
  lemma TrimIgnoresBlanks(before: string, s: string, after: string)
    requires AllWhitespace(before) && AllWhitespace(after)
    ensures Trim(before + s + after) == Trim(s)
  {
    var x := before + s + after;
    assert x == before + (s + after);
    TrimStartBlanks(before, s + after);
    TrimStartAppend(s, after);
    if AllWhitespace(s) {
      TrimStartBlanks(after, []);
      assert after + [] == after;
      assert TrimStart(x) == [];
      TrimEmptyIff(s);
    } else {
      assert TrimStart(x) == TrimStart(s) + after;
      TrimEndBlanks(TrimStart(s), after);
    }
  }

  predicate IsDigit(c: char) {
    '0' <= c <= '9'
  }

  predicate AllDigits(s: string) {
    forall i :: 0 <= i < |s| ==> IsDigit(s[i])
  }

  /** `[a-zA-Z0-9]`, the character class of the attachment-name regex. */
  predicate IsAsciiAlnum(c: char) {
    IsDigit(c) || ('a' <= c <= 'z') || ('A' <= c <= 'Z')
  }

  function DigitChar(d: nat): (c: char)
    requires d < 10
    ensures IsDigit(c) && c as int - '0' as int == d
  {
    ('0' as int + d) as char
  }

  /** The number a string of decimal digits denotes. */
  function DigitsValue(s: string): nat
    requires AllDigits(s)
  {
    if s == [] then 0
    else DigitsValue(s[..|s| - 1]) * 10 + (s[|s| - 1] as int - '0' as int)
  }

  /** `String(n)` for a non-negative integer: its decimal digits, no sign,
      no leading zero. */
  function DecimalString(n: nat): (r: string)
    ensures |r| >= 1 && AllDigits(r)
    ensures r[0] == '0' ==> n == 0
    decreases n
  {
    if n < 10 then [DigitChar(n)] else DecimalString(n / 10) + [DigitChar(n % 10)]
  }

  /** Parsing the decimal rendering gives the number back. */
  lemma {:induction false} DecimalStringValue(n: nat)
    ensures DigitsValue(DecimalString(n)) == n
    decreases n
  {
    if n >= 10 {
      var s := DecimalString(n);
      assert s[..|s| - 1] == DecimalString(n / 10);
      DecimalStringValue(n / 10);
    }
  }

  /** How many characters `String(n)` has, for the ranges the app uses. */
  lemma {:induction false} DecimalStringLength(n: nat)
    ensures n < 10 ==> |DecimalString(n)| == 1
    ensures 10 <= n < 100 ==> |DecimalString(n)| == 2
    ensures 100 <= n < 1000 ==> |DecimalString(n)| == 3
    ensures 1000 <= n < 10000 ==> |DecimalString(n)| == 4
    decreases n
  {
    if n >= 10 {
      DecimalStringLength(n / 10);
    }
  }

  /** `String(n).padStart(2, '0')`. */
  function Pad2(n: nat): (r: string)
    ensures |r| >= 2 && AllDigits(r)
    ensures n < 100 ==> r == [DigitChar(n / 10), DigitChar(n % 10)]
  {
    var s := DecimalString(n);
    assert 10 <= n < 100 ==> s == DecimalString(n / 10) + [DigitChar(n % 10)];
    if |s| < 2 then ['0'] + s else s
  }

  /** A two-digit rendering reads back as the number it renders. */
  lemma Pad2Value(n: nat)
    requires n < 100
    ensures DigitsValue(Pad2(n)) == n
  {
    var r := Pad2(n);
    assert r[..1] == [DigitChar(n / 10)];
    assert r[..1][..0] == [];
    assert DigitsValue(r[..1]) == n / 10;
    assert r[1] as int - '0' as int == n % 10;
  }

  /** ASCII upper-casing of one character; other characters are unchanged. */
  function ToUpperAscii(c: char): (u: char)
    ensures 'a' <= c <= 'z' ==> 'A' <= u <= 'Z' && u as int - 'A' as int == c as int - 'a' as int
    ensures !('a' <= c <= 'z') ==> u == c
  {
    if 'a' <= c <= 'z' then (c as int - 'a' as int + 'A' as int) as char else c
  }
}
