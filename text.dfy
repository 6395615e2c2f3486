/**
 * Character classes and string operations that the MAC, QR and token helpers
 * build on: JavaScript's `\s`, `toUpperCase`, `trim`, the separator-stripping
 * `replace(/[:\-\s]/g, '')`, hex digits, the `match(/.{1,2}/g).join(':')`
 * pair formatting and decimal rendering of numbers in template strings.
 */
module Text {

  /** JavaScript's `\s` (and the set `trim` removes): white space and line terminators. */
  predicate IsSpace(c: char)
  {
    || c == '\t' || c == '\n' || c == '\U{000B}' || c == '\U{000C}' || c == '\r'
    || c == ' ' || c == '\U{00A0}' || c == '\U{1680}'
    || ('\U{2000}' <= c <= '\U{200A}')
    || c == '\U{2028}' || c == '\U{2029}' || c == '\U{202F}' || c == '\U{205F}'
    || c == '\U{3000}' || c == '\U{FEFF}'
  }

  /** The class `[:\-\s]` that every MAC cleaner removes. */
  predicate IsSeparator(c: char)
  {
    c == ':' || c == '-' || IsSpace(c)
  }

  predicate IsLowerAscii(c: char)
  {
    'a' <= c <= 'z'
  }

  /** `[0-9A-Fa-f]` */
  predicate IsHexDigit(c: char)
  {
    '0' <= c <= '9' || 'a' <= c <= 'f' || 'A' <= c <= 'F'
  }

  /** `[0-9A-F]` */
  predicate IsUpperHexDigit(c: char)
  {
    '0' <= c <= '9' || 'A' <= c <= 'F'
  }

  /** `[0-9A-Fa-f:]`, also what `[0-9A-F:]` matches under the `i` flag. */
  predicate IsHexOrColon(c: char)
  {
    IsHexDigit(c) || c == ':'
  }

  predicate NoSeparators(s: string)
  {
    forall k :: 0 <= k < |s| ==> !IsSeparator(s[k])
  }

  /** The test `/^[0-9A-F]{12}$/`: exactly twelve upper-case hex digits. */
  predicate IsMacDigits(s: string)
  {
    |s| == 12 && forall k :: 0 <= k < |s| ==> IsUpperHexDigit(s[k])
  }

  /** `toUpperCase` on one character (ASCII letters only). */
  function UpperChar(c: char): (u: char)
    ensures IsLowerAscii(c) ==> 'A' <= u <= 'Z' && u as int == c as int - 32
    ensures !IsLowerAscii(c) ==> u == c
  {
    if IsLowerAscii(c) then (c as int - 32) as char else c
  }

  /** `toUpperCase` on a string (ASCII letters only). */
  function Upper(s: string): (r: string)
    ensures |r| == |s|
    ensures forall k :: 0 <= k < |s| ==> r[k] == UpperChar(s[k])
  {
    seq(|s|, k requires 0 <= k < |s| => UpperChar(s[k]))
  }

  /** `replace(/[:\-\s]/g, '')`: drops every separator, keeps the rest in order. */
  function StripSeparators(s: string): (r: string)
    ensures |r| <= |s|
    ensures NoSeparators(r)
  {
    if s == [] then []
    else if IsSeparator(s[0]) then StripSeparators(s[1..])
    else [s[0]] + StripSeparators(s[1..])
  }

  /** `replace(/[:\-\s]/g, '').toUpperCase()`, the cleaning step shared by all MAC validators. */
  function Compact(s: string): (r: string)
  {
    Upper(StripSeparators(s))
  }

  function TrimStart(s: string): string
  {
    if s != [] && IsSpace(s[0]) then TrimStart(s[1..]) else s
  }

  function TrimEnd(s: string): string
  {
    if s != [] && IsSpace(s[|s| - 1]) then TrimEnd(s[..|s| - 1]) else s
  }

  /** `trim()` */
  function Trim(s: string): string
  {
    TrimEnd(TrimStart(s))
  }

  /** `.match(/.{1,2}/g).join(':')`: consecutive pairs joined by colons. */
  function JoinPairs(s: string): (r: string)
    ensures |s| > 0 ==> |r| == |s| + (|s| - 1) / 2
    ensures |s| == 0 ==> r == []
  {
    if |s| <= 2 then s else s[..2] + ":" + JoinPairs(s[2..])
  }

  /** Every character of the joined pairs is a colon or a character of `s`. */
  lemma {:induction false} JoinPairsChars(s: string)
    ensures forall k :: 0 <= k < |JoinPairs(s)| ==> JoinPairs(s)[k] == ':' || JoinPairs(s)[k] in s
  {
    if |s| > 2 {
      JoinPairsChars(s[2..]);
      var r := JoinPairs(s);
      forall k | 0 <= k < |r|
        ensures r[k] == ':' || r[k] in s
      {
        if k >= 3 {
          assert r[k] == JoinPairs(s[2..])[k - 3];
        }
      }
    }
  }

  /** `startsWith` */
  predicate StartsWith(s: string, prefix: string)
  {
    |prefix| <= |s| && s[..|prefix|] == prefix
  }

  /** The `{ valid, formatted?, error? }` record the MAC validators return. */
  datatype Validation = Valid(formatted: string) | Invalid(error: string)

  function HexValue(c: char): (v: nat)
    requires IsHexDigit(c)
    ensures v < 16
  {
    if '0' <= c <= '9' then c as int - '0' as int
    else if 'a' <= c <= 'f' then c as int - 'a' as int + 10
    else c as int - 'A' as int + 10
  }

  /** The digit `Number.prototype.toString(16)` prints for `v` (lower case). */
  function LowerHexDigit(v: nat): (c: char)
    requires v < 16
    ensures IsHexDigit(c) && !IsSeparator(c) && HexValue(c) == v
    ensures IsUpperHexDigit(UpperChar(c)) && HexValue(UpperChar(c)) == v
  {
    if v < 10 then ('0' as int + v) as char else ('a' as int + v - 10) as char
  }

  function DigitChar(d: nat): (c: char)
    requires d < 10
    ensures '0' <= c <= '9' && c as int - '0' as int == d
  {
    ('0' as int + d) as char
  }

  predicate AllDigits(s: string)
  {
    forall k :: 0 <= k < |s| ==> '0' <= s[k] <= '9'
  }

  /** The decimal rendering of a non-negative integer in a template string. */
  function DecimalString(n: nat): (r: string)
    ensures |r| >= 1 && AllDigits(r)
    ensures r[0] == '0' ==> n == 0
  {
    if n < 10 then [DigitChar(n)] else DecimalString(n / 10) + [DigitChar(n % 10)]
  }

  /** Reads a string of decimal digits back as a number. */
  function DecimalValue(s: string): nat
    requires AllDigits(s)
  {
    if s == [] then 0 else 10 * DecimalValue(s[..|s| - 1]) + (s[|s| - 1] as int - '0' as int)
  }

  lemma {:induction false} DecimalRoundTrip(n: nat)
    ensures DecimalValue(DecimalString(n)) == n
  {
    if n >= 10 {
      var r := DecimalString(n);
      assert r[..|r| - 1] == DecimalString(n / 10);
      DecimalRoundTrip(n / 10);
    }
  }

  /** Upper-casing never creates or removes a separator. */
  lemma UpperKeepsNoSeparators(s: string)
    requires NoSeparators(s)
    ensures NoSeparators(Upper(s))
  {
  }

  lemma {:induction false} StripWithoutSeparators(s: string)
    requires NoSeparators(s)
    ensures StripSeparators(s) == s
  {
    if s != [] {
      StripWithoutSeparators(s[1..]);
    }
  }

  lemma {:induction false} StripConcat(a: string, b: string)
    ensures StripSeparators(a + b) == StripSeparators(a) + StripSeparators(b)
  {
    if a == [] {
      assert a + b == b;
    } else {
      assert (a + b)[1..] == a[1..] + b;
      StripConcat(a[1..], b);
    }
  }

  lemma StripIdempotent(s: string)
    ensures StripSeparators(StripSeparators(s)) == StripSeparators(s)
  {
    StripWithoutSeparators(StripSeparators(s));
  }

  lemma UpperIdempotent(s: string)
    ensures Upper(Upper(s)) == Upper(s)
  {
  }

  /** The output of `Compact` has no separators and no lower-case ASCII letters. */
  lemma CompactShape(s: string)
    ensures NoSeparators(Compact(s))
    ensures forall k :: 0 <= k < |Compact(s)| ==> !IsLowerAscii(Compact(s)[k])
  {
    UpperKeepsNoSeparators(StripSeparators(s));
  }

  /** Cleaning an already cleaned string changes nothing. */
  lemma CompactIdempotent(s: string)
    ensures Compact(Compact(s)) == Compact(s)
  {
    CompactShape(s);
    StripWithoutSeparators(Compact(s));
    UpperIdempotent(StripSeparators(s));
  }

  /** `trim` is the identity on a string with no white space. */
  lemma TrimWithoutSpaces(s: string)
    requires NoSeparators(s)
    ensures Trim(s) == s
  {
  }

  /** Stripping only removes characters: every character left comes from `s`. */
  lemma {:induction false} StripKeepsChars(s: string)
    ensures forall k :: 0 <= k < |StripSeparators(s)| ==> StripSeparators(s)[k] in s
  {
    if s != [] {
      StripKeepsChars(s[1..]);
    }
  }

  /** Removing the separators from the colon-joined pairs gives the pairs back. */
  lemma {:induction false} StripJoinPairs(s: string)
    requires NoSeparators(s)
    ensures StripSeparators(JoinPairs(s)) == s
  {
    if |s| <= 2 {
      StripWithoutSeparators(s);
    } else {
      StripConcat(s[..2] + ":", JoinPairs(s[2..]));
      StripConcat(s[..2], ":");
      StripWithoutSeparators(s[..2]);
      StripJoinPairs(s[2..]);
      assert s == s[..2] + s[2..];
    }
  }

  /**
   * The layout of the colon-joined pairs: pair `p` of `s` sits at positions
   * `3p` and `3p + 1`, and a colon at `3p + 2` separates it from the next pair.
   */
  lemma {:induction false} JoinPairsAt(s: string, p: nat)
    requires |s| % 2 == 0 && 2 * p < |s|
    ensures |JoinPairs(s)| == 3 * (|s| / 2) - 1
    ensures JoinPairs(s)[3 * p] == s[2 * p] && JoinPairs(s)[3 * p + 1] == s[2 * p + 1]
    ensures 2 * p + 2 < |s| ==> JoinPairs(s)[3 * p + 2] == ':'
  {
    if |s| > 2 {
      var rest := JoinPairs(s[2..]);
      assert JoinPairs(s) == s[..2] + ":" + rest;
      if p > 0 {
        JoinPairsAt(s[2..], p - 1);
        assert s[2..][2 * (p - 1)] == s[2 * p] && s[2..][2 * (p - 1) + 1] == s[2 * p + 1];
      }
    }
  }
}
