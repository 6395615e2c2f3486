/**
 * The Minew MAC helpers: cleaning, colon formatting, the 12-hex-digit format
 * test, the `C30000` vendor test, the combined validation, and the extraction
 * of a MAC from the text of a QR code in one of four layouts (bare, `MINEW:`
 * prefixed, JSON with a `mac` field, URL path segment).
 */
module MacUtils {
  import opened Wrappers
  import opened Text
  import opened Patterns

  /** The only Minew address prefix accepted. */
  const MINEW_PREFIX := "C30000"

  const MSG_FORMAT := "MAC debe tener 12 caracteres hexadecimales"
  const MSG_NOT_MINEW := "Solo se aceptan beacons Minew (C30000...)"

  /** `cleanMAC`: separators removed, upper-cased, trimmed. */
  function CleanMAC(mac: string): (r: string)
    ensures |r| <= |mac|
    ensures NoSeparators(r)
    ensures forall k :: 0 <= k < |r| ==> !IsLowerAscii(r[k])
  {
    CompactShape(mac);
    TrimWithoutSpaces(Compact(mac));
    Trim(Compact(mac))
  }

  /** The trim at the end of `cleanMAC` never has anything left to remove. */
  lemma CleanIsCompact(mac: string)
    ensures CleanMAC(mac) == Compact(mac)
  {
    CompactShape(mac);
    TrimWithoutSpaces(Compact(mac));
  }

  lemma CleanIdempotent(mac: string)
    ensures CleanMAC(CleanMAC(mac)) == CleanMAC(mac)
  {
    CleanIsCompact(mac);
    CleanIsCompact(CleanMAC(mac));
    CompactIdempotent(mac);
  }

  /** Twelve upper-case hex digits are already clean. */
  lemma CleanMacDigits(m: string)
    requires IsMacDigits(m)
    ensures CleanMAC(m) == m
  {
    CleanIsCompact(m);
    StripWithoutSeparators(m);
  }

  /** Cleaning a string of hex digits and colons leaves only upper-case hex digits. */
  lemma CleanHexOrColon(s: string)
    requires forall k :: 0 <= k < |s| ==> IsHexOrColon(s[k])
    ensures forall k :: 0 <= k < |CleanMAC(s)| ==> IsUpperHexDigit(CleanMAC(s)[k])
  {
    CleanIsCompact(s);
    var stripped := StripSeparators(s);
    StripKeepsChars(s);
    forall k | 0 <= k < |stripped|
      ensures IsHexDigit(stripped[k])
    {
      assert stripped[k] in s && !IsSeparator(stripped[k]);
    }
  }

  /** `isValidMACFormat`: the cleaned string is exactly twelve of `[0-9A-F]`. */
  predicate IsValidMACFormat(mac: string)
  {
    IsMacDigits(CleanMAC(mac))
  }

  /**
   * An independent reading of the format test: once the separators are gone,
   * twelve hex digits of either case remain.
   */
  lemma ValidFormatIff(mac: string)
    ensures IsValidMACFormat(mac) <==>
      |StripSeparators(mac)| == 12 && forall k :: 0 <= k < 12 ==> IsHexDigit(StripSeparators(mac)[k])
  {
    CleanIsCompact(mac);
  }

  /** `isMinewMAC` */
  predicate IsMinewMAC(mac: string)
  {
    StartsWith(CleanMAC(mac), MINEW_PREFIX)
  }

  /**
   * `formatMAC`: the input back unchanged unless it cleans to twelve
   * characters; then six pairs joined by colons, pair `p` at positions `3p`
   * and `3p + 1`.
   */
  function FormatMAC(mac: string): (r: string)
    ensures |CleanMAC(mac)| != 12 ==> r == mac
    ensures |CleanMAC(mac)| == 12 ==>
      && |r| == 17
      && StripSeparators(r) == CleanMAC(mac)
      && (forall p :: 0 <= p < 6 ==> r[3 * p] == CleanMAC(mac)[2 * p] && r[3 * p + 1] == CleanMAC(mac)[2 * p + 1])
      && (forall p :: 0 <= p < 5 ==> r[3 * p + 2] == ':')
  {
    var cleaned := CleanMAC(mac);
    if |cleaned| != 12 then mac
    else
      StripJoinPairs(cleaned);
      forall p | 0 <= p < 6
        ensures JoinPairs(cleaned)[3 * p] == cleaned[2 * p] && JoinPairs(cleaned)[3 * p + 1] == cleaned[2 * p + 1]
        ensures p < 5 ==> JoinPairs(cleaned)[3 * p + 2] == ':'
      {
        JoinPairsAt(cleaned, p);
      }
      JoinPairs(cleaned)
  }

  /** Formatting loses nothing: cleaning the formatted MAC gives the cleaned input. */
  lemma FormatRoundTrip(mac: string)
    ensures CleanMAC(FormatMAC(mac)) == CleanMAC(mac)
  {
    var cleaned := CleanMAC(mac);
    if |cleaned| == 12 {
      CleanIsCompact(mac);
      CleanIsCompact(FormatMAC(mac));
      UpperIdempotent(StripSeparators(mac));
    }
  }

  lemma FormatIdempotent(mac: string)
    ensures FormatMAC(FormatMAC(mac)) == FormatMAC(mac)
  {
    FormatRoundTrip(mac);
  }

  /** A formatted MAC is seventeen characters of `[0-9A-F:]`. */
  lemma FormattedIsHexOrColon(m: string)
    requires IsMacDigits(m)
    ensures |FormatMAC(m)| == 17
    ensures forall k :: 0 <= k < |FormatMAC(m)| ==> IsHexOrColon(FormatMAC(m)[k])
  {
    CleanMacDigits(m);
    JoinPairsChars(m);
  }

  /**
   * `validateMinewMAC`: the format error comes first, then the vendor error;
   * on success the formatted MAC.
   */
  function ValidateMinewMAC(mac: string): (v: Validation)
    ensures v.Valid? <==> IsValidMACFormat(mac) && IsMinewMAC(mac)
    ensures !IsValidMACFormat(mac) ==> v == Invalid(MSG_FORMAT)
    ensures IsValidMACFormat(mac) && !IsMinewMAC(mac) ==> v == Invalid(MSG_NOT_MINEW)
    ensures v.Valid? ==>
      && v.formatted == FormatMAC(CleanMAC(mac))
      && |v.formatted| == 17
      && StripSeparators(v.formatted) == CleanMAC(mac)
  {
    var cleaned := CleanMAC(mac);
    CleanIdempotent(mac);
    if !IsValidMACFormat(cleaned) then Invalid(MSG_FORMAT)
    else if !IsMinewMAC(cleaned) then Invalid(MSG_NOT_MINEW)
    else Valid(FormatMAC(cleaned))
  }

  /** Validating an accepted, formatted MAC accepts it again, with the same result. */
  lemma RevalidateMinew(mac: string)
    requires ValidateMinewMAC(mac).Valid?
    ensures ValidateMinewMAC(ValidateMinewMAC(mac).formatted) == ValidateMinewMAC(mac)
  {
    var cleaned := CleanMAC(mac);
    CleanIdempotent(mac);
    FormatRoundTrip(cleaned);
  }

  /** `/^[0-9A-F:]{12,17}$/i`: the whole text is 12 to 17 hex digits and colons. */
  predicate IsBareMac(qr: string)
  {
    12 <= |qr| <= 17 && forall k :: 0 <= k < |qr| ==> IsHexOrColon(qr[k])
  }

  /** `/MINEW:([0-9A-F:]{12,17})/i` */
  const MinewPattern := Pattern("MINEW:", Never, IsHexOrColon, 12, 17)

  /** `/\/([0-9A-F:]{12,17})\??/i`; the optional `?` after the capture never changes it. */
  const UrlPattern := Pattern("/", Never, IsHexOrColon, 12, 17)

  /**
   * `extractMACFromQR`, trying the four layouts in order. `jsonMac` stands for
   * `JSON.parse`: `Some(m)` when the text parses as JSON whose `mac` field is
   * the string `m`, `None` when it does not parse or has no string `mac`
   * (a non-string `mac` makes `cleanMAC` throw inside the `try`).
   * Whatever comes back is already clean.
   */
  function ExtractMACFromQR(qr: string, jsonMac: Option<string>): (r: Option<string>)
    ensures r.Some? ==> CleanMAC(r.value) == r.value
    ensures IsBareMac(qr) ==> r == Some(CleanMAC(qr))
    ensures !IsBareMac(qr) && Find(qr, MinewPattern).Some? ==>
      r == Some(CleanMAC(Find(qr, MinewPattern).value))
    ensures !IsBareMac(qr) && Find(qr, MinewPattern).None? && jsonMac.Some? && jsonMac.value != "" ==>
      r == Some(CleanMAC(jsonMac.value))
    ensures !IsBareMac(qr) && Find(qr, MinewPattern).None? && !(jsonMac.Some? && jsonMac.value != "")
            && Find(qr, UrlPattern).Some? ==>
      r == Some(CleanMAC(Find(qr, UrlPattern).value))
    ensures r.None? <==>
      !IsBareMac(qr) && Find(qr, MinewPattern).None? && !(jsonMac.Some? && jsonMac.value != "")
      && Find(qr, UrlPattern).None?
    ensures r.Some? && jsonMac.None? ==>
      |r.value| <= 17 && forall k :: 0 <= k < |r.value| ==> IsUpperHexDigit(r.value[k])
  {
    var result :=
      if IsBareMac(qr) then Some(CleanMAC(qr))
      else if Find(qr, MinewPattern).Some? then Some(CleanMAC(Find(qr, MinewPattern).value))
      else if jsonMac.Some? && jsonMac.value != "" then Some(CleanMAC(jsonMac.value))
      else if Find(qr, UrlPattern).Some? then Some(CleanMAC(Find(qr, UrlPattern).value))
      else None;
    if result.Some? then
      FindPiece(qr, MinewPattern);
      FindPiece(qr, UrlPattern);
      if IsBareMac(qr) then
        CleanIdempotent(qr);
        CleanHexOrColon(qr);
        result
      else if Find(qr, MinewPattern).Some? then
        CleanIdempotent(Find(qr, MinewPattern).value);
        CleanHexOrColon(Find(qr, MinewPattern).value);
        result
      else if jsonMac.Some? && jsonMac.value != "" then
        CleanIdempotent(jsonMac.value);
        result
      else
        CleanIdempotent(Find(qr, UrlPattern).value);
        CleanHexOrColon(Find(qr, UrlPattern).value);
        result
    else result
  }

  /** A QR code holding just a MAC, bare or colon-formatted, yields that MAC. */
  lemma ExtractBareMac(m: string, jsonMac: Option<string>)
    requires IsMacDigits(m)
    ensures ExtractMACFromQR(m, jsonMac) == Some(m)
    ensures ExtractMACFromQR(FormatMAC(m), jsonMac) == Some(m)
  {
    CleanMacDigits(m);
    FormattedIsHexOrColon(m);
    FormatRoundTrip(m);
  }

  /** `MINEW:` followed by a MAC in any case, with or without colons, yields the cleaned MAC. */
  lemma ExtractMinewPrefixed(mac: string, jsonMac: Option<string>)
    requires IsBareMac(mac)
    ensures ExtractMACFromQR("MINEW:" + mac, jsonMac) == Some(CleanMAC(mac))
  {
    var qr := "MINEW:" + mac;
    assert !IsHexOrColon(qr[0]);
    assert LiteralAt(qr, 0, "MINEW:");
    assert RunLength(qr, 6, Never, |qr| - 6) == 0;
    MatchToEnd(qr, 0, MinewPattern, 0);
    FindAt(qr, MinewPattern, 0);
    assert qr[6..] == mac;
  }

  /** A URL whose path is a MAC, here `/` and twelve digits that are not JSON, yields that MAC. */
  lemma ExtractUrlPath(m: string)
    requires IsMacDigits(m)
    ensures ExtractMACFromQR("/" + m, None) == Some(m)
  {
    var qr := "/" + m;
    assert !IsHexOrColon(qr[0]);
    forall k | 0 <= k <= |qr|
      ensures MatchAt(qr, k, MinewPattern).None?
    {
      if k + 6 <= |qr| {
        assert UpperChar(qr[k + 0]) != MinewPattern.lit[0];
      }
      NoLiteralNoMatch(qr, k, MinewPattern);
    }
    FindNone(qr, MinewPattern);
    assert LiteralAt(qr, 0, "/");
    assert RunLength(qr, 1, Never, |qr| - 1) == 0;
    MatchToEnd(qr, 0, UrlPattern, 0);
    FindAt(qr, UrlPattern, 0);
    assert qr[1..] == m;
    CleanMacDigits(m);
  }

  /** The extracted value is clean but need not be a MAC: twelve colons yield the empty string. */
  lemma ExtractNotAlwaysValid()
    ensures ExtractMACFromQR("::::::::::::", None) == Some("")
    ensures !IsValidMACFormat("")
  {
    assert IsBareMac("::::::::::::");
    assert StripSeparators("::::::::::::") == "";
    CleanIsCompact("::::::::::::");
  }
}
