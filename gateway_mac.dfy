/**
 * The gateway (V-gate) MAC helpers: validation against the five vendor
 * prefixes, and extraction of a MAC from the text of a QR code.
 */
module GatewayMac {
  import opened Wrappers
  import opened Text
  import opened Patterns
  import MacUtils

  /** The vendor prefixes of V-gate gateways, without colons. */
  const GATEWAY_PREFIXES: seq<string> := ["A4C138", "AC233F", "D8A01D", "C8478C", "E4956E"]

  const MSG_REQUIRED := "MAC requerida"
  const MSG_LENGTH := "MAC debe tener 12 caracteres"
  const MSG_CHARACTERS := "MAC contiene caracteres inválidos"
  const MSG_VENDOR := "MAC no corresponde a un V-gate válido"

  predicate HasGatewayPrefix(s: string)
  {
    exists i :: 0 <= i < |GATEWAY_PREFIXES| && StartsWith(s, GATEWAY_PREFIXES[i])
  }

  /**
   * `validateGatewayMAC`: empty input first, then length, then characters,
   * then vendor prefix; the first failing check names the error. On success
   * the cleaned twelve digits, without colons. There is no `trim` here.
   */
  function ValidateGatewayMAC(mac: string): (v: Validation)
    ensures mac == "" ==> v == Invalid(MSG_REQUIRED)
    ensures mac != "" ==> (v.Valid? <==> IsMacDigits(Compact(mac)) && HasGatewayPrefix(Compact(mac)))
    ensures mac != "" && |Compact(mac)| != 12 ==> v == Invalid(MSG_LENGTH)
    ensures mac != "" && |Compact(mac)| == 12 && !IsMacDigits(Compact(mac)) ==> v == Invalid(MSG_CHARACTERS)
    ensures mac != "" && IsMacDigits(Compact(mac)) && !HasGatewayPrefix(Compact(mac)) ==> v == Invalid(MSG_VENDOR)
    ensures v.Valid? ==> v.formatted == Compact(mac) && IsMacDigits(v.formatted) && HasGatewayPrefix(v.formatted)
  {
    if mac == "" then Invalid(MSG_REQUIRED)
    else
      var cleaned := Compact(mac);
      if |cleaned| != 12 then Invalid(MSG_LENGTH)
      else if !IsMacDigits(cleaned) then Invalid(MSG_CHARACTERS)
      else if !HasGatewayPrefix(cleaned) then Invalid(MSG_VENDOR)
      else Valid(cleaned)
  }

  /** A validated gateway MAC validates again to itself. */
  lemma RevalidateGateway(mac: string)
    requires ValidateGatewayMAC(mac).Valid?
    ensures ValidateGatewayMAC(ValidateGatewayMAC(mac).formatted) == ValidateGatewayMAC(mac)
  {
    var f := ValidateGatewayMAC(mac).formatted;
    MacUtils.CleanMacDigits(f);
    MacUtils.CleanIsCompact(f);
  }

  /** Accepted gateway MACs and accepted Minew MACs never overlap: no vendor prefix starts with `C30000`. */
  lemma GatewayIsNotMinew(mac: string)
    requires ValidateGatewayMAC(mac).Valid?
    ensures !MacUtils.ValidateMinewMAC(mac).Valid?
  {
    var c := Compact(mac);
    MacUtils.CleanIsCompact(mac);
    var i :| 0 <= i < |GATEWAY_PREFIXES| && StartsWith(c, GATEWAY_PREFIXES[i]);
    assert c[..6] == GATEWAY_PREFIXES[i];
  }

  /** `/([0-9A-F]{12})/`: a run of twelve upper-case hex digits. */
  const HexRunPattern := Pattern("", Never, IsUpperHexDigit, 12, 12)

  /** Where the hex-run pattern matches and what it captures. */
  lemma HexRunAt(s: string, i: nat)
    requires i <= |s|
    ensures MatchAt(s, i, HexRunPattern).Some? <==> RunAt(s, i)
    ensures MatchAt(s, i, HexRunPattern).Some? ==> MatchAt(s, i, HexRunPattern).value == s[i..i + 12]
  {
    PlainMatch(s, i, HexRunPattern);
    FixedCapture(s, i, HexRunPattern);
    if i + 12 <= |s| {
      RunAtChars(s, i);
    }
  }

  /** A run at `i` is twelve upper-case hex digits from `i` on. */
  lemma RunAtChars(s: string, i: nat)
    requires i + 12 <= |s|
    ensures RunAt(s, i) <==> forall k :: i <= k < i + 12 ==> IsUpperHexDigit(s[k])
  {
    var c := s[i..i + 12];
    assert forall k :: 0 <= k < 12 ==> c[k] == s[i + k];
  }

  /** The text `extractMACFromQR` searches: separators removed, upper-cased, trimmed. */
  function CleanedQR(qr: string): string
  {
    MacUtils.CleanMAC(qr)
  }

  /** `extractMACFromQR`: the whole cleaned text when it is a MAC, else its first twelve-digit run. */
  function ExtractMACFromQR(qr: string): (r: Option<string>)
    ensures qr == "" ==> r.None?
    ensures r.Some? ==> IsMacDigits(r.value) && IsSubstring(r.value, CleanedQR(qr))
    ensures qr != "" && IsMacDigits(CleanedQR(qr)) ==> r == Some(CleanedQR(qr))
  {
    if qr == "" then None
    else
      var cleaned := CleanedQR(qr);
      if IsMacDigits(cleaned) then
        assert OccursAt(cleaned, cleaned, 0);
        Some(cleaned)
      else
        FindHexRun(cleaned)
  }

  /** The search of the second step, on its own. */
  function FindHexRun(s: string): (r: Option<string>)
    ensures r.Some? ==> IsMacDigits(r.value) && IsSubstring(r.value, s)
  {
    FindPiece(s, HexRunPattern);
    Find(s, HexRunPattern)
  }

  /** A twelve-digit run of upper-case hex digits starts at `t`. */
  predicate RunAt(c: string, t: int)
  {
    0 <= t && t + 12 <= |c| && IsMacDigits(c[t..t + 12])
  }

  /** The search fails exactly when there is no run, and otherwise returns the leftmost one. */
  lemma FindHexRunLeftmost(s: string)
    ensures FindHexRun(s).None? <==> forall t :: !RunAt(s, t)
    ensures FindHexRun(s).Some? ==>
      exists t :: RunAt(s, t) && FindHexRun(s).value == s[t..t + 12] && forall u :: 0 <= u < t ==> !RunAt(s, u)
  {
    FindSpec(s, HexRunPattern);
    forall t | 0 <= t <= |s|
      ensures MatchAt(s, t, HexRunPattern).Some? <==> RunAt(s, t)
      ensures MatchAt(s, t, HexRunPattern).Some? ==> MatchAt(s, t, HexRunPattern).value == s[t..t + 12]
    {
      HexRunAt(s, t);
    }
  }

  /**
   * Apart from the empty text, extraction fails exactly when the cleaned text
   * has no twelve-digit run, and otherwise returns the leftmost such run.
   */
  lemma ExtractLeftmostRun(qr: string)
    requires qr != ""
    ensures ExtractMACFromQR(qr).None? <==> forall t :: !RunAt(CleanedQR(qr), t)
    ensures ExtractMACFromQR(qr).Some? ==>
      exists t :: RunAt(CleanedQR(qr), t) && ExtractMACFromQR(qr).value == CleanedQR(qr)[t..t + 12]
        && forall u :: 0 <= u < t ==> !RunAt(CleanedQR(qr), u)
  {
    var c := CleanedQR(qr);
    if IsMacDigits(c) {
      assert c[0..12] == c;
      assert RunAt(c, 0);
    } else {
      FindHexRunLeftmost(c);
    }
  }
}
