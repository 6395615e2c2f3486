/**
 * Token expiry arithmetic. Decoding the token is outside the model: the
 * helpers start from the decoded `exp` claim (seconds since the epoch, a
 * JavaScript number that may be fractional, absent when the token does not
 * decode or carries none) and from the current time in whole milliseconds.
 */
module Jwt {
  import opened Wrappers
  import opened Text

  const MS_PER_SECOND := 1000
  const MS_PER_MINUTE := 60000

  /** The default warning window of `isTokenExpiringSoon`: five minutes. */
  const DEFAULT_THRESHOLD_MS: real := 5.0 * 60.0 * 1000.0

  const EXPIRED_TEXT := "Expirado"

  /** `getTokenExpiry`: the expiry in milliseconds; a missing or zero `exp` gives none. */
  function TokenExpiry(exp: Option<real>): (r: Option<real>)
    ensures r.Some? <==> exp.Some? && exp.value != 0.0
    ensures r.Some? ==> r.value == exp.value * 1000.0 && r.value != 0.0
  {
    if exp.None? || exp.value == 0.0 then None else Some(exp.value * 1000.0)
  }

  /** `isTokenExpired`: without an expiry the token counts as expired. */
  predicate IsTokenExpired(exp: Option<real>, now: int)
  {
    var expiry := TokenExpiry(exp);
    if expiry.None? || expiry.value == 0.0 then true else now as real >= expiry.value
  }

  /** `isTokenExpiringSoon`: without an expiry the token counts as expiring. */
  predicate IsTokenExpiringSoon(exp: Option<real>, now: int, thresholdMs: real)
  {
    var expiry := TokenExpiry(exp);
    if expiry.None? || expiry.value == 0.0 then true else now as real >= expiry.value - thresholdMs
  }

  /** The two tests in terms of the claim itself. */
  lemma ExpiryTests(exp: Option<real>, now: int, thresholdMs: real)
    ensures IsTokenExpired(exp, now) <==> exp.None? || exp.value == 0.0 || now as real >= exp.value * 1000.0
    ensures IsTokenExpiringSoon(exp, now, thresholdMs) <==>
      exp.None? || exp.value == 0.0 || now as real + thresholdMs >= exp.value * 1000.0
  {
  }

  /** With a non-negative window, an expired token is also expiring soon. */
  lemma ExpiredIsExpiringSoon(exp: Option<real>, now: int, thresholdMs: real)
    requires thresholdMs >= 0.0
    ensures IsTokenExpired(exp, now) ==> IsTokenExpiringSoon(exp, now, thresholdMs)
  {
  }

  /** Expiry is monotone in time: a token expired, or expiring soon, stays so later. */
  lemma ExpiryMonotone(exp: Option<real>, now: int, later: int, thresholdMs: real)
    requires now <= later
    ensures IsTokenExpired(exp, now) ==> IsTokenExpired(exp, later)
    ensures IsTokenExpiringSoon(exp, now, thresholdMs) ==> IsTokenExpiringSoon(exp, later, thresholdMs)
  {
  }

  /** With the default window, a token is expiring soon exactly when at most five minutes remain. */
  lemma DefaultWindow(exp: Option<real>, now: int)
    ensures IsTokenExpiringSoon(exp, now, DEFAULT_THRESHOLD_MS) <==>
            TokenTimeRemaining(exp, now) <= (5 * MS_PER_MINUTE) as real
  {
  }

  /**
   * `getTokenTimeRemaining`: never negative; positive exactly while the token
   * has not expired. With a fractional claim the remaining time is fractional too.
   */
  function TokenTimeRemaining(exp: Option<real>, now: int): (r: real)
    ensures r >= 0.0
    ensures r > 0.0 <==> !IsTokenExpired(exp, now)
    ensures r > 0.0 ==> r == exp.value * 1000.0 - now as real
  {
    var expiry := TokenExpiry(exp);
    if expiry.None? || expiry.value == 0.0 then 0.0
    else
      var remaining := expiry.value - now as real;
      if remaining > 0.0 then remaining else 0.0
  }

  /**
   * `Math.floor(remaining / 60000)` and `Math.floor((remaining % 60000) / 1000)`:
   * whole minutes and the whole seconds left over, both rounded down.
   */
  function SplitRemaining(remaining: real): (parts: (nat, nat))
    requires remaining >= 0.0
    ensures parts.1 < 60
    ensures (parts.0 * MS_PER_MINUTE + parts.1 * MS_PER_SECOND) as real <= remaining
    ensures remaining < (parts.0 * MS_PER_MINUTE + parts.1 * MS_PER_SECOND + MS_PER_SECOND) as real
  {
    var minutes := (remaining / MS_PER_MINUTE as real).Floor;
    var rest := remaining - (minutes * MS_PER_MINUTE) as real;
    var seconds := (rest / MS_PER_SECOND as real).Floor;
    (minutes, seconds)
  }

  /** `formatTimeRemaining`: `"Expirado"`, or minutes and seconds as `"<m>m <s>s"`. */
  function FormatTimeRemaining(exp: Option<real>, now: int): string
  {
    var remaining := TokenTimeRemaining(exp, now);
    if remaining <= 0.0 then EXPIRED_TEXT
    else
      var (minutes, seconds) := SplitRemaining(remaining);
      DecimalString(minutes) + "m " + DecimalString(seconds) + "s"
  }

  /**
   * The text reads `"Expirado"` exactly when the token has expired; otherwise
   * it is two decimal numbers, the seconds below 60, that together account for
   * the remaining time to the second.
   */
  lemma FormatSpec(exp: Option<real>, now: int)
    ensures FormatTimeRemaining(exp, now) == EXPIRED_TEXT <==> IsTokenExpired(exp, now)
    ensures !IsTokenExpired(exp, now) ==>
      exists minutes: nat, seconds: nat ::
        && FormatTimeRemaining(exp, now) == DecimalString(minutes) + "m " + DecimalString(seconds) + "s"
        && seconds < 60
        && (minutes * MS_PER_MINUTE + seconds * MS_PER_SECOND) as real <= TokenTimeRemaining(exp, now)
        && TokenTimeRemaining(exp, now) < (minutes * MS_PER_MINUTE + seconds * MS_PER_SECOND + MS_PER_SECOND) as real
  {
    if !IsTokenExpired(exp, now) {
      var (minutes, seconds) := SplitRemaining(TokenTimeRemaining(exp, now));
      var text := DecimalString(minutes) + "m " + DecimalString(seconds) + "s";
      assert text[0] == DecimalString(minutes)[0];
      assert '0' <= text[0] <= '9';
    }
  }
}
