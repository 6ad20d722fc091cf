/**
 * `parseExpiry`: turns the body's `expiry` into the stored expiration. An ISO
 * date-time prefix passes through verbatim; `<digits>[spaces]<m|h|d>` becomes
 * the clock plus that many minutes, hours or days in milliseconds; anything
 * else means no expiration.
 */
module Expiry {
  import opened Wrappers
  import opened Text

  /** The stored `expires_at`. `At` is the instant in milliseconds that the source formats with `toISOString`. */
  datatype Expiration = NoExpiry | Verbatim(text: string) | At(ms: int)

  predicate IsUnit(c: char) { c == 'm' || c == 'h' || c == 'd' }

  /** `{ m: 60e3, h: 3600e3, d: 86400e3 }[unit]` */
  function UnitMs(u: char): nat
    requires IsUnit(u)
  {
    if u == 'm' then 60000 else if u == 'h' then 3600000 else 86400000
  }

  /** `/^\d{4}-\d{2}-\d{2}T/.test(e)` */
  predicate IsoPrefix(e: string) {
    |e| >= 11
    && AllDigits(e[..4]) && e[4] == '-'
    && AllDigits(e[5..7]) && e[7] == '-'
    && AllDigits(e[8..10]) && e[10] == 'T'
  }

  /**
   * `/^(\d+)\s*([mhd])$/.exec(t)`, on an already trimmed `t`: the last character
   * is the unit, the spaces before it are dropped, and what is left must be a
   * non-empty run of digits. Gives the count and the unit.
   */
  function RelativeParts(t: string): Option<(nat, char)> {
    if |t| >= 2 && IsUnit(t[|t| - 1]) then
      var digits := TrimEnd(t[..|t| - 1]);
      if digits != [] && AllDigits(digits) then Some((ParseDecimal(digits), t[|t| - 1])) else None
    else None
  }

  /** The pattern `^(\d+)\s*([mhd])$` read as a regular expression, with `\d+` ending at `i`. */
  predicate RelativeMatch(t: string, i: int) {
    1 <= i < |t| && AllDigits(t[..i]) && AllSpaces(t[i..|t| - 1]) && IsUnit(t[|t| - 1])
  }

  /** A split of the pattern is unique: the digits end where the trailing spaces begin. */
  lemma RelativeMatchUnique(t: string, i: int)
    requires RelativeMatch(t, i)
    ensures TrimEnd(t[..|t| - 1]) == t[..i]
  {
    var body := t[..|t| - 1];
    assert body[..i] == t[..i];
    assert IsDigit(t[..i][i - 1]);
    forall j | i <= j < |body| ensures IsSpace(body[j]) {
      assert body[j] == t[i..|t| - 1][j - i];
    }
    TrimEndAt(body, i);
  }

  /** `RelativeParts` finds the pattern exactly when some split matches, and reads that split's digits. */
  lemma RelativePartsMatchesPattern(t: string)
    ensures RelativeParts(t).Some? <==> exists i :: RelativeMatch(t, i)
    ensures forall i :: RelativeMatch(t, i) ==>
      RelativeParts(t) == Some((ParseDecimal(t[..i]), t[|t| - 1]))
  {
    forall i | RelativeMatch(t, i)
      ensures RelativeParts(t) == Some((ParseDecimal(t[..i]), t[|t| - 1]))
    {
      RelativeMatchUnique(t, i);
    }
    if RelativeParts(t).Some? {
      var digits := TrimEnd(t[..|t| - 1]);
      assert t[..|t| - 1][|digits|..] == t[|digits|..|t| - 1];
      assert digits == t[..|digits|];
      assert RelativeMatch(t, |digits|);
    }
  }

  /** `parseExpiry(exp)` with `Date.now()` given as `nowMs`. */
  function ParseExpiry(exp: Option<string>, nowMs: int): Expiration {
    if exp.None? || exp.value == "" then NoExpiry
    else if IsoPrefix(exp.value) then Verbatim(exp.value)
    else
      var parts := RelativeParts(Trim(exp.value));
      if parts.None? then NoExpiry else At(nowMs + parts.value.0 * UnitMs(parts.value.1))
  }

  /**
   * The cases of `parseExpiry`: absent or empty gives none; an ISO prefix is kept
   * verbatim; otherwise a trimmed relative duration is added to the clock; and
   * every other input gives none rather than an error.
   */
  lemma ParseExpiryCases(exp: Option<string>, nowMs: int)
    ensures exp.None? || exp.value == "" ==> ParseExpiry(exp, nowMs) == NoExpiry
    ensures exp.Some? && exp.value != "" && IsoPrefix(exp.value) ==>
      ParseExpiry(exp, nowMs) == Verbatim(exp.value)
    ensures exp.Some? && exp.value != "" && !IsoPrefix(exp.value) ==>
      forall i :: RelativeMatch(Trim(exp.value), i) ==>
        ParseExpiry(exp, nowMs)
          == At(nowMs + ParseDecimal(Trim(exp.value)[..i]) * UnitMs(Trim(exp.value)[|Trim(exp.value)| - 1]))
    ensures (exp.Some? && exp.value != "" && !IsoPrefix(exp.value)
             && forall i :: !RelativeMatch(Trim(exp.value), i))
      ==> ParseExpiry(exp, nowMs) == NoExpiry
  {
    if exp.Some? && exp.value != "" && !IsoPrefix(exp.value) {
      RelativePartsMatchesPattern(Trim(exp.value));
    }
  }

  /** Only an already-ISO value can come back verbatim; every computed expiration lies at or after the clock. */
  lemma ParseExpiryShape(exp: Option<string>, nowMs: int)
    ensures ParseExpiry(exp, nowMs).Verbatim? ==> exp == Some(ParseExpiry(exp, nowMs).text) && IsoPrefix(exp.value)
    ensures ParseExpiry(exp, nowMs).At? ==> ParseExpiry(exp, nowMs).ms >= nowMs
  {
  }

  /** An input with no `\s` at either end and no ISO prefix is read as a relative duration or gives none. */
  lemma ParseExpiryUnspaced(e: string, nowMs: int)
    requires e != [] && !IsSpace(e[0]) && !IsSpace(e[|e| - 1]) && !IsoPrefix(e)
    ensures RelativeParts(e).None? ==> ParseExpiry(Some(e), nowMs) == NoExpiry
    ensures RelativeParts(e).Some? ==>
      ParseExpiry(Some(e), nowMs) == At(nowMs + RelativeParts(e).value.0 * UnitMs(RelativeParts(e).value.1))
  {
    TrimUnspaced(e);
  }

  /** `"30m"` splits into the count 30 and the unit `m`. */
  lemma ThirtyMinutesParts(e: string)
    requires e == "30m"
    ensures RelativeParts(e) == Some((30, 'm'))
  {
    var body := e[..2];
    assert body == "30" && !IsSpace(body[1]);
    assert TrimEnd(body) == body;
    assert body[..1] == "3" && "3"[..0] == "";
    assert ParseDecimal("3") == 3;
    assert ParseDecimal(body) == 30;
  }

  /** `"30m"` lies 30 minutes after the clock. */
  lemma ThirtyMinutes(e: string, nowMs: int)
    requires e == "30m"
    ensures ParseExpiry(Some(e), nowMs) == At(nowMs + 30 * 60 * 1000)
  {
    assert e[1] == '0' && !IsoPrefix(e);
    ParseExpiryUnspaced(e, nowMs);
    ThirtyMinutesParts(e);
  }

  /** A value that starts like an ISO date-time is passed through unchanged. */
  lemma IsoPassesThrough(e: string, nowMs: int)
    requires e == "2025-01-01T00:00:00.000Z"
    ensures ParseExpiry(Some(e), nowMs) == Verbatim(e)
  {
    assert e[..4] == "2025" && e[5..7] == "01" && e[8..10] == "01";
    assert IsoPrefix(e);
  }

  /** Text that is neither form gives no expiration. */
  lemma GarbageHasNoExpiry(e: string, nowMs: int)
    requires e == "garbage"
    ensures ParseExpiry(Some(e), nowMs) == NoExpiry
  {
    assert e[4] == 'a' && !IsoPrefix(e);
    assert e[|e| - 1] == 'e' && RelativeParts(e) == None;
    ParseExpiryUnspaced(e, nowMs);
  }
}
