/** Time-based one-time codes: the window check of VerifyTOTP. */
module Totp {
  import opened Wrappers

  const PERIOD := 30
  const DIGITS := 6
  const SKEW := 1

  /** The code generator: which secrets decode, and the code of each counter. */
  datatype Codes = Codes(valid: string -> bool, at: (string, int) -> string)

  /** `c` is a counter the check may accept at time `now`, after counter `after`. */
  predicate Acceptable(codes: Codes, secret: string, code: string, after: int, now: nat, c: int) {
    now / PERIOD - SKEW <= c <= now / PERIOD + SKEW && c > after &&
    |code| == DIGITS && codes.valid(secret) && codes.at(secret, c) == code
  }

  /** The smallest acceptable counter from `c` on. */
  function FirstMatch(codes: Codes, secret: string, code: string, after: int, now: nat, c: int): Option<int>
    decreases now / PERIOD + SKEW - c
  {
    if c > now / PERIOD + SKEW then None
    else if Acceptable(codes, secret, code, after, now, c) then Some(c)
    else FirstMatch(codes, secret, code, after, now, c + 1)
  }

  function Matched(codes: Codes, secret: string, code: string, after: int, now: nat): Option<int> {
    FirstMatch(codes, secret, code, after, now, now / PERIOD - SKEW)
  }

  /** Checks a trimmed code; on success returns the matched counter. */
  method VerifyTotp(codes: Codes, secret: string, code: string, after: int, now: nat)
    returns (matched: int, ok: bool)
    ensures ok ==> Matched(codes, secret, code, after, now) == Some(matched)
    ensures !ok ==> Matched(codes, secret, code, after, now) == None && matched == 0
  {
    FirstMatchMeaning(codes, secret, code, after, now, now / PERIOD - SKEW);
    if |code| != DIGITS {
      return 0, false;
    }
    var counter := now / PERIOD;
    for i := -SKEW to SKEW + 1
      invariant Matched(codes, secret, code, after, now) == FirstMatch(codes, secret, code, after, now, counter + i)
    {
      var c := counter + i;
      if c <= after {
        continue;
      }
      if !codes.valid(secret) {
        return 0, false;
      }
      if codes.at(secret, c) == code {
        return c, true;
      }
    }
    return 0, false;
  }

  lemma {:induction false} FirstMatchMeaning(codes: Codes, secret: string, code: string, after: int, now: nat, c: int)
    requires now / PERIOD - SKEW <= c
    ensures var m := FirstMatch(codes, secret, code, after, now, c);
            if m.Some? then
              c <= m.value && Acceptable(codes, secret, code, after, now, m.value) &&
              forall d :: c <= d < m.value ==> !Acceptable(codes, secret, code, after, now, d)
            else forall d :: c <= d ==> !Acceptable(codes, secret, code, after, now, d)
    decreases now / PERIOD + SKEW - c
  {
    if c <= now / PERIOD + SKEW && !Acceptable(codes, secret, code, after, now, c) {
      FirstMatchMeaning(codes, secret, code, after, now, c + 1);
    }
  }

  /** A code is accepted exactly when it has six digits and is the code of a
      counter later than `after` and within one step of 30 seconds of the clock;
      the earliest such counter is the one consumed. */
  lemma MatchedMeaning(codes: Codes, secret: string, code: string, after: int, now: nat)
    ensures var m := Matched(codes, secret, code, after, now);
            (m.Some? <==> |code| == 6 && codes.valid(secret) &&
                          exists c :: now / 30 - 1 <= c <= now / 30 + 1 && c > after && codes.at(secret, c) == code) &&
            (m.Some? ==>
               now / 30 - 1 <= m.value <= now / 30 + 1 && m.value > after && codes.at(secret, m.value) == code &&
               forall c :: now / 30 - 1 <= c < m.value && c > after ==> codes.at(secret, c) != code)
  {
    FirstMatchMeaning(codes, secret, code, after, now, now / PERIOD - SKEW);
    if exists c :: now / 30 - 1 <= c <= now / 30 + 1 && c > after && codes.at(secret, c) == code {
      var c :| now / 30 - 1 <= c <= now / 30 + 1 && c > after && codes.at(secret, c) == code;
      assert |code| == 6 && codes.valid(secret) ==> Acceptable(codes, secret, code, after, now, c);
    }
    if Matched(codes, secret, code, after, now).Some? {
      var m := Matched(codes, secret, code, after, now).value;
      forall c | now / 30 - 1 <= c < m && c > after
        ensures codes.at(secret, c) != code
      {
        assert !Acceptable(codes, secret, code, after, now, c);
      }
    }
  }
}
