/**
 * Promo codes of promo_generator.py: the code format, the generator over a
 * fixed alphabet, the bounded retry loop around the database insert and
 * the daily quota. The random picks and the database answers are inputs.
 */
module PromoGenerator {
  import opened Wrappers

  /** PROMO_CODE_LENGTH. */
  const PromoCodeLength: nat := 5

  /** MAX_PROMO_CODES_PER_DAY. */
  const MaxPromoCodesPerDay: int := 3

  /** The default `max_attempts` of `generate_unique_promo_code`. */
  const DefaultMaxAttempts: int := 10

  /** `string.ascii_uppercase`: 'A' to 'Z'. */
  const AsciiUppercase: string := "ABCDEFGHIJKLMNOPQRSTUVWXYZ"

  /** `string.digits`: '0' to '9'. */
  const Digits: string := "0123456789"

  /** The alphabet of promo codes, `ascii_uppercase + digits`. */
  const Characters: string := AsciiUppercase + Digits

  /** An upper-case Latin letter or a decimal digit. */
  predicate IsCodeChar(c: char)
  {
    'A' <= c <= 'Z' || '0' <= c <= '9'
  }

  /** The i-th upper-case letter is 'A' + i. */
  lemma UpperAt(i: int)
    requires 0 <= i < 26
    ensures AsciiUppercase[i] == ('A' as int + i) as char
  {
  }

  /** The i-th digit is '0' + i. */
  lemma DigitAt(i: int)
    requires 0 <= i < 10
    ensures Digits[i] == ('0' as int + i) as char
  {
  }

  /** The alphabet holds exactly the 36 upper-case letters and digits. */
  lemma CharactersAreCodeChars()
    ensures |Characters| == 36
    ensures forall c :: c in Characters <==> IsCodeChar(c)
  {
    forall c | c in Characters
      ensures IsCodeChar(c)
    {
      var i :| 0 <= i < 36 && Characters[i] == c;
      if i < 26 { UpperAt(i); } else { DigitAt(i - 26); }
    }
    forall c | IsCodeChar(c)
      ensures c in Characters
    {
      if 'A' <= c <= 'Z' {
        UpperAt(c as int - 'A' as int);
        assert Characters[c as int - 'A' as int] == c;
      } else {
        DigitAt(c as int - '0' as int);
        assert Characters[26 + (c as int - '0' as int)] == c;
      }
    }
  }

  /**
   * `validate_promo_code`: false for any length other than five, otherwise
   * true exactly when every character is an upper-case letter or a digit.
   */
  function ValidatePromoCode(code: string): (r: bool)
    ensures r <==> |code| == PromoCodeLength && forall i :: 0 <= i < |code| ==> IsCodeChar(code[i])
  {
    if |code| != PromoCodeLength then false
    else
      assert forall c :: c in Characters <==> IsCodeChar(c) by {
        CharactersAreCodeChars();
      }
      forall c | c in code :: c in Characters
  }

  /** The picks `random.choices` makes for one code: five positions in the alphabet. */
  predicate ValidPicks(picks: seq<int>)
  {
    |picks| == PromoCodeLength && forall i :: 0 <= i < |picks| ==> 0 <= picks[i] < |Characters|
  }

  /**
   * `generate_promo_code`, given the positions that `random.choices` picks:
   * a code that `validate_promo_code` accepts.
   */
  function GeneratePromoCode(picks: seq<int>): (code: string)
    requires ValidPicks(picks)
    ensures ValidatePromoCode(code)
  {
    var code := seq(PromoCodeLength, i requires 0 <= i < PromoCodeLength => Characters[picks[i]]);
    assert forall c :: c in Characters <==> IsCodeChar(c) by {
      CharactersAreCodeChars();
    }
    code
  }

  /** The position of a letter or digit in the alphabet. */
  function CharPosition(c: char): (k: int)
    requires IsCodeChar(c)
    ensures 0 <= k < |Characters| && Characters[k] == c
  {
    if 'A' <= c <= 'Z' then
      UpperAt(c as int - 'A' as int);
      c as int - 'A' as int
    else
      DigitAt(c as int - '0' as int);
      26 + (c as int - '0' as int)
  }

  /** The picks that spell a valid code. */
  function PicksFor(code: string): seq<int>
    requires ValidatePromoCode(code)
  {
    seq(|code|, i requires 0 <= i < |code| => CharPosition(code[i]))
  }

  /** Every valid code is the output of the generator for some picks: the generator covers the format. */
  lemma EveryValidCodeIsGenerated(code: string)
    requires ValidatePromoCode(code)
    ensures ValidPicks(PicksFor(code))
    ensures GeneratePromoCode(PicksFor(code)) == code
  {
    var picks := PicksFor(code);
    forall i | 0 <= i < |code|
      ensures 0 <= picks[i] < |Characters| && Characters[picks[i]] == code[i]
    {
      assert IsCodeChar(code[i]);
    }
    assert ValidPicks(picks);
    var g := GeneratePromoCode(picks);
    assert |g| == |code|;
    forall i | 0 <= i < |code|
      ensures g[i] == code[i]
    {
    }
  }

  /**
   * `generate_unique_promo_code`: up to `maxAttempts` times, generate a code
   * from the next picks and try to insert it; return the first code whose
   * insert succeeded, or None when every attempt failed. `addPromoCode`
   * stands for `database.add_promo_code`: a failed insert leaves the
   * database unchanged, so its answer depends only on the code and the user.
   */
  method GenerateUniquePromoCode(userId: int, maxAttempts: int, draws: seq<seq<int>>,
                                 addPromoCode: (string, int) -> bool)
    returns (r: Option<string>)
    requires maxAttempts <= |draws|
    requires forall k :: 0 <= k < |draws| ==> ValidPicks(draws[k])
    ensures r.Some? ==> ValidatePromoCode(r.value) && addPromoCode(r.value, userId)
    ensures r.Some? ==> exists k :: 0 <= k < maxAttempts && r.value == GeneratePromoCode(draws[k]) &&
                                  forall j :: 0 <= j < k ==> !addPromoCode(GeneratePromoCode(draws[j]), userId)
    ensures r.None? <==> forall k :: 0 <= k < maxAttempts ==> !addPromoCode(GeneratePromoCode(draws[k]), userId)
  {
    var attempt := 0;
    while attempt < maxAttempts
      invariant 0 <= attempt && (attempt == 0 || attempt <= maxAttempts)
      invariant forall j :: 0 <= j < attempt ==> !addPromoCode(GeneratePromoCode(draws[j]), userId)
    {
      var code := GeneratePromoCode(draws[attempt]);
      if addPromoCode(code, userId) {
        return Some(code);
      }
      attempt := attempt + 1;
    }
    return None;
  }

  /**
   * `can_generate_promo_code`, given `get_promo_codes_today(user_id)`: true
   * exactly when one more code still fits in the daily quota.
   */
  function CanGeneratePromoCode(codesToday: int): (r: bool)
    ensures r <==> codesToday + 1 <= MaxPromoCodesPerDay
  {
    codesToday < MaxPromoCodesPerDay
  }
}
