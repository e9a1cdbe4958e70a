/** clean_phone_number, shared word for word by the user creation form and
    the user change form: an absent or empty number passes; any other value
    must match the regular expression ^\+?1?\d{9,15}$ under re.match. */
module Forms {
  import opened Outcomes

  /** `\d`, restricted to the ASCII digits. */
  predicate IsDigit(c: char) {
    '0' <= c <= '9'
  }

  predicate AllDigits(s: string) {
    forall i :: 0 <= i < |s| ==> IsDigit(s[i])
  }

  // The pattern, one piece at a time. An optional piece is tried both present
  // and absent, as the regex engine does when it backtracks.

  /** `\d{9,15}` running to the end of the subject. */
  predicate DigitRun(s: string) {
    9 <= |s| <= 15 && AllDigits(s)
  }

  /** `1?\d{9,15}` */
  predicate OptionalOneThenDigits(s: string) {
    (|s| > 0 && s[0] == '1' && DigitRun(s[1..])) || DigitRun(s)
  }

  /** `\+?1?\d{9,15}` */
  predicate OptionalPlusThenRest(s: string) {
    (|s| > 0 && s[0] == '+' && OptionalOneThenDigits(s[1..])) || OptionalOneThenDigits(s)
  }

  /** `^\+?1?\d{9,15}$` under re.match: the match starts at the beginning, and
      `$` matches at the end of the subject or just before a newline that
      ends it. */
  predicate MatchesPhonePattern(s: string) {
    || OptionalPlusThenRest(s)
    || (|s| > 0 && s[|s| - 1] == '\n' && OptionalPlusThenRest(s[..|s| - 1]))
  }

  function DropFinalNewline(s: string): string {
    if |s| > 0 && s[|s| - 1] == '\n' then s[..|s| - 1] else s
  }

  function DropLeadingPlus(s: string): string {
    if |s| > 0 && s[0] == '+' then s[1..] else s
  }

  /** The accepted numbers described directly: once one final newline and one
      leading '+' are set aside, only digits remain, nine to fifteen of them,
      or sixteen when the first is '1'. */
  predicate PhoneNumberShape(s: string) {
    var d := DropLeadingPlus(DropFinalNewline(s));
    AllDigits(d) && (9 <= |d| <= 15 || (|d| == 16 && d[0] == '1'))
  }

  lemma OptionalOneThenDigitsShape(d: string)
    ensures OptionalOneThenDigits(d) <==> AllDigits(d) && (9 <= |d| <= 15 || (|d| == 16 && d[0] == '1'))
  {
    if |d| > 0 && d[0] == '1' && DigitRun(d[1..]) {
      assert forall i :: 1 <= i < |d| ==> d[i] == d[1..][i - 1];
    }
    if AllDigits(d) && |d| == 16 && d[0] == '1' {
      assert DigitRun(d[1..]);
    }
  }

  lemma OptionalPlusThenRestShape(t: string)
    ensures OptionalPlusThenRest(t) <==> OptionalOneThenDigits(DropLeadingPlus(t))
  {
    OptionalOneThenDigitsShape(t);
  }

  /** The piecewise pattern and the direct description accept the same
      strings. */
  lemma {:induction false} PhonePatternIsShape(s: string)
    ensures MatchesPhonePattern(s) <==> PhoneNumberShape(s)
  {
    var t := DropFinalNewline(s);
    OptionalPlusThenRestShape(t);
    OptionalOneThenDigitsShape(DropLeadingPlus(t));
    if |s| > 0 && s[|s| - 1] == '\n' {
      // The newline is not a digit, so the pattern cannot take it as part of
      // the digit run.
      OptionalPlusThenRestShape(s);
      OptionalOneThenDigitsShape(DropLeadingPlus(s));
      assert !IsDigit(s[|s| - 1]);
      if |DropLeadingPlus(s)| > 0 {
        assert DropLeadingPlus(s)[|DropLeadingPlus(s)| - 1] == s[|s| - 1];
      }
      assert !OptionalPlusThenRest(s);
    }
  }

  /** clean_phone_number: None and "" pass unchanged; any other value passes
      unchanged when it has the accepted shape, and is otherwise refused. */
  function CleanPhoneNumber(value: Option<string>): (r: Outcome<Option<string>>)
    ensures r.Ok? ==> r.value == value
    ensures r.Ok? <==> value.None? || value.value == "" || PhoneNumberShape(value.value)
    ensures r.Err? ==> r.error == Invalid
  {
    if value.None? || value.value == "" then Ok(value)
    else
      PhonePatternIsShape(value.value);
      if MatchesPhonePattern(value.value) then Ok(value) else Err(Invalid)
  }

  /** A plain digit string of length n passes exactly when 9 <= n <= 15, or
      n = 16 and it starts with '1' (the optional '1' takes that digit). */
  lemma DigitStringAccepted(s: string)
    requires |s| > 0 && AllDigits(s)
    ensures CleanPhoneNumber(Some(s)).Ok? <==> 9 <= |s| <= 15 || (|s| == 16 && s[0] == '1')
  {
    assert IsDigit(s[0]) && IsDigit(s[|s| - 1]);
    assert DropLeadingPlus(DropFinalNewline(s)) == s;
  }

  /** Any character that is not a digit, other than a leading '+' or a final
      newline, makes the number fail. */
  lemma NonDigitRefused(s: string, k: nat)
    requires k < |s| && !IsDigit(s[k])
    requires !(k == 0 && s[k] == '+') && !(k == |s| - 1 && s[k] == '\n')
    ensures CleanPhoneNumber(Some(s)) == Err(Invalid)
  {
    var t := DropFinalNewline(s);
    assert k < |t| && t[k] == s[k];
    var d := DropLeadingPlus(t);
    if |t| > 0 && t[0] == '+' {
      assert k >= 1 && d[k - 1] == s[k];
    } else {
      assert d[k] == s[k];
    }
  }

  /** Validation hands back what it was given, so cleaning a cleaned value
      changes nothing. */
  lemma CleanIdempotent(value: Option<string>)
    requires CleanPhoneNumber(value).Ok?
    ensures CleanPhoneNumber(CleanPhoneNumber(value).value) == CleanPhoneNumber(value)
  {
  }

  /** Sample numbers: "+12345678901" and "1234567890" pass, "abc123" fails,
      a sixteen-digit number passes only when it starts with '1', and a number
      followed by one newline passes. */
  lemma Samples()
    ensures CleanPhoneNumber(Some("+12345678901")).Ok?
    ensures CleanPhoneNumber(Some("1234567890")).Ok?
    ensures CleanPhoneNumber(Some("abc123")) == Err(Invalid)
    ensures CleanPhoneNumber(Some("1234567890123456")).Ok?
    ensures CleanPhoneNumber(Some("2234567890123456")) == Err(Invalid)
    ensures CleanPhoneNumber(Some("123456789\n")).Ok?
    ensures CleanPhoneNumber(Some("12345678")) == Err(Invalid)
  {
    DigitStringAccepted("1234567890");
    DigitStringAccepted("1234567890123456");
    DigitStringAccepted("2234567890123456");
    DigitStringAccepted("12345678");
    NonDigitRefused("abc123", 0);
    assert DropLeadingPlus(DropFinalNewline("+12345678901")) == "12345678901";
    assert DropLeadingPlus(DropFinalNewline("123456789\n")) == "123456789";
  }
}
