/** The phone-number validator shared by the consultant and patient profiles:
    the regular expression `^\+?91?\d{9,15}$`, applied with `re.search`, and
    the CharField rules around it (max_length 17, blank or not). */
module Phone {

  /** `\d`, restricted to ASCII digits. */
  predicate IsDigit(c: char)
  {
    '0' <= c <= '9'
  }

  predicate AllDigits(s: string)
  {
    forall i :: 0 <= i < |s| ==> IsDigit(s[i])
  }

  /** `\d{9,15}` running to the end of the text. */
  predicate DigitRun(s: string)
  {
    9 <= |s| <= 15 && AllDigits(s)
  }

  /** `1?\d{9,15}`: the optional '1' is taken, or it is left to the digits. */
  predicate AfterNine(s: string)
  {
    DigitRun(s) || (|s| > 0 && s[0] == '1' && DigitRun(s[1..]))
  }

  /** `91?\d{9,15}` */
  predicate AfterPlus(s: string)
  {
    |s| > 0 && s[0] == '9' && AfterNine(s[1..])
  }

  /** `\+?91?\d{9,15}` spanning the whole text. */
  predicate Body(s: string)
  {
    AfterPlus(s) || (|s| > 0 && s[0] == '+' && AfterPlus(s[1..]))
  }

  /** The pattern as Python applies it: `$` matches at the end of the text and
      also just before a final newline. */
  predicate Matches(s: string)
  {
    Body(s) || (|s| > 0 && s[|s| - 1] == '\n' && Body(s[..|s| - 1]))
  }

  const MAX_LENGTH: nat := 17

  /** The phone CharField under full_clean: a blank value is accepted only
      when the field is `blank=True` (validators do not run on it); any other
      value must fit max_length and match the pattern. */
  predicate FieldOk(s: string, blankAllowed: bool)
  {
    if s == "" then blankAllowed else |s| <= MAX_LENGTH && Matches(s)
  }

  /** The text after an optional leading '+'. */
  function Unsigned(s: string): (b: string)
    ensures |s| - 1 <= |b| <= |s|
  {
    if |s| > 0 && s[0] == '+' then s[1..] else s
  }

  /** What the pattern accepts, without backtracking: after an optional '+',
      a '9' followed only by digits, 10 to 16 characters in all, or 17 when the
      second is the optional '1'. */
  predicate Shape(s: string)
  {
    var b := Unsigned(s);
    10 <= |b| && b[0] == '9' && AllDigits(b[1..]) && (|b| <= 16 || (|b| == 17 && b[1] == '1'))
  }

  lemma {:induction false} AfterNineShape(r: string)
    ensures AfterNine(r) <==> AllDigits(r) && (9 <= |r| <= 15 || (|r| == 16 && r[0] == '1'))
  {
    if AfterNine(r) && !DigitRun(r) {
      assert r == [r[0]] + r[1..];
      assert forall i :: 1 <= i < |r| ==> r[i] == r[1..][i - 1];
    }
    if AllDigits(r) && |r| == 16 && r[0] == '1' {
      assert forall i :: 0 <= i < |r[1..]| ==> r[1..][i] == r[i + 1];
      assert DigitRun(r[1..]);
    }
  }

  /** The recognizer and its backtracking-free reading agree on every text. */
  lemma {:induction false} BodyShape(s: string)
    ensures Body(s) <==> Shape(s)
  {
    var b := Unsigned(s);
    assert Body(s) <==> AfterPlus(b);
    if |b| > 0 {
      AfterNineShape(b[1..]);
      if |b| >= 2 {
        assert b[1..][0] == b[1];
      }
    }
  }

  /** The form the validator's own message advertises, "+91-" and ten digits,
      is refused: the pattern has no place for the hyphen. */
  lemma AdvertisedFormRefused()
    ensures !Matches("+91-9876543210")
  {
    var s := "+91-9876543210";
    BodyShape(s);
    assert Unsigned(s)[1..][1] == '-';
    assert s[|s| - 1] != '\n';
  }

  /** A number whose first character after the optional '+' is not a 9 is
      refused, with or without a trailing newline. */
  lemma FirstDigitNotNineRefused(s: string)
    requires |Unsigned(s)| > 0 && Unsigned(s)[0] != '9'
    ensures !Matches(s)
  {
    BodyShape(s);
    if s[|s| - 1] == '\n' {
      var t := s[..|s| - 1];
      BodyShape(t);
      if |Unsigned(t)| > 0 {
        assert Unsigned(t)[0] == Unsigned(s)[0];
      }
    }
  }

  /** The international form is accepted, and so is the same text followed by
      one newline. */
  lemma InternationalFormAccepted()
    ensures Matches("+919876543210") && Matches("+919876543210\n")
  {
    var s := "+919876543210";
    assert s[1..][1..] == "19876543210";
    assert DigitRun("19876543210");
    var t := "+919876543210\n";
    assert t[..|t| - 1] == s;
  }

  /** Accepted texts have 10 to 18 characters, and one more when Python's
      `$` lets a final newline through. */
  lemma MatchLength(s: string)
    ensures Body(s) ==> 10 <= |s| <= 18
    ensures Matches(s) ==> 10 <= |s| <= 19
  {
    BodyShape(s);
    if |s| > 0 {
      BodyShape(s[..|s| - 1]);
    }
  }

  /** The longest texts without a newline, '+', '9', '1' and fifteen
      digits, are accepted by the pattern but are one character over
      max_length, so the field refuses them. */
  lemma LongestMatchTooLong(digits: string)
    requires |digits| == 15 && AllDigits(digits)
    ensures Matches("+91" + digits) && |"+91" + digits| == 18 && !FieldOk("+91" + digits, true)
  {
    var s := "+91" + digits;
    assert Unsigned(s) == "91" + digits;
    assert forall i :: 0 <= i < |digits| ==> ("91" + digits)[1..][i + 1] == digits[i];
    BodyShape(s);
  }
}
