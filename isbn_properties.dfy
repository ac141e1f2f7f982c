/** What validation and conversion mean: validation agrees with the
    checksum definitions of both formats, only digits and a final 'X' of an
    ISBN-10 are ever accepted, and the two conversions undo each other. */
module IsbnProperties {
  import opened Isbn

  /** An ISBN-13 by definition: 13 digits under a Bookland prefix whose
      weighted sum, the check digit included, is a multiple of 10. */
  ghost predicate IsIsbn13(s: string) {
    |s| == 13 && ("978" <= s || "979" <= s) && AllDigits(s) && Sum13(s) % 10 == 0
  }

  /** An ISBN-10 by definition: 9 digits and a check character whose weighted
      sum, the check value at weight 1 included, is a multiple of 11. */
  ghost predicate IsIsbn10(s: string) {
    |s| == 10 && AllDigits(s[..9]) && IsCheckChar10(s[9])
    && (Sum10(s[..9]) + CharValue10(s[9])) % 11 == 0
  }

  /** Two values below the modulus (10 or 11) with the same residue are equal. */
  lemma ResidueUnique(sum: int, a: int, b: int, n: int)
    requires n == 10 || n == 11
    requires 0 <= a < n && 0 <= b < n
    requires (sum + a) % n == 0 && (sum + b) % n == 0
    ensures a == b
  {
    if n == 10 {
      assert (sum + a) % 10 == 0 && (sum + b) % 10 == 0;
    } else {
      assert (sum + a) % 11 == 0 && (sum + b) % 11 == 0;
    }
  }

  lemma {:induction false} DigitValueInjective(c: char, d: char)
    requires IsDigit(c) && IsDigit(d) && DigitValue(c) == DigitValue(d)
    ensures c == d
  {
  }

  /** A 13-character string validates exactly when it is an ISBN-13. */
  lemma ValidateIsbn13(s: string)
    requires |s| == 13
    ensures Validate(s) <==> IsIsbn13(s)
  {
    if AllDigits(s) {
      assert s[..|s| - 1] == s[..12];
      assert Sum13(s) == Sum13(s[..12]) + DigitValue(s[12]);
    }
    if Validate(s) {
      forall i | 0 <= i < 13 ensures IsDigit(s[i]) {
        if i < 12 { assert s[..12][i] == s[i]; }
      }
    }
    if IsIsbn13(s) {
      assert AllDigits(s[..12]);
      var r := CheckDigit13(s);
      assert r.Ok?;
      ResidueUnique(Sum13(s[..12]), DigitValue(r.value), DigitValue(s[12]), 10);
      DigitValueInjective(r.value, s[12]);
    }
  }

  /** A 10-character string validates exactly when it is an ISBN-10. */
  lemma ValidateIsbn10(s: string)
    requires |s| == 10
    ensures Validate(s) <==> IsIsbn10(s)
  {
    if IsIsbn10(s) {
      var r := CheckDigit10(s);
      assert r.Ok?;
      ResidueUnique(Sum10(s[..9]), CharValue10(r.value), CharValue10(s[9]), 11);
      if r.value != 'X' && s[9] != 'X' {
        DigitValueInjective(r.value, s[9]);
      }
    }
  }

  /** Validation accepts exactly the ISBN-10s and the ISBN-13s; in particular
      every length other than 10 and 13 is rejected. */
  lemma ValidateMatchesDefinition(s: string)
    ensures Validate(s) <==> IsIsbn10(s) || IsIsbn13(s)
  {
    if |s| == 10 {
      ValidateIsbn10(s);
    } else if |s| == 13 {
      ValidateIsbn13(s);
    }
  }

  /** Only decimal digits are accepted, except an upper-case 'X' as the tenth
      character of an ISBN-10. */
  lemma ValidateCharacters(s: string, i: int)
    requires Validate(s) && 0 <= i < |s|
    ensures IsDigit(s[i]) || (|s| == 10 && i == 9 && s[i] == 'X')
  {
    ValidateMatchesDefinition(s);
    if |s| == 10 && i < 9 {
      assert s[..9][i] == s[i];
    }
  }

  /** A character that is not a digit anywhere in the payload means rejection. */
  lemma NonDigitPayloadRejected(s: string, i: int)
    requires 0 <= i < |s| - 1 && !IsDigit(s[i])
    ensures !Validate(s)
  {
    if Validate(s) {
      ValidateCharacters(s, i);
    }
  }

  /** Converting a valid ISBN-10 to ISBN-13 and back gives it back unchanged. */
  lemma RoundTripFromIsbn10(x: string)
    requires |x| == 10 && Validate(x)
    ensures ConvertToIsbn13(x).Ok?
    ensures ConvertToIsbn10(ConvertToIsbn13(x).value) == Ok(x)
  {
    var y := ConvertToIsbn13(x).value;
    assert y[3..12] == x[..9];
    assert y[3..12][..9] == x[..9];
    assert CheckDigit10(y[3..12]) == CheckDigit10(x);
    assert x[..9] + [x[9]] == x;
  }

  /** Converting a valid 978-prefixed ISBN-13 to ISBN-10 and back gives it
      back unchanged. */
  lemma RoundTripFromIsbn13(y: string)
    requires |y| == 13 && "978" <= y && Validate(y)
    ensures ConvertToIsbn10(y).Ok?
    ensures ConvertToIsbn13(ConvertToIsbn10(y).value) == Ok(y)
  {
    var x := ConvertToIsbn10(y).value;
    assert x[..9] == y[3..12];
    var first12 := "978" + x[..9];
    assert first12 == y[..12];
    assert first12[..12] == y[..12];
    assert CheckDigit13(first12) == CheckDigit13(y);
    assert first12 + [y[12]] == y;
  }
}
