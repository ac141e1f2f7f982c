/** The input/output pairs the library's tests check, stated as lemmas about the model. */
module IsbnVectors {
  import opened Isbn

  /** One more digit adds its weighted value to the ISBN-13 sum. */
  lemma Sum13Step(s: seq<char>, k: nat)
    requires AllDigits(s) && k < |s|
    ensures Sum13(s[..k + 1]) ==
      Sum13(s[..k]) + if k % 2 == 0 then DigitValue(s[k]) else 3 * DigitValue(s[k])
  {
    assert s[..k + 1][..k] == s[..k];
  }

  /** One more digit adds its weighted value to the ISBN-10 sum. */
  lemma Sum10Step(s: seq<char>, k: nat)
    requires AllDigits(s) && k < |s| <= 10
    ensures Sum10(s[..k + 1]) == Sum10(s[..k]) + DigitValue(s[k]) * (10 - k)
  {
    assert s[..k + 1][..k] == s[..k];
  }

  /** The ISBN-13 weighted sum of the first six digits of a 12-digit payload. */
  lemma Sum13FirstHalf(s: seq<char>)
    requires |s| == 12 && AllDigits(s)
    ensures Sum13(s[..6]) == DigitValue(s[0]) + 3 * DigitValue(s[1]) + DigitValue(s[2]) + 3 * DigitValue(s[3]) + DigitValue(s[4]) + 3 * DigitValue(s[5])
  {
    assert s[..0] == [];
    Sum13Step(s, 0);
    Sum13Step(s, 1);
    Sum13Step(s, 2);
    Sum13Step(s, 3);
    Sum13Step(s, 4);
    Sum13Step(s, 5);
  }

  /** What the last six digits of a 12-digit payload add to the ISBN-13 weighted sum. */
  lemma Sum13SecondHalf(s: seq<char>)
    requires |s| == 12 && AllDigits(s)
    ensures Sum13(s[..12]) == Sum13(s[..6]) + DigitValue(s[6]) + 3 * DigitValue(s[7]) + DigitValue(s[8]) + 3 * DigitValue(s[9]) + DigitValue(s[10]) + 3 * DigitValue(s[11])
  {
    Sum13Step(s, 6);
    Sum13Step(s, 7);
    Sum13Step(s, 8);
    Sum13Step(s, 9);
    Sum13Step(s, 10);
    Sum13Step(s, 11);
  }

  /** The ISBN-13 weighted sum of a 12-digit payload, written out term by term. */
  lemma Sum13Of12(s: seq<char>)
    requires |s| == 12 && AllDigits(s)
    ensures Sum13(s) ==
      DigitValue(s[0]) + 3 * DigitValue(s[1]) + DigitValue(s[2]) + 3 * DigitValue(s[3]) + DigitValue(s[4]) + 3 * DigitValue(s[5])
      + DigitValue(s[6]) + 3 * DigitValue(s[7]) + DigitValue(s[8]) + 3 * DigitValue(s[9]) + DigitValue(s[10]) + 3 * DigitValue(s[11])
  {
    Sum13FirstHalf(s);
    Sum13SecondHalf(s);
    assert s[..12] == s;
  }

  /** The ISBN-10 weighted sum of a 9-digit payload, written out term by term. */
  lemma Sum10Of9(s: seq<char>)
    requires |s| == 9 && AllDigits(s)
    ensures Sum10(s) ==
      10 * DigitValue(s[0]) + 9 * DigitValue(s[1]) + 8 * DigitValue(s[2])
      + 7 * DigitValue(s[3]) + 6 * DigitValue(s[4]) + 5 * DigitValue(s[5])
      + 4 * DigitValue(s[6]) + 3 * DigitValue(s[7]) + 2 * DigitValue(s[8])
  {
    assert s[..0] == [];
    Sum10Step(s, 0);
    Sum10Step(s, 1);
    Sum10Step(s, 2);
    Sum10Step(s, 3);
    Sum10Step(s, 4);
    Sum10Step(s, 5);
    Sum10Step(s, 6);
    Sum10Step(s, 7);
    Sum10Step(s, 8);
    assert s[..9] == s;
  }

  /** The ISBN-13 check character of 978-7-5327-3655 is 3. */
  lemma CheckDigit13OfSample()
    ensures CheckDigit13("978753273655") == Ok('3')
  {
    var p := "978753273655";
    assert p[..12] == p;
    Sum13Of12(p);
  }

  /** The ISBN-10 check character of 7-5327-3655 is 5. */
  lemma CheckDigit10OfSample()
    ensures CheckDigit10("753273655") == Ok('5')
  {
    var p := "753273655";
    assert p[..9] == p;
    Sum10Of9(p);
  }

  /** The ISBN-10 check character of 0-439-42089 is X. */
  lemma CheckDigit10OfSampleX()
    ensures CheckDigit10("043942089") == Ok('X')
  {
    var p := "043942089";
    assert p[..9] == p;
    Sum10Of9(p);
  }

  lemma ValidateAcceptsValidIsbns()
    ensures Validate("9787532736553")
    ensures Validate("7532736555")
    ensures Validate("043942089X")
  {
    CheckDigit13OfSample();
    assert "9787532736553"[..12] == "978753273655"[..12];
    CheckDigit10OfSample();
    assert "7532736555"[..9] == "753273655"[..9];
    CheckDigit10OfSampleX();
    assert "043942089X"[..9] == "043942089"[..9];
  }

  lemma ValidateRejectsInvalidIsbns()
    ensures !Validate("helloworld")
    ensures !Validate("978helloworld")
    ensures !Validate("lengthisnotcorrect")
    ensures !Validate("1237532736553")
    ensures !Validate("9787532736557")
    ensures !Validate("7532736559")
  {
    assert !IsDigit("helloworld"[0]);
    assert !IsDigit("978helloworld"[3]);
    assert "1237532736553"[0] != "978"[0] && "1237532736553"[0] != "979"[0];
    CheckDigit13OfSample();
    assert "9787532736557"[..12] == "978753273655"[..12];
    CheckDigit10OfSample();
    assert "7532736559"[..9] == "753273655"[..9];
  }

  lemma ConvertToIsbn13RejectsWrongLength()
    ensures ConvertToIsbn13("123456789") == Err(LengthError)
  {
  }

  lemma ConvertToIsbn13RejectsInvalidIsbns()
    ensures ConvertToIsbn13("7532736559") == Err(InvalidIsbn)
    ensures ConvertToIsbn13("helloworld") == Err(InvalidIsbn)
  {
    ValidateRejectsInvalidIsbns();
  }

  lemma ConvertToIsbn13OfSample()
    ensures ConvertToIsbn13("7532736555") == Ok("9787532736553")
  {
    ValidateAcceptsValidIsbns();
    CheckDigit13OfSample();
    assert "978" + "7532736555"[..9] == "978753273655";
    assert "978753273655" + ['3'] == "9787532736553";
  }

  lemma ConvertToIsbn10RejectsWrongLength()
    ensures ConvertToIsbn10("123456") == Err(LengthError)
  {
  }

  lemma ConvertToIsbn10RejectsInvalidIsbn()
    ensures ConvertToIsbn10("9787532736552") == Err(InvalidIsbn)
  {
    CheckDigit13OfSample();
    assert "9787532736552"[..12] == "978753273655"[..12];
    assert "978" <= "9787532736552";
  }

  /** A 13-character string without the 978 prefix is refused for its prefix,
      before its check digit is looked at. */
  lemma ConvertToIsbn10RejectsOtherPrefixes()
    ensures ConvertToIsbn10("helloworld123") == Err(UnconvertiblePrefix)
    ensures ConvertToIsbn10("1237532736553") == Err(UnconvertiblePrefix)
    ensures ConvertToIsbn10("9797532736553") == Err(UnconvertiblePrefix)
  {
    assert "helloworld123"[0] != "978"[0];
    assert "1237532736553"[0] != "978"[0];
    assert "9797532736553"[2] != "978"[2];
  }

  lemma ConvertToIsbn10OfSample()
    ensures ConvertToIsbn10("9787532736553") == Ok("7532736555")
  {
    ValidateAcceptsValidIsbns();
    assert "978" <= "9787532736553";
    CheckDigit10OfSample();
    assert "9787532736553"[3..12] == "753273655";
    assert "753273655" + ['5'] == "7532736555";
  }
}
