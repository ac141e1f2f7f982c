/** The checksum engine of an ISBN library: the check characters of ISBN-13
    (modulus 10, weights 1 and 3) and ISBN-10 (modulus 11, weights 10 down to 2,
    a check value of 10 written 'X'), validation of both forms, and conversion
    between them. */
module Isbn {

  /** The ways an operation can fail, one per kind of error the library returns. */
  datatype Error =
    | InvalidDigit         // a payload character is not a decimal digit
    | LengthError          // the input does not have the length the conversion needs
    | UnconvertiblePrefix  // an ISBN-13 that does not start with 978 has no ISBN-10 form
    | InvalidIsbn          // the input fails validation

  datatype Result<T> = Ok(value: T) | Err(error: Error)

  /** The ten characters a single-character decimal parse accepts, in value order. */
  const Digits := "0123456789"

  /** A character a single-character decimal parse accepts. */
  predicate IsDigit(c: char) {
    '0' <= c <= '9'
  }

  predicate AllDigits(s: seq<char>) {
    forall i :: 0 <= i < |s| ==> IsDigit(s[i])
  }

  /** The value a single-character decimal parse gives: the position of c
      among the ten digits. */
  function DigitValue(c: char): (d: nat)
    requires IsDigit(c)
    ensures d < 10
  {
    c as int - '0' as int
  }

  /** The decimal rendering of a single digit, which parses back as d. */
  function DigitChar(d: nat): (c: char)
    requires d < 10
    ensures IsDigit(c) && DigitValue(c) == d
  {
    ('0' as int + d) as char
  }

  /** A character parses as a digit exactly when it is one of the ten digit
      characters; its value is its position among them, and rendering that
      value gives the character back. */
  lemma DigitParse(c: char)
    ensures IsDigit(c) <==> c in Digits
    ensures IsDigit(c) ==> Digits[DigitValue(c)] == c && DigitChar(DigitValue(c)) == c
  {
    if IsDigit(c) {
      assert Digits[DigitValue(c)] == c;
    }
  }

  /** A character that may stand in the check position of an ISBN-10. */
  predicate IsCheckChar10(c: char) {
    IsDigit(c) || c == 'X'
  }

  /** The check value an ISBN-10 check character stands for. */
  function CharValue10(c: char): (v: nat)
    requires IsCheckChar10(c)
    ensures v < 11
    ensures v == 10 <==> c == 'X'
  {
    if c == 'X' then 10 else DigitValue(c)
  }

  /** The rendering of an ISBN-10 check value. */
  function CheckChar10(v: nat): (c: char)
    requires v < 11
    ensures IsCheckChar10(c) && CharValue10(c) == v
  {
    if v == 10 then 'X' else DigitChar(v)
  }

  /** The ISBN-13 weighted digit sum of s: weight 1 at even positions and
      3 at odd ones. */
  function Sum13(s: seq<char>): (r: int)
    requires AllDigits(s)
    ensures 0 <= r
  {
    if s == [] then 0
    else
      var i := |s| - 1;
      Sum13(s[..i]) + if i % 2 == 0 then DigitValue(s[i]) else 3 * DigitValue(s[i])
  }

  /** The ISBN-10 weighted digit sum of s: position i has weight 10 - i. */
  function Sum10(s: seq<char>): (r: int)
    requires AllDigits(s) && |s| <= 10
    ensures 0 <= r
  {
    if s == [] then 0
    else Sum10(s[..|s| - 1]) + DigitValue(s[|s| - 1]) * (10 - (|s| - 1))
  }

  /** Adding (n - sum % n) % n to sum gives a multiple of n, for
      the two moduli the check values use. */
  lemma ComplementResidue(sum: int, n: int)
    requires n == 10 || n == 11
    ensures 0 <= (n - sum % n) % n < n
    ensures (sum + (n - sum % n) % n) % n == 0
  {
    if n == 10 {
      assert sum == 10 * (sum / 10) + sum % 10;
    } else {
      assert sum == 11 * (sum / 11) + sum % 11;
    }
  }

  /** The ISBN-13 check value of a payload: the one digit that brings the
      weighted sum to a multiple of 10. */
  function CheckValue13(payload: seq<char>): (v: nat)
    requires AllDigits(payload)
    ensures v < 10
    ensures (Sum13(payload) + v) % 10 == 0
  {
    var sum := Sum13(payload);
    ComplementResidue(sum, 10);
    (10 - sum % 10) % 10
  }

  /** The ISBN-10 check value of a payload: the one value in 0..10 that brings
      the weighted sum to a multiple of 11. */
  function CheckValue10(payload: seq<char>): (v: nat)
    requires AllDigits(payload) && |payload| <= 10
    ensures v < 11
    ensures (Sum10(payload) + v) % 11 == 0
  {
    var sum := Sum10(payload);
    ComplementResidue(sum, 11);
    (11 - sum % 11) % 11
  }

  /** The ISBN-13 check character over the first 12 characters of s. */
  function CheckDigit13(s: string): (r: Result<char>)
    requires |s| >= 12
    ensures r.Err? <==> exists i :: 0 <= i < 12 && !IsDigit(s[i])
    ensures r.Err? ==> r.error == InvalidDigit
    ensures r.Ok? ==> AllDigits(s[..12]) && IsDigit(r.value)
                      && (Sum13(s[..12]) + DigitValue(r.value)) % 10 == 0
  {
    if AllDigits(s[..12]) then Ok(DigitChar(CheckValue13(s[..12])))
    else
      assert exists i :: 0 <= i < 12 && !IsDigit(s[..12][i]);
      Err(InvalidDigit)
  }

  /** The ISBN-10 check character over the first 9 characters of s. */
  function CheckDigit10(s: string): (r: Result<char>)
    requires |s| >= 9
    ensures r.Err? <==> exists i :: 0 <= i < 9 && !IsDigit(s[i])
    ensures r.Err? ==> r.error == InvalidDigit
    ensures r.Ok? ==> AllDigits(s[..9]) && IsCheckChar10(r.value)
                      && (Sum10(s[..9]) + CharValue10(r.value)) % 11 == 0
  {
    if AllDigits(s[..9]) then Ok(CheckChar10(CheckValue10(s[..9])))
    else
      assert exists i :: 0 <= i < 9 && !IsDigit(s[..9][i]);
      Err(InvalidDigit)
  }

  /** The loop that computes the ISBN-13 check character, stopping at the
      first character that is not a digit. */
  method CalcCheckDigit13(s: string) returns (r: Result<char>)
    requires |s| >= 12
    ensures r == CheckDigit13(s)
  {
    var multipliers := [1, 3];
    var sum := 0;
    for idx := 0 to 12
      invariant AllDigits(s[..idx])
      invariant sum == Sum13(s[..idx])
    {
      if !IsDigit(s[idx]) {
        assert s[..12][idx] == s[idx];
        return Err(InvalidDigit);
      }
      var digit := DigitValue(s[idx]);
      if idx % 2 == 0 {
        sum := sum + digit * multipliers[0];
      } else {
        sum := sum + digit * multipliers[1];
      }
      assert s[..idx + 1][..idx] == s[..idx];
    }
    var checkDigit := (10 - sum % 10) % 10;
    r := Ok(DigitChar(checkDigit));
  }

  /** The loop that computes the ISBN-10 check character, stopping at the
      first character that is not a digit. */
  method CalcCheckDigit10(s: string) returns (r: Result<char>)
    requires |s| >= 9
    ensures r == CheckDigit10(s)
  {
    var sum := 0;
    for idx := 0 to 9
      invariant AllDigits(s[..idx])
      invariant sum == Sum10(s[..idx])
    {
      if !IsDigit(s[idx]) {
        assert s[..9][idx] == s[idx];
        return Err(InvalidDigit);
      }
      var digit := DigitValue(s[idx]);
      sum := sum + digit * (10 - idx);
      assert s[..idx + 1][..idx] == s[..idx];
    }
    var checkDigit := (11 - sum % 11) % 11;
    if checkDigit == 10 {
      return Ok('X');
    }
    r := Ok(DigitChar(checkDigit));
  }

  /** Whether s is a valid ISBN-10 or ISBN-13. Every malformed input gives false. */
  function Validate(s: string): (r: bool)
    ensures r ==> |s| == 10 || |s| == 13
    ensures r && |s| == 13 ==> "978" <= s || "979" <= s
  {
    if |s| != 10 && |s| != 13 then false
    else if |s| == 13 then
      if !("978" <= s) && !("979" <= s) then false
      else
        match CheckDigit13(s)
        case Err(_) => false
        case Ok(c) => c == s[|s| - 1]
    else
      match CheckDigit10(s)
      case Err(_) => false
      case Ok(c) => c == s[|s| - 1]
  }

  /** The ISBN-13 form of an ISBN-10: prefix 978, the same 9-digit payload and
      a freshly computed check digit. */
  function ConvertToIsbn13(isbn10: string): (r: Result<string>)
    ensures r == Err(LengthError) <==> |isbn10| != 10
    ensures r == Err(InvalidIsbn) <==> |isbn10| == 10 && !Validate(isbn10)
    ensures |isbn10| == 10 && Validate(isbn10) ==> r.Ok?
    ensures r.Ok? ==> |r.value| == 13 && "978" <= r.value
                      && r.value[3..12] == isbn10[..9] && Validate(r.value)
  {
    if |isbn10| != 10 then Err(LengthError)
    else if !Validate(isbn10) then Err(InvalidIsbn)
    else
      var first12Digits := "978" + isbn10[..9];
      assert CheckDigit10(isbn10).Ok?;
      assert AllDigits(first12Digits) by {
        assert forall i :: 3 <= i < 12 ==> first12Digits[i] == isbn10[..9][i - 3];
      }
      match CheckDigit13(first12Digits)
      case Err(e) => Err(e)
      case Ok(c) =>
        var out := first12Digits + [c];
        assert out[..12] == first12Digits[..12];
        assert CheckDigit13(out) == Ok(c);
        Ok(out)
  }

  /** The ISBN-10 form of an ISBN-13 that starts with 978: the 9-digit payload
      after the prefix and a freshly computed check character. */
  function ConvertToIsbn10(isbn13: string): (r: Result<string>)
    ensures r == Err(LengthError) <==> |isbn13| != 13
    ensures r == Err(UnconvertiblePrefix) <==> |isbn13| == 13 && !("978" <= isbn13)
    ensures r == Err(InvalidIsbn) <==> |isbn13| == 13 && "978" <= isbn13 && !Validate(isbn13)
    ensures |isbn13| == 13 && "978" <= isbn13 && Validate(isbn13) ==> r.Ok?
    ensures r.Ok? ==> |r.value| == 10 && r.value[..9] == isbn13[3..12] && Validate(r.value)
  {
    if |isbn13| != 13 then Err(LengthError)
    else if !("978" <= isbn13) then Err(UnconvertiblePrefix)
    else if !Validate(isbn13) then Err(InvalidIsbn)
    else
      var payload := isbn13[3..12];
      assert AllDigits(payload) by {
        assert forall i :: 0 <= i < 9 ==> payload[i] == isbn13[..12][i + 3];
      }
      match CheckDigit10(payload)
      case Err(e) => Err(e)
      case Ok(c) =>
        var out := payload + [c];
        assert out[..9] == payload[..9];
        assert CheckDigit10(out) == Ok(c);
        Ok(out)
  }
}
