# go-isbn checksum engine, in Dafny

This is a model of the ISBN library `isbn.go`, with proofs about it. The library does four things:
- it computes the ISBN-13 check digit (modulus 10, weights 1 and 3 alternating);
- it computes the ISBN-10 check character (modulus 11, weights 10 down to 2, a check value of 10 written `X`);
- it validates 10- and 13-character identifiers;
- it converts between the two forms, reusing the 9-digit payload and computing a new check character.

Files:
- `isbn.dfy` (module `Isbn`): the model.
  - An error kind per failure branch of the source: `InvalidDigit`, `LengthError`, `UnconvertiblePrefix` and `InvalidIsbn`.
  - The weighted sums and the check values.
  - The specification functions `CheckDigit13` and `CheckDigit10`.
  - The two loops of the source as the methods `CalcCheckDigit13` and `CalcCheckDigit10`. Each is proved to return exactly what its specification function returns.
  - `Validate`, `ConvertToIsbn13` and `ConvertToIsbn10` as pure functions. A Dafny function cannot call a method, so these call the specification functions that the loop methods are proved equal to.
- `isbn_properties.dfy` (module `IsbnProperties`): what validation means and the round-trips.
  - `IsIsbn13` defines an ISBN-13 independently of the check-digit formula: 13 digits, prefix 978 or 979, and a weighted sum over all 13 digits that is a multiple of 10.
  - `IsIsbn10` defines an ISBN-10 the same way: 9 digits, then a digit or `X`, and a weighted sum, check value included, that is a multiple of 11.
  - `Validate` is proved to accept exactly these strings.
- `isbn_vectors.dfy` (module `IsbnVectors`): the inputs and outputs that `isbn_test.go` checks, stated as lemmas.

Strings are `seq<char>`. A character counts as a digit when it is `'0'`..`'9'`, which is exactly what a one-character `strconv.Atoi` accepts. The source returns the check character as a one-character string. The model returns it as a `char`: `strconv.Itoa` of 0..9 and `"X"` are all one character long.

The weighted sums are never negative. So Go's truncating `%` at isbn.go:26 and isbn.go:42 gives the same result as Dafny's Euclidean `%`.

Two behaviours of the code worth knowing:
- The check-digit helpers take any string at least 12 (or 9) characters long and read only its first 12 (or 9) characters (isbn.go:13, isbn.go:33). `Validate` passes them the whole input, check character included.
- A 13-character input without the `978` prefix gets `UnconvertiblePrefix` from `ConvertToIsbn10`, not `InvalidIsbn`. This holds even when the input is not valid at all, for example `"1237532736553"` and `"helloworld123"`. The test at isbn_test.go:86-89 calls the second case an invalid-ISBN error, but it only checks that some error is returned.

## Model

| member | source | states |
|---|---|---|
| `Isbn.DigitParse` | isbn.go:14-17 | stands for the one-character `strconv.Atoi` call: a character parses (`IsDigit`) exactly when it is one of the ten characters `0123456789`, its value (`DigitValue`) is its position among them, and rendering that value gives the character back |
| `Isbn.DigitValue` | isbn.go:34-39 | the value of a parsed digit is below 10, so each weighted term stays within one digit's range |
| `Isbn.DigitChar` | isbn.go:27 | `strconv.Itoa` of a check value below 10 renders a digit character that parses back as the same value |
| `Isbn.Sum13` | isbn.go:11-24 | the ISBN-13 weighted digit sum is never negative |
| `Isbn.Sum10` | isbn.go:32-40 | the ISBN-10 weighted digit sum of at most 10 digits is never negative |
| `Isbn.CheckValue13` | isbn.go:26 | the check value is a digit below 10 that brings the weighted sum to a multiple of 10 |
| `Isbn.CheckValue10` | isbn.go:42 | the check value is below 11 and brings the weighted sum to a multiple of 11 |
| `Isbn.CheckChar10` | isbn.go:44-47 | the check value is rendered as a digit, or as `X` exactly when it is 10, and the rendering reads back as the same value |
| `Isbn.CheckDigit13` | isbn.go:10-27 | fails with `InvalidDigit` iff one of the first 12 characters is not a digit; otherwise returns a digit that makes the weighted sum of those 12 digits plus the check digit a multiple of 10 |
| `Isbn.CheckDigit10` | isbn.go:31-48 | fails with `InvalidDigit` iff one of the first 9 characters is not a digit; otherwise returns a digit or `X` whose value makes the weighted sum a multiple of 11 |
| `Isbn.CalcCheckDigit13` | isbn.go:10-27 | the loop, with its early exit on a non-digit, returns exactly `CheckDigit13` of its input |
| `Isbn.CalcCheckDigit10` | isbn.go:31-48 | the loop, with its early exit on a non-digit and its `X` case, returns exactly `CheckDigit10` of its input |
| `Isbn.Validate` | isbn.go:52-80 | accepts only strings of length 10 or 13, and a 13-character string only under the prefix 978 or 979 |
| `Isbn.ConvertToIsbn13` | isbn.go:83-98 | `LengthError` iff the length is not 10; `InvalidIsbn` iff the length is 10 and the input does not validate; otherwise a 13-character result with prefix 978 and the input's 9-digit payload that itself validates (so the check-digit error branch never happens) |
| `Isbn.ConvertToIsbn10` | isbn.go:101-120 | `LengthError` iff the length is not 13; `UnconvertiblePrefix` iff the length is 13 and the prefix is not 978; `InvalidIsbn` iff the prefix is 978 and the input does not validate; otherwise a 10-character result carrying the input's payload that itself validates (so the check-digit error branch never happens) |
| `IsbnProperties.ValidateIsbn13` | isbn.go:59-79 | a 13-character string validates iff it is 13 digits under prefix 978 or 979 whose full weighted sum is a multiple of 10 |
| `IsbnProperties.ValidateIsbn10` | isbn.go:71-79 | a 10-character string validates iff it is 9 digits and a digit or `X` whose weighted sum with the check value is a multiple of 11 |
| `IsbnProperties.ValidateMatchesDefinition` | isbn.go:52-80 | validation accepts exactly the ISBN-10s and ISBN-13s so defined, and rejects every other length |
| `IsbnProperties.ValidateCharacters` | isbn.go:66-79 | every character of an accepted string is a digit, except an upper-case `X` in the tenth place of an ISBN-10 |
| `IsbnProperties.NonDigitPayloadRejected` | isbn.go:66-76 | a non-digit anywhere before the last character means rejection |
| `IsbnProperties.RoundTripFromIsbn10` | isbn.go:83-120 | converting a valid ISBN-10 to ISBN-13 succeeds, and converting back gives the original string |
| `IsbnProperties.RoundTripFromIsbn13` | isbn.go:83-120 | converting a valid 978-prefixed ISBN-13 to ISBN-10 succeeds, and converting back gives the original string |
| `IsbnVectors.ValidateAcceptsValidIsbns` | isbn_test.go:21-44 | `9787532736553`, `7532736555` and `043942089X` validate |
| `IsbnVectors.ValidateRejectsInvalidIsbns` | isbn_test.go:6-49 | `helloworld`, `978helloworld`, `lengthisnotcorrect`, `1237532736553`, `9787532736557` and `7532736559` do not validate |
| `IsbnVectors.ConvertToIsbn13RejectsWrongLength` | isbn_test.go:53-56 | `123456789` gives `LengthError` |
| `IsbnVectors.ConvertToIsbn13RejectsInvalidIsbns` | isbn_test.go:58-72 | `7532736559` and `helloworld` give `InvalidIsbn` |
| `IsbnVectors.ConvertToIsbn13OfSample` | isbn_test.go:63-67 | `7532736555` converts to `9787532736553` |
| `IsbnVectors.ConvertToIsbn10RejectsWrongLength` | isbn_test.go:76-79 | `123456` gives `LengthError` |
| `IsbnVectors.ConvertToIsbn10RejectsInvalidIsbn` | isbn_test.go:81-84 | `9787532736552` gives `InvalidIsbn` |
| `IsbnVectors.ConvertToIsbn10RejectsOtherPrefixes` | isbn_test.go:86-100 | `helloworld123`, `1237532736553` and `9797532736553` give `UnconvertiblePrefix` |
| `IsbnVectors.ConvertToIsbn10OfSample` | isbn_test.go:91-95 | `9787532736553` converts to `7532736555` |

## Left out

- Error message text (the `fmt.Errorf` calls): each error is an error-kind constructor. The unreachable check-digit branches at isbn.go:94-96 and isbn.go:115-117 pass the inner error on unchanged.
- Go's byte length versus rune iteration: UTF-8 decoding is not modelled. The lengths in the contracts of `Validate`, `ConvertToIsbn13` and `ConvertToIsbn10` count characters, while Go's `len` counts UTF-8 bytes (isbn.go:53, isbn.go:84, isbn.go:102). `Validate` accepts exactly the same strings, because only all-ASCII input can pass in Go, and for ASCII input bytes and characters coincide. For input with non-ASCII characters, `ConvertToIsbn13` and `ConvertToIsbn10` can return a different error kind than Go does. For example, Go gives `"753273655é"` (11 bytes) a length error where the model gives `InvalidIsbn`, and it gives `"12345678é"` (10 bytes) an invalid-ISBN error where the model gives `LengthError`.
- The panic of the check-digit helpers on a string shorter than 12 (or 9) characters, raised by the Go slice expression: the model requires the length instead. No caller in the library ever passes a shorter string.
- `isbn_test.go` as code: the `testing.T` harness and its reporting are not modelled. Only its input/output pairs are kept.
