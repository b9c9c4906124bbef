/** Stand-in for the Unicode character classification and case mapping of the
    host language's `char` type (`is_alphabetic`, `is_lowercase`, `is_uppercase`,
    `to_uppercase`, `to_lowercase`).

    The real tables are a foreign library.  This module defines them on ASCII
    letters, on the four non-ASCII characters the convertors' tests use
    ('ß', 'æ', 'Æ', 'ǅ'), and on 'Ǆ' and 'ǆ', the case partners of 'ǅ':
      U+00DF 'ß'  lowercase sharp s, uppercases to "SS"
      U+00E6 'æ'  lowercase ash, uppercases to U+00C6 'Æ'
      U+01C4 'Ǆ'  uppercase DZ with caron
      U+01C5 'ǅ'  titlecase Dz with caron: alphabetic, neither lower nor upper
      U+01C6 'ǆ'  lowercase dz with caron
    Every other character is treated as non-alphabetic and unmapped. */
module CharClass {

  const SharpS: char := '\U{00DF}'
  const SmallAsh: char := '\U{00E6}'
  const CapitalAsh: char := '\U{00C6}'
  const CapitalDz: char := '\U{01C4}'
  const TitleDz: char := '\U{01C5}'
  const SmallDz: char := '\U{01C6}'

  predicate IsAscii(c: char) {
    c < '\U{0080}'
  }

  predicate IsAsciiLower(c: char) {
    'a' <= c <= 'z'
  }

  predicate IsAsciiUpper(c: char) {
    'A' <= c <= 'Z'
  }

  /** `char::is_alphabetic` */
  predicate IsAlphabetic(c: char) {
    IsAsciiLower(c) || IsAsciiUpper(c)
    || c == SharpS || c == SmallAsh || c == CapitalAsh
    || c == CapitalDz || c == TitleDz || c == SmallDz
  }

  /** `char::is_lowercase`: every lowercase character is alphabetic, and none is uppercase. */
  predicate IsLowercase(c: char): (b: bool)
    ensures b ==> IsAlphabetic(c) && !IsUppercase(c)
  {
    IsAsciiLower(c) || c == SharpS || c == SmallAsh || c == SmallDz
  }

  /** `char::is_uppercase`: every uppercase character is alphabetic. */
  predicate IsUppercase(c: char): (b: bool)
    ensures b ==> IsAlphabetic(c)
  {
    IsAsciiUpper(c) || c == CapitalAsh || c == CapitalDz
  }

  /** `char::to_uppercase`, collected: one or more characters, none of them
      lowercase; a character with no uppercase mapping maps to itself. */
  function ToUppercase(c: char): (r: seq<char>)
    ensures 1 <= |r| <= 2
    ensures forall i :: 0 <= i < |r| ==> !IsLowercase(r[i])
    ensures !IsLowercase(c) && c != TitleDz ==> r == [c]
  {
    if IsAsciiLower(c) then [(c as int - 32) as char]
    else if c == SharpS then ['S', 'S']
    else if c == SmallAsh then [CapitalAsh]
    else if c == TitleDz || c == SmallDz then [CapitalDz]
    else [c]
  }

  /** `char::to_lowercase`, collected: one or more characters, none of them
      uppercase; a character with no lowercase mapping maps to itself. */
  function ToLowercase(c: char): (r: seq<char>)
    ensures |r| == 1
    ensures !IsUppercase(r[0])
    ensures !IsUppercase(c) && c != TitleDz ==> r == [c]
  {
    if IsAsciiUpper(c) then [(c as int + 32) as char]
    else if c == CapitalAsh then [SmallAsh]
    else if c == CapitalDz || c == TitleDz then [SmallDz]
    else [c]
  }

  /** The case reversal shared by the `reverse` policy and the random flip:
      a lowercase character goes to uppercase, any other to lowercase. */
  function ReverseCase(c: char): (r: seq<char>)
    ensures |r| >= 1
    ensures IsLowercase(c) ==> forall i :: 0 <= i < |r| ==> !IsLowercase(r[i])
    ensures !IsLowercase(c) ==> |r| == 1 && !IsUppercase(r[0])
  {
    if IsLowercase(c) then ToUppercase(c) else ToLowercase(c)
  }

  /** On ASCII, case reversal maps a letter to exactly one ASCII letter of the
      opposite case, leaves every other character alone, and undoes itself. */
  lemma AsciiReverseCase(c: char)
    requires IsAscii(c)
    ensures |ReverseCase(c)| == 1 && IsAscii(ReverseCase(c)[0])
    ensures IsAlphabetic(ReverseCase(c)[0]) == IsAlphabetic(c)
    ensures IsLowercase(c) ==> IsUppercase(ReverseCase(c)[0])
    ensures IsUppercase(c) ==> IsLowercase(ReverseCase(c)[0])
    ensures !IsAlphabetic(c) ==> ReverseCase(c) == [c]
    ensures IsAlphabetic(c) ==> ReverseCase(ReverseCase(c)[0]) == [c]
  {
  }
}
