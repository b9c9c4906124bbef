/** `SimpleConvertor` (src/convert/simple.rs): a stateless convertor built from
    an eligibility filter and a conversion.  An eligible character is replaced
    by what the conversion yields; any other character passes through alone.
    The three policies `uppercase`, `lowercase` and `reverse` are such pairs. */
module Simple {
  import opened CharClass
  import Convertor

  /** The two closures the convertor holds; `convert_char` only reads them. */
  datatype SimpleConvertor = SimpleConvertor(filter: char -> bool, convert: char -> seq<char>)

  /** `SimpleConvertor::new` */
  function New(filter: char -> bool, convert: char -> seq<char>): SimpleConvertor {
    SimpleConvertor(filter, convert)
  }

  /** `SimpleConvertor::uppercase`: alphabetic lowercase characters are
      eligible, and become their uppercase form. */
  function Uppercase(): (sc: SimpleConvertor)
    ensures forall c :: sc.filter(c) <==> IsLowercase(c)
  {
    New(c => IsAlphabetic(c) && IsLowercase(c), c => ToUppercase(c))
  }

  /** `SimpleConvertor::lowercase`: alphabetic uppercase characters are
      eligible, and become their lowercase form. */
  function Lowercase(): (sc: SimpleConvertor)
    ensures forall c :: sc.filter(c) <==> IsUppercase(c)
  {
    New(c => IsAlphabetic(c) && IsUppercase(c), c => ToLowercase(c))
  }

  /** `SimpleConvertor::reverse`: every alphabetic character is eligible;
      lowercase goes to uppercase, anything else to lowercase. */
  function Reverse(): SimpleConvertor {
    New(c => IsAlphabetic(c), ReverseCase)
  }

  /** `convert_char` */
  function ConvertChar(sc: SimpleConvertor, c: char): seq<char> {
    if sc.filter(c) then sc.convert(c) else [c]
  }

  /** `convert_char` as a step of the driver: the convertor is handed back unchanged. */
  function ConvertCharStep(sc: SimpleConvertor, c: char): (SimpleConvertor, seq<char>) {
    (sc, ConvertChar(sc, c))
  }

  /** The trait's default `convert`, run on a simple convertor. */
  function ConvertText(sc: SimpleConvertor, text: seq<char>): seq<char> {
    Convertor.Convert(ConvertCharStep, sc, text).1
  }

  /** Per character, `uppercase` changes exactly the lowercase letters, into
      their uppercase form, and never yields a lowercase character. */
  lemma UppercaseChar(c: char)
    ensures IsLowercase(c) ==> ConvertChar(Uppercase(), c) == ToUppercase(c)
    ensures !IsLowercase(c) ==> ConvertChar(Uppercase(), c) == [c]
    ensures forall i :: 0 <= i < |ConvertChar(Uppercase(), c)| ==> !IsLowercase(ConvertChar(Uppercase(), c)[i])
  {
  }

  /** Per character, `lowercase` changes exactly the uppercase letters, into
      their lowercase form, and never yields an uppercase character. */
  lemma LowercaseChar(c: char)
    ensures IsUppercase(c) ==> ConvertChar(Lowercase(), c) == ToLowercase(c)
    ensures !IsUppercase(c) ==> ConvertChar(Lowercase(), c) == [c]
    ensures forall i :: 0 <= i < |ConvertChar(Lowercase(), c)| ==> !IsUppercase(ConvertChar(Lowercase(), c)[i])
  {
  }

  /** Per character, `reverse` sends lowercase letters to uppercase, other
      letters to lowercase, and leaves non-alphabetic characters alone. */
  lemma ReverseChar(c: char)
    ensures IsLowercase(c) ==> ConvertChar(Reverse(), c) == ToUppercase(c)
    ensures IsAlphabetic(c) && !IsLowercase(c) ==> ConvertChar(Reverse(), c) == ToLowercase(c)
    ensures !IsAlphabetic(c) ==> ConvertChar(Reverse(), c) == [c]
  {
  }

  /** `convert_char` never changes the convertor, so converting text leaves
      it as it was and text converts piecewise. */
  lemma ConvertTextAppend(sc: SimpleConvertor, a: seq<char>, b: seq<char>)
    ensures Convertor.Convert(ConvertCharStep, sc, a).0 == sc
    ensures ConvertText(sc, a + b) == ConvertText(sc, a) + ConvertText(sc, b)
  {
    Convertor.ConvertStateless(ConvertCharStep, sc, a, b);
  }

  /** The text-level conversion is the per-character conversion of the first
      character followed by the conversion of the rest. */
  lemma ConvertTextCons(sc: SimpleConvertor, text: seq<char>)
    requires text != []
    ensures ConvertText(sc, text) == ConvertChar(sc, text[0]) + ConvertText(sc, text[1..])
  {
    ConvertTextAppend(sc, [text[0]], text[1..]);
    assert [text[0]] + text[1..] == text;
  }

  /** Text none of whose characters is eligible comes back unchanged. */
  lemma {:induction false} IneligibleTextUnchanged(sc: SimpleConvertor, text: seq<char>)
    requires forall i :: 0 <= i < |text| ==> !sc.filter(text[i])
    ensures ConvertText(sc, text) == text
    decreases |text|
  {
    if text != [] {
      ConvertTextCons(sc, text);
      IneligibleTextUnchanged(sc, text[1..]);
      assert [text[0]] + text[1..] == text;
    }
  }

  /** Text of which every character is non-alphabetic is returned unchanged by
      every policy. */
  lemma NonAlphabeticTextUnchanged(text: seq<char>)
    requires forall i :: 0 <= i < |text| ==> !IsAlphabetic(text[i])
    ensures ConvertText(Uppercase(), text) == text
    ensures ConvertText(Lowercase(), text) == text
    ensures ConvertText(Reverse(), text) == text
  {
    IneligibleTextUnchanged(Uppercase(), text);
    IneligibleTextUnchanged(Lowercase(), text);
    IneligibleTextUnchanged(Reverse(), text);
  }

  /** `uppercase` leaves no lowercase character in its output. */
  lemma {:induction false} UppercaseLeavesNoLowercase(text: seq<char>)
    ensures forall i :: 0 <= i < |ConvertText(Uppercase(), text)| ==> !IsLowercase(ConvertText(Uppercase(), text)[i])
    decreases |text|
  {
    if text != [] {
      ConvertTextCons(Uppercase(), text);
      UppercaseChar(text[0]);
      UppercaseLeavesNoLowercase(text[1..]);
    }
  }

  /** `lowercase` leaves no uppercase character in its output. */
  lemma {:induction false} LowercaseLeavesNoUppercase(text: seq<char>)
    ensures forall i :: 0 <= i < |ConvertText(Lowercase(), text)| ==> !IsUppercase(ConvertText(Lowercase(), text)[i])
    decreases |text|
  {
    if text != [] {
      ConvertTextCons(Lowercase(), text);
      LowercaseChar(text[0]);
      LowercaseLeavesNoUppercase(text[1..]);
    }
  }

  /** Uppercasing twice is uppercasing once. */
  lemma UppercaseIdempotent(text: seq<char>)
    ensures ConvertText(Uppercase(), ConvertText(Uppercase(), text)) == ConvertText(Uppercase(), text)
  {
    UppercaseLeavesNoLowercase(text);
    IneligibleTextUnchanged(Uppercase(), ConvertText(Uppercase(), text));
  }

  /** Lowercasing twice is lowercasing once. */
  lemma LowercaseIdempotent(text: seq<char>)
    ensures ConvertText(Lowercase(), ConvertText(Lowercase(), text)) == ConvertText(Lowercase(), text)
  {
    LowercaseLeavesNoUppercase(text);
    IneligibleTextUnchanged(Lowercase(), ConvertText(Lowercase(), text));
  }

  /** On ASCII text, `reverse` keeps the length and undoes itself. */
  lemma {:induction false} ReverseAsciiInvolution(text: seq<char>)
    requires forall i :: 0 <= i < |text| ==> IsAscii(text[i])
    ensures |ConvertText(Reverse(), text)| == |text|
    ensures ConvertText(Reverse(), ConvertText(Reverse(), text)) == text
    decreases |text|
  {
    if text != [] {
      var c := text[0];
      AsciiReverseCase(c);
      ConvertTextCons(Reverse(), text);
      ReverseAsciiInvolution(text[1..]);
      var once := ConvertText(Reverse(), text);
      assert once == ConvertChar(Reverse(), c) + ConvertText(Reverse(), text[1..]);
      assert once[0] == ConvertChar(Reverse(), c)[0];
      assert once[1..] == ConvertText(Reverse(), text[1..]);
      ConvertTextCons(Reverse(), once);
      assert ConvertChar(Reverse(), once[0]) == [c];
      assert [c] + text[1..] == text;
    }
  }

  /** Case reversal is not an involution once a character expands: 'ß'
      reverses to "SS", which reverses to "ss". */
  lemma ReverseSharpSDoesNotRoundTrip()
    ensures ConvertText(Reverse(), [SharpS]) == ['S', 'S']
    ensures ConvertText(Reverse(), ConvertText(Reverse(), [SharpS])) == ['s', 's']
  {
    ConvertTextCons(Reverse(), [SharpS]);
    ConvertTextCons(Reverse(), ['S', 'S']);
    ConvertTextCons(Reverse(), ['S']);
  }

  /** The expected outputs the module's unit tests pin, character by character. */
  lemma CharExamples()
    ensures ConvertChar(Uppercase(), 'c') == ['C']
    ensures ConvertChar(Uppercase(), 'C') == ['C']
    ensures ConvertChar(Uppercase(), '1') == ['1']
    ensures ConvertChar(Uppercase(), SmallAsh) == [CapitalAsh]
    ensures ConvertChar(Uppercase(), TitleDz) == [TitleDz]
    ensures ConvertChar(Uppercase(), SharpS) == ['S', 'S']
    ensures ConvertChar(Lowercase(), 'c') == ['c']
    ensures ConvertChar(Lowercase(), 'C') == ['c']
    ensures ConvertChar(Lowercase(), '1') == ['1']
    ensures ConvertChar(Lowercase(), CapitalAsh) == [SmallAsh]
    ensures ConvertChar(Lowercase(), TitleDz) == [TitleDz]
    ensures ConvertChar(Reverse(), 'c') == ['C']
    ensures ConvertChar(Reverse(), 'C') == ['c']
    ensures ConvertChar(Reverse(), '1') == ['1']
    ensures ConvertChar(Reverse(), TitleDz) == [SmallDz]
  {
  }

  /** When every character of the text converts to exactly the character at
      the same position of `out`, the text converts to `out`. */
  lemma {:induction false} ConvertTextPointwise(sc: SimpleConvertor, text: seq<char>, out: seq<char>)
    requires |out| == |text|
    requires forall i :: 0 <= i < |text| ==> ConvertChar(sc, text[i]) == [out[i]]
    ensures ConvertText(sc, text) == out
    decreases |text|
  {
    if text != [] {
      ConvertTextCons(sc, text);
      ConvertTextPointwise(sc, text[1..], out[1..]);
      assert [out[0]] + out[1..] == out;
    }
  }

  /** The expected output of the unit test `convert_string_to_upper`. */
  lemma SimpleStringExample(text: seq<char>)
    requires text == "simple string"
    ensures ConvertText(Uppercase(), text) == "SIMPLE STRING"
  {
    ConvertTextPointwise(Uppercase(), text, "SIMPLE STRING");
  }

  /** The expected outputs of the command-line tests on "a little bit OF TEXT"
      with the uppercase, lowercase and reverse flags. */
  lemma LittleBitOfTextExample(text: seq<char>)
    requires text == "a little bit OF TEXT"
    ensures ConvertText(Uppercase(), text) == "A LITTLE BIT OF TEXT"
    ensures ConvertText(Lowercase(), text) == "a little bit of text"
    ensures ConvertText(Reverse(), text) == "A LITTLE BIT of text"
  {
    ConvertTextPointwise(Uppercase(), text, "A LITTLE BIT OF TEXT");
    ConvertTextPointwise(Lowercase(), text, "a little bit of text");
    ConvertTextPointwise(Reverse(), text, "A LITTLE BIT of text");
  }
}
