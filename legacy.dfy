/** The older, stand-alone convertor (src/convert.rs): its own `Convertor`
    trait on `&self`, whose only implementation, `SimpleConvertor`, reverses
    the case of every alphabetic character.  Nothing here has state. */
module Legacy {
  import opened CharClass
  import Simple

  /** `SimpleConvertor::convert_char`: a lowercase letter goes to uppercase,
      any other letter to lowercase, a non-letter passes through alone. */
  function ConvertChar(c: char): seq<char> {
    if IsAlphabetic(c) then
      if IsLowercase(c) then ToUppercase(c) else ToLowercase(c)
    else
      [c]
  }

  /** The trait's default `convert`: per-character outputs concatenated in order. */
  function Convert(text: seq<char>): seq<char> {
    if text == [] then [] else ConvertChar(text[0]) + Convert(text[1..])
  }

  /** Every character yields at least one character, a non-letter exactly
      itself, a lowercase letter its uppercase form, any other letter its
      lowercase form. */
  lemma ConvertCharShape(c: char)
    ensures |ConvertChar(c)| >= 1
    ensures !IsAlphabetic(c) ==> ConvertChar(c) == [c]
    ensures IsLowercase(c) ==> ConvertChar(c) == ToUppercase(c)
    ensures IsLowercase(c) ==> forall i :: 0 <= i < |ConvertChar(c)| ==> !IsLowercase(ConvertChar(c)[i])
    ensures IsAlphabetic(c) && !IsLowercase(c) ==> ConvertChar(c) == ToLowercase(c)
  {
  }

  /** The convertor is stateless: text converts piecewise, and so two calls
      on the same text agree and the output does not depend on earlier calls. */
  lemma {:induction false} ConvertAppend(a: seq<char>, b: seq<char>)
    ensures Convert(a + b) == Convert(a) + Convert(b)
    decreases |a|
  {
    if a == [] {
      assert a + b == b;
    } else {
      assert (a + b)[0] == a[0];
      assert (a + b)[1..] == a[1..] + b;
      ConvertAppend(a[1..], b);
    }
  }

  /** The output is at least as long as the input. */
  lemma {:induction false} ConvertNeverShrinks(text: seq<char>)
    ensures |Convert(text)| >= |text|
    decreases |text|
  {
    if text != [] {
      ConvertCharShape(text[0]);
      ConvertNeverShrinks(text[1..]);
    }
  }

  /** The legacy convertor is the `reverse` policy of the newer simple
      convertor, run through the newer driver. */
  lemma {:induction false} AgreesWithReversePolicy(text: seq<char>)
    ensures Convert(text) == Simple.ConvertText(Simple.Reverse(), text)
    decreases |text|
  {
    if text != [] {
      Simple.ConvertTextCons(Simple.Reverse(), text);
      AgreesWithReversePolicy(text[1..]);
    }
  }

  /** When every character of the text converts to exactly the character at
      the same position of `out`, the text converts to `out`. */
  lemma {:induction false} ConvertPointwise(text: seq<char>, out: seq<char>)
    requires |out| == |text|
    requires forall i :: 0 <= i < |text| ==> ConvertChar(text[i]) == [out[i]]
    ensures Convert(text) == out
    decreases |text|
  {
    if text != [] {
      ConvertPointwise(text[1..], out[1..]);
      assert [out[0]] + out[1..] == out;
    }
  }

  /** The expected outputs the module's unit tests pin. */
  lemma Examples(text: seq<char>)
    requires text == "simple string"
    ensures Convert(text) == "SIMPLE STRING"
    ensures ConvertChar('c') == ['C']
    ensures ConvertChar('C') == ['c']
    ensures ConvertChar('1') == ['1']
    ensures ConvertChar(SharpS) == ['S', 'S']
    ensures |Convert([SharpS])| > |[SharpS]|
  {
    ConvertPointwise(text, "SIMPLE STRING");
  }
}
