/** `RandomConvertor` (src/convert/random.rs): for each alphabetic character
    draw one number from the injected generator; an even draw reverses the
    character's case, an odd draw leaves it alone.  A non-alphabetic character
    passes through and draws nothing.  The only state is the generator's
    position in its stream of draws. */
module Random {
  import opened CharClass
  import Convertor
  import Simple

  /** The mock generator `StepRng::new(1, 1)`: draw number i is 1 + i,
      wrapping at 2^64. */
  function StepRng(i: nat): nat {
    (1 + i) % 0x1_0000_0000_0000_0000
  }

  /** `convert_char` as a step of the driver, its state being the number of
      draws `taken` so far from the stream `draws`. */
  function CharStep(draws: nat -> nat, taken: nat, c: char): (r: (nat, seq<char>))
    ensures r.0 == taken + (if IsAlphabetic(c) then 1 else 0)
    ensures |r.1| >= 1
    ensures !IsAlphabetic(c) || draws(taken) % 2 == 1 ==> r.1 == [c]
  {
    if IsAlphabetic(c) then
      (taken + 1, if draws(taken) % 2 == 0 then ReverseCase(c) else [c])
    else
      (taken, [c])
  }

  function Step(draws: nat -> nat): (nat, char) -> (nat, seq<char>) {
    (taken: nat, c: char) => CharStep(draws, taken, c)
  }

  /** The trait's default `convert`, run on a random convertor: the draws
      taken afterwards and the converted text. */
  function ConvertText(draws: nat -> nat, taken: nat, text: seq<char>): (nat, seq<char>) {
    Convertor.Convert(Step(draws), taken, text)
  }

  /** Number of alphabetic characters in a text. */
  function AlphabeticCount(text: seq<char>): nat {
    if text == [] then 0 else (if IsAlphabetic(text[0]) then 1 else 0) + AlphabeticCount(text[1..])
  }

  /** Unfolding of `ConvertText` on its first character. */
  lemma ConvertTextCons(draws: nat -> nat, taken: nat, text: seq<char>)
    requires text != []
    ensures ConvertText(draws, taken, text)
         == (ConvertText(draws, CharStep(draws, taken, text[0]).0, text[1..]).0,
             CharStep(draws, taken, text[0]).1 + ConvertText(draws, CharStep(draws, taken, text[0]).0, text[1..]).1)
  {
  }

  /** One draw per alphabetic character, none for any other character. */
  lemma {:induction false} DrawsConsumed(draws: nat -> nat, taken: nat, text: seq<char>)
    ensures ConvertText(draws, taken, text).0 == taken + AlphabeticCount(text)
    decreases |text|
  {
    if text != [] {
      ConvertTextCons(draws, taken, text);
      DrawsConsumed(draws, CharStep(draws, taken, text[0]).0, text[1..]);
    }
  }

  /** Text without alphabetic characters comes back unchanged and draws nothing. */
  lemma {:induction false} NonAlphabeticTextUnchanged(draws: nat -> nat, taken: nat, text: seq<char>)
    requires forall i :: 0 <= i < |text| ==> !IsAlphabetic(text[i])
    ensures ConvertText(draws, taken, text) == (taken, text)
    decreases |text|
  {
    if text != [] {
      ConvertTextCons(draws, taken, text);
      NonAlphabeticTextUnchanged(draws, taken, text[1..]);
      assert [text[0]] + text[1..] == text;
    }
  }

  /** The output depends on the stream only through the parity of the draws
      the text consumes: two streams that agree on those parities give the
      same text and the same final position. */
  lemma {:induction false} DependsOnlyOnParities(draws1: nat -> nat, draws2: nat -> nat, taken: nat, text: seq<char>)
    requires forall i :: taken <= i < taken + AlphabeticCount(text) ==> draws1(i) % 2 == draws2(i) % 2
    ensures ConvertText(draws1, taken, text) == ConvertText(draws2, taken, text)
    decreases |text|
  {
    if text != [] {
      ConvertTextCons(draws1, taken, text);
      ConvertTextCons(draws2, taken, text);
      var next := CharStep(draws1, taken, text[0]).0;
      assert next == CharStep(draws2, taken, text[0]).0;
      assert CharStep(draws1, taken, text[0]).1 == CharStep(draws2, taken, text[0]).1 by {
        if IsAlphabetic(text[0]) {
          assert draws1(taken) % 2 == draws2(taken) % 2;
        }
      }
      DependsOnlyOnParities(draws1, draws2, next, text[1..]);
    }
  }

  /** With only even draws every letter is reversed: the result is the
      `reverse` policy's. */
  lemma {:induction false} EvenDrawsReverse(draws: nat -> nat, taken: nat, text: seq<char>)
    requires forall i :: draws(i) % 2 == 0
    ensures ConvertText(draws, taken, text).1 == Simple.ConvertText(Simple.Reverse(), text)
    decreases |text|
  {
    if text != [] {
      ConvertTextCons(draws, taken, text);
      Simple.ConvertTextCons(Simple.Reverse(), text);
      EvenDrawsReverse(draws, CharStep(draws, taken, text[0]).0, text[1..]);
    }
  }

  /** With only odd draws nothing changes. */
  lemma {:induction false} OddDrawsKeep(draws: nat -> nat, taken: nat, text: seq<char>)
    requires forall i :: draws(i) % 2 == 1
    ensures ConvertText(draws, taken, text).1 == text
    decreases |text|
  {
    if text != [] {
      ConvertTextCons(draws, taken, text);
      OddDrawsKeep(draws, CharStep(draws, taken, text[0]).0, text[1..]);
      assert [text[0]] + text[1..] == text;
    }
  }

  /** On ASCII text the output is ASCII and exactly as long as the input,
      whatever the draws. */
  lemma {:induction false} AsciiKeepsLength(draws: nat -> nat, taken: nat, text: seq<char>)
    requires forall i :: 0 <= i < |text| ==> IsAscii(text[i])
    ensures |ConvertText(draws, taken, text).1| == |text|
    ensures forall i :: 0 <= i < |text| ==> IsAscii(ConvertText(draws, taken, text).1[i])
    decreases |text|
  {
    if text != [] {
      ConvertTextCons(draws, taken, text);
      AsciiReverseCase(text[0]);
      AsciiKeepsLength(draws, CharStep(draws, taken, text[0]).0, text[1..]);
    }
  }

  /** The expected output of the unit test `random_convert`: with draws
      1, 2, 3, ... every second letter is reversed, and the twelve letters take
      twelve draws. */
  lemma StepRngExample(text: seq<char>)
    requires text == "simple string"
    ensures ConvertText(StepRng, 0, text) == (12, "sImPlE sTrInG")
  {
    var states: seq<nat> := [0, 1, 2, 3, 4, 5, 6, 6, 7, 8, 9, 10, 11, 12];
    Convertor.ConvertOneToOne(Step(StepRng), text, states, "sImPlE sTrInG");
  }

  /** The command-line test on "a little bit OF TEXT" with the random flag:
      twenty ASCII characters out, whatever the draws, so twenty bytes. */
  lemma LittleBitOfTextLength(draws: nat -> nat, text: seq<char>)
    requires text == "a little bit OF TEXT"
    ensures |ConvertText(draws, 0, text).1| == 20
    ensures forall i :: 0 <= i < 20 ==> IsAscii(ConvertText(draws, 0, text).1[i])
  {
    AsciiKeepsLength(draws, 0, text);
  }

  /** The injected generator (`&mut dyn RngCore`): an endless stream of draws
      and how many of them have been taken. */
  class DrawStream {
    const draws: nat -> nat
    var taken: nat

    constructor (draws: nat -> nat)
      ensures this.draws == draws && taken == 0
    {
      this.draws := draws;
      taken := 0;
    }

    /** `gen::<usize>()`: the next draw. */
    method Next() returns (r: nat)
      modifies this
      ensures r == draws(old(taken)) && taken == old(taken) + 1
    {
      r := draws(taken);
      taken := taken + 1;
    }
  }

  /** The random convertor holds the generator it borrows mutably. */
  class RandomConvertor {
    const rng: DrawStream

    /** `RandomConvertor::new` */
    constructor (rng: DrawStream)
      ensures this.rng == rng
    {
      this.rng := rng;
    }

    /** `convert_char`: a draw is taken only for an alphabetic character
      (the `&&` short-circuits), and an even draw reverses its case. */
    method ConvertChar(c: char) returns (out: seq<char>)
      modifies rng
      ensures (rng.taken, out) == CharStep(rng.draws, old(rng.taken), c)
      ensures !IsAlphabetic(c) ==> out == [c] && rng.taken == old(rng.taken)
      ensures IsAlphabetic(c) ==> rng.taken == old(rng.taken) + 1
      ensures IsAlphabetic(c) && rng.draws(old(rng.taken)) % 2 == 0 ==> out == ReverseCase(c)
      ensures IsAlphabetic(c) && rng.draws(old(rng.taken)) % 2 == 1 ==> out == [c]
    {
      var flip := false;
      if IsAlphabetic(c) {
        var r := rng.Next();
        flip := r % 2 == 0;
      }
      if flip {
        if IsLowercase(c) {
          out := ToUppercase(c);
        } else {
          out := ToLowercase(c);
        }
      } else {
        out := [c];
      }
    }

    /** The trait's default `convert`: one `convert_char` per character, left
      to right, outputs concatenated; one draw per alphabetic character. */
    method Convert(text: seq<char>) returns (out: seq<char>)
      modifies rng
      ensures (rng.taken, out) == ConvertText(rng.draws, old(rng.taken), text)
      ensures rng.taken == old(rng.taken) + AlphabeticCount(text)
    {
      out := [];
      var i := 0;
      while i < |text|
        invariant 0 <= i <= |text|
        invariant (rng.taken, out) == ConvertText(rng.draws, old(rng.taken), text[..i])
      {
        ghost var before := rng.taken;
        var piece := ConvertChar(text[i]);
        Convertor.ConvertAppend(Step(rng.draws), old(rng.taken), text[..i], [text[i]]);
        ConvertTextCons(rng.draws, before, [text[i]]);
        assert CharStep(rng.draws, before, [text[i]][0]) == (rng.taken, piece);
        assert piece + [] == piece;
        assert ConvertText(rng.draws, before, [text[i]]) == (rng.taken, piece);
        assert text[..i + 1] == text[..i] + [text[i]];
        out := out + piece;
        i := i + 1;
      }
      assert text[..i] == text;
      DrawsConsumed(rng.draws, old(rng.taken), text);
    }
  }

  /** The unit test `random_convert`, checked against the contracts above. */
  method RandomConvertScenario() {
    var rng := new DrawStream(StepRng);
    var convertor := new RandomConvertor(rng);
    var out := convertor.Convert("simple string");
    StepRngExample("simple string");
    assert out == "sImPlE sTrInG";
    assert rng.taken == 12;
  }

  /** Two `convert` calls on one convertor continue the same run of draws:
      "simple" then " string" gives what "simple string" gives in one call. */
  method ContinuedRunScenario(a: seq<char>, b: seq<char>)
    requires a == "simple" && b == " string"
  {
    var rng := new DrawStream(StepRng);
    var convertor := new RandomConvertor(rng);
    var first := convertor.Convert(a);
    var second := convertor.Convert(b);
    Convertor.ConvertAppend(Step(StepRng), 0, a, b);
    StepRngExample(a + b);
    assert first + second == "sImPlE sTrInG";
    assert rng.taken == 12;
  }
}
