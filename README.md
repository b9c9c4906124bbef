# angry: character-level case conversion, modelled in Dafny

`angry` reads text and rewrites the case of its characters under one of four
policies: `uppercase`, `lowercase`, `reverse` (swap the case of every letter),
and `random` (swap the case of a letter when the next number drawn from a
random generator is even). This project models the conversion core and proves
its properties.

- `CharClass` (`char_class.dfy`) stands in for the Unicode classification and
  case mapping of Rust's `char`. It is a small explicit table: ASCII letters
  plus the four non-ASCII characters the tests use ('ß', 'æ', 'Æ' and the
  titlecase 'ǅ') and 'Ǆ' and 'ǆ', which are the case partners of 'ǅ'.
  `ReverseCase` is the "lowercase goes up, anything else goes down" rule that the reverse policy
  and the random flip both use.
- `Convertor` (`convertor.dfy`) is the trait's default `convert` from
  `src/convert/mod.rs`. It is a left-to-right fold. Each `convert_char` call
  gets the state the previous call left and yields zero or more characters,
  and the outputs are concatenated in order. A convertor is given by its
  `convert_char` as a step function `(state, char) -> (state, chars)`.
- `Simple` (`simple.dfy`) is `SimpleConvertor` from `src/convert/simple.rs`.
  It is a record of two closures, an eligibility filter and a conversion, with
  the constructors `Uppercase`, `Lowercase` and `Reverse`. `convert_char` only
  reads the record.
- `Random` (`random.dfy`) is `RandomConvertor` from `src/convert/random.rs`.
  The generator it borrows is the class `DrawStream`: an endless stream of
  draws (`nat -> nat`) and the count of draws taken so far. The class
  `RandomConvertor` has the methods `ConvertChar` and `Convert`. Their
  contracts tie them to the pure step `CharStep` and its fold `ConvertText`,
  and the lemmas are about those functions.
- `Legacy` (`legacy.dfy`) is the older `src/convert.rs`. It has a stateless
  trait on `&self` and one `SimpleConvertor`, which always reverses case. It
  keeps its own nested `if` and its own recursion, and a lemma proves it
  equal to the reverse policy of `Simple`.

The random policy decides by the parity of the draw alone (random.rs:20).

## Model

| member | source | states |
|---|---|---|
| CharClass.IsLowercase | src/convert/simple.rs:22 | a lowercase character is alphabetic and not uppercase |
| CharClass.IsUppercase | src/convert/simple.rs:29 | an uppercase character is alphabetic |
| CharClass.IsAlphabetic | src/convert/simple.rs:35 | `is_alphabetic` on the stand-in table: ASCII letters and the six listed non-ASCII letters |
| CharClass.ToUppercase | src/convert/simple.rs:111-119 | uppercasing yields one or two characters, none of them lowercase; a character with no uppercase form yields itself |
| CharClass.ToLowercase | src/convert/simple.rs:148-155 | lowercasing yields one character that is not uppercase; a character with no lowercase form yields itself |
| CharClass.ReverseCase | src/convert/simple.rs:35-41 | case reversal yields at least one character; from a lowercase letter none of them is lowercase; from anything else exactly one, not uppercase |
| CharClass.AsciiReverseCase | src/convert/simple.rs:34-42 | on ASCII, case reversal maps a letter to one ASCII letter of the other case, leaves a non-letter alone, and undoes itself |
| Convertor.Convert | src/convert/mod.rs:7-8 | the default `convert`: the fold that threads the state through `convert_char`; its properties are the lemmas below |
| Convertor.Run | src/convert/mod.rs:7-8 | the run of `convert_char` over a text has one call per character, and call i sees character i and the state call i - 1 left |
| Convertor.RunIsUnique | src/convert/mod.rs:8 | any sequence of states and outputs that fits those rules is that run |
| Convertor.ConvertFollowsRun | src/convert/mod.rs:7-8 | `convert` returns the state after the last call and the calls' outputs concatenated in order |
| Convertor.ConvertEmpty | src/convert/mod.rs:8 | empty text makes no call: empty output, state unchanged |
| Convertor.ConvertAppend | src/convert/mod.rs:7-11 | converting `a + b` is converting `a`, then `b` from the state `a` left, and concatenating |
| Convertor.ConvertLength | src/convert/mod.rs:8 | the output length is the sum of the per-call output lengths |
| Convertor.ConvertPreservesLength | src/convert/mod.rs:8 | when every call on the text's characters yields one character, the output is as long as the text |
| Convertor.ConvertStateless | src/convert/mod.rs:7-11 | a `convert_char` that keeps the state makes `convert` keep it, and `convert(a + b) == convert(a) + convert(b)` |
| Convertor.ConvertOneToOne | src/convert/mod.rs:8 | calls that each yield one character determine the whole output and final state position by position |
| Simple.New | src/convert/simple.rs:13-18 | `new` pairs the filter and the conversion closures |
| Simple.Uppercase | src/convert/simple.rs:20-25 | `uppercase` makes exactly the lowercase characters eligible |
| Simple.Lowercase | src/convert/simple.rs:27-32 | `lowercase` makes exactly the uppercase characters eligible |
| Simple.Reverse | src/convert/simple.rs:34-42 | `reverse` makes every letter eligible and converts it with `ReverseCase`; stated by `Simple.ReverseChar` |
| Simple.ConvertChar | src/convert/simple.rs:45-52 | `convert_char`: the conversion for an eligible character, the character alone otherwise; stated per policy by the three lemmas below |
| Simple.ConvertCharStep | src/convert/simple.rs:46 | `convert_char` as a driver step that hands back the same convertor |
| Simple.ConvertText | src/convert/mod.rs:7-8 | the default `convert` run on a simple convertor |
| Simple.UppercaseChar | src/convert/simple.rs:45-52 | under `uppercase`, a lowercase letter becomes its uppercase form, every other character stays as the single character it was, and no lowercase character comes out |
| Simple.LowercaseChar | src/convert/simple.rs:45-52 | under `lowercase`, an uppercase letter becomes its lowercase form, every other character stays as the single character it was, and no uppercase character comes out |
| Simple.ReverseChar | src/convert/simple.rs:34-42 | under `reverse`, lowercase goes to uppercase, other letters go to lowercase, and non-letters stay as they were |
| Simple.ConvertTextAppend | src/convert/simple.rs:45-52 | `convert_char` never changes the convertor, so `convert` leaves it as it was and text converts piece by piece |
| Simple.ConvertTextCons | src/convert/simple.rs:45-52 | converted text is the first character's conversion followed by the rest's |
| Simple.IneligibleTextUnchanged | src/convert/simple.rs:47-51 | text with no eligible character comes back unchanged |
| Simple.NonAlphabeticTextUnchanged | src/convert/simple.rs:49-51 | all three policies return text without letters unchanged |
| Simple.UppercaseLeavesNoLowercase | src/convert/simple.rs:20-25 | the output of `uppercase` contains no lowercase character |
| Simple.LowercaseLeavesNoUppercase | src/convert/simple.rs:27-32 | the output of `lowercase` contains no uppercase character |
| Simple.UppercaseIdempotent | src/convert/simple.rs:75-82 | uppercasing twice is uppercasing once |
| Simple.LowercaseIdempotent | src/convert/simple.rs:121-128 | lowercasing twice is lowercasing once |
| Simple.ReverseAsciiInvolution | src/convert/simple.rs:34-42 | on ASCII text `reverse` keeps the length and undoes itself |
| Simple.ReverseSharpSDoesNotRoundTrip | src/convert/simple.rs:34-42 | 'ß' reverses to "SS", which reverses to "ss": reversal does not undo itself once a character expands |
| Simple.CharExamples | src/convert/simple.rs:66-191 | the per-character outputs the unit tests expect: 'c', 'C', '1', 'æ', 'Æ', 'ǅ' and 'ß' under each policy; beyond the tests, `reverse` sends the titlecase 'ǅ' to 'ǆ' |
| Simple.ConvertTextPointwise | src/convert/simple.rs:45-52 | when each character converts to the character at the same position of `out`, the text converts to `out` |
| Simple.SimpleStringExample | src/convert/simple.rs:59-64 | `uppercase` turns "simple string" into "SIMPLE STRING" |
| Simple.LittleBitOfTextExample | tests/angry.rs:23-138 | "a little bit OF TEXT" becomes "A LITTLE BIT OF TEXT", "a little bit of text" and "A LITTLE BIT of text" under the three policies |
| Legacy.ConvertChar | src/convert.rs:27-37 | the legacy `convert_char`; stated by `Legacy.ConvertCharShape` |
| Legacy.Convert | src/convert.rs:7-13 | the legacy default `convert`; stated by the lemmas below |
| Legacy.ConvertCharShape | src/convert.rs:27-37 | a character yields at least one character; a non-letter yields itself; a lowercase letter yields its uppercase form, with no lowercase character in it; any other letter yields its lowercase form |
| Legacy.ConvertAppend | src/convert.rs:7-13 | the stateless `convert` maps `a + b` to `convert(a) + convert(b)` |
| Legacy.ConvertNeverShrinks | src/convert.rs:7-13 | the output is never shorter than the input |
| Legacy.AgreesWithReversePolicy | src/convert.rs:26-37 | the legacy convertor gives the same text as the newer `reverse` policy |
| Legacy.ConvertPointwise | src/convert.rs:7-13 | when each character converts to the character at the same position of `out`, the text converts to `out` |
| Legacy.Examples | src/convert.rs:44-86 | the unit tests' outputs: "simple string" to "SIMPLE STRING", 'c' to "C", 'C' to "c", '1' to "1", 'ß' to "SS", so the output can be longer than the input |
| Random.StepRng | src/convert/random.rs:39 | the mock generator `StepRng::new(1, 1)`: draw i is 1 + i, wrapping at 2^64 |
| Random.CharStep | src/convert/random.rs:19-30 | `convert_char` as a pure step: one draw more for a letter, none otherwise; the character alone for a non-letter or an odd draw |
| Random.ConvertText | src/convert/mod.rs:7-8 | the default `convert` run on the random step from a given number of draws taken |
| Random.DrawsConsumed | src/convert/random.rs:20 | `convert` takes exactly one draw per alphabetic character |
| Random.NonAlphabeticTextUnchanged | src/convert/random.rs:27-28 | text without letters comes back unchanged and takes no draw |
| Random.DependsOnlyOnParities | src/convert/random.rs:13-20 | the output and final position depend only on the text, the start position and the parities of the draws the text consumes |
| Random.EvenDrawsReverse | src/convert/random.rs:20-26 | when every draw is even, the result is the `reverse` policy's |
| Random.OddDrawsKeep | src/convert/random.rs:20-28 | when every draw is odd, the text is unchanged |
| Random.AsciiKeepsLength | src/convert/random.rs:19-30 | on ASCII text the output is ASCII and as long as the input, whatever the draws |
| Random.StepRngExample | src/convert/random.rs:37-43 | with draws 1, 2, 3, ... "simple string" becomes "sImPlE sTrInG" after twelve draws |
| Random.LittleBitOfTextLength | tests/angry.rs:140-150 | "a little bit OF TEXT" converts to 20 ASCII characters whatever the draws, so 20 bytes, 21 with the printed newline |
| Random.DrawStream.constructor | src/convert/random.rs:8 | a fresh generator over a given stream with no draw taken |
| Random.DrawStream.Next | src/convert/random.rs:20 | `gen::<usize>()` returns the next draw and advances by one |
| Random.RandomConvertor.constructor | src/convert/random.rs:13-15 | the convertor holds the generator it is given |
| Random.RandomConvertor.ConvertChar | src/convert/random.rs:19-30 | a non-letter passes through and takes no draw; a letter takes one draw, and an even draw reverses its case while an odd one keeps it |
| Random.RandomConvertor.Convert | src/convert/mod.rs:7-8 | the output and the generator's new position are the fold of `CharStep` from the old position, which has taken one draw per letter |
| Random.RandomConvertScenario | src/convert/random.rs:37-43 | the unit test `random_convert`, checked against the class contracts: "sImPlE sTrInG" after twelve draws |
| Random.ContinuedRunScenario | src/convert/random.rs:19-20 | two `convert` calls on one convertor continue the same run of draws and together give the one-call result |

## Left out

- The Unicode tables behind `is_alphabetic`, `is_lowercase`, `is_uppercase`, `to_uppercase` and `to_lowercase` belong to Rust's standard library. `CharClass` defines them on ASCII, on the four non-ASCII characters the tests use ('ß', 'æ', 'Æ', 'ǅ'), and on 'Ǆ' and 'ǆ', the case partners of 'ǅ'. Every other character counts as non-alphabetic and unmapped.
- The `rand` crate is not modelled: no `RngCore`, no distribution of `gen::<usize>()`, no probability. Draws are unbounded naturals, since only their parity is used. The mock `StepRng::new(1, 1)` is written out with its 64-bit wrap-around.
- Random.RandomConvertor: Rust's exclusive `&mut` borrow of the generator is not modelled. Another holder of the same `DrawStream` could advance it between calls.
- Results are collected sequences. The lazy `Box<dyn Iterator>` values are not modelled.
- The legacy `convert` takes any `T: Into<String>`. The model takes the character sequence directly.
- The legacy `SimpleConvertor::new` builds an empty struct, and `Simple.New` only pairs the two closures. Neither has a contract beyond its type.
- `src/cli.rs` and `src/main.rs` handle argument parsing, file and standard-input reading, and printing. They are I/O plumbing and not part of this model. `main.rs` also calls functions that `cli.rs` does not define.
- `src/convert.rs` and `src/convert/mod.rs` both define a module `convert`, which would not build together. They are modelled as two independent modules, `Legacy` and `Convertor`.
