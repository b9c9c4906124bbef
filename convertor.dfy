/** The `Convertor` trait's default `convert` (src/convert/mod.rs): run
    `convert_char` on every character of the text, left to right, threading the
    convertor's mutable state from one call to the next, and concatenate the
    characters each call yields.

    A convertor is given here by its `convert_char` as a pure step function
    from (state, character) to (new state, output characters); `Convert`
    returns the final state together with the converted text. */
module Convertor {

  /** The default `convert`: a left-to-right fold over the text. */
  function Convert<S>(convertChar: (S, char) -> (S, seq<char>), s: S, text: seq<char>): (S, seq<char>)
    decreases |text|
  {
    if text == [] then (s, [])
    else
      var (s', out) := convertChar(s, text[0]);
      var (t, rest) := Convert(convertChar, s', text[1..]);
      (t, out + rest)
  }

  /** Concatenation of per-character outputs, in order. */
  function Flatten(outs: seq<seq<char>>): seq<char> {
    if outs == [] then [] else outs[0] + Flatten(outs[1..])
  }

  /** Sum of the lengths of the per-character outputs. */
  function TotalLength(outs: seq<seq<char>>): nat {
    if outs == [] then 0 else |outs[0]| + TotalLength(outs[1..])
  }

  /** `states` and `outs` record a run of `convertChar` over `text` from `s`:
      call number i sees character i and the state left by call i - 1, and
      there is exactly one call per character. */
  ghost predicate IsRun<S>(convertChar: (S, char) -> (S, seq<char>), s: S, text: seq<char>,
                           states: seq<S>, outs: seq<seq<char>>)
  {
    && |states| == |text| + 1
    && |outs| == |text|
    && states[0] == s
    && forall i :: 0 <= i < |text| ==> convertChar(states[i], text[i]) == (states[i + 1], outs[i])
  }

  /** The run of `convertChar` over `text`, one call per character. */
  function Run<S>(convertChar: (S, char) -> (S, seq<char>), s: S, text: seq<char>): (r: (seq<S>, seq<seq<char>>))
    ensures IsRun(convertChar, s, text, r.0, r.1)
    decreases |text|
  {
    if text == [] then ([s], [])
    else
      var (s', out) := convertChar(s, text[0]);
      var (states, outs) := Run(convertChar, s', text[1..]);
      ([s] + states, [out] + outs)
  }

  /** A run is determined by the step function, the initial state and the text. */
  lemma {:induction false} RunIsUnique<S>(convertChar: (S, char) -> (S, seq<char>), s: S, text: seq<char>,
                                          states: seq<S>, outs: seq<seq<char>>)
    requires IsRun(convertChar, s, text, states, outs)
    ensures (states, outs) == Run(convertChar, s, text)
    decreases |text|
  {
    if text == [] {
      assert states == [s];
    } else {
      var (s', out) := convertChar(s, text[0]);
      assert states[1] == s' && outs[0] == out by {
        assert convertChar(states[0], text[0]) == (states[1], outs[0]);
      }
      assert IsRun(convertChar, s', text[1..], states[1..], outs[1..]) by {
        forall i | 0 <= i < |text[1..]|
          ensures convertChar(states[1..][i], text[1..][i]) == (states[1..][i + 1], outs[1..][i])
        {
          assert convertChar(states[i + 1], text[i + 1]) == (states[i + 2], outs[i + 1]);
        }
      }
      RunIsUnique(convertChar, s', text[1..], states[1..], outs[1..]);
      assert states == [s] + states[1..];
      assert outs == [out] + outs[1..];
    }
  }

  /** `convert` calls `convert_char` once per character, left to right, and
      returns the state after the last call with the outputs concatenated in order. */
  lemma {:induction false} ConvertFollowsRun<S>(convertChar: (S, char) -> (S, seq<char>), s: S, text: seq<char>)
    ensures Convert(convertChar, s, text)
         == (Run(convertChar, s, text).0[|text|], Flatten(Run(convertChar, s, text).1))
    decreases |text|
  {
    if text != [] {
      var (s', out) := convertChar(s, text[0]);
      ConvertFollowsRun(convertChar, s', text[1..]);
      var (states, outs) := Run(convertChar, s', text[1..]);
      assert ([out] + outs)[1..] == outs;
    }
  }

  /** Empty text: no call to `convert_char`, empty output, state unchanged. */
  lemma ConvertEmpty<S>(convertChar: (S, char) -> (S, seq<char>), s: S)
    ensures Convert(convertChar, s, []) == (s, [])
    ensures Run(convertChar, s, []) == ([s], [])
  {
  }

  /** Converting `a + b` is converting `a`, then `b` from the state `a` left,
      and concatenating. */
  lemma {:induction false} ConvertAppend<S>(convertChar: (S, char) -> (S, seq<char>), s: S, a: seq<char>, b: seq<char>)
    ensures Convert(convertChar, s, a + b)
         == (Convert(convertChar, Convert(convertChar, s, a).0, b).0,
             Convert(convertChar, s, a).1 + Convert(convertChar, Convert(convertChar, s, a).0, b).1)
    decreases |a|
  {
    if a == [] {
      assert a + b == b;
      assert Convert(convertChar, s, a) == (s, []);
      assert [] + Convert(convertChar, s, b).1 == Convert(convertChar, s, b).1;
    } else {
      assert (a + b)[0] == a[0];
      assert (a + b)[1..] == a[1..] + b;
      var (s', out) := convertChar(s, a[0]);
      ConvertAppend(convertChar, s', a[1..], b);
      var (sa, outA) := Convert(convertChar, s', a[1..]);
      var (sb, outB) := Convert(convertChar, sa, b);
      assert Convert(convertChar, s, a) == (sa, out + outA);
      assert Convert(convertChar, s, a + b) == (sb, out + (outA + outB));
      assert out + (outA + outB) == (out + outA) + outB;
    }
  }

  /** The output is as long as all per-character outputs together. */
  lemma {:induction false} ConvertLength<S>(convertChar: (S, char) -> (S, seq<char>), s: S, text: seq<char>)
    ensures |Convert(convertChar, s, text).1| == TotalLength(Run(convertChar, s, text).1)
    decreases |text|
  {
    if text != [] {
      var (s', out) := convertChar(s, text[0]);
      ConvertLength(convertChar, s', text[1..]);
      var (states, outs) := Run(convertChar, s', text[1..]);
      assert ([out] + outs)[1..] == outs;
    }
  }

  /** When every call on the text's characters yields exactly one character,
      whatever the state, the output is as long as the text. */
  lemma {:induction false} ConvertPreservesLength<S>(convertChar: (S, char) -> (S, seq<char>), s: S, text: seq<char>)
    requires forall i, st :: 0 <= i < |text| ==> |convertChar(st, text[i]).1| == 1
    ensures |Convert(convertChar, s, text).1| == |text|
    decreases |text|
  {
    if text != [] {
      var (s', out) := convertChar(s, text[0]);
      assert |out| == 1;
      forall i, st | 0 <= i < |text[1..]| ensures |convertChar(st, text[1..][i]).1| == 1 {
        assert text[1..][i] == text[i + 1];
      }
      ConvertPreservesLength(convertChar, s', text[1..]);
    }
  }

  /** A convertor whose `convert_char` never changes its state ends where it
      started, and then converting `a + b` is converting `a` and `b` separately. */
  lemma {:induction false} ConvertStateless<S>(convertChar: (S, char) -> (S, seq<char>), s: S, a: seq<char>, b: seq<char>)
    requires forall st, c :: convertChar(st, c).0 == st
    ensures Convert(convertChar, s, a).0 == s
    ensures Convert(convertChar, s, a + b).1 == Convert(convertChar, s, a).1 + Convert(convertChar, s, b).1
    decreases |a|
  {
    if a != [] {
      ConvertStateless(convertChar, s, a[1..], b);
    }
    ConvertAppend(convertChar, s, a, b);
  }

  /** When each call yields exactly one character, a text converts to `out`
      with final state `states[|text|]` as soon as call i, from `states[i]` on
      character i, yields `out[i]` and leaves `states[i + 1]`. */
  lemma {:induction false} ConvertOneToOne<S>(convertChar: (S, char) -> (S, seq<char>), text: seq<char>,
                                              states: seq<S>, out: seq<char>)
    requires |states| == |text| + 1 && |out| == |text|
    requires forall i :: 0 <= i < |text| ==> convertChar(states[i], text[i]) == (states[i + 1], [out[i]])
    ensures Convert(convertChar, states[0], text) == (states[|text|], out)
    decreases |text|
  {
    if text != [] {
      assert convertChar(states[0], text[0]) == (states[1], [out[0]]);
      ConvertOneToOne(convertChar, text[1..], states[1..], out[1..]);
      assert [out[0]] + out[1..] == out;
    }
  }
}
