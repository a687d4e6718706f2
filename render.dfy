/**
 * The colour rule of the prompt display: each prompt character is shown green when
 * the input has the same character at that index, red when the input has another
 * character there, and grey when the input does not reach that far.
 */
module Render {
  import opened Scoring

  datatype Colour = Green | Red | Gray

  /** The class name chosen for the prompt character at index. */
  function CharColour(text: string, userInput: string, index: nat): Colour
    requires index < |text|
  {
    if index < |userInput| then
      if userInput[index] == text[index] then Green else Red
    else Gray
  }

  /** The colours of the whole prompt, one per character. */
  function Colours(text: string, userInput: string): (cs: seq<Colour>)
    ensures |cs| == |text|
    ensures forall i :: 0 <= i < |text| ==>
              (cs[i] == Green <==> i < |userInput| && userInput[i] == text[i]) &&
              (cs[i] == Red <==> i < |userInput| && userInput[i] != text[i]) &&
              (cs[i] == Gray <==> i >= |userInput|)
  {
    seq(|text|, i requires 0 <= i < |text| => CharColour(text, userInput, i))
  }

  /** The number of entries below n that have colour c. */
  function CountColour(cs: seq<Colour>, c: Colour, n: nat): nat
    requires n <= |cs|
  {
    if n == 0 then 0
    else CountColour(cs, c, n - 1) + (if cs[n - 1] == c then 1 else 0)
  }

  /**
   * The green characters are exactly the correct keystrokes that accuracy counts,
   * whatever the lengths of prompt and input: a keystroke past the end of the prompt
   * has no character to colour and is not counted as correct either.
   */
  lemma GreenCountIsMatchCount(text: string, userInput: string)
    ensures CountColour(Colours(text, userInput), Green, |text|) == MatchCount(text, userInput)
  {
    GreenBelow(text, userInput, |text|);
    var least := if |text| <= |userInput| then |text| else |userInput|;
    CountBelowSaturates(text, userInput, least, |text|);
    CountBelowSaturates(text, userInput, least, |userInput|);
  }

  lemma {:induction false} GreenBelow(text: string, userInput: string, n: nat)
    requires n <= |text|
    ensures CountColour(Colours(text, userInput), Green, n) == CountBelow(text, userInput, n)
  {
    if n > 0 {
      GreenBelow(text, userInput, n - 1);
    }
  }

  /** The grey characters are the prompt characters past the end of the input. */
  lemma {:induction false} GrayBelow(text: string, userInput: string, n: nat)
    requires n <= |text|
    ensures CountColour(Colours(text, userInput), Gray, n) ==
              if n <= |userInput| then 0 else n - |userInput|
  {
    if n > 0 {
      GrayBelow(text, userInput, n - 1);
    }
  }
}
