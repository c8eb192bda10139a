/** Facts about text that the event handler's error messages rely on. */
module Strings {

  /** True when `part` occurs as a contiguous piece of `text`. */
  predicate IsInfix(part: string, text: string): (b: bool)
    ensures b ==> |part| <= |text|
    decreases |text|
  {
    part <= text || (|text| > 0 && IsInfix(part, text[1..]))
  }

  /** Whatever surrounds it, a piece of text occurs in the concatenation. */
  lemma {:induction false} InfixOfConcat(before: string, part: string, after: string)
    ensures IsInfix(part, before + part + after)
    decreases |before|
  {
    if before == [] {
      assert before + part + after == part + after;
    } else {
      assert (before + part + after)[1..] == before[1..] + part + after;
      InfixOfConcat(before[1..], part, after);
    }
  }
}
