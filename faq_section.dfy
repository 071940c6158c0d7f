/** The FAQ accordion: at most one answer open at a time
    (src/components/sections/FAQSection.tsx). */
module FaqSection {
  import opened Common

  /** The next `openIndex` after a click on question `index`. */
  function Toggle(openIndex: Option<int>, index: int): (next: Option<int>)
    ensures next == None <==> openIndex == Some(index)
    ensures next != None ==> next == Some(index)
  {
    if openIndex == Some(index) then None else Some(index)
  }

  /** An answer is rendered exactly when its question is the open one. */
  predicate AnswerVisible(openIndex: Option<int>, index: int)
  {
    openIndex == Some(index)
  }

  /** No two different answers are ever visible together. */
  lemma AtMostOneVisible(openIndex: Option<int>, i: int, j: int)
    requires AnswerVisible(openIndex, i) && AnswerVisible(openIndex, j)
    ensures i == j
  {
  }

  /** After opening question `index`, its answer is the only visible one. */
  lemma ToggleShowsOnlyTarget(openIndex: Option<int>, index: int, other: int)
    requires openIndex != Some(index)
    ensures AnswerVisible(Toggle(openIndex, index), other) <==> other == index
  {
  }

  /** Clicking a question twice from the closed state closes it again. */
  lemma ToggleTwiceCloses(index: int)
    ensures Toggle(Toggle(None, index), index) == None
  {
  }

  class Accordion {
    var openIndex: Option<int>

    constructor ()
      ensures openIndex == None
      ensures forall i :: !AnswerVisible(openIndex, i)
    {
      openIndex := None;
    }

    /** `toggleFAQ(index)`. */
    method ToggleFaq(index: int)
      modifies this
      ensures openIndex == Toggle(old(openIndex), index)
      ensures old(openIndex) == Some(index) ==> forall i :: !AnswerVisible(openIndex, i)
      ensures old(openIndex) != Some(index) ==> forall i :: AnswerVisible(openIndex, i) <==> i == index
    {
      openIndex := if openIndex == Some(index) then None else Some(index);
    }
  }
}
