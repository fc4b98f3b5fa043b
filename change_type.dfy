/**
 The ChangeType widget of `src/components/ChangeType.tsx`: one state cell
 holding a question type, a button that toggles it, and a label showing it.
 */
module ChangeType {
  import opened Nested

  /** The type shown first. */
  const InitialType: QuestionType := ShortAnswer

  /** swapType: short answer becomes multiple choice and anything else short answer. */
  function Swapped(t: QuestionType): (r: QuestionType)
    ensures r != t
  {
    if t == ShortAnswer then MultipleChoice else ShortAnswer
  }

  /** Swapping twice restores the type. */
  lemma SwapTwice(t: QuestionType)
    ensures Swapped(Swapped(t)) == t
  {
  }

  /** The labels rendered for a type: each of the two conditional blocks contributes its
      label when its test holds. */
  function Labels(t: QuestionType): (shown: seq<string>)
    ensures |shown| == 1
    ensures shown[0] == "Short Answer" <==> t == ShortAnswer
    ensures shown[0] == "Multiple Choice" <==> t == MultipleChoice
  {
    (if t == ShortAnswer then ["Short Answer"] else [])
    + (if t == MultipleChoice then ["Multiple Choice"] else [])
  }

  /** The widget's state cell. */
  class TypeToggle {
    var qtype: QuestionType

    constructor ()
      ensures qtype == InitialType
    {
      qtype := InitialType;
    }

    /** The "Change Type" handler. */
    method SwapType()
      modifies this
      ensures qtype == Swapped(old(qtype))
      ensures qtype != old(qtype)
    {
      qtype := if qtype == ShortAnswer then MultipleChoice else ShortAnswer;
    }

    /** The label rendered below the button. */
    function Shown(): (shown: seq<string>)
      reads this
      ensures |shown| == 1
      ensures shown[0] == "Short Answer" <==> qtype == ShortAnswer
      ensures shown[0] == "Multiple Choice" <==> qtype == MultipleChoice
    {
      Labels(qtype)
    }
  }
}
