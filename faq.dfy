/** The collapsible FAQ section (script.js lines 39-53): each answer carries an
    "open" flag that a click on its question flips. */
module Faq {

  /** The open flags after a click on question `i`: that answer's flag flips and
      every other answer's flag is unchanged. */
  function Flipped(open: seq<bool>, i: nat): (r: seq<bool>)
    requires i < |open|
    ensures |r| == |open|
    ensures r[i] == !open[i]
    ensures forall k :: 0 <= k < |open| && k != i ==> r[k] == open[k]
  {
    open[i := !open[i]]
  }

  /** Clicking the same question twice restores its answer. */
  lemma FlipTwice(open: seq<bool>, i: nat)
    requires i < |open|
    ensures Flipped(Flipped(open, i), i) == open
  {
  }

  /** Answers are independent: clicks on two questions give the same flags in
      either order. */
  lemma FlipsCommute(open: seq<bool>, i: nat, j: nat)
    requires i < |open| && j < |open|
    ensures Flipped(Flipped(open, i), j) == Flipped(Flipped(open, j), i)
  {
  }

  /** The answers of the page's FAQ items, in document order. */
  class FaqSection {
    const answers: array<bool>

    /** `count` FAQ items, every answer closed. */
    constructor (count: nat)
      ensures fresh(answers) && answers.Length == count
      ensures forall k :: 0 <= k < count ==> !answers[k]
    {
      answers := new bool[count](_ => false);
    }

    /** A click on question `i`. The page registers one handler per existing item,
        so `i` always names an item. */
    method ToggleAnswer(i: nat)
      requires i < answers.Length
      modifies answers
      ensures answers[..] == Flipped(old(answers[..]), i)
    {
      answers[i] := !answers[i];
    }
  }
}
