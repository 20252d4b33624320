/** The support page's accordion: one index names the open question, -1
    none. */
module Faq {
  /** The number of questions on the page. */
  const ItemCount: nat := 5

  /** Clicking item `idx`: the open item closes, any other opens. */
  function Toggled(openIndex: int, idx: nat): (r: int)
    ensures r == -1 <==> idx == openIndex
    ensures r != -1 ==> r == idx
  {
    if idx == openIndex then -1 else idx
  }

  /** `isOpen={idx === openIndex}` for every item: at most one is open,
      and none when the index names no item. */
  function OpenFlags(openIndex: int): (flags: seq<bool>)
    ensures |flags| == ItemCount
    ensures forall i :: 0 <= i < |flags| ==> (flags[i] <==> i == openIndex)
    ensures forall i, j :: 0 <= i < j < |flags| ==> !(flags[i] && flags[j])
    ensures !(0 <= openIndex < ItemCount) ==> forall i :: 0 <= i < |flags| ==> !flags[i]
  {
    seq(ItemCount, i => i == openIndex)
  }

  /** Clicking the same item twice restores the state exactly when that item
      was open or nothing was. */
  lemma ClickTwice(openIndex: int, idx: nat)
    ensures Toggled(Toggled(openIndex, idx), idx) == openIndex <==> openIndex == idx || openIndex == -1
  {
  }

  class Accordion {
    var openIndex: int

    ghost predicate Valid()
      reads this
    {
      openIndex == -1 || 0 <= openIndex < ItemCount
    }

    /** The first question starts open. */
    constructor ()
      ensures openIndex == 0 && Valid()
    {
      openIndex := 0;
    }

    method Click(idx: nat)
      requires Valid() && idx < ItemCount
      modifies this
      ensures Valid()
      ensures openIndex == Toggled(old(openIndex), idx)
    {
      openIndex := Toggled(openIndex, idx);
    }
  }
}
