/**
 * What `parse` gives over the renderer's fixed tables, and the caller's rule
 * of keeping the previous sections when parsing fails (render.py:109-110).
 */
module Tables {
  import opened Wrappers
  import opened SetAlgebra
  import opened Tokens
  import opened Parser
  import opened ParseLaws
  import opened Universe

  /**
   * The classification table agrees with the base sets: it has exactly one
   * label for each element of the universe and no other key, and that label
   * names the base sets holding the element.
   */
  lemma ClassificationsAgree()
    ensures Classifications.Keys == Elems(Total)
    ensures forall x :: x in Total ==> Classifications[x] == MembershipLabel(x)
  {
    ClassificationKeys();
    forall x | x in Total ensures Classifications[x] == MembershipLabel(x) {
      LabelAgrees(x);
    }
  }

  /** The classification table has a key for each element of the universe and no other. */
  lemma ClassificationKeys()
    ensures Classifications.Keys == Elems(Total)
  {
  }

  /** The universe has no duplicates and holds every base set. */
  lemma BaseSetsWithinTotal()
    ensures NoDups(Total)
    ensures forall name :: name in Sets ==> Elems(Sets[name]) <= Elems(Total)
  {
  }

  /**
   * Over the fixed tables a well-formed expression never fails: it gives one
   * label per element of its left-to-right value, and each label names the
   * base sets holding that element.
   */
  lemma WellFormedSucceeds(expression: string)
    requires WellFormed(Split(expression), Sets)
    ensures Evaluate(expression, Sets, Total, Classifications).Some?
    ensures var labels := Evaluate(expression, Sets, Total, Classifications).value;
            var elems := LeftFold(Split(expression), Sets, Total);
            |labels| == |elems| && forall i :: 0 <= i < |elems| ==> labels[i] == MembershipLabel(elems[i])
  {
    var elems := LeftFold(Split(expression), Sets, Total);
    EvaluateWellFormed(expression, Sets, Total, Classifications);
    BaseSetsWithinTotal();
    LeftFoldWithin(Split(expression), Sets, Total);
    ClassificationsAgree();
    forall x | x in elems ensures x in Classifications {
      assert x in Elems(elems);
    }
  }

  /**
   * The caller's loop (render.py:109-110): a failed parse keeps the sections
   * shown before, a successful one replaces them.
   */
  method Refresh(expression: string, previous: seq<string>) returns (sections: seq<string>)
    ensures Evaluate(expression, Sets, Total, Classifications).None? ==> sections == previous
    ensures Evaluate(expression, Sets, Total, Classifications).Some? ==>
              sections == Evaluate(expression, Sets, Total, Classifications).value
    ensures WellFormed(Split(expression), Sets) ==>
              |sections| == |LeftFold(Split(expression), Sets, Total)| &&
              forall i :: 0 <= i < |sections| ==>
                sections[i] == MembershipLabel(LeftFold(Split(expression), Sets, Total)[i])
  {
    var parsed := Parse(expression, Sets, Total, Classifications);
    if parsed.Some? {
      sections := parsed.value;
    } else {
      sections := previous;
    }
    if WellFormed(Split(expression), Sets) {
      WellFormedSucceeds(expression);
    }
  }
}
