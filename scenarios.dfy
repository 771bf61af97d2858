/**
 * Concrete expressions over the renderer's fixed tables (render.py:75-94),
 * worked through the parser.
 */
module Scenarios {
  import opened Wrappers
  import opened SetAlgebra
  import opened Tokens
  import opened Parser
  import opened ParseLaws
  import opened Universe

  /** A space-free word is a single term. */
  lemma SplitSingle(x: string)
    requires ' ' !in x
    ensures Split(x) == [x]
  {
    SplitWord(x, "");
    assert x + "" == x;
  }

  /** Three space-free words joined by single spaces split back into those words. */
  lemma SplitThree(x: string, o: string, y: string)
    requires ' ' !in x && ' ' !in o && ' ' !in y
    ensures Split(x + " " + o + " " + y) == [x, o, y]
  {
    SplitSingle(x);
    SplitSnoc(x, o);
    SplitSnoc(x + " " + o, y);
  }

  /** A single pair `x o y` folds to one application of `o`. */
  lemma FoldThree(x: string, o: string, y: string, sets: map<string, seq<int>>, total: seq<int>)
    requires KnownOperand(x, sets) && LoneOperator(o, sets) && KnownOperand(y, sets)
    ensures WellFormed([x, o, y], sets)
    ensures LeftFold([x, o, y], sets, total) == Combine(o, Value(x, sets, total), Value(y, sets, total))
  {
    var terms := [x, o, y];
    var rest := [o, y];
    assert terms[1..] == rest;
    assert AltTail(rest, sets) by {
      forall i | 0 <= i < |rest|
        ensures if i % 2 == 0 then LoneOperator(rest[i], sets) else KnownOperand(rest[i], sets)
      {
      }
    }
    assert AltTail(rest[2..], sets);
    assert FoldTokens(Combine(o, Value(x, sets, total), Value(y, sets, total)), rest[2..], sets, total)
        == Combine(o, Value(x, sets, total), Value(y, sets, total));
  }

  /** An expression of one pair `x o y` evaluates to the labels of one application of `o`. */
  lemma EvaluateThree(x: string, o: string, y: string, sets: map<string, seq<int>>, total: seq<int>,
                      classifications: map<int, string>)
    requires ' ' !in x && ' ' !in o && ' ' !in y
    requires KnownOperand(x, sets) && LoneOperator(o, sets) && KnownOperand(y, sets)
    ensures Evaluate(x + " " + o + " " + y, sets, total, classifications)
         == Labels(Combine(o, Value(x, sets, total), Value(y, sets, total)), classifications)
  {
    SplitThree(x, o, y);
    FoldThree(x, o, y, sets, total);
    EvaluateWellFormed(x + " " + o + " " + y, sets, total, classifications);
  }

  /** The plain names of the base sets are operands, the operators are not names. */
  lemma BaseNamesKnown()
    ensures KnownOperand("a", Sets) && KnownOperand("b", Sets) && KnownOperand("c", Sets)
    ensures LoneOperator("&", Sets) && LoneOperator("|", Sets)
    ensures Value("a", Sets, Total) == A && Value("b", Sets, Total) == B && Value("c", Sets, Total) == C
  {
    NoBangUnchanged("a");
    NoBangUnchanged("b");
    NoBangUnchanged("c");
  }

  /** The sections inside both a and b. */
  lemma IntersectionAB()
    ensures IntersectionOf(A, B) == [2, 3]
  {
    assert A[..3] == [1, 2, 3] && A[..3][..2] == [1, 2] && A[..3][..2][..1] == [1];
    assert IntersectionOf([1], B) == [];
    assert IntersectionOf([1, 2], B) == [2];
    assert IntersectionOf([1, 2, 3], B) == [2, 3];
  }

  lemma LabelsAB()
    ensures Labels([2, 3], Classifications) == Some(["ab", "abc"])
  {
    var r := Labels([2, 3], Classifications);
    assert forall x :: x in [2, 3] ==> x in Classifications;
    assert r.value[0] == Classifications[2] == "ab";
    assert r.value[1] == Classifications[3] == "abc";
    assert |r.value| == 2;
    assert r.value == ["ab", "abc"];
  }

  /** "a & b" shades the two sections inside both a and b. */
  lemma IntersectionExample()
    ensures Evaluate("a & b", Sets, Total, Classifications) == Some(["ab", "abc"])
  {
    assert "a" + " " + "&" + " " + "b" == "a & b";
    BaseNamesKnown();
    EvaluateThree("a", "&", "b", Sets, Total, Classifications);
    IntersectionAB();
    LabelsAB();
  }

  /** Five space-free words joined by single spaces split back into those words. */
  lemma SplitFive(x: string, o: string, y: string, p: string, z: string)
    requires ' ' !in x && ' ' !in o && ' ' !in y && ' ' !in p && ' ' !in z
    ensures Split(x + " " + o + " " + y + " " + p + " " + z) == [x, o, y, p, z]
  {
    SplitThree(x, o, y);
    SplitSnoc(x + " " + o + " " + y, p);
    SplitSnoc(x + " " + o + " " + y + " " + p, z);
  }

  /** Two pairs `x o y p z` fold strictly from the left: `p` applies to the value of `x o y`. */
  lemma FoldFive(x: string, o: string, y: string, p: string, z: string, sets: map<string, seq<int>>, total: seq<int>)
    requires KnownOperand(x, sets) && LoneOperator(o, sets) && KnownOperand(y, sets)
    requires LoneOperator(p, sets) && KnownOperand(z, sets)
    ensures WellFormed([x, o, y, p, z], sets)
    ensures LeftFold([x, o, y, p, z], sets, total)
         == Combine(p, Combine(o, Value(x, sets, total), Value(y, sets, total)), Value(z, sets, total))
  {
    FoldThree(x, o, y, sets, total);
    var terms := [x, o, y, p, z];
    assert terms == [x, o, y] + [p, z];
    assert terms[1..] == [o, y] + [p, z];
    assert [x, o, y][1..] == [o, y];
    FoldTokensSnoc(Value(x, sets, total), [o, y], p, z, sets, total);
  }

  /** An expression of two pairs evaluates to the labels of the left-to-right value. */
  lemma EvaluateFive(x: string, o: string, y: string, p: string, z: string, sets: map<string, seq<int>>,
                     total: seq<int>, classifications: map<int, string>)
    requires ' ' !in x && ' ' !in o && ' ' !in y && ' ' !in p && ' ' !in z
    requires KnownOperand(x, sets) && LoneOperator(o, sets) && KnownOperand(y, sets)
    requires LoneOperator(p, sets) && KnownOperand(z, sets)
    ensures Evaluate(x + " " + o + " " + y + " " + p + " " + z, sets, total, classifications)
         == Labels(Combine(p, Combine(o, Value(x, sets, total), Value(y, sets, total)), Value(z, sets, total)),
                   classifications)
  {
    SplitFive(x, o, y, p, z);
    FoldFive(x, o, y, p, z, sets, total);
    EvaluateWellFormed(x + " " + o + " " + y + " " + p + " " + z, sets, total, classifications);
  }

  /** "a & b | c" is `union(intersection(a, b), c)`. */
  lemma IntersectionThenUnion()
    ensures Evaluate("a & b | c", Sets, Total, Classifications) == Labels(Union(IntersectionOf(A, B), C), Classifications)
  {
    assert "a" + " " + "&" + " " + "b" + " " + "|" + " " + "c" == "a & b | c";
    BaseNamesKnown();
    EvaluateFive("a", "&", "b", "|", "c", Sets, Total, Classifications);
  }

  /** The value of "a & b | c": the sections in both a and b, or in c. */
  lemma IntersectionThenUnionElems()
    ensures Elems(Union(IntersectionOf(A, B), C)) == {2, 3, 4, 5, 6}
  {
    IntersectionAB();
    SetLaws([2, 3], C, Total);
  }

  /** "a | b & c" is `intersection(union(a, b), c)`: `&` does not bind tighter than `|`. */
  lemma NoPrecedence()
    ensures Evaluate("a | b & c", Sets, Total, Classifications) == Labels(IntersectionOf(Union(A, B), C), Classifications)
  {
    assert "a" + " " + "|" + " " + "b" + " " + "&" + " " + "c" == "a | b & c";
    BaseNamesKnown();
    EvaluateFive("a", "|", "b", "&", "c", Sets, Total, Classifications);
  }

  /**
   * Element 1 lies in a ∪ (b ∩ c), the value under the usual precedence of
   * `&` over `|`, but not in the value of "a | b & c".
   */
  lemma PrecedenceWitness()
    ensures 1 !in IntersectionOf(Union(A, B), C)
    ensures 1 in Union(A, IntersectionOf(B, C))
  {
    IntersectionMembership(Union(A, B), C, 1);
  }

  /** A lone term evaluates to the labels of its value. */
  lemma EvaluateSingle(t: string, sets: map<string, seq<int>>, total: seq<int>, classifications: map<int, string>)
    requires ' ' !in t && KnownOperand(t, sets)
    ensures Evaluate(t, sets, total, classifications) == Labels(Value(t, sets, total), classifications)
  {
    SplitSingle(t);
    EntriesSingle(t, sets, total);
    assert [t][..0] == [];
    assert OperatorIndices([t]) == [];
    NoOperators(t, sets, total, classifications);
  }

  /** The sections outside a. */
  lemma ComplementA()
    ensures ComplementOf(A, Total) == [4, 6, 7, 8]
  {
    ComplementAPrefix();
    assert Total[..7] == [1, 2, 3, 4, 5, 6, 7];
    assert Total[..7][..6] == [1, 2, 3, 4, 5, 6];
    assert Total[..7][..6][..5] == [1, 2, 3, 4, 5];
    assert Total[..7][..6][..5][..4] == [1, 2, 3, 4];
    assert ComplementOf(A, [1, 2, 3, 4, 5]) == [4];
    assert ComplementOf(A, [1, 2, 3, 4, 5, 6]) == [4, 6];
    assert ComplementOf(A, [1, 2, 3, 4, 5, 6, 7]) == [4, 6, 7];
  }

  lemma ComplementAPrefix()
    ensures ComplementOf(A, [1, 2, 3, 4]) == [4]
  {
    assert [1, 2, 3, 4][..3] == [1, 2, 3];
    assert [1, 2, 3][..2] == [1, 2] && [1, 2][..1] == [1] && [1][..0] == [];
    assert ComplementOf(A, [1]) == [];
    assert ComplementOf(A, [1, 2]) == [];
    assert ComplementOf(A, [1, 2, 3]) == [];
  }

  lemma LabelsComplementA()
    ensures Labels([4, 6, 7, 8], Classifications) == Some(["bc", "c", "none", "b"])
  {
    var r := Labels([4, 6, 7, 8], Classifications);
    assert forall x :: x in [4, 6, 7, 8] ==> x in Classifications;
    assert r.value[0] == Classifications[4] == "bc";
    assert r.value[1] == Classifications[6] == "c";
    assert r.value[2] == Classifications[7] == "none";
    assert r.value[3] == Classifications[8] == "b";
    assert |r.value| == 4;
    assert r.value == ["bc", "c", "none", "b"];
  }

  /** "!a" shades the sections outside a, the one for element 7 included. */
  lemma ComplementExample()
    ensures Evaluate("!a", Sets, Total, Classifications) == Some(["bc", "c", "none", "b"])
  {
    assert Bangs(1) + "a" + Bangs(0) == "!a";
    NegatedTerm(1, "a", 0, Sets, Total);
    assert KnownOperand("!a", Sets);
    EvaluateSingle("!a", Sets, Total, Classifications);
    ComplementA();
    LabelsComplementA();
  }

  /** "!!a", "a!" and "!a" all resolve to the complement of a. */
  lemma NegationSpellings()
    ensures TermEntries("!!a", Sets, Total) == [Operand([4, 6, 7, 8])]
    ensures TermEntries("a!", Sets, Total) == [Operand([4, 6, 7, 8])]
    ensures TermEntries("!a", Sets, Total) == [Operand([4, 6, 7, 8])]
  {
    assert Bangs(2) + "a" + Bangs(0) == "!!a";
    assert Bangs(0) + "a" + Bangs(1) == "a!";
    assert Bangs(1) + "a" + Bangs(0) == "!a";
    ComplementA();
    NegatedTerm(2, "a", 0, Sets, Total);
    NegatedTerm(0, "a", 1, Sets, Total);
    NegatedTerm(1, "a", 0, Sets, Total);
  }

  /** The empty expression (the initial input) resolves nothing and fails. */
  lemma EmptyExpression()
    ensures Evaluate("", Sets, Total, Classifications) == None
  {
    assert "" !in Sets;
    SplitSingle("");
    EmptyTermEntries(Sets, Total);
    EntriesSingle("", Sets, Total);
    NothingResolvedFails("", Sets, Total, Classifications);
  }

  /** A doubled space between `x` and `o` splits into an empty term. */
  lemma SplitDoubleSpace(x: string, o: string, y: string)
    requires ' ' !in x && ' ' !in o && ' ' !in y
    ensures Split(x + "  " + o + " " + y) == [x, "", o, y]
  {
    assert x + "  " + o + " " + y == x + " " + "" + " " + o + " " + y;
    SplitSingle(x);
    SplitSnoc(x, "");
    SplitSnoc(x + " " + "", o);
    SplitSnoc(x + " " + "" + " " + o, y);
  }

  /** The empty term resolves to nothing but still shifts the operator's position. */
  lemma DoubleSpaceEntries(x: string, o: string, y: string, sets: map<string, seq<int>>, total: seq<int>)
    requires "" !in sets
    requires KnownOperand(x, sets) && LoneOperator(o, sets) && KnownOperand(y, sets)
    ensures Entries([x, "", o, y], sets, total)
         == [Operand(Value(x, sets, total)), Operator(o), Operand(Value(y, sets, total))]
    ensures OperatorIndices([x, "", o, y]) == [2]
  {
    DoubleSpaceIndices(x, o, y);
    DoubleSpaceHead(x, o, sets, total);
    OperandTermEntries(y, sets, total);
    EntriesSnocTerm([x, "", o], y, sets, total);
    assert [x, "", o] + [y] == [x, "", o, y];
  }

  lemma DoubleSpaceHead(x: string, o: string, sets: map<string, seq<int>>, total: seq<int>)
    requires "" !in sets
    requires KnownOperand(x, sets) && LoneOperator(o, sets)
    ensures Entries([x, "", o], sets, total) == [Operand(Value(x, sets, total)), Operator(o)]
  {
    EmptyTermEntries(sets, total);
    OperandTermEntries(x, sets, total);
    OperatorTermEntries(o, sets, total);
    EntriesSingle(x, sets, total);
    assert Entries([x, ""], sets, total) == [Operand(Value(x, sets, total))] by {
      EntriesSnocTerm([x], "", sets, total);
      assert [x] + [""] == [x, ""];
    }
    EntriesSnocTerm([x, ""], o, sets, total);
    assert [x, ""] + [o] == [x, "", o];
  }

  lemma EmptyTermEntries(sets: map<string, seq<int>>, total: seq<int>)
    requires "" !in sets
    ensures TermEntries("", sets, total) == []
  {
    assert !IsOperatorToken("");
    assert StripBang("") == "";
  }

  lemma DoubleSpaceIndices(x: string, o: string, y: string)
    requires !IsOperatorToken(x) && IsOperatorToken(o) && !IsOperatorToken(y)
    ensures OperatorIndices([x, "", o, y]) == [2]
  {
    var terms := [x, "", o, y];
    assert terms[..3] == [x, "", o] && terms[..3][..2] == [x, ""] && terms[..3][..2][..1] == [x];
    assert [x][..0] == [];
    assert !IsOperatorToken("");
    assert OperatorIndices([x]) == [];
    assert OperatorIndices([x, ""]) == [];
    assert OperatorIndices([x, "", o]) == [2];
  }

  /**
   * A doubled space makes an empty term, which resolves to nothing but still
   * counts in the operator's recorded position; the reduction then looks one
   * entry too far and the parse fails.
   */
  lemma DoubleSpaceFails(x: string, o: string, y: string, sets: map<string, seq<int>>, total: seq<int>,
                         classifications: map<int, string>)
    requires ' ' !in x && ' ' !in o && ' ' !in y && "" !in sets
    requires KnownOperand(x, sets) && LoneOperator(o, sets) && KnownOperand(y, sets)
    ensures Evaluate(x + "  " + o + " " + y, sets, total, classifications) == None
  {
    SplitDoubleSpace(x, o, y);
    DoubleSpaceEntries(x, o, y, sets, total);
    var arrays := [Operand(Value(x, sets, total)), Operator(o), Operand(Value(y, sets, total))];
    assert Get(arrays, 3) == None;
    assert Step(arrays, 2, None) == None;
  }

  /** "a  & b", with two spaces, fails. */
  lemma DoubleSpaceExample()
    ensures Evaluate("a  & b", Sets, Total, Classifications) == None
  {
    assert "a" + "  " + "&" + " " + "b" == "a  & b";
    BaseNamesKnown();
    DoubleSpaceFails("a", "&", "b", Sets, Total, Classifications);
  }

  /**
   * An unknown name before an operator resolves to nothing, so the operator
   * sits at the front of the list while its recorded position still points
   * one entry further on, past the last operand: the parse fails.
   */
  lemma UnknownFirstFails(u: string, o: string, y: string, sets: map<string, seq<int>>, total: seq<int>,
                          classifications: map<int, string>)
    requires ' ' !in u && ' ' !in o && ' ' !in y
    requires !IsOperatorToken(u) && StripBang(u) !in sets
    requires LoneOperator(o, sets) && KnownOperand(y, sets)
    ensures Evaluate(u + " " + o + " " + y, sets, total, classifications) == None
  {
    SplitThree(u, o, y);
    UnknownFirstIndices(u, o, y);
    UnknownFirstEntries(u, o, y, sets, total);
    var arrays := [Operator(o), Operand(Value(y, sets, total))];
    assert Get(arrays, 2) == None;
    assert Step(arrays, 1, None) == None;
  }

  lemma UnknownFirstEntries(u: string, o: string, y: string, sets: map<string, seq<int>>, total: seq<int>)
    requires !IsOperatorToken(u) && StripBang(u) !in sets
    requires LoneOperator(o, sets) && KnownOperand(y, sets)
    ensures Entries([u, o, y], sets, total) == [Operator(o), Operand(Value(y, sets, total))]
  {
    OperatorTermEntries(o, sets, total);
    OperandTermEntries(y, sets, total);
    EntriesSingle(u, sets, total);
    assert Entries([u, o], sets, total) == [Operator(o)] by {
      EntriesSnocTerm([u], o, sets, total);
      assert [u] + [o] == [u, o];
    }
    EntriesSnocTerm([u, o], y, sets, total);
    assert [u, o] + [y] == [u, o, y];
  }

  lemma UnknownFirstIndices(u: string, o: string, y: string)
    requires !IsOperatorToken(u) && IsOperatorToken(o) && !IsOperatorToken(y)
    ensures OperatorIndices([u, o, y]) == [1]
  {
    var terms := [u, o, y];
    assert terms[..2] == [u, o] && terms[..2][..1] == [u] && [u][..0] == [];
    assert OperatorIndices([u]) == [];
    assert OperatorIndices([u, o]) == [1];
  }

  /**
   * Two operator strings in the operand slots (render.py:13-18, 50-60):
   * `intersection("|", "&")` looks for the character of "|" in "&", finds
   * nothing, and the three slots collapse to one empty set.
   */
  lemma OperatorsIntersectToEmpty()
    ensures Step([Operator("|"), Operator("&"), Operator("&")], 1, None) == Some(([Operand([])], []))
  {
    assert "|" != "&";
    var a := [Operator("|"), Operator("&"), Operator("&")];
    assert PopTimes(a, 0, 3) == Some([]) by {
      assert Pop(a, 0) == Some(a[1..]);
      assert Pop(a[1..], 0) == Some(a[2..]);
      assert Pop(a[2..], 0) == Some([]);
    }
    assert Get(a, 0) == Some(Operator("|")) && Get(a, 1) == Some(Operator("&")) && Get(a, 2) == Some(Operator("&"));
    assert Intersect(Operator("|"), Operator("&")) == Some([]);
    assert Insert([], 0, Operand([])) == [Operand([])];
  }

  /**
   * A leading "&" is recorded at position 0, and Python's negative indexing
   * then reads its left operand from the end of the list: "& y y y" is
   * `intersection(y, y)`, the value of y.
   */
  lemma LeadingOperatorWraps(y: string, sets: map<string, seq<int>>, total: seq<int>,
                             classifications: map<int, string>)
    requires ' ' !in y && KnownOperand(y, sets) && "&" !in sets
    ensures Evaluate("&" + " " + y + " " + y + " " + y, sets, total, classifications)
         == Labels(Value(y, sets, total), classifications)
  {
    var v := Value(y, sets, total);
    LeadingOperatorSplit(y, sets, total);
    var arrays := [Operator("&"), Operand(v), Operand(v), Operand(v)];
    WrappedStep(v);
    ReduceOnePass(arrays, [0], 0, None, [Operand(v), Operator("&")], v);
    assert Reduce([Operand(v), Operator("&")], Shift([0]), 1, Some(v)) == Some([Operand(v), Operator("&")]);
  }

  /** The pass at position 0 takes its left operand from the end of the list. */
  lemma WrappedStep(v: seq<int>)
    ensures Step([Operator("&"), Operand(v), Operand(v), Operand(v)], 0, None) == Some(([Operand(v), Operator("&")], v))
  {
    var arrays := [Operator("&"), Operand(v), Operand(v), Operand(v)];
    assert Get(arrays, -1) == Some(Operand(v));
    SelfIntersection(v);
    PopTimesBack(arrays, 3);
    assert arrays[..1] == [Operator("&")];
    assert Insert([Operator("&")], -1, Operand(v)) == [Operand(v), Operator("&")];
    StepSucceeds(arrays, 0, None, Operand(v), "&", Operand(v), v, [Operator("&")]);
  }

  lemma LeadingOperatorSplit(y: string, sets: map<string, seq<int>>, total: seq<int>)
    requires ' ' !in y && KnownOperand(y, sets) && "&" !in sets
    ensures Entries(Split("&" + " " + y + " " + y + " " + y), sets, total)
         == [Operator("&"), Operand(Value(y, sets, total)), Operand(Value(y, sets, total)), Operand(Value(y, sets, total))]
    ensures OperatorIndices(Split("&" + " " + y + " " + y + " " + y)) == [0]
  {
    SplitThree("&", y, y);
    SplitSnoc("&" + " " + y + " " + y, y);
    assert ["&", y, y] + [y] == ["&", y, y, y];
    LeadingOperatorEntries(y, sets, total);
    LeadingOperatorIndices(y);
  }

  lemma LeadingOperatorEntries(y: string, sets: map<string, seq<int>>, total: seq<int>)
    requires KnownOperand(y, sets) && "&" !in sets
    ensures Entries(["&", y, y, y], sets, total)
         == [Operator("&"), Operand(Value(y, sets, total)), Operand(Value(y, sets, total)), Operand(Value(y, sets, total))]
  {
    assert LoneOperator("&", sets);
    assert ["&"] + [y] == ["&", y] && ["&", y] + [y] == ["&", y, y] && ["&", y, y] + [y] == ["&", y, y, y];
    EntriesSingle("&", sets, total);
    EntriesSnocTerm(["&"], y, sets, total);
    EntriesSnocTerm(["&", y], y, sets, total);
    EntriesSnocTerm(["&", y, y], y, sets, total);
    OperatorTermEntries("&", sets, total);
    OperandTermEntries(y, sets, total);
  }

  lemma LeadingOperatorIndices(y: string)
    requires !IsOperatorToken(y)
    ensures OperatorIndices(["&", y, y, y]) == [0]
  {
    var terms := ["&", y, y, y];
    assert terms[..3] == ["&", y, y] && terms[..3][..2] == ["&", y] && terms[..3][..2][..1] == ["&"];
    assert ["&"][..0] == [];
    assert OperatorIndices(["&"]) == [0];
    assert OperatorIndices(["&", y]) == [0];
    assert OperatorIndices(["&", y, y]) == [0];
  }

  /** `pop(-1)` on a non-empty list removes its last entry. */
  lemma PopBack(a: seq<Entry>)
    requires a != []
    ensures Pop(a, -1) == Some(a[..|a| - 1])
  {
    assert a[..|a| - 1] + a[|a|..] == a[..|a| - 1];
  }

  /** `pop(-1)` done `n` times on a list of at least `n` entries removes the last `n`. */
  lemma {:induction false} PopTimesBack(a: seq<Entry>, n: nat)
    requires n <= |a|
    ensures PopTimes(a, -1, n) == Some(a[..|a| - n])
    decreases n
  {
    if n > 0 {
      PopBack(a);
      PopTimesBack(a[..|a| - 1], n - 1);
      assert a[..|a| - 1][..|a| - n] == a[..|a| - n];
    } else {
      assert a[..|a|] == a;
    }
  }
}
