/**
 * The flat evaluator `parse` (render.py:27-72). The expression is split on
 * single spaces; each term contributes an operator entry, a set entry, both or
 * neither to the list `arrays`, while the positions of operator terms in the
 * TERM list are recorded in `operators`. The reduction then visits the
 * recorded positions in order, combines the entries around each one, and
 * shifts every recorded position down by two. Finally each element of the
 * first surviving entry is mapped to its section label.
 *
 * Python's list indexing is modelled as written: a negative index counts from
 * the end, `pop` fails outside the list and `insert` clamps its position.
 * Every Python exception becomes `None`.
 */
module Parser {
  import opened Wrappers
  import opened SetAlgebra
  import opened Tokens

  /** An element of `arrays`: a resolved set, or an operator term kept as text. */
  datatype Entry = Operand(elems: seq<int>) | Operator(symbol: string)

  predicate IsOperatorToken(t: string)
  {
    t == "&" || t == "|"
  }

  /**
   * The set a known term denotes (render.py:38-45): the complement of the
   * named set when the term contains `!` anywhere, the named set otherwise;
   * the name is the term with its `!` stripped from both ends.
   */
  function Value(term: string, sets: map<string, seq<int>>, total: seq<int>): (r: seq<int>)
    requires StripBang(term) in sets
    ensures '!' !in term ==> r == sets[term]
    ensures '!' in term ==> forall x :: x in r <==> x in total && x !in sets[StripBang(term)]
  {
    if '!' in term then ComplementMembers(sets[StripBang(term)], total); ComplementOf(sets[StripBang(term)], total)
    else sets[StripBang(term)]
  }

  /**
   * The entries one term appends to `arrays` (render.py:35-45): the operator
   * test and the name test are independent, so a term can append both.
   */
  function TermEntries(term: string, sets: map<string, seq<int>>, total: seq<int>): (r: seq<Entry>)
    ensures |r| <= 2
    ensures r == [] <==> !IsOperatorToken(term) && StripBang(term) !in sets
    ensures IsOperatorToken(term) ==> r[0] == Operator(term)
    ensures StripBang(term) in sets ==> r[|r| - 1] == Operand(Value(term, sets, total))
    ensures forall e :: e in r && e.Operator? ==> IsOperatorToken(term)
  {
    if IsOperatorToken(term) then
      if StripBang(term) in sets then [Operator(term), Operand(Value(term, sets, total))] else [Operator(term)]
    else
      if StripBang(term) in sets then [Operand(Value(term, sets, total))] else []
  }

  lemma EntriesSnoc(terms: seq<string>, index: nat, sets: map<string, seq<int>>, total: seq<int>)
    requires index < |terms|
    ensures Entries(terms[..index + 1], sets, total) == Entries(terms[..index], sets, total) + TermEntries(terms[index], sets, total)
    ensures OperatorIndices(terms[..index + 1])
              == OperatorIndices(terms[..index]) + (if IsOperatorToken(terms[index]) then [index] else [])
  {
    assert terms[..index + 1][..index] == terms[..index];
  }

  /** `arrays` after the term loop of render.py:33-45. */
  function Entries(terms: seq<string>, sets: map<string, seq<int>>, total: seq<int>): seq<Entry>
    decreases |terms|
  {
    if terms == [] then []
    else Entries(terms[..|terms| - 1], sets, total) + TermEntries(terms[|terms| - 1], sets, total)
  }

  /** `operators` after the term loop: the positions, in the term list, of the operator terms. */
  function OperatorIndices(terms: seq<string>): seq<int>
    decreases |terms|
  {
    if terms == [] then []
    else
      OperatorIndices(terms[..|terms| - 1])
        + (if IsOperatorToken(terms[|terms| - 1]) then [|terms| - 1] else [])
  }

  /** Python's `a[i]`, which fails unless `-len(a) <= i < len(a)`. */
  function Get(a: seq<Entry>, i: int): (r: Option<Entry>)
    ensures r.Some? <==> -|a| <= i < |a|
    ensures 0 <= i < |a| ==> r == Some(a[i])
    ensures -|a| <= i < 0 ==> r == Some(a[|a| + i])
  {
    if 0 <= i < |a| then Some(a[i])
    else if -|a| <= i < 0 then Some(a[|a| + i])
    else None
  }

  /** Python's `a.pop(i)`, keeping the shortened list; it fails unless `-len(a) <= i < len(a)`. */
  function Pop(a: seq<Entry>, i: int): (r: Option<seq<Entry>>)
    ensures r.Some? <==> -|a| <= i < |a|
    ensures r.Some? ==> |r.value| == |a| - 1
    ensures r.Some? ==>
              var k := if i < 0 then |a| + i else i;
              0 <= k < |a| && r.value[..k] == a[..k] && r.value[k..] == a[k + 1..]
  {
    if -|a| <= i < |a| then
      var k := if i < 0 then |a| + i else i;
      Some(a[..k] + a[k + 1..])
    else None
  }

  /** `n` successive calls `a.pop(i)` (render.py:59). */
  function PopTimes(a: seq<Entry>, i: int, n: nat): (r: Option<seq<Entry>>)
    ensures r.Some? <==> n == 0 || -(|a| - n + 1) <= i < |a| - n + 1
    ensures r.Some? ==> |r.value| == |a| - n
    decreases n
  {
    if n == 0 then Some(a)
    else
      match Pop(a, i)
      case None => None
      case Some(a') => PopTimes(a', i, n - 1)
  }

  /**
   * `n` pops at one position remove `n` consecutive entries: those from `i`
   * on for a position counted from the front, and those ending at `len(a) + i`
   * for one counted from the end.
   */
  lemma {:induction false} PopTimesRemoves(a: seq<Entry>, i: int, n: nat)
    requires n > 0 && PopTimes(a, i, n).Some?
    ensures var k := if i >= 0 then i else |a| + i - n + 1;
            0 <= k && k + n <= |a| && PopTimes(a, i, n).value == a[..k] + a[k + n..]
    decreases n
  {
    var k := if i >= 0 then i else |a| + i - n + 1;
    var a' := Pop(a, i).value;
    if n == 1 {
      assert PopTimes(a, i, 1).value == a';
      assert a' == a'[..k] + a'[k..];
    } else {
      PopTimesRemoves(a', i, n - 1);
      var r := PopTimes(a', i, n - 1).value;
      assert r == a'[..k] + a'[k + n - 1..];
      if i >= 0 {
        assert a'[..k] == a[..k];
        assert a'[k + n - 1..] == a[k + n..] by {
          assert a'[k..] == a[k + 1..];
        }
      } else {
        assert a'[..k] == a[..k] by {
          assert a'[..|a| + i] == a[..|a| + i];
        }
        assert a'[k + n - 1..] == a[k + n..];
      }
    }
  }

  /** Putting a popped entry back where it was restores the list. */
  lemma PopInsert(a: seq<Entry>, i: int)
    requires Pop(a, i).Some?
    ensures var k := if i < 0 then |a| + i else i;
            Get(a, i) == Some(a[k]) && Insert(Pop(a, i).value, k, a[k]) == a
  {
  }

  /** Python's `a.insert(i, x)`: a negative position counts from the end, and positions are clamped to the list. */
  function Insert(a: seq<Entry>, i: int, x: Entry): (r: seq<Entry>)
    ensures |r| == |a| + 1
    ensures var k := if i < 0 then (if |a| + i < 0 then 0 else |a| + i) else (if i > |a| then |a| else i);
            0 <= k <= |a| && r[k] == x && r[..k] == a[..k] && r[k + 1..] == a[k..]
  {
    var k := if i < 0 then (if |a| + i < 0 then 0 else |a| + i) else (if i > |a| then |a| else i);
    a[..k] + [x] + a[k..]
  }

  /**
   * What `intersection(set_1, set_2)` gives when an operand slot holds an
   * operator string: iterating a string yields characters, none of which is
   * in a list of integers, while `int in str` raises unless there is nothing
   * to iterate. Of two operator strings, `"&"` and `"|"` share no character,
   * while two equal strings would give a list of characters, which the model
   * does not represent.
   */
  function Intersect(set1: Entry, set2: Entry): (r: Option<seq<int>>)
    ensures set1.Operand? && set2.Operand? ==>
              r.Some? && forall x :: x in r.value <==> x in set1.elems && x in set2.elems
    ensures r.None? <==> (set1.Operand? && set1.elems != [] && set2.Operator?)
                         || (set1.Operator? && set2.Operator? && set1.symbol == set2.symbol)
    ensures r.Some? && !(set1.Operand? && set2.Operand?) ==> r.value == []
  {
    match (set1, set2)
    case (Operand(x), Operand(y)) => IntersectionMembers(x, y); Some(IntersectionOf(x, y))
    case (Operator(_), Operand(_)) => Some([])
    case (Operand(x), Operator(_)) => if x == [] then Some([]) else None
    case (Operator(o1), Operator(o2)) => if o1 != o2 then Some([]) else None
  }

  /** What `union(set_1, set_2)` gives: adding a list and a string raises; two strings are not represented. */
  function Unite(set1: Entry, set2: Entry): (r: Option<seq<int>>)
    ensures r.Some? <==> set1.Operand? && set2.Operand?
    ensures r.Some? ==> NoDups(r.value) && forall x :: x in r.value <==> x in set1.elems || x in set2.elems
  {
    match (set1, set2)
    case (Operand(x), Operand(y)) => Some(Union(x, y))
    case _ => None
  }

  /**
   * One pass of the reduction loop at the recorded position `op`
   * (render.py:50-60). `prev` is what the variable `result` still holds from
   * the previous pass: when the middle entry is not an operator neither
   * branch assigns `result`, so the old value is reused, and on the first
   * pass that is an unbound-variable error. Gives the new `arrays` and the
   * new `result`.
   */
  function Step(arrays: seq<Entry>, op: int, prev: Option<seq<int>>): Option<(seq<Entry>, seq<int>)>
  {
    var set1 := Get(arrays, op - 1);
    var logic := Get(arrays, op);
    var set2 := Get(arrays, op + 1);
    if set1.None? || logic.None? || set2.None? then None
    else
      var result :=
        if logic.value == Operator("&") then Intersect(set1.value, set2.value)
        else if logic.value == Operator("|") then Unite(set1.value, set2.value)
        else prev;
      if result.None? then None
      else
        match PopTimes(arrays, op - 1, 3)
        case None => None
        case Some(rest) => Some((Insert(rest, op - 1, Operand(result.value)), result.value))
  }

  /** Every recorded position decremented by two (render.py:62-63). */
  function Shift(ops: seq<int>): (r: seq<int>)
    ensures |r| == |ops|
    ensures forall i :: 0 <= i < |ops| ==> r[i] == ops[i] - 2
  {
    seq(|ops|, i requires 0 <= i < |ops| => ops[i] - 2)
  }

  /**
   * The reduction loop from its `k`-th pass on (render.py:48-63): the loop
   * reads the `k`-th entry of the list it keeps shifting.
   */
  function Reduce(arrays: seq<Entry>, ops: seq<int>, k: nat, prev: Option<seq<int>>): Option<seq<Entry>>
    decreases |ops| - k
  {
    if k >= |ops| then Some(arrays)
    else
      match Step(arrays, ops[k], prev)
      case None => None
      case Some((arrays', result)) => Reduce(arrays', Shift(ops), k + 1, Some(result))
  }

  /** A successful pass continues the reduction with the new list, the shifted positions and the new `result`. */
  lemma ReduceOnePass(arrays: seq<Entry>, ops: seq<int>, k: nat, prev: Option<seq<int>>,
                      arrays': seq<Entry>, res: seq<int>)
    requires k < |ops| && Step(arrays, ops[k], prev) == Some((arrays', res))
    ensures Reduce(arrays, ops, k, prev) == Reduce(arrays', Shift(ops), k + 1, Some(res))
  {
  }

  /** A failed pass fails the whole reduction. */
  lemma ReduceStops(arrays: seq<Entry>, ops: seq<int>, k: nat, prev: Option<seq<int>>)
    requires k < |ops| && Step(arrays, ops[k], prev).None?
    ensures Reduce(arrays, ops, k, prev).None?
  {
  }

  /**
   * The section labels of a list of elements (render.py:70-71): one label
   * per element, in order, each the element's classification; a missing
   * classification is a failure.
   */
  function Labels(elems: seq<int>, classifications: map<int, string>): (r: Option<seq<string>>)
    ensures r.Some? <==> forall x :: x in elems ==> x in classifications
    ensures r.Some? ==> |r.value| == |elems|
    ensures r.Some? ==> forall i :: 0 <= i < |elems| ==>
              elems[i] in classifications && r.value[i] == classifications[elems[i]]
    decreases |elems|
  {
    if elems == [] then Some([])
    else
      var init := elems[..|elems| - 1];
      var x := elems[|elems| - 1];
      assert forall y :: y in elems <==> y in init || y == x;
      match Labels(init, classifications)
      case None => None
      case Some(labels) => if x in classifications then Some(labels + [classifications[x]]) else None
  }

  /** `arrays[0]` and the label loop (render.py:66-71): no entry left, or an operator first, is a failure. */
  function Finish(arrays: seq<Entry>, classifications: map<int, string>): (r: Option<seq<string>>)
    ensures r.Some? <==> arrays != [] && arrays[0].Operand? &&
                         forall x :: x in arrays[0].elems ==> x in classifications
    ensures r.Some? ==> |r.value| == |arrays[0].elems|
    ensures r.Some? ==> forall i :: 0 <= i < |r.value| ==>
              arrays[0].elems[i] in classifications && r.value[i] == classifications[arrays[0].elems[i]]
  {
    if arrays == [] then None
    else
      match arrays[0]
      case Operator(_) => None
      case Operand(elems) => Labels(elems, classifications)
  }

  /** The value of `parse(expression, sets, total, classifications)`, `None` where it raises. */
  function Evaluate(expression: string, sets: map<string, seq<int>>, total: seq<int>,
                    classifications: map<int, string>): Option<seq<string>>
  {
    var terms := Split(expression);
    match Reduce(Entries(terms, sets, total), OperatorIndices(terms), 0, None)
    case None => None
    case Some(arrays) => Finish(arrays, classifications)
  }

  // ---------------------------------------------------------------------------
  // The imperative evaluator
  // ---------------------------------------------------------------------------

  /** One pass of the term loop (render.py:35-45): the operator test, then the name test. */
  method ResolveTerm(arrays: seq<Entry>, operators: seq<int>, index: int, term: string,
                     sets: map<string, seq<int>>, total: seq<int>)
    returns (arrays': seq<Entry>, operators': seq<int>)
    ensures arrays' == arrays + TermEntries(term, sets, total)
    ensures operators' == operators + (if IsOperatorToken(term) then [index] else [])
  {
    arrays', operators' := arrays, operators;
    if IsOperatorToken(term) {
      arrays' := arrays' + [Operator(term)];
      operators' := operators' + [index];
    }
    var isNot := '!' in term;
    var name := StripBang(term);
    if name in sets {
      if isNot {
        var c := Complement(sets[name], total);
        arrays' := arrays' + [Operand(c)];
      } else {
        arrays' := arrays' + [Operand(sets[name])];
      }
    }
  }

  /** The term loop of render.py:33-45. */
  method ResolveTerms(terms: seq<string>, sets: map<string, seq<int>>, total: seq<int>)
    returns (arrays: seq<Entry>, operators: seq<int>)
    ensures arrays == Entries(terms, sets, total)
    ensures operators == OperatorIndices(terms)
  {
    arrays, operators := [], [];
    for index := 0 to |terms|
      invariant arrays == Entries(terms[..index], sets, total)
      invariant operators == OperatorIndices(terms[..index])
    {
      EntriesSnoc(terms, index, sets, total);
      arrays, operators := ResolveTerm(arrays, operators, index, terms[index], sets, total);
    }
    assert terms[..|terms|] == terms;
  }

  /** The body of one pass of the reduction loop, render.py:50-60, up to the shift of the positions. */
  method ReduceOnce(arrays0: seq<Entry>, op: int, prev: Option<seq<int>>)
    returns (r: Option<(seq<Entry>, seq<int>)>)
    ensures r == Step(arrays0, op, prev)
  {
    var set1 := Get(arrays0, op - 1);
    var logic := Get(arrays0, op);
    var set2 := Get(arrays0, op + 1);
    if set1.None? || logic.None? || set2.None? {
      return None;
    }
    var result: Option<seq<int>>;
    if logic.value == Operator("&") {
      if set1.value.Operand? && set2.value.Operand? {
        var i := Intersection(set1.value.elems, set2.value.elems);
        result := Some(i);
      } else {
        result := Intersect(set1.value, set2.value);
      }
    } else if logic.value == Operator("|") {
      result := Unite(set1.value, set2.value);
    } else {
      result := prev;
    }
    if result.None? {
      return None;
    }
    var arrays := arrays0;
    for j := 0 to 3
      invariant PopTimes(arrays, op - 1, 3 - j) == PopTimes(arrays0, op - 1, 3)
    {
      var popped := Pop(arrays, op - 1);
      if popped.None? {
        return None;
      }
      arrays := popped.value;
    }
    arrays := Insert(arrays, op - 1, Operand(result.value));
    r := Some((arrays, result.value));
  }

  /** The shift loop of render.py:62-63, lowering every recorded position by two in place. */
  method ShiftAll(operators0: seq<int>) returns (operators: seq<int>)
    ensures operators == Shift(operators0)
  {
    operators := operators0;
    for index := 0 to |operators|
      invariant |operators| == |operators0|
      invariant forall i :: 0 <= i < index ==> operators[i] == operators0[i] - 2
      invariant forall i :: index <= i < |operators| ==> operators[i] == operators0[i]
    {
      operators := operators[index := operators[index] - 2];
    }
  }

  /** The reduction loop of render.py:48-63, mutating `arrays` and `operators` as the source does. */
  method ReduceAll(arrays0: seq<Entry>, operators0: seq<int>) returns (r: Option<seq<Entry>>)
    ensures r == Reduce(arrays0, operators0, 0, None)
  {
    var arrays, operators := arrays0, operators0;
    var result: Option<seq<int>> := None;
    for k := 0 to |operators0|
      invariant |operators| == |operators0|
      invariant Reduce(arrays, operators, k, result) == Reduce(arrays0, operators0, 0, None)
    {
      var step := ReduceOnce(arrays, operators[k], result);
      if step.None? {
        ReduceStops(arrays, operators, k, result);
        return None;
      }
      ReduceOnePass(arrays, operators, k, result, step.value.0, step.value.1);
      arrays, result := step.value.0, Some(step.value.1);
      operators := ShiftAll(operators);
    }
    r := Some(arrays);
  }

  /** The label loop of render.py:70-71. */
  method Sections(elems: seq<int>, classifications: map<int, string>) returns (r: Option<seq<string>>)
    ensures r == Labels(elems, classifications)
  {
    var sections: seq<string> := [];
    for i := 0 to |elems|
      invariant Labels(elems[..i], classifications) == Some(sections)
    {
      assert elems[..i + 1][..i] == elems[..i];
      if elems[i] !in classifications {
        assert elems[i] in elems;
        assert Labels(elems, classifications).None?;
        return None;
      }
      sections := sections + [classifications[elems[i]]];
    }
    assert elems[..|elems|] == elems;
    r := Some(sections);
  }

  /** `parse(expression, sets, total, classifications)` (render.py:27-72). */
  method Parse(expression: string, sets: map<string, seq<int>>, total: seq<int>,
               classifications: map<int, string>) returns (r: Option<seq<string>>)
    ensures r == Evaluate(expression, sets, total, classifications)
  {
    var terms := Split(expression);
    var arrays, operators := ResolveTerms(terms, sets, total);
    var reduced := ReduceAll(arrays, operators);
    if reduced.None? || reduced.value == [] || reduced.value[0].Operator? {
      return None;
    }
    r := Sections(reduced.value[0].elems, classifications);
  }
}
