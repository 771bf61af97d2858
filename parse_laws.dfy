/**
 * What `parse` computes. For a well-formed term list (a known operand, then
 * pairs of an operator and a known operand) the reduction is a left fold:
 * each operator combines everything to its left with the operand to its
 * right, so `&` and `|` have no precedence over each other. The remaining
 * lemmas cover the edge behaviour: no operand at all, no operator, names
 * that are not known, and negation.
 */
module ParseLaws {
  import opened Wrappers
  import opened SetAlgebra
  import opened Tokens
  import opened Parser

  /** A term that resolves to a set and is not an operator. */
  predicate KnownOperand(t: string, sets: map<string, seq<int>>)
  {
    !IsOperatorToken(t) && StripBang(t) in sets
  }

  /** An operator term that is not also the name of a set. */
  predicate LoneOperator(t: string, sets: map<string, seq<int>>)
  {
    IsOperatorToken(t) && t !in sets
  }

  /** Operator, operand, operator, operand, ... */
  predicate AltTail(rest: seq<string>, sets: map<string, seq<int>>)
  {
    |rest| % 2 == 0 &&
    forall i :: 0 <= i < |rest| ==>
      if i % 2 == 0 then LoneOperator(rest[i], sets) else KnownOperand(rest[i], sets)
  }

  /** Terms that alternate operand, operator, operand, ..., every name known. */
  predicate WellFormed(terms: seq<string>, sets: map<string, seq<int>>)
  {
    |terms| > 0 && KnownOperand(terms[0], sets) && AltTail(terms[1..], sets)
  }

  lemma AltTailRest(rest: seq<string>, sets: map<string, seq<int>>)
    requires AltTail(rest, sets) && rest != []
    ensures LoneOperator(rest[0], sets) && KnownOperand(rest[1], sets)
    ensures AltTail(rest[2..], sets)
  {
    forall i | 0 <= i < |rest| - 2
      ensures if i % 2 == 0 then LoneOperator(rest[2..][i], sets) else KnownOperand(rest[2..][i], sets)
    {
      assert rest[2..][i] == rest[i + 2];
    }
  }

  /** The operation an operator term denotes. */
  function Combine(op: string, x: seq<int>, y: seq<int>): seq<int>
  {
    if op == "&" then IntersectionOf(x, y) else Union(x, y)
  }

  /** Folding the pairs of `rest` into `acc`, strictly from the left. */
  function FoldTokens(acc: seq<int>, rest: seq<string>, sets: map<string, seq<int>>, total: seq<int>): seq<int>
    requires AltTail(rest, sets)
    decreases |rest|
  {
    if rest == [] then acc
    else
      AltTailRest(rest, sets);
      FoldTokens(Combine(rest[0], acc, Value(rest[1], sets, total)), rest[2..], sets, total)
  }

  /** The value of a well-formed expression under left-to-right evaluation. */
  function LeftFold(terms: seq<string>, sets: map<string, seq<int>>, total: seq<int>): seq<int>
    requires WellFormed(terms, sets)
  {
    FoldTokens(Value(terms[0], sets, total), terms[1..], sets, total)
  }

  /** The entries that the term loop produces for operator/operand pairs. */
  function AltEntries(rest: seq<string>, sets: map<string, seq<int>>, total: seq<int>): seq<Entry>
    requires AltTail(rest, sets)
    decreases |rest|
  {
    if rest == [] then []
    else
      AltTailRest(rest, sets);
      [Operator(rest[0]), Operand(Value(rest[1], sets, total))] + AltEntries(rest[2..], sets, total)
  }

  lemma {:induction false} EntriesAppend(a: seq<string>, b: seq<string>, sets: map<string, seq<int>>, total: seq<int>)
    ensures Entries(a + b, sets, total) == Entries(a, sets, total) + Entries(b, sets, total)
    decreases |b|
  {
    if b == [] {
      assert a + b == a;
    } else {
      var init := b[..|b| - 1];
      assert (a + b)[..|a + b| - 1] == a + init;
      EntriesAppend(a, init, sets, total);
    }
  }

  lemma OperatorTermEntries(o: string, sets: map<string, seq<int>>, total: seq<int>)
    requires LoneOperator(o, sets)
    ensures TermEntries(o, sets, total) == [Operator(o)]
  {
    assert '!' !in o;
    NoBangUnchanged(o);
  }

  lemma OperandTermEntries(t: string, sets: map<string, seq<int>>, total: seq<int>)
    requires KnownOperand(t, sets)
    ensures TermEntries(t, sets, total) == [Operand(Value(t, sets, total))]
  {
  }

  lemma EntriesPair(o: string, t: string, sets: map<string, seq<int>>, total: seq<int>)
    requires LoneOperator(o, sets) && KnownOperand(t, sets)
    ensures Entries([o, t], sets, total) == [Operator(o), Operand(Value(t, sets, total))]
  {
    EntriesSingle(o, sets, total);
    EntriesSnocTerm([o], t, sets, total);
    assert [o] + [t] == [o, t];
    OperatorTermEntries(o, sets, total);
    OperandTermEntries(t, sets, total);
    Concat2(TermEntries(o, sets, total), TermEntries(t, sets, total), Operator(o), Operand(Value(t, sets, total)));
  }

  lemma Concat2(x: seq<Entry>, y: seq<Entry>, a: Entry, b: Entry)
    requires x == [a] && y == [b]
    ensures x + y == [a, b]
  {
  }

  lemma EntriesSingle(t: string, sets: map<string, seq<int>>, total: seq<int>)
    ensures Entries([t], sets, total) == TermEntries(t, sets, total)
  {
    assert [t][..0] == [];
  }

  lemma EntriesSnocTerm(ts: seq<string>, t: string, sets: map<string, seq<int>>, total: seq<int>)
    ensures Entries(ts + [t], sets, total) == Entries(ts, sets, total) + TermEntries(t, sets, total)
  {
    assert (ts + [t])[..|ts|] == ts;
  }

  lemma {:induction false} EntriesOfAltTail(rest: seq<string>, sets: map<string, seq<int>>, total: seq<int>)
    requires AltTail(rest, sets)
    ensures Entries(rest, sets, total) == AltEntries(rest, sets, total)
    decreases |rest|
  {
    if rest != [] {
      AltTailRest(rest, sets);
      var o, t := rest[0], rest[1];
      assert rest == [o, t] + rest[2..];
      EntriesAppend([o, t], rest[2..], sets, total);
      EntriesPair(o, t, sets, total);
      EntriesOfAltTail(rest[2..], sets, total);
      assert AltEntries(rest, sets, total)
        == [Operator(o), Operand(Value(t, sets, total))] + AltEntries(rest[2..], sets, total);
    }
  }

  /** For a well-formed term list, `arrays` alternates set, operator, set, ... */
  lemma EntriesOfWellFormed(terms: seq<string>, sets: map<string, seq<int>>, total: seq<int>)
    requires WellFormed(terms, sets)
    ensures Entries(terms, sets, total) == [Operand(Value(terms[0], sets, total))] + AltEntries(terms[1..], sets, total)
  {
    var head, rest := terms[0], terms[1..];
    assert terms == [head] + rest;
    EntriesAppend([head], rest, sets, total);
    EntriesSingle(head, sets, total);
    OperandTermEntries(head, sets, total);
    EntriesOfAltTail(rest, sets, total);
  }

  /** For a well-formed term list, the recorded positions are 1, 3, 5, ... */
  lemma {:induction false} OperatorIndicesOfWellFormed(terms: seq<string>, sets: map<string, seq<int>>, n: nat)
    requires WellFormed(terms, sets) && n <= |terms|
    ensures |OperatorIndices(terms[..n])| == n / 2
    ensures forall j :: 0 <= j < n / 2 ==> OperatorIndices(terms[..n])[j] == 2 * j + 1
    decreases n
  {
    if n > 0 {
      OperatorIndicesOfWellFormed(terms, sets, n - 1);
      assert terms[..n][..n - 1] == terms[..n - 1];
      var t := terms[n - 1];
      if n - 1 == 0 {
        assert !IsOperatorToken(t);
      } else {
        assert terms[1..][n - 2] == t;
        assert IsOperatorToken(t) <==> (n - 2) % 2 == 0;
      }
    }
  }

  lemma Cons3(arrays: seq<Entry>, x: Entry, y: Entry, z: Entry, tail: seq<Entry>)
    requires arrays == [x] + ([y, z] + tail)
    ensures arrays == [x, y, z] + tail
  {
  }

  lemma PopFront(a: seq<Entry>)
    requires a != []
    ensures Pop(a, 0) == Some(a[1..])
  {
    assert a[..0] + a[1..] == a[1..];
  }

  /** `pop(0)` done `n` times on a list of at least `n` entries removes the first `n`. */
  lemma {:induction false} PopTimesFront(a: seq<Entry>, n: nat)
    requires n <= |a|
    ensures PopTimes(a, 0, n) == Some(a[n..])
    decreases n
  {
    if n > 0 {
      PopFront(a);
      PopTimesFront(a[1..], n - 1);
      assert a[1..][n - 1..] == a[n..];
    }
  }

  lemma PopThreeFront(x: Entry, y: Entry, z: Entry, tail: seq<Entry>)
    ensures PopTimes([x, y, z] + tail, 0, 3) == Some(tail)
  {
    PopTimesFront([x, y, z] + tail, 3);
    assert ([x, y, z] + tail)[3..] == tail;
  }

  /** Step, read off its definition for one given outcome of each of its parts. */
  lemma StepSucceeds(arrays: seq<Entry>, op: int, prev: Option<seq<int>>, set1: Entry, o: string, set2: Entry,
                     res: seq<int>, rest: seq<Entry>)
    requires Get(arrays, op - 1) == Some(set1) && Get(arrays, op) == Some(Operator(o)) && Get(arrays, op + 1) == Some(set2)
    requires (if o == "&" then Intersect(set1, set2) else if o == "|" then Unite(set1, set2) else prev) == Some(res)
    requires PopTimes(arrays, op - 1, 3) == Some(rest)
    ensures Step(arrays, op, prev) == Some((Insert(rest, op - 1, Operand(res)), res))
  {
  }

  /** A pass at position 1 over a set, an operator and a set combines the three into one. */
  lemma StepAtFront(acc: seq<int>, o: string, v: seq<int>, tail: seq<Entry>, prev: Option<seq<int>>)
    requires IsOperatorToken(o)
    ensures Step([Operand(acc), Operator(o), Operand(v)] + tail, 1, prev)
              == Some(([Operand(Combine(o, acc, v))] + tail, Combine(o, acc, v)))
  {
    var arrays := [Operand(acc), Operator(o), Operand(v)] + tail;
    var res := Combine(o, acc, v);
    assert Get(arrays, 0) == Some(Operand(acc));
    assert Get(arrays, 1) == Some(Operator(o));
    assert Get(arrays, 2) == Some(Operand(v));
    assert (if o == "&" then Intersect(Operand(acc), Operand(v))
            else if o == "|" then Unite(Operand(acc), Operand(v)) else prev) == Some(res);
    PopThreeFront(Operand(acc), Operator(o), Operand(v), tail);
    StepSucceeds(arrays, 1, prev, Operand(acc), o, Operand(v), res, tail);
    assert Insert(tail, 0, Operand(res)) == [Operand(res)] + tail;
  }

  /**
   * The heart of the reduction: while `arrays` is one accumulated set
   * followed by operator/operand pairs, the current recorded position is 1
   * (every position was lowered by two per pass), so each pass folds the
   * next pair into the accumulated set.
   */
  lemma {:induction false} ReduceAlternating(acc: seq<int>, rest: seq<string>, sets: map<string, seq<int>>,
                                             total: seq<int>, ops: seq<int>, k: nat, prev: Option<seq<int>>)
    requires AltTail(rest, sets)
    requires k <= |ops| && |ops| - k == |rest| / 2
    requires forall j :: k <= j < |ops| ==> ops[j] == 2 * (j - k) + 1
    ensures Reduce([Operand(acc)] + AltEntries(rest, sets, total), ops, k, prev)
              == Some([Operand(FoldTokens(acc, rest, sets, total))])
    decreases |rest|
  {
    if rest == [] {
      assert [Operand(acc)] + AltEntries(rest, sets, total) == [Operand(acc)];
    } else {
      AltTailRest(rest, sets);
      var res := Combine(rest[0], acc, Value(rest[1], sets, total));
      ReducePair(acc, rest, sets, total, ops, k, prev);
      ShiftPositions(ops, k);
      ReduceAlternating(res, rest[2..], sets, total, Shift(ops), k + 1, Some(res));
    }
  }

  /** One pass folds the first pair into the accumulated set. */
  lemma ReducePair(acc: seq<int>, rest: seq<string>, sets: map<string, seq<int>>,
                   total: seq<int>, ops: seq<int>, k: nat, prev: Option<seq<int>>)
    requires AltTail(rest, sets) && rest != []
    requires k < |ops| && ops[k] == 1
    ensures LoneOperator(rest[0], sets) && KnownOperand(rest[1], sets) && AltTail(rest[2..], sets)
    ensures var res := Combine(rest[0], acc, Value(rest[1], sets, total));
            Reduce([Operand(acc)] + AltEntries(rest, sets, total), ops, k, prev)
              == Reduce([Operand(res)] + AltEntries(rest[2..], sets, total), Shift(ops), k + 1, Some(res))
            && FoldTokens(acc, rest, sets, total) == FoldTokens(res, rest[2..], sets, total)
  {
    AltTailRest(rest, sets);
    var o := rest[0];
    var v := Value(rest[1], sets, total);
    var tail := AltEntries(rest[2..], sets, total);
    var res := Combine(o, acc, v);
    var arrays := [Operand(acc)] + AltEntries(rest, sets, total);
    assert AltEntries(rest, sets, total) == [Operator(o), Operand(v)] + tail;
    Cons3(arrays, Operand(acc), Operator(o), Operand(v), tail);
    StepAtFront(acc, o, v, tail, prev);
    ReduceOnePass(arrays, ops, k, prev, [Operand(res)] + tail, res);
  }

  /** After a pass the next recorded position is again 1. */
  lemma ShiftPositions(ops: seq<int>, k: nat)
    requires k <= |ops|
    requires forall j :: k <= j < |ops| ==> ops[j] == 2 * (j - k) + 1
    ensures forall j :: k + 1 <= j < |ops| ==> Shift(ops)[j] == 2 * (j - (k + 1)) + 1
  {
  }

  /** For a well-formed term list the reduction leaves exactly the left fold. */
  lemma ReduceWellFormed(terms: seq<string>, sets: map<string, seq<int>>, total: seq<int>)
    requires WellFormed(terms, sets)
    ensures Reduce(Entries(terms, sets, total), OperatorIndices(terms), 0, None)
              == Some([Operand(LeftFold(terms, sets, total))])
  {
    EntriesOfWellFormed(terms, sets, total);
    OperatorIndicesOfWellFormed(terms, sets, |terms|);
    assert terms[..|terms|] == terms;
    ReduceAlternating(Value(terms[0], sets, total), terms[1..], sets, total, OperatorIndices(terms), 0, None);
  }

  /**
   * `parse` of a well-formed expression gives the labels of the left fold:
   * one per element, in order.
   */
  lemma EvaluateWellFormed(expression: string, sets: map<string, seq<int>>, total: seq<int>,
                           classifications: map<int, string>)
    requires WellFormed(Split(expression), sets)
    ensures Evaluate(expression, sets, total, classifications)
              == Labels(LeftFold(Split(expression), sets, total), classifications)
  {
    ReduceWellFormed(Split(expression), sets, total);
  }

  /**
   * Left-to-right evaluation seen from the other end: the last operator
   * applies to the value of everything before it, whatever the operators
   * there are.
   */
  lemma {:induction false} FoldTokensSnoc(acc: seq<int>, rest: seq<string>, o: string, t: string,
                                          sets: map<string, seq<int>>, total: seq<int>)
    requires AltTail(rest, sets) && LoneOperator(o, sets) && KnownOperand(t, sets)
    ensures AltTail(rest + [o, t], sets)
    ensures FoldTokens(acc, rest + [o, t], sets, total)
              == Combine(o, FoldTokens(acc, rest, sets, total), Value(t, sets, total))
    decreases |rest|
  {
    AltTailSnoc(rest, o, t, sets);
    if rest != [] {
      AltTailRest(rest, sets);
      var r := rest + [o, t];
      assert r[0] == rest[0] && r[1] == rest[1];
      assert r[2..] == rest[2..] + [o, t];
      var acc' := Combine(rest[0], acc, Value(rest[1], sets, total));
      FoldTokensSnoc(acc', rest[2..], o, t, sets, total);
    } else {
      var r := rest + [o, t];
      assert r == [o, t];
      assert r[2..] == [];
    }
  }

  lemma AltTailSnoc(rest: seq<string>, o: string, t: string, sets: map<string, seq<int>>)
    requires AltTail(rest, sets) && LoneOperator(o, sets) && KnownOperand(t, sets)
    ensures AltTail(rest + [o, t], sets)
  {
    var r := rest + [o, t];
    forall i | 0 <= i < |r|
      ensures if i % 2 == 0 then LoneOperator(r[i], sets) else KnownOperand(r[i], sets)
    {
      if i < |rest| {
        assert r[i] == rest[i];
      } else if i == |rest| {
        assert r[i] == o;
      } else {
        assert r[i] == t;
      }
    }
  }

  /** The elements of a term's value, as a set. */
  function ValueSet(term: string, sets: map<string, seq<int>>, total: seq<int>): set<int>
    requires StripBang(term) in sets
  {
    if '!' in term then Elems(total) - Elems(sets[StripBang(term)]) else Elems(sets[StripBang(term)])
  }

  /** Left-to-right evaluation in terms of mathematical sets. */
  function SetFold(acc: set<int>, rest: seq<string>, sets: map<string, seq<int>>, total: seq<int>): set<int>
    requires AltTail(rest, sets)
    decreases |rest|
  {
    if rest == [] then acc
    else
      AltTailRest(rest, sets);
      var v := ValueSet(rest[1], sets, total);
      SetFold(if rest[0] == "&" then acc * v else acc + v, rest[2..], sets, total)
  }

  /**
   * Whatever order union lists its result in, the elements of the fold are
   * those of the set-algebra expression read left to right.
   */
  lemma {:induction false} FoldTokensElems(acc: seq<int>, rest: seq<string>, sets: map<string, seq<int>>, total: seq<int>)
    requires AltTail(rest, sets)
    ensures Elems(FoldTokens(acc, rest, sets, total)) == SetFold(Elems(acc), rest, sets, total)
    decreases |rest|
  {
    if rest != [] {
      AltTailRest(rest, sets);
      var v := Value(rest[1], sets, total);
      SetLaws(acc, v, total);
      SetLaws(sets[StripBang(rest[1])], v, total);
      assert Elems(v) == ValueSet(rest[1], sets, total);
      FoldTokensElems(Combine(rest[0], acc, v), rest[2..], sets, total);
    }
  }

  /** When every named set lies in `total`, so does the value of a well-formed expression. */
  lemma {:induction false} SetFoldWithin(acc: set<int>, rest: seq<string>, sets: map<string, seq<int>>, total: seq<int>)
    requires AltTail(rest, sets)
    requires acc <= Elems(total)
    requires forall name :: name in sets ==> Elems(sets[name]) <= Elems(total)
    ensures SetFold(acc, rest, sets, total) <= Elems(total)
    decreases |rest|
  {
    if rest != [] {
      AltTailRest(rest, sets);
      assert ValueSet(rest[1], sets, total) <= Elems(total);
      var v := ValueSet(rest[1], sets, total);
      SetFoldWithin(if rest[0] == "&" then acc * v else acc + v, rest[2..], sets, total);
    }
  }

  lemma LeftFoldWithin(terms: seq<string>, sets: map<string, seq<int>>, total: seq<int>)
    requires WellFormed(terms, sets)
    requires forall name :: name in sets ==> Elems(sets[name]) <= Elems(total)
    ensures Elems(LeftFold(terms, sets, total)) <= Elems(total)
  {
    var v := Value(terms[0], sets, total);
    SetLaws(sets[StripBang(terms[0])], v, total);
    FoldTokensElems(v, terms[1..], sets, total);
    SetFoldWithin(Elems(v), terms[1..], sets, total);
  }

  /** With nothing resolved (for instance the empty expression), `arrays[0]` fails. */
  lemma NothingResolvedFails(expression: string, sets: map<string, seq<int>>, total: seq<int>,
                             classifications: map<int, string>)
    requires Entries(Split(expression), sets, total) == []
    ensures Evaluate(expression, sets, total, classifications) == None
  {
    var ops := OperatorIndices(Split(expression));
    if ops != [] {
      assert Get([], ops[0]).None?;
      assert Step([], ops[0], None).None?;
      ReduceStops([], ops, 0, None);
    }
  }

  lemma {:induction false} EntriesWithoutOperators(terms: seq<string>, sets: map<string, seq<int>>, total: seq<int>)
    requires OperatorIndices(terms) == []
    ensures forall i :: 0 <= i < |Entries(terms, sets, total)| ==> Entries(terms, sets, total)[i].Operand?
    decreases |terms|
  {
    if terms != [] {
      EntriesWithoutOperators(terms[..|terms| - 1], sets, total);
    }
  }

  /**
   * Without an operator term the result is the first resolved set and every
   * later one is ignored; with nothing resolved it is a failure.
   */
  lemma NoOperators(expression: string, sets: map<string, seq<int>>, total: seq<int>,
                    classifications: map<int, string>)
    requires OperatorIndices(Split(expression)) == []
    ensures Entries(Split(expression), sets, total) == [] ==> Evaluate(expression, sets, total, classifications) == None
    ensures Entries(Split(expression), sets, total) != [] ==>
              Entries(Split(expression), sets, total)[0].Operand? &&
              Evaluate(expression, sets, total, classifications)
                == Labels(Entries(Split(expression), sets, total)[0].elems, classifications)
  {
    EntriesWithoutOperators(Split(expression), sets, total);
  }

  /**
   * A trailing term that is neither an operator nor a known name (an unknown
   * letter, or the empty term after a trailing space) is silently dropped.
   */
  lemma TrailingUnknownIgnored(expression: string, t: string, sets: map<string, seq<int>>, total: seq<int>,
                               classifications: map<int, string>)
    requires ' ' !in t && !IsOperatorToken(t) && StripBang(t) !in sets
    ensures Evaluate(expression + " " + t, sets, total, classifications)
              == Evaluate(expression, sets, total, classifications)
  {
    var terms := Split(expression);
    SplitSnoc(expression, t);
    EntriesSnocTerm(terms, t, sets, total);
    assert TermEntries(t, sets, total) == [];
    assert Entries(terms + [t], sets, total) == Entries(terms, sets, total);
    assert (terms + [t])[..|terms|] == terms;
    assert OperatorIndices(terms + [t]) == OperatorIndices(terms);
  }

  /**
   * A term resolves to the complement of its name however many `!` surround
   * the name and on whichever side: "!!a", "a!" and "!a" all denote the
   * complement of a, so negation is never applied twice.
   */
  lemma NegatedTerm(m: nat, name: string, n: nat, sets: map<string, seq<int>>, total: seq<int>)
    requires m + n > 0 && name in sets && '!' !in name
    ensures TermEntries(Bangs(m) + name + Bangs(n), sets, total) == [Operand(ComplementOf(sets[name], total))]
  {
    var term := Bangs(m) + name + Bangs(n);
    if name != [] {
      assert name[0] in name && name[|name| - 1] in name;
    }
    StripBangAround(m, name, n);
    if m > 0 {
      assert term[0] == '!';
    } else {
      assert term[|term| - 1] == '!';
    }
    assert '!' in term;
    assert !IsOperatorToken(term);
  }

  /** A term without `!` resolves to its named set itself. */
  lemma PlainTerm(name: string, sets: map<string, seq<int>>, total: seq<int>)
    requires name in sets && '!' !in name && !IsOperatorToken(name)
    ensures TermEntries(name, sets, total) == [Operand(sets[name])]
  {
    NoBangUnchanged(name);
  }
}
