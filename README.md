# Boolean set expressions for a three-set Venn diagram

`render.py` lets a user type an expression such as `a & b | !c` and shades the
matching regions of a Venn diagram of three sets. Its core is four functions:

- `union`, `intersection` and `complement` on lists of integers;
- `parse`, which splits the expression on single spaces, resolves each term
  to a set (`!` anywhere in a term means "complement"), reduces the operators
  one after another, and maps each element of the result to the label of
  its diagram section.

The universe `1..8`, the base sets `a`, `b`, `c` and the table of section
labels are fixed constants. The caller re-parses the expression on every
frame and keeps the sections it drew before whenever `parse` raises.

The model follows the structure of the program:

| file | module | contents |
|---|---|---|
| `wrappers.dfy` | `Wrappers` | `Option`, where `None` stands for a raised exception |
| `set_algebra.dfy` | `SetAlgebra` | `union` as a function; `intersection` and `complement` as loop methods proved against the functions `IntersectionOf` and `ComplementOf`; their laws |
| `tokens.dfy` | `Tokens` | `str.split(" ")` and `str.strip("!")`, with their inverses and characterisations |
| `parser.dfy` | `Parser` | `parse` in its three loop phases (resolve terms, reduce, collect labels) as methods, each proved equal to a specification function; Python's list indexing, `pop` and `insert` written out |
| `parse_laws.dfy` | `ParseLaws` | what `parse` computes: a strict left-to-right fold for well-formed input, plus the edge behaviour |
| `universe.dfy` | `Universe` | the constants of render.py:75-94 |
| `tables.dfy` | `Tables` | the classification table checked against the base sets; `parse` over the constants; the caller's keep-on-failure rule |
| `scenarios.dfy` | `Scenarios` | concrete expressions worked through the model, and the failure modes that come from misaligned operator positions |

Python's semantics are modelled as written, not as the comments suggest:

- **Recorded operator positions.** `operators` records positions in the list
  of *terms*, but `arrays` receives nothing for an empty term or an unknown
  name. After one of those, every later operator points one entry too far.
  So `"a  & b"` (two spaces) fails, and `"x & a"` fails too
  (`DoubleSpaceFails`, `UnknownFirstFails`).
- **Negative indices.** A negative index counts from the end, so `"& a a a"`
  succeeds by reading its left operand from the end of the list
  (`LeadingOperatorWraps`).
- **The stale `result`.** The variable `result` keeps its value from the
  previous pass. On the first pass it is unbound, which is an error.
- **Operator text in operand slots.** An operator kept as text does not
  always fail when it lands where an operand is expected. `intersection` of
  text with a list gives `[]`, and so do `intersection` of an empty list
  with text and `intersection` of `"|"` with `"&"`, which share no
  character. These cases are modelled (`OperatorsIntersectToEmpty`).
- **No precedence.** For well-formed input the reduction is a strict left fold
  with no precedence: `"a | b & c"` means `(a ∪ b) ∩ c` (`NoPrecedence`).

The comment at render.py:82-83 names 8 as the element in no base set.
According to the sets at render.py:76-80, that element is 7, and 8 lies in
`b` alone. The classification table agrees with the sets: it gives 7 "none"
and 8 "b". The model follows the code and proves that agreement
(`Tables.ClassificationsAgree`).

## Model

| member | source | states |
|---|---|---|
| SetAlgebra.Dedup | render.py:10 | `set(...)`: the result has no duplicates and the same members as the input |
| SetAlgebra.Union | render.py:9-11 | the result has no duplicates, and x is in it iff x is in `set_1` or in `set_2` |
| SetAlgebra.Intersection | render.py:13-18 | the loop builds exactly `IntersectionOf(set_1, set_2)`, the items of `set_1` found in `set_2`, in `set_1`'s order |
| SetAlgebra.Complement | render.py:20-25 | the loop builds exactly `ComplementOf(set_1, total)`, the items of `total` not in `set_1`, in `total`'s order |
| SetAlgebra.IntersectionMembership | render.py:13-18 | x is in the intersection iff x is in both arguments |
| SetAlgebra.IntersectionIsSubsequence | render.py:14-17 | the intersection is a subsequence of `set_1`, so it keeps `set_1`'s order and is no longer than it |
| SetAlgebra.ComplementMembership | render.py:20-25 | x is in the complement iff x is in `total` and not in `set_1` |
| SetAlgebra.ComplementIsSubsequence | render.py:21-24 | the complement is a subsequence of `total` |
| SetAlgebra.ComplementIgnoresOutside | render.py:20-25 | two sets that agree on the elements of `total` have the same complement |
| SetAlgebra.DoubleComplement | render.py:20-25 | complementing twice gives the items of `total` that lie in the set, in `total`'s order |
| SetAlgebra.DoubleComplementElems | render.py:20-25 | for a set within `total`, complementing twice gives back its elements |
| SetAlgebra.IntersectionWithComplement | render.py:13-25 | a set intersected with its complement is empty |
| SetAlgebra.IntersectionDisjoint | render.py:13-18 | disjoint arguments have an empty intersection |
| SetAlgebra.SelfIntersection | render.py:13-18 | a list intersected with itself is unchanged |
| SetAlgebra.SetLaws | render.py:9-25 | as sets, the three operations are ∩, ∪ and `total` minus the set |
| Tokens.Split | render.py:29 | `split(" ")` gives at least one piece, and no piece contains a space |
| Tokens.JoinSplit | render.py:29 | joining the pieces with single spaces gives back the expression |
| Tokens.SplitJoin | render.py:29 | splitting the join of space-free pieces gives back those pieces, so `split` inverts the join |
| Tokens.SplitSnoc | render.py:29 | appending a space and a space-free word to an expression appends that word as one more term |
| Tokens.StripLeadingSpec | render.py:39 | left stripping removes exactly the longest run of leading `!` |
| Tokens.StripTrailingSpec | render.py:39 | right stripping removes exactly the longest run of trailing `!` |
| Tokens.StripBang | render.py:39 | the stripped term is no longer than the term, neither starts nor ends with `!`, and a term without `!` is unchanged |
| Tokens.NoBangUnchanged | render.py:39 | stripping a term without `!` changes nothing |
| Tokens.StripBangAround | render.py:39 | stripping any number of `!` from both ends of a name that does not start or end with `!` gives the name |
| SetAlgebra.IntersectionMembers | render.py:13-18 | for every x at once: x is in the intersection iff x is in both arguments |
| SetAlgebra.ComplementMembers | render.py:20-25 | for every x at once: x is in the complement iff x is in `total` and not in `set_1` |
| Parser.Value | render.py:38-45 | a term without `!` denotes its named set; a term with `!` anywhere denotes the elements of `total` outside the set named by the stripped term |
| Parser.TermEntries | render.py:35-45 | a term appends at most two entries: its operator text first when it is `&` or `\|`, its value last when its stripped name is known, and nothing iff it is neither |
| Parser.Get | render.py:50-52 | `arrays[i]` succeeds iff `-len <= i < len`; a non-negative index reads entry i, a negative one reads entry `len + i` |
| Parser.Pop | render.py:59 | `pop(i)` succeeds iff `-len <= i < len`; it removes entry k, where k is i or `len + i`, and keeps the entries before and after k in order |
| Parser.PopInsert | render.py:59-60 | the popped entry is `arrays[i]`, and inserting it back at k restores the list |
| Parser.PopTimes | render.py:59 | n pops at position i succeed iff i is within the list that the last pop sees, and they shorten the list by n |
| Parser.PopTimesRemoves | render.py:59 | n pops at i remove n consecutive entries: those from i on, or for a negative i those ending at `len + i` |
| Parser.Insert | render.py:60 | `insert` lengthens the list by one; it puts the entry at the position clamped to `0..len` (a negative one counted from the end) and keeps the rest in order around it |
| Parser.Intersect | render.py:13-18 | two sets intersect to the elements in both; operator text in a slot gives `[]`, except that a non-empty list with text after it raises and two equal operator texts are not represented |
| Parser.Unite | render.py:9-11 | `union` succeeds iff both slots hold sets, and then gives the members of either without duplicates |
| Parser.Finish | render.py:66-71 | the labels are produced iff some entry is left, the first is a set, and all its elements are classified; then one label per element, in order |
| Parser.Shift | render.py:62-63 | every recorded position is decremented by two, and the list keeps its length |
| Parser.ShiftAll | render.py:62-63 | the in-place loop over `operators` computes `Shift` |
| Parser.Labels | render.py:66-71 | the collection succeeds iff every element has a classification; it gives one label per element, in order, each that element's classification |
| Parser.ResolveTerm | render.py:35-45 | one pass of the term loop appends the term's entries, and its index when it is an operator |
| Parser.ResolveTerms | render.py:33-45 | the term loop yields `Entries(terms)` and `OperatorIndices(terms)` |
| Parser.ReduceOnce | render.py:50-60 | one pass of the reduction loop computes `Step`: it reads three entries, combines them, pops three, inserts the result, or fails |
| Parser.ReduceAll | render.py:48-63 | the reduction loop, which shifts the live position list after each pass, computes `Reduce` from the first pass with no `result` bound |
| Parser.Sections | render.py:66-71 | the label loop computes `Labels` of the first entry's elements |
| Parser.Parse | render.py:27-72 | `parse` returns `Evaluate(expression)`, or `None` where Python raises |
| ParseLaws.EntriesAppend | render.py:33-45 | the entries of a concatenation of term lists are the concatenation of their entries |
| ParseLaws.OperatorTermEntries | render.py:35-37 | an operator that is not a set name contributes only itself |
| ParseLaws.EntriesOfWellFormed | render.py:33-45 | a well-formed term list gives its first value followed by operator/value pairs |
| ParseLaws.OperatorIndicesOfWellFormed | render.py:33-37 | in a well-formed list, the j-th operator is recorded at position 2j+1 |
| ParseLaws.StepAtFront | render.py:50-60 | a pass at position 1 over set, operator, set replaces the three with their combination |
| ParseLaws.ReduceAlternating | render.py:48-63 | over an alternating list, with positions 1, 3, 5, ... still to visit, the reduction folds the pairs into the first set from the left |
| ParseLaws.ShiftPositions | render.py:62-63 | after the shift, the positions still to visit are again 1, 3, 5, ... |
| ParseLaws.ReduceWellFormed | render.py:48-63 | for a well-formed term list the reduction leaves exactly one entry, the left fold of the terms |
| ParseLaws.EvaluateWellFormed | render.py:27-72 | a well-formed expression evaluates to the labels of its left-to-right value, with no precedence between `&` and `|` |
| ParseLaws.FoldTokensSnoc | render.py:48-63 | the last operator applies to the value of everything before it |
| ParseLaws.FoldTokensElems | render.py:9-63 | as sets, the fold is the same fold with ∩, ∪ and complement in `total` |
| ParseLaws.LeftFoldWithin | render.py:9-63 | when every named set lies within `total`, so does the value of any well-formed expression |
| ParseLaws.NothingResolvedFails | render.py:67 | when no term resolves, `arrays[0]` fails |
| ParseLaws.EntriesWithoutOperators | render.py:33-45 | without operator terms every entry is a set |
| ParseLaws.NoOperators | render.py:48-71 | without operators the first resolved set is the result and the rest are ignored; with none resolved the parse fails |
| ParseLaws.TrailingUnknownIgnored | render.py:33-45 | a trailing unknown term or empty term changes nothing |
| ParseLaws.NegatedTerm | render.py:38-43 | a name with one or more `!` at either end resolves to the name's complement, never to a double complement |
| ParseLaws.PlainTerm | render.py:41-45 | a name without `!` resolves to its set |
| Universe.LowLabels | render.py:85-90 | the labels of elements 1-4 name the base sets that hold them |
| Universe.HighLabels | render.py:90-94 | the labels of elements 5-8 name the base sets that hold them |
| Universe.LabelAgrees | render.py:75-94 | each element of the universe is labelled with the base sets that hold it, in a-b-c order, or "none" |
| Tables.ClassificationsAgree | render.py:75-94 | the table has exactly the universe as keys, and each label names the base sets holding its element |
| Tables.ClassificationKeys | render.py:85-94 | the table's keys are the elements of the universe |
| Tables.BaseSetsWithinTotal | render.py:75-80 | the universe has no duplicates and holds every base set |
| Tables.WellFormedSucceeds | render.py:27-94 | over the constants a well-formed expression never fails, and gives one label per element of its value, naming the base sets that hold the element |
| Tables.Refresh | render.py:109-110 | a failed parse keeps the previous sections; a successful one replaces them with its result; a well-formed expression gives the labels of its value |
| Scenarios.SplitThree | render.py:29 | three space-free words separated by single spaces split into those three terms |
| Scenarios.EvaluateSingle | render.py:27-72 | a lone known term evaluates to the labels of its value |
| Scenarios.EvaluateThree | render.py:27-72 | `x o y` evaluates to the labels of one application of `o` |
| Scenarios.EvaluateFive | render.py:27-72 | `x o y p z` evaluates to the labels of `p` applied to the value of `x o y` |
| Scenarios.IntersectionExample | render.py:27-94 | "a & b" gives the sections "ab" and "abc" |
| Scenarios.IntersectionAB | render.py:13-18 | the intersection of a and b is [2, 3] |
| Scenarios.IntersectionThenUnion | render.py:27-94 | "a & b \| c" is `union(intersection(a, b), c)` |
| Scenarios.IntersectionThenUnionElems | render.py:9-18 | that value is the set {2, 3, 4, 5, 6} |
| Scenarios.NoPrecedence | render.py:27-94 | "a \| b & c" is `intersection(union(a, b), c)` |
| Scenarios.PrecedenceWitness | render.py:9-18 | element 1 is in a ∪ (b ∩ c) but not in (a ∪ b) ∩ c, so the left-to-right reading differs from precedence of `&` |
| Scenarios.ComplementA | render.py:20-25 | the complement of a in the universe is [4, 6, 7, 8] |
| Scenarios.ComplementExample | render.py:27-94 | "!a" gives the sections "bc", "c", "none" and "b" |
| Scenarios.NegationSpellings | render.py:38-43 | "!!a", "a!" and "!a" all resolve to the complement of a |
| Scenarios.EmptyExpression | render.py:29-67 | the empty expression (the initial input) fails |
| Scenarios.DoubleSpaceEntries | render.py:33-45 | with a doubled space the empty term adds no entry, but the operator is recorded at position 2 |
| Scenarios.DoubleSpaceFails | render.py:33-60 | a doubled space before an operator makes the parse fail |
| Scenarios.DoubleSpaceExample | render.py:27-94 | "a  & b" fails |
| Scenarios.UnknownFirstFails | render.py:33-60 | an unknown name before an operator makes the parse fail |
| Scenarios.LeadingOperatorWraps | render.py:48-72 | "& y y y" reads its left operand from the end of the list and gives the value of y |
| Scenarios.OperatorsIntersectToEmpty | render.py:50-60 | a pass over the texts "\|", "&", "&" collapses them into one empty set |
| Scenarios.WrappedStep | render.py:50-60 | the pass at position 0 pops the last three entries and inserts the result before the operator |
| Scenarios.PopTimesBack | render.py:59 | `pop(-1)` done n times removes the last n entries |

## Left out

- The pygame window, fonts, image assets, drawing, the clock and the event
  loop (render.py:1-7, 96-140): these are I/O. The typed expression is a
  parameter of `Tables.Refresh`.
- The drawing step after parsing (render.py:134-138), which catches a failed
  asset lookup, is not modelled.
- Before the first successful parse, Python's `sections` is unbound. The model
  has the caller supply some previous value instead.
- Union order: Python's `list(set(...))` has an order set by the hashing. The
  model fixes first-occurrence order. Every property of `union` stated here is
  about its members, so it does not depend on that choice.
- Parser.Intersect and Parser.Unite: when both operand slots hold the same
  operator text, `intersection` gives that text's one-character list; when
  both hold operator text, `union` gives a list of characters. The model has
  no such value and gives `None` instead. Python usually fails later, at the
  label lookup. But a later intersection of a list with that character list
  gives `[]`, so on such inputs Python can succeed where the model reports a
  failure.
- Scenarios.NoPrecedence: states the value of "a | b & c" as a labelled
  application, not as a literal list of labels, because the label order
  depends on the unspecified union order.
- Scenarios.IntersectionThenUnion: states the labels in the same form, for the
  same reason. `IntersectionThenUnionElems` gives the value as a set.
