/**
 * The fixed universe, base sets and classification table of the renderer
 * (render.py:75-94).
 */
module Universe {
  /** The universe (render.py:75). */
  const Total: seq<int> := [1, 2, 3, 4, 5, 6, 7, 8]

  /** The three base sets (render.py:76-80). */
  const A: seq<int> := [1, 2, 3, 5]
  const B: seq<int> := [2, 3, 4, 8]
  const C: seq<int> := [3, 4, 5, 6]
  const Sets: map<string, seq<int>> := map["a" := A, "b" := B, "c" := C]

  /** The section label of each element (render.py:85-94). */
  const Classifications: map<int, string> :=
    map[1 := "a", 2 := "ab", 3 := "abc", 4 := "bc", 5 := "ac", 6 := "c", 7 := "none", 8 := "b"]

  /** The names of the base sets holding `x`, in a-b-c order, or "none" when there are none. */
  function MembershipLabel(x: int): string
  {
    if x !in A && x !in B && x !in C then "none"
    else (if x in A then "a" else "") + (if x in B then "b" else "") + (if x in C then "c" else "")
  }

  /** The labels of the elements 1 to 4 name the base sets holding them. */
  lemma LowLabels()
    ensures Classifications[1] == MembershipLabel(1)
    ensures Classifications[2] == MembershipLabel(2)
    ensures Classifications[3] == MembershipLabel(3)
    ensures Classifications[4] == MembershipLabel(4)
  {
  }

  /** The labels of the elements 5 to 8 name the base sets holding them. */
  lemma HighLabels()
    ensures Classifications[5] == MembershipLabel(5)
    ensures Classifications[6] == MembershipLabel(6)
    ensures Classifications[7] == MembershipLabel(7)
    ensures Classifications[8] == MembershipLabel(8)
  {
  }

  /** The label of each element of the universe names the base sets holding it. */
  lemma LabelAgrees(x: int)
    requires 1 <= x <= 8
    ensures Classifications[x] == MembershipLabel(x)
  {
    LowLabels();
    HighLabels();
  }
}
