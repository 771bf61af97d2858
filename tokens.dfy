/**
 * Token handling of `parse` (render.py:29, 38-39): the expression is split on
 * single spaces, and a term's `!` characters are stripped from both ends.
 */
module Tokens {

  /**
   * Python's `s.split(" ")`: the pieces between single spaces. An empty
   * string gives one empty piece, and two adjacent spaces give an empty piece
   * between them.
   */
  function Split(s: string): (r: seq<string>)
    ensures |r| >= 1
    ensures forall i :: 0 <= i < |r| ==> ' ' !in r[i]
    decreases |s|
  {
    if s == [] then [""]
    else
      var rest := Split(s[1..]);
      if s[0] == ' ' then [""] + rest
      else [[s[0]] + rest[0]] + rest[1..]
  }

  /** Python's `" ".join(pieces)`. */
  function Join(pieces: seq<string>): string
    requires |pieces| >= 1
    decreases |pieces|
  {
    if |pieces| == 1 then pieces[0] else pieces[0] + " " + Join(pieces[1..])
  }

  /** Joining the pieces with single spaces gives back the expression. */
  lemma {:induction false} JoinSplit(s: string)
    ensures Join(Split(s)) == s
    decreases |s|
  {
    if s != [] {
      JoinSplit(s[1..]);
      var rest := Split(s[1..]);
      if s[0] == ' ' {
        assert ([""] + rest)[1..] == rest;
      } else {
        var r := Split(s);
        assert r[1..] == rest[1..];
        if |rest| > 1 {
          assert rest == [rest[0]] + rest[1..];
        }
      }
    }
  }

  lemma {:induction false} SplitWord(w: string, t: string)
    requires ' ' !in w
    ensures Split(w + t) == [w + Split(t)[0]] + Split(t)[1..]
    decreases |w|
  {
    if w != [] {
      assert (w + t)[0] == w[0];
      assert (w + t)[1..] == w[1..] + t;
      SplitWord(w[1..], t);
      assert [w[0]] + (w[1..] + Split(t)[0]) == w + Split(t)[0];
    } else {
      assert w + t == t;
      assert w + Split(t)[0] == Split(t)[0];
      assert Split(t) == [Split(t)[0]] + Split(t)[1..];
    }
  }

  /**
   * Splitting an expression built by joining space-free pieces gives those
   * pieces back: together with JoinSplit, this says Split is exactly the
   * inverse of Join.
   */
  lemma {:induction false} SplitJoin(pieces: seq<string>)
    requires |pieces| >= 1
    requires forall i :: 0 <= i < |pieces| ==> ' ' !in pieces[i]
    ensures Split(Join(pieces)) == pieces
    decreases |pieces|
  {
    if |pieces| == 1 {
      SplitWord(pieces[0], "");
      assert pieces[0] + "" == pieces[0];
    } else {
      var u := Join(pieces[1..]);
      SplitJoin(pieces[1..]);
      SplitWord(pieces[0], " " + u);
      assert pieces[0] + " " + u == pieces[0] + (" " + u);
      assert (" " + u)[0] == ' ' && (" " + u)[1..] == u;
      assert Split(" " + u) == [""] + Split(u);
      assert pieces[0] + "" == pieces[0];
      assert pieces == [pieces[0]] + pieces[1..];
    }
  }

  lemma {:induction false} JoinSnoc(pieces: seq<string>, t: string)
    requires |pieces| >= 1
    ensures Join(pieces + [t]) == Join(pieces) + " " + t
    decreases |pieces|
  {
    var ps := pieces + [t];
    if |pieces| > 1 {
      assert ps[1..] == pieces[1..] + [t];
      JoinSnoc(pieces[1..], t);
    } else {
      assert ps[1..] == [t];
    }
  }

  /** Appending a space and a space-free word to an expression appends one term. */
  lemma SplitSnoc(s: string, t: string)
    requires ' ' !in t
    ensures Split(s + " " + t) == Split(s) + [t]
  {
    var ps := Split(s) + [t];
    JoinSnoc(Split(s), t);
    JoinSplit(s);
    assert forall i :: 0 <= i < |ps| ==> ps[i] == (if i < |Split(s)| then Split(s)[i] else t);
    SplitJoin(ps);
  }

  /** A run of `n` exclamation marks. */
  function Bangs(n: nat): string
  {
    seq(n, _ => '!')
  }

  /** Python's `t.lstrip("!")`. */
  function StripLeading(t: string): string
    decreases |t|
  {
    if t != [] && t[0] == '!' then StripLeading(t[1..]) else t
  }

  /** Python's `t.rstrip("!")`. */
  function StripTrailing(t: string): string
    decreases |t|
  {
    if t != [] && t[|t| - 1] == '!' then StripTrailing(t[..|t| - 1]) else t
  }

  /**
   * Python's `t.strip("!")` (render.py:39): what is left neither starts nor
   * ends with `!`, is no longer than `t`, and a term without `!` is unchanged.
   */
  function StripBang(t: string): (r: string)
    ensures |r| <= |t|
    ensures r == [] || (r[0] != '!' && r[|r| - 1] != '!')
    ensures '!' !in t ==> r == t
  {
    var l := StripLeading(t);
    StripLeadingSpec(t);
    StripTrailingSpec(l);
    var r := StripTrailing(l);
    assert r != [] ==> r == l[..|r|] && r[0] == l[0];
    if '!' !in t then NoBangUnchanged(t); r else r
  }

  /** `lstrip` removes the longest run of leading `!` and nothing else. */
  lemma {:induction false} StripLeadingSpec(t: string)
    ensures |StripLeading(t)| <= |t| && StripLeading(t) == t[|t| - |StripLeading(t)|..]
    ensures forall i :: 0 <= i < |t| - |StripLeading(t)| ==> t[i] == '!'
    ensures StripLeading(t) == [] || StripLeading(t)[0] != '!'
    decreases |t|
  {
    if t != [] && t[0] == '!' {
      StripLeadingSpec(t[1..]);
      var r := StripLeading(t);
      assert t[1..][|t| - 1 - |r|..] == t[|t| - |r|..];
      forall i | 0 <= i < |t| - |r| ensures t[i] == '!' {
        if i > 0 {
          assert t[1..][i - 1] == t[i];
        }
      }
    }
  }

  /** `rstrip` removes the longest run of trailing `!` and nothing else. */
  lemma {:induction false} StripTrailingSpec(t: string)
    ensures |StripTrailing(t)| <= |t| && StripTrailing(t) == t[..|StripTrailing(t)|]
    ensures forall i :: |StripTrailing(t)| <= i < |t| ==> t[i] == '!'
    ensures StripTrailing(t) == [] || StripTrailing(t)[|StripTrailing(t)| - 1] != '!'
    decreases |t|
  {
    if t != [] && t[|t| - 1] == '!' {
      StripTrailingSpec(t[..|t| - 1]);
      var r := StripTrailing(t);
      assert t[..|t| - 1][..|r|] == t[..|r|];
    }
  }

  lemma NoBangUnchanged(t: string)
    requires '!' !in t
    ensures StripLeading(t) == t && StripTrailing(t) == t
  {
    if t != [] {
      assert t[0] in t && t[|t| - 1] in t;
    }
  }

  lemma {:induction false} StripLeadingBangs(m: nat, w: string)
    requires w == [] || w[0] != '!'
    ensures StripLeading(Bangs(m) + w) == w
    decreases m
  {
    if m == 0 {
      assert Bangs(0) + w == w;
    } else {
      assert (Bangs(m) + w)[1..] == Bangs(m - 1) + w;
      StripLeadingBangs(m - 1, w);
    }
  }

  lemma {:induction false} StripTrailingBangs(w: string, n: nat)
    requires w == [] || w[|w| - 1] != '!'
    ensures StripTrailing(w + Bangs(n)) == w
    decreases n
  {
    if n == 0 {
      assert w + Bangs(0) == w;
    } else {
      assert (w + Bangs(n))[..|w| + n - 1] == w + Bangs(n - 1);
      StripTrailingBangs(w, n - 1);
    }
  }

  /**
   * Any number of `!` on either side of a name strips to that name: "!!a",
   * "a!" and "!a" all strip to "a".
   */
  lemma StripBangAround(m: nat, name: string, n: nat)
    requires name == [] || (name[0] != '!' && name[|name| - 1] != '!')
    ensures StripBang(Bangs(m) + name + Bangs(n)) == name
  {
    if name == [] {
      assert Bangs(m) + name + Bangs(n) == Bangs(m) + Bangs(n);
      StripLeadingBangs(m + n, "");
      assert Bangs(m) + Bangs(n) == Bangs(m + n) + "";
    } else {
      assert Bangs(m) + name + Bangs(n) == Bangs(m) + (name + Bangs(n));
      StripLeadingBangs(m, name + Bangs(n));
      StripTrailingBangs(name, n);
    }
  }
}
