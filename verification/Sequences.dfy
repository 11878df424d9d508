/** Elements of sequences and repetition-free sequences. */
module Sequences {

  ghost function Elems<T>(s: seq<T>): set<T> {
    if s == [] then {} else Elems(s[..|s| - 1]) + {s[|s| - 1]}
  }

  lemma {:induction false} ElemsAt<T>(s: seq<T>, i: nat)
    requires i < |s|
    ensures s[i] in Elems(s)
  {
    if i < |s| - 1 { ElemsAt(s[..|s| - 1], i); }
  }

  lemma {:induction false} ElemsConcat<T>(s: seq<T>, t: seq<T>)
    ensures Elems(s + t) == Elems(s) + Elems(t)
  {
    if t == [] {
      assert s + t == s;
    } else {
      assert (s + t)[..|s + t| - 1] == s + t[..|t| - 1];
      ElemsConcat(s, t[..|t| - 1]);
    }
  }

  lemma {:induction false} IndexOf<T>(s: seq<T>, x: T) returns (i: nat)
    requires x in Elems(s)
    ensures i < |s| && s[i] == x
  {
    if x == s[|s| - 1] { i := |s| - 1; } else { i := IndexOf(s[..|s| - 1], x); }
  }

  ghost predicate NoDups<T>(s: seq<T>) {
    s == [] || (s[|s| - 1] !in Elems(s[..|s| - 1]) && NoDups(s[..|s| - 1]))
  }

  lemma {:induction false} NoDupsAt<T>(s: seq<T>, i: nat, j: nat)
    requires NoDups(s) && i < j < |s|
    ensures s[i] != s[j]
  {
    if j == |s| - 1 {
      ElemsAt(s[..|s| - 1], i);
    } else {
      NoDupsAt(s[..|s| - 1], i, j);
    }
  }

  lemma {:induction false} NoDupsAppend<T>(s: seq<T>, t: seq<T>)
    requires NoDups(s) && NoDups(t) && Elems(s) !! Elems(t)
    ensures NoDups(s + t)
  {
    if t == [] {
      assert s + t == s;
    } else {
      assert (s + t)[..|s + t| - 1] == s + t[..|t| - 1];
      ElemsConcat(s, t[..|t| - 1]);
      NoDupsAppend(s, t[..|t| - 1]);
    }
  }

  lemma {:induction false} Smaller<T>(a: set<T>, b: set<T>)
    requires a <= b
    ensures |a| <= |b|
  {
    assert b == a + (b - a);
  }
}
