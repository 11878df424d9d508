/** Index comparators as lexicographic comparisons of datom components, and the
    operations on sequences sorted by them. */
module Comparators {
  import opened Datoms

  /** Comparisons of attributes and of values. */
  datatype Orders<!A, !V> = Orders(attr: (A, A) -> int, value: (V, V) -> int)

  /** A total preorder; datoms that compare as 0 are equal for the index. */
  ghost predicate Total<T(!new)>(c: (T, T) -> int) {
    && (forall x, y :: c(x, y) < 0 <==> c(y, x) > 0)
    && (forall x, y, z {:trigger c(x, y), c(y, z)} :: c(x, y) <= 0 && c(y, z) <= 0 ==> c(x, z) <= 0)
  }

  lemma {:induction false} StrictThen<T(!new)>(c: (T, T) -> int, x: T, y: T, z: T)
    requires Total(c) && c(x, y) <= 0 && c(y, z) <= 0 && (c(x, y) < 0 || c(y, z) < 0)
    ensures c(x, z) < 0
  {
    assert c(z, x) <= 0 ==> c(y, x) <= 0 && c(z, y) <= 0;
    assert (c(x, y) < 0 <==> c(y, x) > 0) && (c(y, z) < 0 <==> c(z, y) > 0);
    assert c(x, z) < 0 <==> c(z, x) > 0;
  }

  /** `combine-cmp`: the first comparison that is not 0 decides. */
  function Lex<T>(cs: seq<(T, T) -> int>, x: T, y: T): int {
    if cs == [] then 0 else if cs[0](x, y) != 0 then cs[0](x, y) else Lex(cs[1..], x, y)
  }

  ghost predicate AllTotal<T(!new)>(cs: seq<(T, T) -> int>) {
    cs == [] || (Total(cs[0]) && AllTotal(cs[1..]))
  }

  lemma {:induction false} LexSign<T(!new)>(cs: seq<(T, T) -> int>, x: T, y: T)
    requires AllTotal(cs)
    ensures Lex(cs, x, y) < 0 <==> Lex(cs, y, x) > 0
  {
    if cs != [] {
      var c := cs[0];
      assert c(x, y) < 0 <==> c(y, x) > 0;
      assert c(y, x) < 0 <==> c(x, y) > 0;
      LexSign(cs[1..], x, y);
    }
  }

  lemma {:induction false} LexTransitive<T(!new)>(cs: seq<(T, T) -> int>, x: T, y: T, z: T)
    requires AllTotal(cs) && Lex(cs, x, y) <= 0 && Lex(cs, y, z) <= 0
    ensures Lex(cs, x, z) <= 0
  {
    if cs != [] {
      var c := cs[0];
      assert c(x, y) <= 0 && c(y, z) <= 0;
      if c(x, y) < 0 || c(y, z) < 0 {
        StrictThen(c, x, y, z);
      } else {
        assert c(x, y) < 0 <==> c(y, x) > 0;
        assert c(y, x) < 0 <==> c(x, y) > 0;
        assert c(y, z) < 0 <==> c(z, y) > 0;
        assert c(z, y) < 0 <==> c(y, z) > 0;
        assert c(z, y) <= 0 && c(y, x) <= 0;
        assert c(x, z) <= 0 && c(z, x) <= 0;
        assert c(x, z) < 0 <==> c(z, x) > 0;
        assert c(z, x) < 0 <==> c(x, z) > 0;
        LexTransitive(cs[1..], x, y, z);
      }
    }
  }

  /** Comparing component by component is a total preorder. */
  lemma {:induction false} LexTotal<T(!new)>(cs: seq<(T, T) -> int>)
    requires AllTotal(cs)
    ensures Total((x, y) => Lex(cs, x, y))
  {
    var c := (x, y) => Lex(cs, x, y);
    forall x, y ensures c(x, y) < 0 <==> c(y, x) > 0 { LexSign(cs, x, y); }
    forall x, y, z | c(x, y) <= 0 && c(y, z) <= 0 ensures c(x, z) <= 0 { LexTransitive(cs, x, y, z); }
  }

  /** 0 exactly when every component compares as 0, in whatever order. */
  ghost predicate AllZero<T>(cs: seq<(T, T) -> int>, x: T, y: T) {
    forall i :: 0 <= i < |cs| ==> cs[i](x, y) == 0
  }

  lemma {:induction false} LexZero<T>(cs: seq<(T, T) -> int>, x: T, y: T)
    ensures Lex(cs, x, y) == 0 <==> AllZero(cs, x, y)
  {
    if cs != [] {
      LexZero(cs[1..], x, y);
      assert AllZero(cs[1..], x, y) <==> forall i :: 1 <= i < |cs| ==> cs[i](x, y) == 0 by {
        forall i | 1 <= i < |cs| ensures cs[i] == cs[1..][i - 1] {}
      }
    }
  }

  /** A longer list of components refines a shorter one. */
  lemma {:induction false} LexRefines<T>(cs: seq<(T, T) -> int>, more: seq<(T, T) -> int>, x: T, y: T)
    ensures Lex(cs + more, x, y) == if Lex(cs, x, y) != 0 then Lex(cs, x, y) else Lex(more, x, y)
  {
    if cs == [] {
      assert cs + more == more;
    } else {
      assert (cs + more)[1..] == cs[1..] + more && (cs + more)[0] == cs[0];
      LexRefines(cs[1..], more, x, y);
    }
  }

  // ----------------------------------------------------------------- the indices

  function ByE<A, V>(): (Datom<A, V>, Datom<A, V>) -> int {
    (x: Datom<A, V>, y: Datom<A, V>) => x.e - y.e
  }

  function ByA<A, V>(o: Orders<A, V>): (Datom<A, V>, Datom<A, V>) -> int {
    (x: Datom<A, V>, y: Datom<A, V>) => o.attr(x.a, y.a)
  }

  function ByV<A, V>(o: Orders<A, V>): (Datom<A, V>, Datom<A, V>) -> int {
    (x: Datom<A, V>, y: Datom<A, V>) => o.value(x.v, y.v)
  }

  function ByTx<A, V>(): (Datom<A, V>, Datom<A, V>) -> int {
    (x: Datom<A, V>, y: Datom<A, V>) => x.tx - y.tx
  }

  function ByAdded<A, V>(): (Datom<A, V>, Datom<A, V>) -> int {
    (x: Datom<A, V>, y: Datom<A, V>) => if x.added == y.added then 0 else if y.added then -1 else 1
  }

  datatype Index = EAVT | AEVT | AVET

  /** The components of the prefix comparators, in the order of the index. */
  function Prefix<A, V>(o: Orders<A, V>, i: Index): seq<(Datom<A, V>, Datom<A, V>) -> int> {
    match i
    case EAVT => [ByE(), ByA(o), ByV(o)]
    case AEVT => [ByA(o), ByE(), ByV(o)]
    case AVET => [ByA(o), ByV(o), ByE()]
  }

  function Quick<A, V>(o: Orders<A, V>, i: Index): seq<(Datom<A, V>, Datom<A, V>) -> int> {
    Prefix(o, i) + [ByTx()]
  }

  function Temporal<A, V>(o: Orders<A, V>, i: Index): seq<(Datom<A, V>, Datom<A, V>) -> int> {
    Quick(o, i) + [ByAdded()]
  }

  lemma {:induction false} ComponentsTotal<A(!new), V(!new)>(o: Orders<A, V>)
    requires Total(o.attr) && Total(o.value)
    ensures Total(ByE<A, V>()) && Total(ByTx<A, V>()) && Total(ByAdded<A, V>())
    ensures Total(ByA(o)) && Total(ByV(o))
  {
    var a, v := ByA(o), ByV(o);
    forall x: Datom<A, V>, y: Datom<A, V>
      ensures a(x, y) < 0 <==> a(y, x) > 0
    {
      assert o.attr(x.a, y.a) < 0 <==> o.attr(y.a, x.a) > 0;
    }
    forall x: Datom<A, V>, y: Datom<A, V>
      ensures v(x, y) < 0 <==> v(y, x) > 0
    {
      assert o.value(x.v, y.v) < 0 <==> o.value(y.v, x.v) > 0;
    }
    forall x: Datom<A, V>, y: Datom<A, V>, z: Datom<A, V> | a(x, y) <= 0 && a(y, z) <= 0 ensures a(x, z) <= 0 {
      assert o.attr(x.a, y.a) <= 0 && o.attr(y.a, z.a) <= 0;
    }
    forall x: Datom<A, V>, y: Datom<A, V>, z: Datom<A, V> | v(x, y) <= 0 && v(y, z) <= 0 ensures v(x, z) <= 0 {
      assert o.value(x.v, y.v) <= 0 && o.value(y.v, z.v) <= 0;
    }
  }

  lemma {:induction false} TotalConcat<T(!new)>(s: seq<(T, T) -> int>, t: seq<(T, T) -> int>)
    requires AllTotal(s) && AllTotal(t)
    ensures AllTotal(s + t)
  {
    if s == [] {
      assert s + t == t;
    } else {
      assert (s + t)[1..] == s[1..] + t && (s + t)[0] == s[0];
      TotalConcat(s[1..], t);
    }
  }

  lemma {:induction false} PrefixTotal<A(!new), V(!new)>(o: Orders<A, V>, i: Index)
    requires Total(o.attr) && Total(o.value)
    ensures AllTotal(Prefix(o, i))
  {
    ComponentsTotal(o);
    var cs := Prefix(o, i);
    assert AllTotal(cs[3..]);
    assert cs[2..][1..] == cs[3..] && cs[2..][0] == cs[2];
    assert AllTotal(cs[2..]);
    assert cs[1..][1..] == cs[2..] && cs[1..][0] == cs[1];
    assert AllTotal(cs[1..]);
  }

  /** The prefix, current and temporal comparators of each index are total preorders. */
  lemma {:induction false} IndicesTotal<A(!new), V(!new)>(o: Orders<A, V>, i: Index)
    requires Total(o.attr) && Total(o.value)
    ensures AllTotal(Prefix(o, i)) && AllTotal(Quick(o, i)) && AllTotal(Temporal(o, i))
    ensures Total((x, y) => Lex(Prefix(o, i), x, y)) && Total((x, y) => Lex(Quick(o, i), x, y))
    ensures Total((x, y) => Lex(Temporal(o, i), x, y))
  {
    ComponentsTotal(o);
    PrefixTotal(o, i);
    var tx, added := [ByTx<A, V>()], [ByAdded<A, V>()];
    assert AllTotal(tx[1..]) && AllTotal(added[1..]);
    TotalConcat(Prefix(o, i), tx);
    TotalConcat(Quick(o, i), added);
    LexTotal(Prefix(o, i));
    LexTotal(Quick(o, i));
    LexTotal(Temporal(o, i));
  }

  /** All comparisons of e, a and v agree on which datoms are equal. */
  lemma {:induction false} IndicesAgree<A, V>(o: Orders<A, V>, i: Index, j: Index, x: Datom<A, V>, y: Datom<A, V>)
    ensures Lex(Prefix(o, i), x, y) == 0 <==> x.e == y.e && o.attr(x.a, y.a) == 0 && o.value(x.v, y.v) == 0
    ensures Lex(Quick(o, i), x, y) == 0 <==> Lex(Quick(o, j), x, y) == 0
    ensures Lex(Temporal(o, i), x, y) == 0 <==> Lex(Temporal(o, j), x, y) == 0
  {
    PrefixZero(o, i, x, y);
    PrefixZero(o, j, x, y);
    LexRefines(Prefix(o, i), [ByTx()], x, y);
    LexRefines(Prefix(o, j), [ByTx()], x, y);
    LexRefines(Quick(o, i), [ByAdded()], x, y);
    LexRefines(Quick(o, j), [ByAdded()], x, y);
  }

  lemma {:induction false} PrefixZero<A, V>(o: Orders<A, V>, i: Index, x: Datom<A, V>, y: Datom<A, V>)
    ensures Lex(Prefix(o, i), x, y) == 0 <==> x.e == y.e && o.attr(x.a, y.a) == 0 && o.value(x.v, y.v) == 0
  {
    var cs := Prefix(o, i);
    LexZero(cs, x, y);
    if AllZero(cs, x, y) { assert cs[0](x, y) == 0 && cs[1](x, y) == 0 && cs[2](x, y) == 0; }
  }

  /** Temporal comparators refine the current ones, and these the prefix comparators. */
  lemma {:induction false} IndicesRefine<A, V>(o: Orders<A, V>, i: Index, x: Datom<A, V>, y: Datom<A, V>)
    ensures Lex(Prefix(o, i), x, y) < 0 ==> Lex(Quick(o, i), x, y) < 0
    ensures Lex(Quick(o, i), x, y) < 0 ==> Lex(Temporal(o, i), x, y) < 0
    ensures Lex(Temporal(o, i), x, y) <= 0 ==> Lex(Quick(o, i), x, y) <= 0
    ensures Lex(Quick(o, i), x, y) <= 0 ==> Lex(Prefix(o, i), x, y) <= 0
  {
    LexRefines(Prefix(o, i), [ByTx()], x, y);
    LexRefines(Quick(o, i), [ByAdded()], x, y);
  }

  /** The first of the comparisons that is not 0, over the components of a datom. */
  function FirstOf(c: int, d: int): int {
    if c != 0 then c else d
  }

  /** Which datom comes first, component by component: in EAVT the smaller entity, then
      attribute, then value; in AEVT attribute, entity, value; in AVET attribute, value, entity;
      and then in all of them the smaller transaction, and a retraction before an assertion. */
  lemma {:induction false} IndexOrder<A, V>(o: Orders<A, V>, i: Index, x: Datom<A, V>, y: Datom<A, V>)
    ensures var (e, a, v) := (x.e - y.e, o.attr(x.a, y.a), o.value(x.v, y.v));
            && Lex(Prefix(o, EAVT), x, y) == FirstOf(e, FirstOf(a, v))
            && Lex(Prefix(o, AEVT), x, y) == FirstOf(a, FirstOf(e, v))
            && Lex(Prefix(o, AVET), x, y) == FirstOf(a, FirstOf(v, e))
    ensures Lex(Quick(o, i), x, y) == FirstOf(Lex(Prefix(o, i), x, y), x.tx - y.tx)
    ensures Lex(Temporal(o, i), x, y) < 0 <==>
        Lex(Quick(o, i), x, y) < 0 || (Lex(Quick(o, i), x, y) == 0 && !x.added && y.added)
  {
    LexThree(ByE(), ByA(o), ByV(o), x, y);
    LexThree(ByA(o), ByE(), ByV(o), x, y);
    LexThree(ByA(o), ByV(o), ByE(), x, y);
    LexRefines(Prefix(o, i), [ByTx()], x, y);
    LexRefines(Quick(o, i), [ByAdded()], x, y);
    LexLast(ByTx(), x, y);
    LexLast(ByAdded(), x, y);
  }

  lemma {:induction false} LexLast<T>(c: (T, T) -> int, x: T, y: T)
    ensures Lex([c], x, y) == c(x, y)
  {
    assert [c][1..] == [];
  }

  lemma {:induction false} LexThree<T>(b: (T, T) -> int, c: (T, T) -> int, d: (T, T) -> int, x: T, y: T)
    ensures Lex([b, c, d], x, y) == FirstOf(b(x, y), FirstOf(c(x, y), d(x, y)))
  {
    assert [b, c, d][1..] == [c, d] && [c, d][1..] == [d];
    LexLast(d, x, y);
  }

  /** What lies between two datoms that agree on a leading component agrees with them. */
  lemma {:induction false} BetweenEqual<T(!new)>(c: (T, T) -> int, x: T, y: T, z: T)
    requires Total(c) && c(x, y) <= 0 && c(y, z) <= 0 && c(x, z) == 0
    ensures c(x, y) == 0 && c(y, z) == 0
  {
    if c(x, y) < 0 || c(y, z) < 0 {
      StrictThen(c, x, y, z);
      assert false;
    }
  }

  /** Slices are ranges: in each index, between two datoms that agree on the first component,
      or on the first two, there are only datoms that agree with them. */
  lemma {:induction false} SliceIsRange<A(!new), V(!new)>(o: Orders<A, V>, i: Index, x: Datom<A, V>, y: Datom<A, V>,
                                                          z: Datom<A, V>)
    requires Total(o.attr) && Total(o.value) && Lex(Prefix(o, i), x, y) <= 0 && Lex(Prefix(o, i), y, z) <= 0
    ensures i == EAVT && x.e == z.e ==> y.e == x.e
    ensures i == EAVT && x.e == z.e && o.attr(x.a, z.a) == 0 ==> o.attr(x.a, y.a) == 0
    ensures i == AEVT && o.attr(x.a, z.a) == 0 ==> o.attr(x.a, y.a) == 0
    ensures i == AEVT && o.attr(x.a, z.a) == 0 && x.e == z.e ==> y.e == x.e
    ensures i == AVET && o.attr(x.a, z.a) == 0 ==> o.attr(x.a, y.a) == 0
    ensures i == AVET && o.attr(x.a, z.a) == 0 && o.value(x.v, z.v) == 0 ==> o.value(x.v, y.v) == 0
  {
    IndexOrder(o, i, x, y);
    IndexOrder(o, i, y, z);
    if i == EAVT {
      if x.e == z.e && o.attr(x.a, z.a) == 0 { BetweenEqual(o.attr, x.a, y.a, z.a); }
    } else if o.attr(x.a, z.a) == 0 {
      BetweenEqual(o.attr, x.a, y.a, z.a);
      if i == AVET && o.value(x.v, z.v) == 0 { BetweenEqual(o.value, x.v, y.v, z.v); }
    }
  }

  // -------------------------------------------------------------- sorted sequences

  /** `distinct-sorted-seq?` of the sequence: neighbours increase. */
  ghost predicate Strict<T>(c: (T, T) -> int, s: seq<T>) {
    |s| <= 1 || (c(s[0], s[1]) < 0 && Strict(c, s[1..]))
  }

  /** `x` comes before the whole sequence. */
  ghost predicate Below<T>(c: (T, T) -> int, x: T, s: seq<T>) {
    s == [] || (c(x, s[0]) < 0 && Below(c, x, s[1..]))
  }

  lemma {:induction false} HeadBelow<T(!new)>(c: (T, T) -> int, x: T, s: seq<T>)
    requires Total(c) && Strict(c, s) && (s != [] ==> c(x, s[0]) < 0)
    ensures Below(c, x, s)
  {
    if |s| > 1 {
      StrictThen(c, x, s[0], s[1]);
      HeadBelow(c, x, s[1..]);
    } else if |s| == 1 {
      assert s[1..] == [];
    }
  }

  /** Equal datoms of an index are next to each other: whatever lies between two datoms with
      the same e, a and v has the same e, a and v. */
  lemma {:induction false} Contiguous<A(!new), V(!new)>(o: Orders<A, V>, i: Index, x: Datom<A, V>, y: Datom<A, V>,
                                        z: Datom<A, V>)
    requires Total(o.attr) && Total(o.value)
    requires Lex(Quick(o, i), x, y) <= 0 && Lex(Quick(o, i), y, z) <= 0 && Lex(Prefix(o, i), x, z) == 0
    ensures Lex(Prefix(o, i), x, y) == 0 && Lex(Prefix(o, i), y, z) == 0
  {
    var p := Prefix(o, i);
    IndicesRefine(o, i, x, y);
    IndicesRefine(o, i, y, z);
    PrefixTotal(o, i);
    LexSign(p, x, z);
    LexSign(p, z, x);
    LexSign(p, x, y);
    LexSign(p, y, x);
    LexSign(p, y, z);
    LexSign(p, z, y);
    LexTransitive(p, z, x, y);
    LexTransitive(p, y, z, x);
  }

  method DistinctSorted<T>(c: (T, T) -> int, s: seq<T>) returns (r: bool)
    ensures r <==> Strict(c, s)
  {
    if s == [] { return true; }
    var previous, rest := s[0], s[1..];
    ghost var ok := true;
    while rest != []
      invariant Strict(c, s) <==> Strict(c, [previous] + rest)
      decreases |rest|
    {
      var x := rest[0];
      assert ([previous] + rest)[1..] == rest == [x] + rest[1..];
      if c(previous, x) >= 0 { return false; }
      previous, rest := x, rest[1..];
    }
    assert [previous] + rest == [previous];
    r := true;
  }

  ghost predicate HasMatch<T>(c: (T, T) -> int, x: T, s: seq<T>) {
    s != [] && (c(x, s[0]) == 0 || HasMatch(c, x, s[1..]))
  }

  /** The elements of `a` with (`hit`) or without a match in `b`, in order. */
  ghost function Matching<T>(c: (T, T) -> int, a: seq<T>, b: seq<T>, hit: bool): seq<T> {
    if a == [] then [] else (if HasMatch(c, a[0], b) == hit then [a[0]] else []) + Matching(c, a[1..], b, hit)
  }

  lemma {:induction false} NoMatchBelow<T>(c: (T, T) -> int, x: T, s: seq<T>)
    requires Below(c, x, s)
    ensures !HasMatch(c, x, s)
  {
    if s != [] { NoMatchBelow(c, x, s[1..]); }
  }

  /** An element before the whole of `a` matches nothing there. */
  lemma {:induction false} DropLow<T(!new)>(c: (T, T) -> int, a: seq<T>, b: seq<T>, hit: bool)
    requires Total(c) && b != [] && Below(c, b[0], a)
    ensures Matching(c, a, b, hit) == Matching(c, a, b[1..], hit)
  {
    if a != [] {
      assert c(b[0], a[0]) < 0 <==> c(a[0], b[0]) > 0;
      DropLow(c, a[1..], b, hit);
    }
  }

  lemma {:induction false} NoneMatch<T>(c: (T, T) -> int, a: seq<T>, hit: bool)
    ensures Matching(c, a, [], hit) == if hit then [] else a
  {
    if a != [] { NoneMatch(c, a[1..], hit); }
  }

  lemma {:induction false} DiffStep<T(!new)>(c: (T, T) -> int, a: seq<T>, b: seq<T>)
    requires Total(c) && Strict(c, a) && Strict(c, b) && a != [] && b != []
    ensures c(a[0], b[0]) == 0 ==>
              && Matching(c, a, b, false) == Matching(c, a[1..], b[1..], false)
              && Matching(c, b, a, false) == Matching(c, b[1..], a[1..], false)
              && Matching(c, a, b, true) == [a[0]] + Matching(c, a[1..], b[1..], true)
    ensures c(a[0], b[0]) < 0 ==>
              && Matching(c, a, b, false) == [a[0]] + Matching(c, a[1..], b, false)
              && Matching(c, b, a, false) == Matching(c, b, a[1..], false)
              && Matching(c, a, b, true) == Matching(c, a[1..], b, true)
  {
    assert c(a[0], b[0]) < 0 <==> c(b[0], a[0]) > 0;
    assert c(b[0], a[0]) < 0 <==> c(a[0], b[0]) > 0;
    if c(a[0], b[0]) == 0 {
      TailBelow(c, a, b);
      TailBelow(c, b, a);
      DropLow(c, a[1..], b, false);
      DropLow(c, a[1..], b, true);
      DropLow(c, b[1..], a, false);
      assert HasMatch(c, a[0], b) && HasMatch(c, b[0], a);
    } else if c(a[0], b[0]) < 0 {
      HeadBelow(c, a[0], b);
      NoMatchBelow(c, a[0], b);
      DropLow(c, b, a, false);
    }
  }

  /** With equal heads, the head of one comes before the tail of the other. */
  lemma {:induction false} TailBelow<T(!new)>(c: (T, T) -> int, a: seq<T>, b: seq<T>)
    requires Total(c) && Strict(c, a) && a != [] && b != [] && c(b[0], a[0]) == 0
    ensures Below(c, b[0], a[1..])
  {
    if |a| > 1 { StrictThen(c, b[0], a[0], a[1]); }
    HeadBelow(c, b[0], a[1..]);
  }

  lemma {:induction false} Shift<T>(acc: seq<T>, x: T, rest: seq<T>)
    ensures acc + ([x] + rest) == acc + [x] + rest
  {}

  /** `diff-sorted`: the exact three-way partition of two strictly sorted sequences. */
  method DiffSorted<T(!new)>(c: (T, T) -> int, left: seq<T>, right: seq<T>)
    returns (onlyA: seq<T>, onlyB: seq<T>, both: seq<T>)
    requires Total(c) && Strict(c, left) && Strict(c, right)
    ensures onlyA == Matching(c, left, right, false)
    ensures onlyB == Matching(c, right, left, false)
    ensures both == Matching(c, left, right, true)
  {
    var a, b := left, right;
    onlyA, onlyB, both := [], [], [];
    while a != [] && b != []
      invariant Strict(c, a) && Strict(c, b)
      invariant Matching(c, left, right, false) == onlyA + Matching(c, a, b, false)
      invariant Matching(c, right, left, false) == onlyB + Matching(c, b, a, false)
      invariant Matching(c, left, right, true) == both + Matching(c, a, b, true)
      decreases |a| + |b|
    {
      var diff := c(a[0], b[0]);
      assert diff < 0 <==> c(b[0], a[0]) > 0;
      assert c(b[0], a[0]) < 0 <==> diff > 0;
      if diff == 0 {
        DiffStep(c, a, b);
        Shift(both, a[0], Matching(c, a[1..], b[1..], true));
        both := both + [a[0]];
        a, b := a[1..], b[1..];
      } else if diff < 0 {
        DiffStep(c, a, b);
        Shift(onlyA, a[0], Matching(c, a[1..], b, false));
        onlyA := onlyA + [a[0]];
        a := a[1..];
      } else {
        DiffStep(c, b, a);
        MatchSame(c, a, b);
        Shift(onlyB, b[0], Matching(c, b[1..], a, false));
        onlyB := onlyB + [b[0]];
        b := b[1..];
      }
    }
    Leftover(c, a, b);
    assert both + [] == both;
    onlyA, onlyB := onlyA + a, onlyB + b;
  }

  lemma {:induction false} Leftover<T>(c: (T, T) -> int, a: seq<T>, b: seq<T>)
    requires a == [] || b == []
    ensures Matching(c, a, b, false) == a && Matching(c, b, a, false) == b && Matching(c, a, b, true) == []
  {
    NoneMatch(c, a, false);
    NoneMatch(c, b, false);
    NoneMatch(c, a, true);
  }

  lemma {:induction false} MatchSame<T(!new)>(c: (T, T) -> int, a: seq<T>, b: seq<T>)
    requires Total(c) && Strict(c, a) && Strict(c, b) && a != [] && b != [] && c(b[0], a[0]) < 0
    ensures Matching(c, a, b, true) == Matching(c, a, b[1..], true)
            && Matching(c, a, b, false) == Matching(c, a, b[1..], false)
  {
    HeadBelow(c, b[0], a);
    DropLow(c, a, b, true);
    DropLow(c, a, b, false);
  }

  /** `merge-distinct-sorted-seqs`. */
  function Merge<T>(c: (T, T) -> int, a: seq<T>, b: seq<T>): seq<T>
    decreases |a| + |b|
  {
    if a == [] then b
    else if b == [] then a
    else if c(a[0], b[0]) < 0 then [a[0]] + Merge(c, a[1..], b)
    else if c(a[0], b[0]) == 0 then [a[0]] + Merge(c, a[1..], b[1..])
    else [b[0]] + Merge(c, a, b[1..])
  }

  lemma {:induction false} MergeBelow<T(!new)>(c: (T, T) -> int, x: T, a: seq<T>, b: seq<T>)
    requires Total(c) && Below(c, x, a) && Below(c, x, b)
    ensures Below(c, x, Merge(c, a, b))
    decreases |a| + |b|
  {
    if a != [] && b != [] {
      if c(a[0], b[0]) < 0 {
        MergeBelow(c, x, a[1..], b);
        assert Merge(c, a, b)[1..] == Merge(c, a[1..], b);
      } else if c(a[0], b[0]) == 0 {
        MergeBelow(c, x, a[1..], b[1..]);
        assert Merge(c, a, b)[1..] == Merge(c, a[1..], b[1..]);
      } else {
        MergeBelow(c, x, a, b[1..]);
        assert Merge(c, a, b)[1..] == Merge(c, a, b[1..]);
      }
    }
  }

  lemma {:induction false} StrictCons<T>(c: (T, T) -> int, x: T, s: seq<T>)
    requires Strict(c, s) && Below(c, x, s)
    ensures Strict(c, [x] + s)
  {
    assert ([x] + s)[1..] == s;
  }

  /** The merge of two strictly sorted sequences is strictly sorted. */
  lemma {:induction false} MergeStrict<T(!new)>(c: (T, T) -> int, a: seq<T>, b: seq<T>)
    requires Total(c) && Strict(c, a) && Strict(c, b)
    ensures Strict(c, Merge(c, a, b))
    decreases |a| + |b|
  {
    if a != [] && b != [] {
      assert (c(a[0], b[0]) < 0 <==> c(b[0], a[0]) > 0) && (c(b[0], a[0]) < 0 <==> c(a[0], b[0]) > 0);
      if c(a[0], b[0]) < 0 {
        HeadBelow(c, a[0], b);
        AfterHead(c, a);
        MergeStrict(c, a[1..], b);
        MergeBelow(c, a[0], a[1..], b);
        StrictCons(c, a[0], Merge(c, a[1..], b));
      } else if c(a[0], b[0]) == 0 {
        AfterHead(c, a);
        TailBelow(c, b, a);
        MergeStrict(c, a[1..], b[1..]);
        MergeBelow(c, a[0], a[1..], b[1..]);
        StrictCons(c, a[0], Merge(c, a[1..], b[1..]));
      } else {
        HeadBelow(c, b[0], a);
        AfterHead(c, b);
        MergeStrict(c, a, b[1..]);
        MergeBelow(c, b[0], a, b[1..]);
        StrictCons(c, b[0], Merge(c, a, b[1..]));
      }
    }
  }

  lemma {:induction false} AfterHead<T(!new)>(c: (T, T) -> int, s: seq<T>)
    requires Total(c) && Strict(c, s) && s != []
    ensures Below(c, s[0], s[1..]) && Strict(c, s[1..])
  {
    HeadBelow(c, s[0], s[1..]);
  }

  function Occurs<T(==)>(s: seq<T>, x: T): nat {
    if s == [] then 0 else (if s[0] == x then 1 else 0) + Occurs(s[1..], x)
  }

  lemma {:induction false} OccursCons<T>(h: T, rest: seq<T>, x: T)
    ensures Occurs([h] + rest, x) == (if h == x then 1 else 0) + Occurs(rest, x)
  {
    assert ([h] + rest)[1..] == rest;
  }

  /** ... and it is the union: all of `a`, and what of `b` has no match in `a`. */
  lemma {:induction false} MergeUnion<T(!new)>(c: (T, T) -> int, a: seq<T>, b: seq<T>, x: T)
    requires Total(c) && Strict(c, a) && Strict(c, b)
    ensures Occurs(Merge(c, a, b), x) == Occurs(a, x) + Occurs(Matching(c, b, a, false), x)
    decreases |a| + |b|
  {
    if a == [] {
      NoneMatch(c, b, false);
    } else if b != [] {
      assert (c(a[0], b[0]) < 0 <==> c(b[0], a[0]) > 0) && (c(b[0], a[0]) < 0 <==> c(a[0], b[0]) > 0);
      AfterHead(c, a);
      AfterHead(c, b);
      if c(a[0], b[0]) < 0 {
        DiffStep(c, a, b);
        MergeUnion(c, a[1..], b, x);
        OccursCons(a[0], Merge(c, a[1..], b), x);
      } else if c(a[0], b[0]) == 0 {
        DiffStep(c, a, b);
        MergeUnion(c, a[1..], b[1..], x);
        OccursCons(a[0], Merge(c, a[1..], b[1..]), x);
      } else {
        DiffStep(c, b, a);
        MergeUnion(c, a, b[1..], x);
        OccursCons(b[0], Merge(c, a, b[1..]), x);
        OccursCons(b[0], Matching(c, b[1..], a, false), x);
      }
    }
  }
}
