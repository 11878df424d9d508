/** The relations of a query context: collapsing, joining, multiplying,
    projecting and collecting them. */
module Contexts {
  import opened Options
  import opened Relations
  import opened Sequences
  import opened RelationOps

  ghost predicate Good(r: Rel) {
    Valid(r) && Injective(r.attrs)
  }

  ghost predicate AllGood(rels: seq<Rel>) {
    rels == [] || (Good(rels[0]) && AllGood(rels[1..]))
  }

  /** `a` is in every relation. */
  ghost predicate HoldsAll(rels: seq<Rel>, a: Asg) {
    rels == [] || (Holds(rels[0], a) && HoldsAll(rels[1..], a))
  }

  function VarsAll(rels: seq<Rel>): set<Var> {
    if rels == [] then {} else rels[0].attrs.Keys + VarsAll(rels[1..])
  }

  /** The relations share no variables. */
  ghost predicate Disjoint(rels: seq<Rel>) {
    rels == [] || (rels[0].attrs.Keys !! VarsAll(rels[1..]) && Disjoint(rels[1..]))
  }

  ghost predicate WellFormed(rels: seq<Rel>) {
    AllGood(rels) && Disjoint(rels)
  }

  lemma {:induction false} Concat(s: seq<Rel>, t: seq<Rel>)
    ensures VarsAll(s + t) == VarsAll(s) + VarsAll(t)
    ensures AllGood(s + t) <==> AllGood(s) && AllGood(t)
    ensures Disjoint(s + t) <==> Disjoint(s) && Disjoint(t) && VarsAll(s) !! VarsAll(t)
  {
    if s == [] {
      assert s + t == t;
    } else {
      assert (s + t)[1..] == s[1..] + t;
      Concat(s[1..], t);
    }
  }

  lemma {:induction false} HoldsConcat(s: seq<Rel>, t: seq<Rel>, a: Asg)
    ensures HoldsAll(s + t, a) <==> HoldsAll(s, a) && HoldsAll(t, a)
  {
    if s == [] {
      assert s + t == t;
    } else {
      assert (s + t)[1..] == s[1..] + t;
      HoldsConcat(s[1..], t, a);
    }
  }

  lemma {:induction false} Single(r: Rel, a: Asg)
    ensures VarsAll([r]) == r.attrs.Keys && Disjoint([r])
    ensures AllGood([r]) <==> Good(r)
    ensures HoldsAll([r], a) <==> Holds(r, a)
  {
    assert [r][1..] == [];
  }

  /** Membership depends only on the values of the relations' variables. */
  lemma {:induction false} HoldsAgree(rels: seq<Rel>, a: Asg, b: Asg)
    requires forall v :: v in VarsAll(rels) && v in a ==> v in b && b[v] == a[v]
    requires HoldsAll(rels, a)
    ensures HoldsAll(rels, b)
  {
    if rels != [] {
      var t :| t in rels[0].tuples && Meets(rels[0].attrs, t, a);
      assert Meets(rels[0].attrs, t, b);
      HoldsAgree(rels[1..], a, b);
    }
  }

  lemma {:induction false} HoldsCovers(rels: seq<Rel>, a: Asg)
    requires HoldsAll(rels, a)
    ensures VarsAll(rels) <= a.Keys
  {
    if rels != [] {
      var t :| t in rels[0].tuples && Meets(rels[0].attrs, t, a);
      HoldsCovers(rels[1..], a);
    }
  }

  // ------------------------------------------------------------- collapse-rels

  /** The loop of `collapse-rels`: relations that share a variable with the new
      one are joined into it, the others pass through. */
  function Collapse(rels: seq<Rel>, newRel: Rel, acc: seq<Rel>): seq<Rel>
    requires AllGood(rels) && Good(newRel)
  {
    if rels == [] then acc + [newRel]
    else if rels[0].attrs.Keys * newRel.attrs.Keys != {} then
      JoinGood(rels[0], newRel);
      Collapse(rels[1..], JoinRel(rels[0], newRel), acc)
    else Collapse(rels[1..], newRel, acc + [rels[0]])
  }

  lemma {:induction false} JoinGood(r1: Rel, r2: Rel)
    requires Valid(r1) && Valid(r2)
    ensures Good(JoinRel(r1, r2)) && JoinRel(r1, r2).attrs.Keys == r1.attrs.Keys + r2.attrs.Keys
  {
    JoinValid(r1, r2);
    ZipInjective(JoinKeys(r1, r2));
  }

  /** Collapsing keeps the relations good and their variables pairwise disjoint. */
  lemma {:induction false} CollapseWellFormed(rels: seq<Rel>, newRel: Rel, acc: seq<Rel>)
    requires WellFormed(acc + rels) && Good(newRel) && VarsAll(acc) !! newRel.attrs.Keys
    ensures AllGood(rels)
    ensures WellFormed(Collapse(rels, newRel, acc))
    ensures VarsAll(Collapse(rels, newRel, acc)) == VarsAll(acc) + VarsAll(rels) + newRel.attrs.Keys
  {
    Concat(acc, rels);
    if rels == [] {
      assert acc + rels == acc;
      Single(newRel, map[]);
      Concat(acc, [newRel]);
    } else if rels[0].attrs.Keys * newRel.attrs.Keys != {} {
      JoinGood(rels[0], newRel);
      Concat(acc, rels[1..]);
      CollapseWellFormed(rels[1..], JoinRel(rels[0], newRel), acc);
    } else {
      assert acc + rels == acc + [rels[0]] + rels[1..];
      Single(rels[0], map[]);
      Concat(acc, [rels[0]]);
      CollapseWellFormed(rels[1..], newRel, acc + [rels[0]]);
    }
  }

  /** Collapsing preserves the join of all relations plus the new one. */
  lemma {:induction false} CollapseHolds(rels: seq<Rel>, newRel: Rel, acc: seq<Rel>, a: Asg)
    requires AllGood(rels) && Good(newRel)
    ensures HoldsAll(Collapse(rels, newRel, acc), a) <==> HoldsAll(acc, a) && HoldsAll(rels, a) && Holds(newRel, a)
  {
    if rels == [] {
      Single(newRel, a);
      HoldsConcat(acc, [newRel], a);
    } else if rels[0].attrs.Keys * newRel.attrs.Keys != {} {
      JoinGood(rels[0], newRel);
      JoinHolds(rels[0], newRel, a);
      CollapseHolds(rels[1..], JoinRel(rels[0], newRel), acc, a);
    } else {
      Single(rels[0], a);
      HoldsConcat(acc, [rels[0]], a);
      CollapseHolds(rels[1..], newRel, acc + [rels[0]], a);
    }
  }

  // ------------------------------------------------------------ joining them all

  /** `(reduce hash-join rels)`. */
  function JoinAll(rels: seq<Rel>): (r: Rel)
    requires AllGood(rels) && rels != []
    ensures Good(r) && r.attrs.Keys == VarsAll(rels)
  {
    JoinOnto(rels[0], rels[1..])
  }

  function JoinOnto(acc: Rel, rels: seq<Rel>): (r: Rel)
    requires AllGood(rels) && Good(acc)
    ensures Good(r) && r.attrs.Keys == acc.attrs.Keys + VarsAll(rels)
    decreases |rels|
  {
    if rels == [] then acc else
      JoinGood(acc, rels[0]);
      JoinOnto(JoinRel(acc, rels[0]), rels[1..])
  }

  lemma {:induction false} JoinOntoHolds(acc: Rel, rels: seq<Rel>, a: Asg)
    requires AllGood(rels) && Good(acc)
    ensures Holds(JoinOnto(acc, rels), a) <==> Holds(acc, a) && HoldsAll(rels, a)
    decreases |rels|
  {
    if rels != [] {
      JoinGood(acc, rels[0]);
      JoinHolds(acc, rels[0], a);
      JoinOntoHolds(JoinRel(acc, rels[0]), rels[1..], a);
    }
  }

  lemma {:induction false} JoinAllHolds(rels: seq<Rel>, a: Asg)
    requires AllGood(rels) && rels != []
    ensures Holds(JoinAll(rels), a) <==> HoldsAll(rels, a)
  {
    JoinOntoHolds(rels[0], rels[1..], a);
  }

  // --------------------------------------------------------- rel-prod-by-attrs

  /** The relations with (`hit`) or without (`!hit`) a variable of `vs`. */
  function Having(rels: seq<Rel>, vs: set<Var>, hit: bool): seq<Rel> {
    if rels == [] then [] else
      (if (rels[0].attrs.Keys * vs != {}) == hit then [rels[0]] else []) + Having(rels[1..], vs, hit)
  }

  /** `(reduce prod-rel rels)`, the unit relation if there is none. */
  function ProdAll(rels: seq<Rel>): (r: Rel)
    requires AllGood(rels)
    ensures Good(r) && r.attrs.Keys == VarsAll(rels)
  {
    if rels == [] then PROD_UNIT else ProdOnto(rels[0], rels[1..])
  }

  function ProdOnto(acc: Rel, rels: seq<Rel>): (r: Rel)
    requires AllGood(rels) && Good(acc)
    ensures Good(r) && r.attrs.Keys == acc.attrs.Keys + VarsAll(rels)
    decreases |rels|
  {
    if rels == [] then acc else
      ProdValid(acc, rels[0]);
      ProdOnto(ProdRel(acc, rels[0]), rels[1..])
  }

  lemma {:induction false} HavingSplit(rels: seq<Rel>, vs: set<Var>, a: Asg)
    requires WellFormed(rels)
    ensures WellFormed(Having(rels, vs, true)) && WellFormed(Having(rels, vs, false))
    ensures VarsAll(Having(rels, vs, true)) + VarsAll(Having(rels, vs, false)) == VarsAll(rels)
    ensures VarsAll(Having(rels, vs, true)) !! VarsAll(Having(rels, vs, false))
    ensures vs * VarsAll(rels) <= VarsAll(Having(rels, vs, true))
    ensures HoldsAll(rels, a) <==> HoldsAll(Having(rels, vs, true), a) && HoldsAll(Having(rels, vs, false), a)
  {
    if rels != [] {
      var hit := rels[0].attrs.Keys * vs != {};
      var h := Having(rels[1..], vs, hit);
      HavingSplit(rels[1..], vs, a);
      assert Having(rels, vs, hit) == [rels[0]] + h && ([rels[0]] + h)[1..] == h;
      assert Having(rels, vs, !hit) == Having(rels[1..], vs, !hit);
    }
  }

  lemma {:induction false} ProdDisjointHolds(r1: Rel, r2: Rel, a: Asg)
    requires Valid(r1) && Valid(r2) && r1.attrs.Keys !! r2.attrs.Keys
    ensures Holds(ProdRel(r1, r2), a) <==> Holds(r1, a) && Holds(r2, a)
  {
    ProdHolds(r1, r2, a);
    assert r1.attrs - r2.attrs.Keys == r1.attrs;
  }

  lemma {:induction false} ProdOntoHolds(acc: Rel, rels: seq<Rel>, a: Asg)
    requires WellFormed(rels) && Good(acc) && acc.attrs.Keys !! VarsAll(rels)
    ensures Holds(ProdOnto(acc, rels), a) <==> Holds(acc, a) && HoldsAll(rels, a)
    decreases |rels|
  {
    if rels != [] {
      ProdValid(acc, rels[0]);
      ProdDisjointHolds(acc, rels[0], a);
      ProdOntoHolds(ProdRel(acc, rels[0]), rels[1..], a);
    }
  }

  lemma {:induction false} ProdAllHolds(rels: seq<Rel>, a: Asg)
    requires WellFormed(rels)
    ensures Holds(ProdAll(rels), a) <==> HoldsAll(rels, a)
  {
    if rels == [] {
      assert Arr([]) in PROD_UNIT.tuples && Meets(PROD_UNIT.attrs, Arr([]), a);
    } else {
      ProdOntoHolds(rels[0], rels[1..], a);
    }
  }

  // -------------------------------------------------------------- limit-context

  /** The relations cut down to `vars`; a relation without any of them is dropped. */
  function LimitRels(rels: seq<Rel>, vars: set<Var>): seq<Rel> {
    if rels == [] then [] else
      match LimitRel(rels[0], vars)
      case None => LimitRels(rels[1..], vars)
      case Some(r) => [r] + LimitRels(rels[1..], vars)
  }

  /** Some relation without a variable of `vars` has no tuples. */
  predicate DropsEmpty(rels: seq<Rel>, vars: set<Var>) {
    rels != [] && ((rels[0].attrs.Keys * vars == {} && rels[0].tuples == []) || DropsEmpty(rels[1..], vars))
  }

  /** Some relation with a variable of `vars` has no tuples. */
  predicate KeepsEmpty(rels: seq<Rel>, vars: set<Var>) {
    rels != [] && ((rels[0].attrs.Keys * vars != {} && rels[0].tuples == []) || KeepsEmpty(rels[1..], vars))
  }

  /** `b` is an assignment of the relations that agrees with `a` on `vars`. */
  ghost predicate Completes(rels: seq<Rel>, vars: set<Var>, a: Asg, b: Asg) {
    && HoldsAll(rels, b)
    && (forall v :: v in vars && v in VarsAll(rels) ==> v in a && v in b && a[v] == b[v])
  }

  lemma {:induction false} LimitRelGood(r: Rel, vars: set<Var>)
    requires Good(r)
    ensures LimitAttrs(r, vars).Keys == r.attrs.Keys * vars
    ensures LimitRel(r, vars).None? <==> r.attrs.Keys * vars == {}
    ensures LimitRel(r, vars).Some? ==> Good(LimitRel(r, vars).value)
  {
    var attrs := LimitAttrs(r, vars);
    assert attrs.Keys == r.attrs.Keys * vars;
    WithinNoDups(r.keys, attrs);
    assert Elems(Within(r.keys, attrs)) == attrs.Keys;
    forall u, v | SameCol(attrs, u, v) ensures u == v {
      assert SameCol(r.attrs, u, v);
    }
  }

  lemma {:induction false} WithinNoDups(s: seq<Var>, m: map<Var, Col>)
    requires NoDups(s)
    ensures NoDups(Within(s, m))
  {
    if s != [] {
      WithinNoDups(s[..|s| - 1], m);
      var w := Within(s[..|s| - 1], m);
      assert s[|s| - 1] in m ==> (w + [s[|s| - 1]])[..|w|] == w;
    }
  }

  lemma {:induction false} LimitWellFormed(rels: seq<Rel>, vars: set<Var>)
    requires WellFormed(rels)
    ensures WellFormed(LimitRels(rels, vars))
    ensures VarsAll(LimitRels(rels, vars)) == VarsAll(rels) * vars
  {
    if rels != [] {
      LimitRelGood(rels[0], vars);
      LimitWellFormed(rels[1..], vars);
      if LimitRel(rels[0], vars).Some? {
        var r, rest := LimitRel(rels[0], vars).value, LimitRels(rels[1..], vars);
        Single(r, map[]);
        Concat([r], rest);
      }
    }
  }

  lemma {:induction false} LimitStep(rels: seq<Rel>, vars: set<Var>, a: Asg)
    requires AllGood(rels) && rels != []
    ensures HoldsAll(LimitRels(rels, vars), a)
       <==> (rels[0].attrs.Keys * vars == {} || HoldsOn(rels[0], vars, a)) && HoldsAll(LimitRels(rels[1..], vars), a)
  {
    LimitRelGood(rels[0], vars);
    if LimitRel(rels[0], vars).Some? {
      var r, rest := LimitRel(rels[0], vars).value, LimitRels(rels[1..], vars);
      Single(r, a);
      HoldsConcat([r], rest, a);
      assert Holds(r, a) <==> HoldsOn(rels[0], vars, a);
    }
  }

  /** Cutting down loses no assignment. */
  lemma {:induction false} LimitSound(rels: seq<Rel>, vars: set<Var>, a: Asg, b: Asg)
    requires AllGood(rels) && Completes(rels, vars, a, b)
    ensures HoldsAll(LimitRels(rels, vars), a)
  {
    if rels != [] {
      LimitStep(rels, vars, a);
      var t :| t in rels[0].tuples && Meets(rels[0].attrs, t, b);
      assert Meets(LimitAttrs(rels[0], vars), t, a);
      LimitSound(rels[1..], vars, a, b);
    }
  }

  /** The assignment a tuple stands for. */
  function Row(attrs: map<Var, Col>, t: Tuple): Asg {
    map v | v in attrs :: Get(t, attrs[v])
  }

  /** If no dropped relation is empty, every assignment of the cut-down relations
      extends to all of them. */
  lemma {:induction false} LimitComplete(rels: seq<Rel>, vars: set<Var>, a: Asg) returns (b: Asg)
    requires WellFormed(rels) && !DropsEmpty(rels, vars) && HoldsAll(LimitRels(rels, vars), a)
    ensures Completes(rels, vars, a, b) && b.Keys == VarsAll(rels)
  {
    if rels == [] {
      b := map[];
    } else {
      var r := rels[0];
      LimitStep(rels, vars, a);
      var rest := LimitComplete(rels[1..], vars, a);
      var t: Tuple;
      if r.attrs.Keys * vars == {} {
        t := r.tuples[0];
      } else {
        t :| t in r.tuples && Meets(LimitAttrs(r, vars), t, a);
      }
      b := rest + Row(r.attrs, t);
      assert Meets(r.attrs, t, b);
      HoldsAgree(rels[1..], rest, b);
      forall v | v in vars && v in VarsAll(rels) ensures v in a && a[v] == b[v] {
        if v in r.attrs { assert v in LimitAttrs(r, vars); }
      }
    }
  }

  lemma {:induction false} HoldsNonEmpty(rels: seq<Rel>, vars: set<Var>, a: Asg)
    requires HoldsAll(rels, a)
    ensures !DropsEmpty(rels, vars) && !KeepsEmpty(rels, vars)
  {
    if rels != [] { HoldsNonEmpty(rels[1..], vars, a); }
  }

  lemma {:induction false} LimitInhabited(rels: seq<Rel>, vars: set<Var>) returns (a: Asg)
    requires WellFormed(rels) && !KeepsEmpty(rels, vars)
    ensures HoldsAll(LimitRels(rels, vars), a)
  {
    if rels == [] {
      a := map[];
    } else {
      var r := rels[0];
      var rest := LimitInhabited(rels[1..], vars);
      LimitStep(rels, vars, rest);
      a := rest;
      if r.attrs.Keys * vars != {} {
        var t := r.tuples[0];
        a := rest + Row(r.attrs, t);
        LimitStep(rels, vars, a);
        assert Meets(LimitAttrs(r, vars), t, a);
        LimitWellFormed(rels[1..], vars);
        HoldsAgree(LimitRels(rels[1..], vars), rest, a);
      }
    }
  }

  /** At `a`, cutting down to `vars` is projection: `a` is kept if and only if it
      agrees with an assignment of all the relations. */
  ghost predicate ProjectsAt(rels: seq<Rel>, vars: set<Var>, a: Asg) {
    HoldsAll(LimitRels(rels, vars), a) <==> exists b :: Completes(rels, vars, a, b)
  }

  /** `limit-context` is the projection exactly when it drops no empty relation, or
      keeps an empty one. */
  lemma {:induction false} LimitExact(rels: seq<Rel>, vars: set<Var>)
    requires WellFormed(rels)
    ensures (forall a :: ProjectsAt(rels, vars, a)) <==> !DropsEmpty(rels, vars) || KeepsEmpty(rels, vars)
  {
    if !DropsEmpty(rels, vars) || KeepsEmpty(rels, vars) {
      forall a ensures ProjectsAt(rels, vars, a) {
        if HoldsAll(LimitRels(rels, vars), a) {
          LimitKept(rels, vars, a);
          var b := LimitComplete(rels, vars, a);
        }
        if b :| Completes(rels, vars, a, b) {
          LimitSound(rels, vars, a, b);
        }
      }
    } else {
      var a := LimitInhabited(rels, vars);
      forall b ensures !Completes(rels, vars, a, b) {
        if HoldsAll(rels, b) { HoldsNonEmpty(rels, vars, b); }
      }
      assert !ProjectsAt(rels, vars, a);
    }
  }

  lemma {:induction false} LimitKept(rels: seq<Rel>, vars: set<Var>, a: Asg)
    requires AllGood(rels) && HoldsAll(LimitRels(rels, vars), a)
    ensures !KeepsEmpty(rels, vars)
  {
    if rels != [] {
      LimitStep(rels, vars, a);
      LimitKept(rels[1..], vars, a);
    }
  }
}
