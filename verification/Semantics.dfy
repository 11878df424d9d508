/** Tuple-by-tuple meaning of clauses, and the proof that the relational evaluator
    computes exactly that. */
module Semantics {
  import opened Options
  import opened Relations
  import opened Sequences
  import opened RelationOps
  import opened Contexts
  import opened Search
  import opened Clauses

  /** `b` is `a` with values for `vs` added. */
  ghost predicate Extends(a: Asg, b: Asg, vs: set<Var>) {
    b.Keys == a.Keys + vs && forall v :: v in a ==> b[v] == a[v]
  }

  function Cut(a: Asg, vs: set<Var>): Asg {
    map v | v in a && v in vs :: a[v]
  }

  function ValOf(consts: map<Var, Value>, a: Asg, arg: Term): Value {
    match arg
    case Constant(c) => c
    case Blank => Nil
    case Variable(v) => if v in consts then consts[v] else if v in a then a[v] else Nil
  }

  function ValsOf(consts: map<Var, Value>, a: Asg, args: seq<Term>): (r: seq<Value>)
    ensures |r| == |args| && forall i :: 0 <= i < |r| ==> r[i] == ValOf(consts, a, args[i])
  {
    seq(|args|, i requires 0 <= i < |args| => ValOf(consts, a, args[i]))
  }

  predicate MatchTerm(t: Term, b: Asg, x: Value) {
    match t
    case Blank => true
    case Constant(c) => c == Nil || x == c
    case Variable(v) => v in b && b[v] == x
  }

  ghost predicate MatchDatom(terms: seq<Term>, b: Asg, d: Tuple) {
    forall i :: 0 <= i < |terms| ==> MatchTerm(terms[i], b, Get(d, At(i)))
  }

  ghost predicate AgreesConsts(consts: map<Var, Value>, b: Asg, vs: set<Var>) {
    forall v :: v in vs && v in consts ==> v in b && b[v] == consts[v]
  }

  /** Some datom matches the pattern under `b`. */
  ghost predicate PatternSat(w: World, consts: map<Var, Value>, terms: seq<Term>, b: Asg) {
    AgreesConsts(consts, b, TermVars(terms)) && exists d :: d in w.src.datoms && MatchDatom(terms, b, d)
  }

  ghost predicate BindSat(w: World, consts: map<Var, Value>, f: string, args: seq<Term>, out: Var, a: Asg, b: Asg) {
    AgreesConsts(consts, b, {out}) && out in b && w.fun(f, ValsOf(consts, a, args)) == Some(b[out])
  }

  ghost predicate ConstsTruthy(consts: map<Var, Value>) {
    forall v :: v in consts ==> Truthy(consts[v])
  }

  /** The relations agree with the context's constants. */
  ghost predicate ConstOk(ctx: Ctx) {
    forall a :: HoldsAll(ctx.rels, a) ==> AgreesConsts(ctx.consts, a, VarsAll(ctx.rels))
  }

  // ------------------------------------------------------------------- patterns

  ghost predicate DistinctVars(terms: seq<Term>) {
    forall i, j :: 0 <= i < j < |terms| && terms[i].Variable? && terms[j].Variable? ==> terms[i] != terms[j]
  }

  lemma {:induction false} TermVarsAt(terms: seq<Term>, v: Var)
    ensures v in TermVars(terms) <==> exists i :: 0 <= i < |terms| && terms[i] == Variable(v)
  {
    if terms != [] {
      TermVarsAt(terms[1..], v);
      if i :| 0 <= i < |terms| && terms[i] == Variable(v) {
        if i > 0 { assert terms[1..][i - 1] == Variable(v); }
      }
    }
  }

  lemma {:induction false} VarColsAt(terms: seq<Term>, i: nat)
    requires DistinctVars(terms) && i < |terms| && terms[i].Variable?
    ensures terms[i].v in VarCols(terms) && VarCols(terms)[terms[i].v] == At(i)
  {
    VarColsGood(terms);
    TermVarsAt(terms, terms[i].v);
  }

  lemma {:induction false} StrategyFits(w: World, slots: seq<Slot>)
    requires |slots| == 5
    requires forall i :: 0 <= i < 5 && slots[i].Const? ==> slots[i].c != Nil
    ensures Fits(slots, StrategyOf(w, slots))
  {}

  lemma {:induction false} MatchedMeets(terms: seq<Term>, b: Asg, d: Tuple)
    requires |terms| <= 5 && MatchDatom(terms, b, d)
    ensures Meets(VarCols(terms), d, b)
  {
    VarColsGood(terms);
    forall v | v in VarCols(terms) ensures v in b && b[v] == Get(d, VarCols(terms)[v]) {
      assert MatchTerm(terms[VarCols(terms)[v].i], b, Get(d, At(VarCols(terms)[v].i)));
    }
  }

  lemma {:induction false} MatchedSlots(ctx: Ctx, terms: seq<Term>, b: Asg, d: Tuple)
    requires |terms| <= 5 && MatchDatom(terms, b, d) && AgreesConsts(ctx.consts, b, TermVars(terms))
    ensures HasConsts(SlotsOf(ctx, terms), d) && Joins(SlotsOf(ctx, terms), b, d)
  {
    forall i | 0 <= i < |terms| && terms[i].Variable? && terms[i].v in ctx.consts
      ensures Get(d, At(i)) == ctx.consts[terms[i].v]
    {
      TermVarsAt(terms, terms[i].v);
      assert MatchTerm(terms[i], b, Get(d, At(i)));
    }
    assert forall i :: 0 <= i < |terms| ==> MatchTerm(terms[i], b, Get(d, At(i)));
  }

  lemma {:induction false} SlotsMatched(ctx: Ctx, terms: seq<Term>, b: Asg, d: Tuple)
    requires DistinctVars(terms) && |terms| <= 5 && ConstsTruthy(ctx.consts) && VarsAll(ctx.rels) <= b.Keys
    requires Meets(VarCols(terms), d, b) && HasConsts(SlotsOf(ctx, terms), d)
    ensures MatchDatom(terms, b, d) && AgreesConsts(ctx.consts, b, TermVars(terms))
  {
    VarColsGood(terms);
    forall i | 0 <= i < |terms| ensures MatchTerm(terms[i], b, Get(d, At(i))) {
      assert SlotsOf(ctx, terms)[i] == SlotOf(ctx, terms[i]);
      if terms[i].Variable? { VarColsAt(terms, i); }
    }
    forall v | v in TermVars(terms) && v in ctx.consts ensures v in b && b[v] == ctx.consts[v] {
      var i := VarCols(terms)[v].i;
      assert SlotsOf(ctx, terms)[i] == SlotOf(ctx, terms[i]);
    }
  }

  /** A datom matches the pattern under `b` exactly if it has the constants of the slots and
      fills the variables' columns with their values; then it also joins with `b`. */
  lemma {:induction false} MatchSlots(ctx: Ctx, terms: seq<Term>, b: Asg, d: Tuple)
    requires DistinctVars(terms) && |terms| <= 5 && ConstsTruthy(ctx.consts)
    requires VarsAll(ctx.rels) <= b.Keys
    ensures MatchDatom(terms, b, d) && AgreesConsts(ctx.consts, b, TermVars(terms))
       <==> Meets(VarCols(terms), d, b) && HasConsts(SlotsOf(ctx, terms), d)
    ensures MatchDatom(terms, b, d) && AgreesConsts(ctx.consts, b, TermVars(terms)) ==> Joins(SlotsOf(ctx, terms), b, d)
  {
    if MatchDatom(terms, b, d) && AgreesConsts(ctx.consts, b, TermVars(terms)) {
      MatchedMeets(terms, b, d);
      MatchedSlots(ctx, terms, b, d);
    }
    if Meets(VarCols(terms), d, b) && HasConsts(SlotsOf(ctx, terms), d) { SlotsMatched(ctx, terms, b, d); }
  }

  lemma {:induction false} PatternRelHolds(w: World, ctx: Ctx, terms: seq<Term>, b: Asg)
    requires WellFormed(ctx.rels) && LookupOk(w.src) && ConstsTruthy(ctx.consts)
    requires DistinctVars(terms) && |terms| <= 5 && HoldsAll(ctx.rels, b)
    ensures Holds(PatternRel(w, ctx, terms), b) <==> PatternSat(w, ctx.consts, terms, b)
  {
    HoldsCovers(ctx.rels, b);
    if Holds(PatternRel(w, ctx, terms), b) {
      var d :| d in PatternRel(w, ctx, terms).tuples && Meets(VarCols(terms), d, b);
      FoundMatches(w, ctx, terms, b, d);
    }
    if PatternSat(w, ctx.consts, terms, b) {
      var d :| d in w.src.datoms && MatchDatom(terms, b, d);
      MatchFound(w, ctx, terms, b, d);
    }
  }

  lemma {:induction false} FoundMatches(w: World, ctx: Ctx, terms: seq<Term>, b: Asg, d: Tuple)
    requires LookupOk(w.src) && ConstsTruthy(ctx.consts) && DistinctVars(terms) && |terms| <= 5
    requires VarsAll(ctx.rels) <= b.Keys
    requires d in PatternRel(w, ctx, terms).tuples && Meets(VarCols(terms), d, b)
    ensures d in w.src.datoms && MatchDatom(terms, b, d) && AgreesConsts(ctx.consts, b, TermVars(terms))
  {
    var slots := SlotsOf(ctx, terms);
    StrategyFits(w, slots);
    BatchSearchExact(w.src, slots, StrategyOf(w, slots), ctx.rels, d);
    assert HasConsts(slots, d);
    MatchSlots(ctx, terms, b, d);
  }

  lemma {:induction false} MatchFound(w: World, ctx: Ctx, terms: seq<Term>, b: Asg, d: Tuple)
    requires LookupOk(w.src) && ConstsTruthy(ctx.consts) && DistinctVars(terms) && |terms| <= 5
    requires HoldsAll(ctx.rels, b) && VarsAll(ctx.rels) <= b.Keys
    requires d in w.src.datoms && MatchDatom(terms, b, d) && AgreesConsts(ctx.consts, b, TermVars(terms))
    ensures d in PatternRel(w, ctx, terms).tuples && Meets(VarCols(terms), d, b)
  {
    var slots := SlotsOf(ctx, terms);
    StrategyFits(w, slots);
    MatchSlots(ctx, terms, b, d);
    BatchSearchExact(w.src, slots, StrategyOf(w, slots), ctx.rels, d);
  }

  /** The strategy-driven search, joined with the context, is a full scan of the pattern. */
  lemma {:induction false} PatternExact(w: World, ctx: Ctx, terms: seq<Term>, b: Asg)
    requires WellFormed(ctx.rels) && LookupOk(w.src) && ConstsTruthy(ctx.consts) && DistinctVars(terms)
    requires ResolvePattern(w, ctx, terms).Ok?
    ensures HoldsAll(ResolvePattern(w, ctx, terms).ctx.rels, b)
       <==> HoldsAll(ctx.rels, b) && PatternSat(w, ctx.consts, terms, b)
  {
    VarColsGood(terms);
    assert forall u, v :: SameCol(VarCols(terms), u, v) ==> u == v;
    CollapseHolds(ctx.rels, PatternRel(w, ctx, terms), [], b);
    if HoldsAll(ctx.rels, b) {
      PatternRelHolds(w, ctx, terms, b);
    }
  }

  // ------------------------------------------------------ predicates and functions

  lemma {:induction false} TermVarSeqSet(terms: seq<Term>)
    ensures VarSet(TermVarSeq(terms)) == TermVars(terms)
  {
    if terms != [] {
      TermVarSeqSet(terms[1..]);
      if terms[0].Variable? {
        assert TermVarSeq(terms)[1..] == TermVarSeq(terms[1..]);
      } else {
        assert TermVarSeq(terms) == TermVarSeq(terms[1..]);
      }
    }
  }

  /** A tuple that meets `b` passes the values that `b` gives the arguments. */
  lemma {:induction false} ArgsAre(consts: map<Var, Value>, attrs: map<Var, Col>, vars: set<Var>, t: Tuple,
                                   args: seq<Term>, b: Asg)
    requires ConstsTruthy(consts) && Meets(attrs, t, b) && TermVars(args) * vars <= attrs.Keys
    requires TermVars(args) <= vars + consts.Keys
    ensures ArgsOf(consts, attrs, t, args) == ValsOf(consts, Cut(b, vars + attrs.Keys), args)
  {
    forall i | 0 <= i < |args|
      ensures ArgOf(consts, attrs, t, args[i]) == ValOf(consts, Cut(b, vars + attrs.Keys), args[i])
    {
      if args[i].Variable? { TermVarsAt(args, args[i].v); }
    }
  }

  lemma {:induction false} PredExact(w: World, ctx: Ctx, f: string, args: seq<Term>, b: Asg)
    requires WellFormed(ctx.rels) && ConstsTruthy(ctx.consts)
    requires ResolvePred(w, ctx, f, args).Ok?
    ensures HoldsAll(ResolvePred(w, ctx, f, args).ctx.rels, b)
       <==> HoldsAll(ctx.rels, b) && w.pred(f, ValsOf(ctx.consts, Cut(b, VarsAll(ctx.rels)), args))
  {
    var vs := TermVars(args);
    HavingSplit(ctx.rels, vs, b);
    TermVarSeqSet(args);
    var prod := Product(ctx, vs);
    var kept := prod.(tuples := Passing(w, f, ctx.consts, prod.attrs, args, prod.tuples));
    ProdAllHolds(Having(ctx.rels, vs, true), b);
    Single(kept, b);
    HoldsConcat([kept], Others(ctx, vs), b);
    assert VarsAll(ctx.rels) + prod.attrs.Keys == VarsAll(ctx.rels);
    forall t | Meets(prod.attrs, t, b)
      ensures ArgsOf(ctx.consts, prod.attrs, t, args) == ValsOf(ctx.consts, Cut(b, VarsAll(ctx.rels)), args)
    {
      ArgsAre(ctx.consts, prod.attrs, VarsAll(ctx.rels), t, args, b);
    }
  }

  /** `b` gives the output the function's value for `t`; the output column replaces one
      of the same name. */
  ghost predicate BindsTo(w: World, f: string, consts: map<Var, Value>, attrs: map<Var, Col>, args: seq<Term>, out: Var,
                          t: Tuple, b: Asg)
  {
    Meets(attrs - {out}, t, b) && out in b && w.fun(f, ArgsOf(consts, attrs, t, args)) == Some(b[out])
  }

  ghost predicate AnyBinds(w: World, f: string, consts: map<Var, Value>, attrs: map<Var, Col>, args: seq<Term>,
                           out: Var, ts: seq<Tuple>, b: Asg)
  {
    exists t :: t in ts && BindsTo(w, f, consts, attrs, args, out, t, b)
  }

  /** The relation of all bindings, before the comparison with the constants. */
  ghost function RawRel(w: World, f: string, consts: map<Var, Value>, prod: Rel, args: seq<Term>, out: Var,
                        ts: seq<Tuple>): Rel
    requires Valid(prod)
  {
    Rel(JoinKeys(prod, OutRel(out, Nil)), ProdAttrs(prod, OutRel(out, Nil)),
        Bindings(w, f, consts, prod, args, out, ts))
  }

  lemma {:induction false} RawHolds(w: World, f: string, consts: map<Var, Value>, prod: Rel, args: seq<Term>, out: Var,
                                    ts: seq<Tuple>, b: Asg)
    requires Valid(prod)
    ensures Holds(RawRel(w, f, consts, prod, args, out, ts), b)
       <==> AnyBinds(w, f, consts, prod.attrs, args, out, ts, b)
  {
    if ts != [] {
      var attrs := ProdAttrs(prod, OutRel(out, Nil));
      var first, rest :=
          BindingOf(w, f, consts, prod, args, out, ts[0]), Bindings(w, f, consts, prod, args, out, ts[1..]);
      RawHolds(w, f, consts, prod, args, out, ts[1..], b);
      BindingMeets(w, f, consts, prod, args, out, ts[0], b);
      assert Bindings(w, f, consts, prod, args, out, ts) == first + rest;
      MultConcat(attrs, first, rest, b);
      HoldsMult(RawRel(w, f, consts, prod, args, out, ts), b);
      HoldsMult(RawRel(w, f, consts, prod, args, out, ts[1..]), b);
      AnyBindsCons(w, f, consts, prod.attrs, args, out, ts, b);
    }
  }

  lemma {:induction false} AnyBindsCons(w: World, f: string, consts: map<Var, Value>, attrs: map<Var, Col>,
                                        args: seq<Term>, out: Var, ts: seq<Tuple>, b: Asg)
    requires ts != []
    ensures AnyBinds(w, f, consts, attrs, args, out, ts, b)
       <==> BindsTo(w, f, consts, attrs, args, out, ts[0], b) || AnyBinds(w, f, consts, attrs, args, out, ts[1..], b)
  {
    assert forall t :: t in ts <==> t == ts[0] || t in ts[1..];
  }

  ghost function BindingOf(w: World, f: string, consts: map<Var, Value>, prod: Rel, args: seq<Term>, out: Var,
                           t: Tuple): seq<Tuple>
    requires Valid(prod)
  {
    OutRelGood(out, Nil);
    match w.fun(f, ArgsOf(consts, prod.attrs, t, args))
    case None => []
    case Some(v) => ProdRel(Rel(prod.keys, prod.attrs, [t]), OutRel(out, v)).tuples
  }

  lemma {:induction false} SingleProduct(prod: Rel, t: Tuple, out: Var, v: Value, b: Asg)
    requires Valid(prod) && Valid(OutRel(out, v))
    ensures Holds(ProdRel(Rel(prod.keys, prod.attrs, [t]), OutRel(out, v)), b)
       <==> Meets(prod.attrs - {out}, t, b) && out in b && b[out] == v
  {
    var r1, r2 := Rel(prod.keys, prod.attrs, [t]), OutRel(out, v);
    OutRelGood(out, v);
    ProdHolds(r1, r2, b);
    var r0 := Rel(r1.keys, r1.attrs - r2.attrs.Keys, r1.tuples);
    assert Holds(r2, b) <==> Meets(r2.attrs, Arr([v]), b);
    assert Holds(r0, b) <==> Meets(r0.attrs, t, b);
  }

  lemma {:induction false} BindingMeets(w: World, f: string, consts: map<Var, Value>, prod: Rel, args: seq<Term>,
                                        out: Var, t: Tuple, b: Asg)
    requires Valid(prod)
    ensures Mult(ProdAttrs(prod, OutRel(out, Nil)), BindingOf(w, f, consts, prod, args, out, t), b) > 0
       <==> BindsTo(w, f, consts, prod.attrs, args, out, t, b)
  {
    var val := w.fun(f, ArgsOf(consts, prod.attrs, t, args));
    if val.Some? {
      OutRelGood(out, val.value);
      SingleProduct(prod, t, out, val.value, b);
      HoldsMult(ProdRel(Rel(prod.keys, prod.attrs, [t]), OutRel(out, val.value)), b);
    }
  }

  lemma {:induction false} FilterHolds(consts: map<Var, Value>, r: Rel, b: Asg)
    requires ConstsTruthy(consts)
    ensures Holds(r.(tuples := FilterConsts(consts, r.attrs, r.tuples)), b)
       <==> Holds(r, b) && AgreesConsts(consts, b, r.attrs.Keys)
  {
    forall u | Meets(r.attrs, u, b)
      ensures MeetsConsts(consts, r.attrs, u) <==> AgreesConsts(consts, b, r.attrs.Keys)
    {}
  }

  lemma {:induction false} BindRelHolds(w: World, consts: map<Var, Value>, prod: Rel, f: string, args: seq<Term>,
                                        out: Var, b: Asg)
    requires Valid(prod) && ConstsTruthy(consts)
    ensures Holds(BindRel(w, consts, prod, f, args, out), b)
       <==> AgreesConsts(consts, b, prod.attrs.Keys + {out}) && AnyBinds(w, f, consts, prod.attrs, args, out,
           prod.tuples, b)
  {
    OutRelGood(out, Nil);
    ProdValid(prod, OutRel(out, Nil));
    RawHolds(w, f, consts, prod, args, out, prod.tuples, b);
    FilterHolds(consts, RawRel(w, f, consts, prod, args, out, prod.tuples), b);
  }

  lemma {:induction false} AgreesUnion(consts: map<Var, Value>, b: Asg, vs: set<Var>, us: set<Var>)
    ensures AgreesConsts(consts, b, vs + us) <==> AgreesConsts(consts, b, vs) && AgreesConsts(consts, b, us)
  {}

  /** Without a name clash the bound relation is the product extended by the value. */
  lemma {:induction false} BindRelExtends(w: World, consts: map<Var, Value>, prod: Rel, f: string, args: seq<Term>,
                                          out: Var, vars: set<Var>, b: Asg)
    requires Valid(prod) && ConstsTruthy(consts) && out !in prod.attrs && prod.attrs.Keys <= vars
    requires TermVars(args) * vars <= prod.attrs.Keys && TermVars(args) <= vars + consts.Keys
    ensures Holds(BindRel(w, consts, prod, f, args, out), b)
       <==> AgreesConsts(consts, b, prod.attrs.Keys) && Holds(prod, b) && BindSat(w, consts, f, args, out, Cut(b, vars),
           b)
  {
    BindRelHolds(w, consts, prod, f, args, out, b);
    AgreesUnion(consts, b, prod.attrs.Keys, {out});
    AnyBindsFresh(w, consts, prod, f, args, out, vars, b);
  }

  lemma {:induction false} AnyBindsFresh(w: World, consts: map<Var, Value>, prod: Rel, f: string, args: seq<Term>,
                                         out: Var, vars: set<Var>, b: Asg)
    requires ConstsTruthy(consts) && out !in prod.attrs && prod.attrs.Keys <= vars
    requires TermVars(args) * vars <= prod.attrs.Keys && TermVars(args) <= vars + consts.Keys
    ensures AnyBinds(w, f, consts, prod.attrs, args, out, prod.tuples, b)
       <==> Holds(prod, b) && out in b && w.fun(f, ValsOf(consts, Cut(b, vars), args)) == Some(b[out])
  {
    assert prod.attrs - {out} == prod.attrs;
    assert vars + prod.attrs.Keys == vars;
    forall t | Meets(prod.attrs, t, b)
      ensures ArgsOf(consts, prod.attrs, t, args) == ValsOf(consts, Cut(b, vars), args)
    {
      ArgsAre(consts, prod.attrs, vars, t, args, b);
    }
    if Holds(prod, b) && out in b && w.fun(f, ValsOf(consts, Cut(b, vars), args)) == Some(b[out]) {
      var t :| t in prod.tuples && Meets(prod.attrs, t, b);
      assert BindsTo(w, f, consts, prod.attrs, args, out, t, b);
    }
  }

  /** A function clause adds exactly the function's value, if its output is not already a
      column of the relations that hold its arguments. */
  lemma {:induction false} BindExact(w: World, ctx: Ctx, f: string, args: seq<Term>, out: Var, b: Asg)
    requires WellFormed(ctx.rels) && ConstsTruthy(ctx.consts) && ConstOk(ctx)
    requires ResolveBind(w, ctx, f, args, out).Ok?
    requires out !in VarsAll(Having(ctx.rels, TermVars(args), true))
    ensures HoldsAll(ResolveBind(w, ctx, f, args, out).ctx.rels, b)
       <==> HoldsAll(ctx.rels, b) && BindSat(w, ctx.consts, f, args, out, Cut(b, VarsAll(ctx.rels)), b)
  {
    var vs := TermVars(args);
    HavingSplit(ctx.rels, vs, b);
    var prod := Product(ctx, vs);
    BindRelGood(w, ctx.consts, prod, f, args, out);
    ProdAllHolds(Having(ctx.rels, vs, true), b);
    CollapseHolds(Others(ctx, vs), BindRel(w, ctx.consts, prod, f, args, out), [], b);
    BindRelExtends(w, ctx.consts, prod, f, args, out, VarsAll(ctx.rels), b);
    if HoldsAll(ctx.rels, b) {
      assert AgreesConsts(ctx.consts, b, VarsAll(ctx.rels));
    }
  }
}
