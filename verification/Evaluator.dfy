/** The evaluator against the meaning of clauses: a resolved context denotes exactly
    the assignments that extend the starting context and satisfy the clause tree. */
module Evaluator {
  import opened Options
  import opened Relations
  import opened Sequences
  import opened RelationOps
  import opened Contexts
  import opened Search
  import opened Clauses
  import opened Semantics
  import opened Schedule

  /** `b` extends `a` and satisfies the clause, one assignment at a time. Clauses of a
      conjunction take effect in the order in which their variables become bound. */
  ghost predicate Ext(w: World, consts: map<Var, Value>, c: Clause, a: Asg, b: Asg)
    decreases Height(c), 1, 0
  {
    Extends(a, b, Binds(c)) &&
    match c
    case Pattern(terms) => PatternSat(w, consts, terms, b)
    case Pred(f, args) => w.pred(f, ValsOf(consts, a, args))
    case Bind(f, args, out) => BindSat(w, consts, f, args, out, a, b)
    case And(cs) => ExtAll(w, consts, Order(a.Keys + consts.Keys, cs), a, b)
    case Or(cs) => ExtAny(w, consts, cs, a, b)
    case OrJoin(req, vars, cs) => ExtSome(w, consts, cs, VarSet(req) + VarSet(vars), a, b)
    case Not(cs) => !ExtPossible(w, consts, cs, a)
    case NotJoin(vars, cs) => !ExtPossible(w, consts, cs, Cut(a, VarSet(vars)))
  }

  /** The clauses are satisfied one after the other. */
  ghost predicate ExtAll(w: World, consts: map<Var, Value>, cs: seq<Clause>, a: Asg, b: Asg)
    decreases HeightAll(cs), 2, |cs|
  {
    if cs == [] then Extends(a, b, {})
    else
      var m := Cut(b, a.Keys + Binds(cs[0]));
      Ext(w, consts, cs[0], a, m) && ExtAll(w, consts, cs[1..], m, b)
  }

  /** One of the branches is satisfied, with the same variables bound. */
  ghost predicate ExtAny(w: World, consts: map<Var, Value>, cs: seq<Clause>, a: Asg, b: Asg)
    decreases HeightAll(cs), 2, |cs|
  {
    cs != [] &&
    (HeightSnoc(cs);
     ExtAny(w, consts, cs[..|cs| - 1], a, b) || Ext(w, consts, cs[|cs| - 1], a, b))
  }

  /** One of the branches is satisfied by some `e` that extends what `a` says about
      `vars`; only the variables of `vars` are passed on to `b`. */
  ghost predicate ExtSome(w: World, consts: map<Var, Value>, cs: seq<Clause>, vars: set<Var>, a: Asg, b: Asg)
    decreases HeightAll(cs), 2, |cs|
  {
    cs != [] &&
    (HeightSnoc(cs);
     ExtSome(w, consts, cs[..|cs| - 1], vars, a, b)
     || exists e :: Ext(w, consts, cs[|cs| - 1], Cut(a, vars), e) && Projects(e, vars, b))
  }

  ghost predicate Projects(e: Asg, vars: set<Var>, b: Asg) {
    forall v :: v in e && v in vars ==> v in b && b[v] == e[v]
  }

  ghost predicate ExtPossible(w: World, consts: map<Var, Value>, cs: seq<Clause>, a: Asg)
    decreases HeightAll(cs), 3, 0
  {
    exists e :: ExtAll(w, consts, Order(a.Keys + consts.Keys, cs), a, e)
  }

  // -------------------------------------------------- where the code is exact

  /** Cutting the relations down to `vars` is a projection; see LimitExact. */
  predicate Lossless(rels: seq<Rel>, vars: set<Var>) {
    !DropsEmpty(rels, vars) || KeepsEmpty(rels, vars)
  }

  /** Nothing along the evaluation takes one of the shortcuts that lose information: a
      pattern that repeats a variable, a function whose output is already a column of
      its arguments' relations, or a branch whose projection drops an empty relation. */
  ghost predicate Regular(w: World, ctx: Ctx, c: Clause)
    requires WellFormed(ctx.rels)
    decreases Height(c), 1, 0
  {
    match c
    case Pattern(terms) => DistinctVars(terms)
    case Pred(_, _) => true
    case Bind(_, args, out) => out !in VarsAll(Having(ctx.rels, TermVars(args), true))
    case And(cs) => RegularAll(w, ctx, Order(Bound(ctx), cs))
    case Or(cs) => RegularBranches(w, ctx, None, cs)
    case OrJoin(req, vars, cs) =>
      RegularBranches(w, LimitCtx(ctx, VarSet(req) + VarSet(vars)), Some(VarSet(req) + VarSet(vars)), cs)
    case Not(cs) => ctx.rels != [] ==> RegularAll(w, JoinCtx(ctx), Order(Bound(ctx), cs))
    case NotJoin(vars, cs) =>
      ctx.rels != [] ==>
        var start := LimitCtx(JoinCtx(ctx), VarSet(vars));
        var order := Order(Bound(start), cs);
        RegularAll(w, start, order)
        && (FoldClauses(w, start, order).Ok? ==> Lossless(FoldClauses(w, start, order).ctx.rels, VarSet(vars)))
  }

  ghost predicate RegularAll(w: World, ctx: Ctx, cs: seq<Clause>)
    requires WellFormed(ctx.rels)
    decreases HeightAll(cs), 2, |cs|
  {
    cs != [] ==>
      Regular(w, ctx, cs[0])
      && (ResolveClause(w, ctx, cs[0]).Ok? ==> RegularAll(w, ResolveClause(w, ctx, cs[0]).ctx, cs[1..]))
  }

  ghost predicate RegularBranches(w: World, ctx: Ctx, lim: Option<set<Var>>, cs: seq<Clause>)
    requires WellFormed(ctx.rels)
    decreases HeightAll(cs), 2, |cs|
  {
    cs != [] ==>
      (HeightSnoc(cs);
       var last := cs[|cs| - 1];
       RegularBranches(w, ctx, lim, cs[..|cs| - 1])
       && Regular(w, ctx, last)
       && (lim.Some? && ResolveClause(w, ctx, last).Ok? ==> Lossless(ResolveClause(w, ctx, last).ctx.rels, lim.value)))
  }

  // ------------------------------------------------ constants agree everywhere

  ghost predicate RelConst(consts: map<Var, Value>, r: Rel) {
    forall a :: Holds(r, a) ==> AgreesConsts(consts, a, r.attrs.Keys)
  }

  ghost predicate ConstAll(consts: map<Var, Value>, rels: seq<Rel>) {
    rels == [] || (RelConst(consts, rels[0]) && ConstAll(consts, rels[1..]))
  }

  lemma {:induction false} ConstAllAgrees(consts: map<Var, Value>, rels: seq<Rel>, a: Asg)
    requires ConstAll(consts, rels) && HoldsAll(rels, a)
    ensures AgreesConsts(consts, a, VarsAll(rels))
  {
    if rels != [] {
      ConstAllAgrees(consts, rels[1..], a);
      assert AgreesConsts(consts, a, rels[0].attrs.Keys);
    }
  }

  lemma {:induction false} ConstConcat(consts: map<Var, Value>, s: seq<Rel>, t: seq<Rel>)
    ensures ConstAll(consts, s + t) <==> ConstAll(consts, s) && ConstAll(consts, t)
  {
    if s == [] {
      assert s + t == t;
    } else {
      assert (s + t)[1..] == s[1..] + t;
      ConstConcat(consts, s[1..], t);
    }
  }

  lemma {:induction false} ConstSingle(consts: map<Var, Value>, r: Rel)
    ensures ConstAll(consts, [r]) <==> RelConst(consts, r)
  {
    assert [r][1..] == [];
  }

  lemma {:induction false} ConstJoin(consts: map<Var, Value>, r1: Rel, r2: Rel)
    requires Valid(r1) && Valid(r2) && RelConst(consts, r1) && RelConst(consts, r2)
    ensures RelConst(consts, JoinRel(r1, r2))
  {
    JoinValid(r1, r2);
    forall a | Holds(JoinRel(r1, r2), a) ensures AgreesConsts(consts, a, JoinRel(r1, r2).attrs.Keys) {
      JoinHolds(r1, r2, a);
      AgreesUnion(consts, a, r1.attrs.Keys, r2.attrs.Keys);
    }
  }

  lemma {:induction false} ConstCollapse(consts: map<Var, Value>, rels: seq<Rel>, newRel: Rel, acc: seq<Rel>)
    requires AllGood(rels) && Good(newRel)
    requires ConstAll(consts, rels) && RelConst(consts, newRel) && ConstAll(consts, acc)
    ensures ConstAll(consts, Collapse(rels, newRel, acc))
  {
    if rels == [] {
      ConstSingle(consts, newRel);
      ConstConcat(consts, acc, [newRel]);
    } else if rels[0].attrs.Keys * newRel.attrs.Keys != {} {
      JoinGood(rels[0], newRel);
      ConstJoin(consts, rels[0], newRel);
      ConstCollapse(consts, rels[1..], JoinRel(rels[0], newRel), acc);
    } else {
      ConstSingle(consts, rels[0]);
      ConstConcat(consts, acc, [rels[0]]);
      ConstCollapse(consts, rels[1..], newRel, acc + [rels[0]]);
    }
  }

  lemma {:induction false} ConstJoinAll(consts: map<Var, Value>, rels: seq<Rel>)
    requires AllGood(rels) && rels != [] && ConstAll(consts, rels)
    ensures RelConst(consts, JoinAll(rels))
  {
    forall a | Holds(JoinAll(rels), a) ensures AgreesConsts(consts, a, JoinAll(rels).attrs.Keys) {
      JoinAllHolds(rels, a);
      ConstAllAgrees(consts, rels, a);
    }
  }

  lemma {:induction false} ConstLimit(consts: map<Var, Value>, rels: seq<Rel>, vars: set<Var>)
    requires AllGood(rels) && ConstAll(consts, rels)
    ensures ConstAll(consts, LimitRels(rels, vars))
  {
    if rels != [] {
      ConstLimit(consts, rels[1..], vars);
      LimitRelGood(rels[0], vars);
      if LimitRel(rels[0], vars).Some? {
        var r := LimitRel(rels[0], vars).value;
        forall a | Holds(r, a) ensures AgreesConsts(consts, a, r.attrs.Keys) {
          var t :| t in rels[0].tuples && Meets(r.attrs, t, a);
          assert Meets(rels[0].attrs, t, Row(rels[0].attrs, t));
          assert AgreesConsts(consts, Row(rels[0].attrs, t), rels[0].attrs.Keys);
        }
        ConstSingle(consts, r);
        ConstConcat(consts, [r], LimitRels(rels[1..], vars));
      }
    }
  }

  lemma {:induction false} ConstHaving(consts: map<Var, Value>, rels: seq<Rel>, vs: set<Var>, hit: bool)
    requires ConstAll(consts, rels)
    ensures ConstAll(consts, Having(rels, vs, hit))
  {
    if rels != [] {
      ConstHaving(consts, rels[1..], vs, hit);
      if (rels[0].attrs.Keys * vs != {}) == hit {
        ConstSingle(consts, rels[0]);
        ConstConcat(consts, [rels[0]], Having(rels[1..], vs, hit));
      } else {
        assert Having(rels, vs, hit) == Having(rels[1..], vs, hit);
      }
    }
  }

  /** Every relation a leaf clause leaves behind agrees with the constants. */
  lemma {:induction false} ConstLeaf(w: World, ctx: Ctx, c: Clause)
    requires WellFormed(ctx.rels) && LookupOk(w.src) && ConstsTruthy(ctx.consts) && ConstAll(ctx.consts, ctx.rels)
    requires (c.Pattern? || c.Pred? || c.Bind?) && ResolveLeaf(w, ctx, c).Ok?
    ensures ConstAll(ctx.consts, ResolveLeaf(w, ctx, c).ctx.rels)
  {
    match c
    case Pattern(terms) =>
      VarColsGood(terms);
      assert forall u, v :: SameCol(VarCols(terms), u, v) ==> u == v;
      ConstPattern(w, ctx, terms);
      ConstCollapse(ctx.consts, ctx.rels, PatternRel(w, ctx, terms), []);
    case Pred(f, args) =>
      var vs := TermVars(args);
      HavingSplit(ctx.rels, vs, map[]);
      var prod := Product(ctx, vs);
      var kept := prod.(tuples := Passing(w, f, ctx.consts, prod.attrs, args, prod.tuples));
      ConstHaving(ctx.consts, ctx.rels, vs, true);
      ConstHaving(ctx.consts, ctx.rels, vs, false);
      forall a | Holds(kept, a) ensures AgreesConsts(ctx.consts, a, kept.attrs.Keys) {
        assert Holds(prod, a);
        ProdAllHolds(Having(ctx.rels, vs, true), a);
        ConstAllAgrees(ctx.consts, Having(ctx.rels, vs, true), a);
      }
      ConstSingle(ctx.consts, kept);
      ConstConcat(ctx.consts, [kept], Others(ctx, vs));
    case Bind(f, args, out) =>
      var vs := TermVars(args);
      HavingSplit(ctx.rels, vs, map[]);
      var bound := BindRel(w, ctx.consts, Product(ctx, vs), f, args, out);
      BindRelGood(w, ctx.consts, Product(ctx, vs), f, args, out);
      ConstHaving(ctx.consts, ctx.rels, vs, false);
      forall a | Holds(bound, a) ensures AgreesConsts(ctx.consts, a, bound.attrs.Keys) {
        BindRelHolds(w, ctx.consts, Product(ctx, vs), f, args, out, a);
      }
      ConstCollapse(ctx.consts, Others(ctx, vs), bound, []);
  }

  lemma {:induction false} ConstPattern(w: World, ctx: Ctx, terms: seq<Term>)
    requires LookupOk(w.src) && ConstsTruthy(ctx.consts) && |terms| <= 5
    ensures RelConst(ctx.consts, PatternRel(w, ctx, terms))
  {
    var r := PatternRel(w, ctx, terms);
    forall a | Holds(r, a) ensures AgreesConsts(ctx.consts, a, r.attrs.Keys) { ConstRow(w, ctx, terms, r, a); }
  }

  lemma {:induction false} ConstRow(w: World, ctx: Ctx, terms: seq<Term>, r: Rel, a: Asg)
    requires LookupOk(w.src) && ConstsTruthy(ctx.consts) && |terms| <= 5
    requires r == PatternRel(w, ctx, terms) && Holds(r, a)
    ensures AgreesConsts(ctx.consts, a, r.attrs.Keys)
  {
    var slots := SlotsOf(ctx, terms);
    StrategyFits(w, slots);
    var d :| d in r.tuples && Meets(r.attrs, d, a);
    SearchSound(w.src, slots, StrategyOf(w, slots), ctx.rels, d);
    ConstFound(ctx, terms, slots, d, a);
  }

  lemma {:induction false} ConstFound(ctx: Ctx, terms: seq<Term>, slots: seq<Slot>, d: Tuple, a: Asg)
    requires ConstsTruthy(ctx.consts) && |terms| <= 5 && slots == SlotsOf(ctx, terms) && Meets(VarCols(terms), d, a)
    requires HasConsts(slots, d)
    ensures AgreesConsts(ctx.consts, a, VarCols(terms).Keys)
  {
    VarColsGood(terms);
    forall v | v in VarCols(terms) && v in ctx.consts ensures v in a && a[v] == ctx.consts[v] {
      var i := VarCols(terms)[v].i;
      assert slots[i] == SlotOf(ctx, terms[i]);
    }
  }

  /** Resolving any clause keeps the relations in agreement with the constants. */
  lemma {:induction false} ConstClause(w: World, ctx: Ctx, c: Clause)
    requires WellFormed(ctx.rels) && LookupOk(w.src) && ConstsTruthy(ctx.consts) && ConstAll(ctx.consts, ctx.rels)
    requires ResolveClause(w, ctx, c).Ok?
    ensures ConstAll(ctx.consts, ResolveClause(w, ctx, c).ctx.rels)
    decreases Height(c), 1, 0
  {
    var rels := ResolveClause(w, ctx, c).ctx.rels;
    match c
    case Pattern(_) => ConstLeaf(w, ctx, c);
    case Pred(_, _) => ConstLeaf(w, ctx, c);
    case Bind(_, _, _) => ConstLeaf(w, ctx, c);
    case And(cs) => ConstClauses(w, ctx, cs);
    case Or(cs) =>
      ConstBranches(w, ctx, None, cs);
      ConstSingle(ctx.consts, ResolveBranches(w, ctx, None, cs).value);
    case OrJoin(req, vars, cs) => ConstOrJoin(w, ctx, req, vars, cs);
    case Not(cs) => ConstNegated(ctx, rels);
    case NotJoin(vars, cs) => ConstNegated(ctx, rels);
  }

  lemma {:induction false} ConstOrJoin(w: World, ctx: Ctx, req: seq<Var>, vars: seq<Var>, cs: seq<Clause>)
    requires WellFormed(ctx.rels) && LookupOk(w.src) && ConstsTruthy(ctx.consts) && ConstAll(ctx.consts, ctx.rels)
    requires ResolveOrJoin(w, ctx, req, vars, cs).Ok?
    ensures ConstAll(ctx.consts, ResolveOrJoin(w, ctx, req, vars, cs).ctx.rels)
    decreases 1 + HeightAll(cs), 0, 0
  {
    var vs := VarSet(req) + VarSet(vars);
    ConstLimit(ctx.consts, ctx.rels, vs);
    ConstBranches(w, LimitCtx(ctx, vs), Some(vs), cs);
    ConstCollapse(ctx.consts, ctx.rels, ResolveBranches(w, LimitCtx(ctx, vs), Some(vs), cs).value, []);
  }

  /** A difference keeps only assignments of the joined context. */
  lemma {:induction false} ConstNegated(ctx: Ctx, rels: seq<Rel>)
    requires WellFormed(ctx.rels) && ctx.rels != [] && ConstAll(ctx.consts, ctx.rels)
    requires |rels| == 1 && exists b :: rels[0] == SubtractRel(JoinAll(ctx.rels), b)
    ensures ConstAll(ctx.consts, rels)
  {
    var b :| rels[0] == SubtractRel(JoinAll(ctx.rels), b);
    ConstJoinAll(ctx.consts, ctx.rels);
    forall a | Holds(rels[0], a) ensures AgreesConsts(ctx.consts, a, rels[0].attrs.Keys) {
      SubtractHolds(JoinAll(ctx.rels), b, a);
    }
    assert rels == [rels[0]];
    ConstSingle(ctx.consts, rels[0]);
  }

  lemma {:induction false} ConstBranches(w: World, ctx: Ctx, lim: Option<set<Var>>, cs: seq<Clause>)
    requires WellFormed(ctx.rels) && LookupOk(w.src) && ConstsTruthy(ctx.consts) && ConstAll(ctx.consts, ctx.rels)
    requires ResolveBranches(w, ctx, lim, cs).Some?
    ensures RelConst(ctx.consts, ResolveBranches(w, ctx, lim, cs).value)
    decreases HeightAll(cs), 2, |cs|
  {
    HeightSnoc(cs);
    var last := cs[|cs| - 1];
    var b := BranchRel(ctx, Binds(last), lim, ResolveClause(w, ctx, last));
    ConstClause(w, ctx, last);
    var next := ResolveClause(w, ctx, last).ctx;
    if lim.Some? { ConstLimit(ctx.consts, next.rels, lim.value); }
    ConstJoinAll(ctx.consts, Limited(next.rels, lim));
    if |cs| > 1 {
      ConstBranches(w, ctx, lim, cs[..|cs| - 1]);
      ConstSum(ctx.consts, ResolveBranches(w, ctx, lim, cs[..|cs| - 1]), b);
    }
  }

  lemma {:induction false} ConstSum(consts: map<Var, Value>, a: Option<Rel>, b: Option<Rel>)
    requires a.Some? && b.Some? && Good(a.value) && Good(b.value) && SumOf(a, b).Some?
    requires RelConst(consts, a.value) && RelConst(consts, b.value)
    ensures RelConst(consts, SumOf(a, b).value)
  {}

  lemma {:induction false} ConstClauses(w: World, ctx: Ctx, cs: seq<Clause>)
    requires WellFormed(ctx.rels) && LookupOk(w.src) && ConstsTruthy(ctx.consts) && ConstAll(ctx.consts, ctx.rels)
    requires ResolveClauses(w, ctx, cs).Ok?
    ensures ConstAll(ctx.consts, ResolveClauses(w, ctx, cs).ctx.rels)
    decreases HeightAll(cs), 3, 0
  {
    ResolveIsFold(w, ctx, cs);
    ConstFold(w, ctx, Order(Bound(ctx), cs));
  }

  lemma {:induction false} ConstFold(w: World, ctx: Ctx, cs: seq<Clause>)
    requires WellFormed(ctx.rels) && LookupOk(w.src) && ConstsTruthy(ctx.consts) && ConstAll(ctx.consts, ctx.rels)
    requires FoldClauses(w, ctx, cs).Ok?
    ensures ConstAll(ctx.consts, FoldClauses(w, ctx, cs).ctx.rels)
    decreases HeightAll(cs), 2, |cs|
  {
    if cs != [] {
      ConstClause(w, ctx, cs[0]);
      ConstFold(w, ResolveClause(w, ctx, cs[0]).ctx, cs[1..]);
    }
  }

  // -------------------------------------------------------------- the main result

  /** What the evaluator may assume of its starting context. */
  ghost predicate Sane(w: World, ctx: Ctx) {
    WellFormed(ctx.rels) && LookupOk(w.src) && ConstsTruthy(ctx.consts) && ConstAll(ctx.consts, ctx.rels)
  }

  lemma {:induction false} SaneNext(w: World, ctx: Ctx, c: Clause)
    requires Sane(w, ctx) && ResolveClause(w, ctx, c).Ok?
    ensures Sane(w, ResolveClause(w, ctx, c).ctx)
  {
    ConstClause(w, ctx, c);
  }

  /** Membership does not depend on variables outside the relations. */
  lemma {:induction false} HoldsCut(rels: seq<Rel>, vs: set<Var>, b: Asg)
    requires VarsAll(rels) <= vs
    ensures HoldsAll(rels, b) <==> HoldsAll(rels, Cut(b, vs))
  {
    if HoldsAll(rels, b) { HoldsAgree(rels, b, Cut(b, vs)); }
    if HoldsAll(rels, Cut(b, vs)) { HoldsAgree(rels, Cut(b, vs), b); }
  }

  lemma {:induction false} CutCut(b: Asg, vs: set<Var>, us: set<Var>)
    ensures Cut(Cut(b, vs), us) == Cut(b, vs * us)
    ensures vs <= b.Keys ==> Cut(b, vs).Keys == vs
  {}

  /** The resolved context denotes what the clause means, at `b`. */
  ghost predicate Exact(w: World, ctx: Ctx, c: Clause, b: Asg)
    requires WellFormed(ctx.rels) && ResolveClause(w, ctx, c).Ok?
  {
    HoldsAll(ResolveClause(w, ctx, c).ctx.rels, b)
    <==> HoldsAll(ctx.rels, b) && Ext(w, ctx.consts, c, Cut(b, VarsAll(ctx.rels)), b)
  }

  lemma {:induction false} LeafExact(w: World, ctx: Ctx, c: Clause, b: Asg)
    requires Sane(w, ctx) && (c.Pattern? || c.Pred? || c.Bind?) && Regular(w, ctx, c) && ResolveClause(w, ctx, c).Ok?
    requires b.Keys == VarsAll(ctx.rels) + Binds(c)
    ensures Exact(w, ctx, c, b)
  {
    CutCut(b, VarsAll(ctx.rels), {});
    match c
    case Pattern(terms) => PatternExact(w, ctx, terms, b);
    case Pred(f, args) => PredExact(w, ctx, f, args, b);
    case Bind(f, args, out) =>
      forall a | HoldsAll(ctx.rels, a) ensures AgreesConsts(ctx.consts, a, VarsAll(ctx.rels)) {
        ConstAllAgrees(ctx.consts, ctx.rels, a);
      }
      BindExact(w, ctx, f, args, out, b);
  }

  /** A resolved context denotes exactly the assignments that extend one of the starting
      context and satisfy the clause tree. */
  lemma {:induction false} ClauseExact(w: World, ctx: Ctx, c: Clause, b: Asg)
    requires Sane(w, ctx) && Regular(w, ctx, c) && ResolveClause(w, ctx, c).Ok?
    requires b.Keys == VarsAll(ctx.rels) + Binds(c)
    ensures Exact(w, ctx, c, b)
    decreases Height(c), 1, 0
  {
    match c
    case Pattern(_) => LeafExact(w, ctx, c, b);
    case Pred(_, _) => LeafExact(w, ctx, c, b);
    case Bind(_, _, _) => LeafExact(w, ctx, c, b);
    case And(cs) => AndExact(w, ctx, cs, b);
    case Or(cs) => OrExact(w, ctx, cs, b);
    case OrJoin(req, vars, cs) => OrJoinExact(w, ctx, req, vars, cs, b);
    case Not(cs) => NotExact(w, ctx, cs, b);
    case NotJoin(vars, cs) => NotJoinExact(w, ctx, vars, cs, b);
  }

  lemma {:induction false} AndExact(w: World, ctx: Ctx, cs: seq<Clause>, b: Asg)
    requires Sane(w, ctx) && Regular(w, ctx, And(cs)) && ResolveClause(w, ctx, And(cs)).Ok?
    requires b.Keys == VarsAll(ctx.rels) + Binds(And(cs))
    ensures Exact(w, ctx, And(cs), b)
    decreases HeightAll(cs), 4, 0
  {
    CutCut(b, VarsAll(ctx.rels), {});
    ResolveIsFold(w, ctx, cs);
    OrderIsPermutation(Bound(ctx), cs);
    FoldExact(w, ctx, Order(Bound(ctx), cs), b);
  }

  lemma {:induction false} OrExact(w: World, ctx: Ctx, cs: seq<Clause>, b: Asg)
    requires Sane(w, ctx) && Regular(w, ctx, Or(cs)) && ResolveClause(w, ctx, Or(cs)).Ok?
    requires b.Keys == VarsAll(ctx.rels) + Binds(Or(cs))
    ensures Exact(w, ctx, Or(cs), b)
    decreases HeightAll(cs), 4, 0
  {
    CutCut(b, VarsAll(ctx.rels), {});
    Single(ResolveBranches(w, ctx, None, cs).value, b);
    AnyExact(w, ctx, cs, b);
  }

  lemma {:induction false} OrJoinExact(w: World, ctx: Ctx, req: seq<Var>, vars: seq<Var>, cs: seq<Clause>, b: Asg)
    requires Sane(w, ctx) && Regular(w, ctx, OrJoin(req, vars, cs)) && ResolveClause(w, ctx, OrJoin(req, vars, cs)).Ok?
    requires b.Keys == VarsAll(ctx.rels) + Binds(OrJoin(req, vars, cs))
    ensures Exact(w, ctx, OrJoin(req, vars, cs), b)
    decreases HeightAll(cs), 4, 0
  {
    CutCut(b, VarsAll(ctx.rels), {});
    var vs := VarSet(req) + VarSet(vars);
    ConstLimit(ctx.consts, ctx.rels, vs);
    CollapseHolds(ctx.rels, ResolveBranches(w, LimitCtx(ctx, vs), Some(vs), cs).value, [], b);
    if HoldsAll(ctx.rels, b) {
      LimitSound(ctx.rels, vs, b, b);
      SomeExact(w, LimitCtx(ctx, vs), VarsAll(ctx.rels), vs, cs, b);
    }
  }

  lemma {:induction false} FoldExact(w: World, ctx: Ctx, cs: seq<Clause>, b: Asg)
    requires Sane(w, ctx) && RegularAll(w, ctx, cs) && FoldClauses(w, ctx, cs).Ok?
    requires b.Keys == VarsAll(ctx.rels) + BindsAll(cs)
    ensures HoldsAll(FoldClauses(w, ctx, cs).ctx.rels, b)
       <==> HoldsAll(ctx.rels, b) && ExtAll(w, ctx.consts, cs, Cut(b, VarsAll(ctx.rels)), b)
    decreases HeightAll(cs), 2, |cs|
  {
    var vs := VarsAll(ctx.rels);
    CutCut(b, vs, {});
    if cs != [] {
      var next := ResolveClause(w, ctx, cs[0]).ctx;
      var m := Cut(b, vs + Binds(cs[0]));
      CutCut(b, vs + Binds(cs[0]), vs);
      assert (vs + Binds(cs[0])) * vs == vs;
      SaneNext(w, ctx, cs[0]);
      ClauseExact(w, ctx, cs[0], m);
      FoldExact(w, next, cs[1..], b);
      HoldsCut(next.rels, vs + Binds(cs[0]), b);
      HoldsCut(ctx.rels, vs + Binds(cs[0]), b);
    }
  }

  /** A joined branch, before any projection. */
  lemma {:induction false} BranchHolds(w: World, ctx: Ctx, c: Clause, b: Asg)
    requires Sane(w, ctx) && Regular(w, ctx, c)
    requires BranchRel(ctx, Binds(c), None, ResolveClause(w, ctx, c)).Some?
    requires b.Keys == VarsAll(ctx.rels) + Binds(c)
    ensures Holds(BranchRel(ctx, Binds(c), None, ResolveClause(w, ctx, c)).value, b)
       <==> HoldsAll(ctx.rels, b) && Ext(w, ctx.consts, c, Cut(b, VarsAll(ctx.rels)), b)
    decreases Height(c), 2, 0
  {
    JoinAllHolds(ResolveClause(w, ctx, c).ctx.rels, b);
    ClauseExact(w, ctx, c, b);
  }

  lemma {:induction false} AnyExact(w: World, ctx: Ctx, cs: seq<Clause>, b: Asg)
    requires Sane(w, ctx) && RegularBranches(w, ctx, None, cs) && ResolveBranches(w, ctx, None, cs).Some?
    requires b.Keys == VarsAll(ctx.rels) + FirstBinds(cs)
    ensures Holds(ResolveBranches(w, ctx, None, cs).value, b)
       <==> HoldsAll(ctx.rels, b) && ExtAny(w, ctx.consts, cs, Cut(b, VarsAll(ctx.rels)), b)
    decreases HeightAll(cs), 3, |cs|
  {
    HeightSnoc(cs);
    var init, last := cs[..|cs| - 1], cs[|cs| - 1];
    var r := BranchRel(ctx, Binds(last), None, ResolveClause(w, ctx, last));
    if |cs| > 1 {
      assert ResolveBranches(w, ctx, None, cs) == SumOf(ResolveBranches(w, ctx, None, init), r);
      AnyExact(w, ctx, init, b);
    }
    BranchHolds(w, ctx, last, b);
  }

  /** A branch of `or-join`: `ctx` is the context cut down to `vars`, `outer` the variables
      of the whole context. */
  lemma {:induction false} SomeBranch(w: World, ctx: Ctx, outer: set<Var>, vars: set<Var>, c: Clause, b: Asg)
    requires Sane(w, ctx) && Regular(w, ctx, c) && VarsAll(ctx.rels) == outer * vars
    requires ResolveClause(w, ctx, c).Ok? && Lossless(ResolveClause(w, ctx, c).ctx.rels, vars)
    requires HoldsAll(ctx.rels, b) && outer <= b.Keys
    ensures HoldsAll(LimitRels(ResolveClause(w, ctx, c).ctx.rels, vars), b)
       <==> exists e :: Ext(w, ctx.consts, c, Cut(Cut(b, outer), vars), e) && Projects(e, vars, b)
    decreases Height(c), 2, 0
  {
    var rels := ResolveClause(w, ctx, c).ctx.rels;
    var a := Cut(Cut(b, outer), vars);
    CutCut(b, outer, vars);
    CutCut(b, outer * vars, {});
    if HoldsAll(LimitRels(rels, vars), b) {
      LimitKept(rels, vars, b);
      var e := LimitComplete(rels, vars, b);
      ClauseExact(w, ctx, c, e);
      CutAgree(e, b, outer * vars);
      assert Projects(e, vars, b);
    }
    forall e | Ext(w, ctx.consts, c, a, e) && Projects(e, vars, b)
      ensures HoldsAll(LimitRels(rels, vars), b)
    {
      HoldsAgree(ctx.rels, b, e);
      CutAgree(e, b, outer * vars);
      ClauseExact(w, ctx, c, e);
      LimitSound(rels, vars, b, e);
    }
  }

  lemma {:induction false} CutAgree(a: Asg, b: Asg, vs: set<Var>)
    requires vs <= a.Keys && vs <= b.Keys && forall v :: v in vs ==> a[v] == b[v]
    ensures Cut(a, vs) == Cut(b, vs)
  {}

  lemma {:induction false} SomeExact(w: World, ctx: Ctx, outer: set<Var>, vars: set<Var>, cs: seq<Clause>, b: Asg)
    requires Sane(w, ctx) && RegularBranches(w, ctx, Some(vars), cs) && VarsAll(ctx.rels) == outer * vars
    requires ResolveBranches(w, ctx, Some(vars), cs).Some?
    requires HoldsAll(ctx.rels, b) && outer <= b.Keys
    ensures Holds(ResolveBranches(w, ctx, Some(vars), cs).value, b)
       <==> ExtSome(w, ctx.consts, cs, vars, Cut(b, outer), b)
    decreases HeightAll(cs), 3, |cs|
  {
    HeightSnoc(cs);
    var init, last := cs[..|cs| - 1], cs[|cs| - 1];
    var o := ResolveClause(w, ctx, last);
    var r := BranchRel(ctx, Binds(last), Some(vars), o);
    if |cs| > 1 {
      assert ResolveBranches(w, ctx, Some(vars), cs) == SumOf(ResolveBranches(w, ctx, Some(vars), init), r);
      SomeExact(w, ctx, outer, vars, init, b);
    }
    LimitWellFormed(o.ctx.rels, vars);
    JoinAllHolds(LimitRels(o.ctx.rels, vars), b);
    SomeBranch(w, ctx, outer, vars, last, b);
  }

  lemma {:induction false} ExtAllKeys(w: World, consts: map<Var, Value>, cs: seq<Clause>, a: Asg, b: Asg)
    requires ExtAll(w, consts, cs, a, b)
    ensures Extends(a, b, BindsAll(cs))
    decreases |cs|
  {
    if cs != [] {
      ExtAllKeys(w, consts, cs[1..], Cut(b, a.Keys + Binds(cs[0])), b);
    }
  }

  /** `HoldsOn` means that some assignment of `r` agrees with `b` on `vars`. */
  lemma {:induction false} HoldsOnExists(r: Rel, vars: set<Var>, b: Asg)
    requires vars <= b.Keys
    ensures HoldsOn(r, vars, b)
       <==> exists e :: Holds(r, e) && e.Keys == r.attrs.Keys && forall v :: v in vars && v in e ==> e[v] == b[v]
  {
    if HoldsOn(r, vars, b) {
      var t :| t in r.tuples && Meets(LimitAttrs(r, vars), t, b);
      var e := Row(r.attrs, t);
      assert Meets(r.attrs, t, e);
      forall v | v in vars && v in e ensures e[v] == b[v] { assert v in LimitAttrs(r, vars); }
    }
    if e :| Holds(r, e) && e.Keys == r.attrs.Keys && forall v :: v in vars && v in e ==> e[v] == b[v] {
      var t :| t in r.tuples && Meets(r.attrs, t, e);
      assert Meets(LimitAttrs(r, vars), t, b);
    }
  }

  /** The negation of `not`, seen from an assignment of the whole context. */
  lemma {:induction false} NegationFound(w: World, start: Ctx, order: seq<Clause>, b: Asg)
    requires Sane(w, start) && RegularAll(w, start, order) && FoldClauses(w, start, order).Ok?
    requires b.Keys == VarsAll(start.rels) && FoldClauses(w, start, order).ctx.rels != []
    requires HoldsOn(JoinAll(FoldClauses(w, start, order).ctx.rels), VarsAll(start.rels), b)
    ensures exists e :: ExtAll(w, start.consts, order, b, e)
    decreases HeightAll(order), 3, 0
  {
    var vs, rels := VarsAll(start.rels), FoldClauses(w, start, order).ctx.rels;
    HoldsOnExists(JoinAll(rels), vs, b);
    var e :| Holds(JoinAll(rels), e) && e.Keys == JoinAll(rels).attrs.Keys && forall v :: v in vs && v in e ==>
      e[v] == b[v];
    JoinAllHolds(rels, e);
    CutIs(e, b, vs);
    FoldExact(w, start, order, e);
  }

  lemma {:induction false} CutIs(e: Asg, b: Asg, vs: set<Var>)
    requires b.Keys == vs && vs <= e.Keys && forall v :: v in vs && v in e ==> e[v] == b[v]
    ensures Cut(e, vs) == b
  {}

  lemma {:induction false} NegationMade(w: World, start: Ctx, order: seq<Clause>, b: Asg, e: Asg)
    requires Sane(w, start) && RegularAll(w, start, order) && FoldClauses(w, start, order).Ok?
    requires b.Keys == VarsAll(start.rels) && FoldClauses(w, start, order).ctx.rels != []
    requires HoldsAll(start.rels, b) && ExtAll(w, start.consts, order, b, e)
    ensures HoldsOn(JoinAll(FoldClauses(w, start, order).ctx.rels), VarsAll(start.rels), b)
    decreases HeightAll(order), 3, 0
  {
    var vs, rels := VarsAll(start.rels), FoldClauses(w, start, order).ctx.rels;
    ExtAllKeys(w, start.consts, order, b, e);
    HoldsAgree(start.rels, b, e);
    assert Cut(e, vs) == b;
    FoldExact(w, start, order, e);
    JoinAllHolds(rels, e);
    HoldsOnExists(JoinAll(rels), vs, b);
  }

  lemma {:induction false} NotExact(w: World, ctx: Ctx, cs: seq<Clause>, b: Asg)
    requires Sane(w, ctx) && Regular(w, ctx, Not(cs)) && ResolveClause(w, ctx, Not(cs)).Ok?
    requires b.Keys == VarsAll(ctx.rels) + Binds(Not(cs))
    ensures Exact(w, ctx, Not(cs), b)
    decreases HeightAll(cs), 5, 0
  {
    assert Cut(b, VarsAll(ctx.rels)) == b;
    NotHolds(w, ctx, cs, b);
  }

  lemma {:induction false} NotHolds(w: World, ctx: Ctx, cs: seq<Clause>, b: Asg)
    requires Sane(w, ctx) && ResolveNot(w, ctx, cs).Ok? && ctx.rels != []
    requires RegularAll(w, JoinCtx(ctx), Order(Bound(ctx), cs))
    requires b.Keys == VarsAll(ctx.rels)
    ensures HoldsAll(ResolveNot(w, ctx, cs).ctx.rels, b)
       <==> HoldsAll(ctx.rels, b) && !ExtPossible(w, ctx.consts, cs, b)
    decreases HeightAll(cs), 4, 0
  {
    var start := JoinCtx(ctx);
    var order := Order(Bound(ctx), cs);
    JoinCtxSane(w, ctx, b);
    ResolveIsFold(w, start, cs);
    NegatedHolds(ctx, None, ResolveClauses(w, start, cs), b);
    if HoldsAll(ctx.rels, b) {
      if HoldsOn(JoinAll(ResolveClauses(w, start, cs).ctx.rels), VarsAll(ctx.rels), b) {
        NegationFound(w, start, order, b);
      }
      if e :| ExtAll(w, ctx.consts, order, b, e) {
        NegationMade(w, start, order, b, e);
      }
    }
  }

  lemma {:induction false} JoinCtxSane(w: World, ctx: Ctx, b: Asg)
    requires Sane(w, ctx) && ctx.rels != []
    ensures Sane(w, JoinCtx(ctx))
    ensures HoldsAll(JoinCtx(ctx).rels, b) <==> HoldsAll(ctx.rels, b)
  {
    ConstJoinAll(ctx.consts, ctx.rels);
    ConstSingle(ctx.consts, JoinAll(ctx.rels));
    Single(JoinAll(ctx.rels), b);
    JoinAllHolds(ctx.rels, b);
  }

  /** A difference removes the assignments that agree with the resolved negation. */
  lemma {:induction false} NegatedHolds(ctx: Ctx, lim: Option<set<Var>>, o: Outcome, b: Asg)
    requires WellFormed(ctx.rels) && ctx.rels != [] && (o.Ok? ==> WellFormed(o.ctx.rels))
    requires Negated(ctx, lim, o).Ok?
    ensures HoldsAll(Negated(ctx, lim, o).ctx.rels, b)
       <==> HoldsAll(ctx.rels, b) && !HoldsOn(JoinAll(Limited(o.ctx.rels, lim)), VarsAll(ctx.rels), b)
  {
    var join, neg := JoinAll(ctx.rels), JoinAll(Limited(o.ctx.rels, lim));
    Single(SubtractRel(join, neg), b);
    SubtractHolds(join, neg, b);
    JoinAllHolds(ctx.rels, b);
  }

  lemma {:induction false} NotJoinExact(w: World, ctx: Ctx, vars: seq<Var>, cs: seq<Clause>, b: Asg)
    requires Sane(w, ctx) && Regular(w, ctx, NotJoin(vars, cs)) && ResolveClause(w, ctx, NotJoin(vars, cs)).Ok?
    requires b.Keys == VarsAll(ctx.rels) + Binds(NotJoin(vars, cs))
    ensures Exact(w, ctx, NotJoin(vars, cs), b)
    decreases HeightAll(cs), 6, 0
  {
    CutIs(b, b, VarsAll(ctx.rels));
    NotJoinHolds(w, ctx, VarSet(vars), cs, b);
    assert Ext(w, ctx.consts, NotJoin(vars, cs), b, b) <==> !ExtPossible(w, ctx.consts, cs, Cut(b, VarSet(vars)));
  }

  lemma {:induction false} NotJoinHolds(w: World, ctx: Ctx, us: set<Var>, cs: seq<Clause>, b: Asg)
    requires Sane(w, ctx) && ctx.rels != []
    requires var start := LimitCtx(JoinCtx(ctx), us);
             var order := Order(Bound(start), cs);
             var o := ResolveClauses(w, start, cs);
             Negated(ctx, Some(us), o).Ok? && RegularAll(w, start, order)
             && (FoldClauses(w, start, order).Ok? ==> Lossless(FoldClauses(w, start, order).ctx.rels, us))
    requires b.Keys == VarsAll(ctx.rels)
    ensures HoldsAll(Negated(ctx, Some(us), ResolveClauses(w, LimitCtx(JoinCtx(ctx), us), cs)).ctx.rels, b)
       <==> HoldsAll(ctx.rels, b) && !ExtPossible(w, ctx.consts, cs, Cut(b, us))
    decreases HeightAll(cs), 5, 0
  {
    var start := LimitCtx(JoinCtx(ctx), us);
    JoinCtxSane(w, ctx, b);
    ConstLimit(ctx.consts, JoinCtx(ctx).rels, us);
    ResolveIsFold(w, start, cs);
    NegatedHolds(ctx, Some(us), ResolveClauses(w, start, cs), b);
    if HoldsAll(ctx.rels, b) {
      LimitSound(JoinCtx(ctx).rels, us, b, b);
      LimitedNegation(w, start, VarsAll(ctx.rels), us, cs, b);
    }
  }

  lemma {:induction false} LimitedNegation(w: World, start: Ctx, vs: set<Var>, us: set<Var>, cs: seq<Clause>, b: Asg)
    requires Sane(w, start) && VarsAll(start.rels) == vs * us && b.Keys == vs && HoldsAll(start.rels, b)
    requires RegularAll(w, start, Order(Bound(start), cs)) && FoldClauses(w, start, Order(Bound(start), cs)).Ok?
    requires Lossless(FoldClauses(w, start, Order(Bound(start), cs)).ctx.rels, us)
    requires Limited(FoldClauses(w, start, Order(Bound(start), cs)).ctx.rels, Some(us)) != []
    ensures HoldsOn(JoinAll(Limited(FoldClauses(w, start, Order(Bound(start), cs)).ctx.rels, Some(us))), vs, b)
       <==> ExtPossible(w, start.consts, cs, Cut(b, us))
    decreases HeightAll(cs), 4, 0
  {
    var order := Order(Bound(start), cs);
    assert Cut(b, us).Keys == vs * us;
    if HoldsOn(JoinAll(Limited(FoldClauses(w, start, order).ctx.rels, Some(us))), vs, b) {
      LimitedFound(w, start, vs, us, order, b);
    }
    if e :| ExtAll(w, start.consts, order, Cut(b, us), e) {
      LimitedMade(w, start, vs, us, order, b, e);
    }
  }

  /** The negation of `not-join`, seen from an assignment of the whole context. */
  lemma {:induction false} LimitedFound(w: World, start: Ctx, vs: set<Var>, us: set<Var>, order: seq<Clause>, b: Asg)
    requires Sane(w, start) && RegularAll(w, start, order) && FoldClauses(w, start, order).Ok?
    requires VarsAll(start.rels) == vs * us && b.Keys == vs
    requires Lossless(FoldClauses(w, start, order).ctx.rels, us)
             && Limited(FoldClauses(w, start, order).ctx.rels, Some(us)) != []
    requires HoldsOn(JoinAll(Limited(FoldClauses(w, start, order).ctx.rels, Some(us))), vs, b)
    ensures exists e :: ExtAll(w, start.consts, order, Cut(b, us), e)
    decreases HeightAll(order), 3, 0
  {
    var rels := FoldClauses(w, start, order).ctx.rels;
    var neg := JoinAll(Limited(rels, Some(us)));
    HoldsOnExists(neg, vs, b);
    var n :| Holds(neg, n) && n.Keys == neg.attrs.Keys && forall v :: v in vs && v in n ==> n[v] == b[v];
    JoinAllHolds(Limited(rels, Some(us)), n);
    LimitKept(rels, us, n);
    var e := LimitComplete(rels, us, n);
    CutFrom(e, n, b, vs, us, VarsAll(rels));
    FoldExact(w, start, order, e);
  }

  lemma {:induction false} LimitedMade(w: World, start: Ctx, vs: set<Var>, us: set<Var>, order: seq<Clause>, b: Asg,
                                       e: Asg)
    requires Sane(w, start) && RegularAll(w, start, order) && FoldClauses(w, start, order).Ok?
    requires VarsAll(start.rels) == vs * us && b.Keys == vs && HoldsAll(start.rels, b)
    requires Limited(FoldClauses(w, start, order).ctx.rels, Some(us)) != []
    requires ExtAll(w, start.consts, order, Cut(b, us), e)
    ensures HoldsOn(JoinAll(Limited(FoldClauses(w, start, order).ctx.rels, Some(us))), vs, b)
    decreases HeightAll(order), 3, 0
  {
    var rels := FoldClauses(w, start, order).ctx.rels;
    var neg := JoinAll(Limited(rels, Some(us)));
    ExtAllKeys(w, start.consts, order, Cut(b, us), e);
    CutBack(b, e, vs, us, BindsAll(order));
    HoldsAgree(start.rels, b, e);
    FoldExact(w, start, order, e);
    LimitSound(rels, us, e, e);
    JoinAllHolds(Limited(rels, Some(us)), e);
    MeetsOn(neg, vs, us, b, e);
  }

  lemma {:induction false} CutBack(b: Asg, e: Asg, vs: set<Var>, us: set<Var>, more: set<Var>)
    requires b.Keys == vs && Extends(Cut(b, us), e, more)
    ensures Cut(b, us).Keys == vs * us && e.Keys == vs * us + more
    ensures forall v :: v in vs && v in us ==> v in e && e[v] == b[v]
    ensures Cut(e, vs * us) == Cut(b, us)
  {
    forall v | v in vs && v in us ensures v in e && e[v] == b[v] {
      assert v in Cut(b, us);
    }
  }

  lemma {:induction false} MeetsOn(r: Rel, vs: set<Var>, us: set<Var>, b: Asg, e: Asg)
    requires Holds(r, e) && r.attrs.Keys <= us && b.Keys == vs
    requires forall v :: v in vs && v in us ==> v in e && e[v] == b[v]
    ensures HoldsOn(r, vs, b)
  {
    var t :| t in r.tuples && Meets(r.attrs, t, e);
    assert Meets(LimitAttrs(r, vs), t, b);
  }

  lemma {:induction false} CutFrom(e: Asg, n: Asg, b: Asg, vs: set<Var>, us: set<Var>, all: set<Var>)
    requires e.Keys == all && n.Keys == all * us && b.Keys == vs && vs * us <= all
    requires forall v :: v in us && v in all ==> v in n && n[v] == e[v]
    requires forall v :: v in vs && v in n ==> n[v] == b[v]
    ensures Cut(e, vs * us) == Cut(b, us)
  {}
}
