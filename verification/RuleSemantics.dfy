/** Least fixed point of a rule program, and the soundness and completeness of the
    rule solver against it. */
module RuleSemantics {
  import opened Relations
  import opened Sequences
  import opened RelationOps
  import opened Contexts
  import opened Search
  import opened Clauses
  import opened Semantics
  import opened Schedule
  import opened Evaluator
  import opened Flat
  import opened Rules

  // ---------------------------------------------------------- least fixed point

  /** The call is derivable with at most `n` nested rule applications. */
  ghost predicate Derives(p: Program, w: World, n: nat, name: string, vals: seq<Value>)
    decreases n, 0, 1
  {
    n > 0 && name in p && exists i: nat, e :: BranchAt(p, w, n, name, i, vals, e)
  }

  /** Branch `i` of the rule gives `vals` under `e`, its calls derivable with fewer applications. */
  ghost predicate BranchAt(p: Program, w: World, n: nat, name: string, i: nat, vals: seq<Value>, e: Asg)
    requires n > 0 && name in p
    decreases n, 0, 0
  {
    i < |p[name]| && HeadIs(p[name][i].head, vals, e) && BodyTrue(p, w, n - 1, p[name][i].body, e)
  }

  ghost predicate HeadIs(head: seq<Var>, vals: seq<Value>, e: Asg) {
    |head| == |vals| && forall k :: 0 <= k < |head| ==> head[k] in e && e[head[k]] == vals[k]
  }

  ghost predicate BodyTrue(p: Program, w: World, n: nat, atoms: seq<Atom>, e: Asg)
    decreases n, 1, |atoms|
  {
    atoms == [] || (AtomTrue(p, w, n, atoms[0], e) && BodyTrue(p, w, n, atoms[1..], e))
  }

  ghost predicate AtomTrue(p: Program, w: World, n: nat, a: Atom, e: Asg)
    decreases n, 1, 0
  {
    match a
    case Match(ts) => PatternSat(w, map[], ts, e)
    case Test(f, ts) => w.pred(f, ValsOf(map[], e, ts))
    case Call(name, ts) => Derives(p, w, n, name, ValsOf(map[], e, ts))
  }

  /** The call is in the least fixed point. */
  ghost predicate Derivable(p: Program, w: World, name: string, vals: seq<Value>) {
    exists n: nat :: Derives(p, w, n, name, vals)
  }

  ghost predicate AtomHolds(p: Program, w: World, a: Atom, e: Asg) {
    match a
    case Match(ts) => PatternSat(w, map[], ts, e)
    case Test(f, ts) => w.pred(f, ValsOf(map[], e, ts))
    case Call(name, ts) => Derivable(p, w, name, ValsOf(map[], e, ts))
  }

  ghost predicate BodyHolds(p: Program, w: World, atoms: seq<Atom>, e: Asg) {
    atoms == [] || (AtomHolds(p, w, atoms[0], e) && BodyHolds(p, w, atoms[1..], e))
  }

  lemma {:induction false} DerivesMono(p: Program, w: World, m: nat, n: nat, name: string, vals: seq<Value>)
    requires m <= n && Derives(p, w, m, name, vals)
    ensures Derives(p, w, n, name, vals)
    decreases m, 0, 0
  {
    var i: nat, e :| BranchAt(p, w, m, name, i, vals, e);
    BodyMono(p, w, m - 1, n - 1, p[name][i].body, e);
    assert BranchAt(p, w, n, name, i, vals, e);
  }

  lemma {:induction false} BodyMono(p: Program, w: World, m: nat, n: nat, atoms: seq<Atom>, e: Asg)
    requires m <= n && BodyTrue(p, w, m, atoms, e)
    ensures BodyTrue(p, w, n, atoms, e)
    decreases m, 1, |atoms|
  {
    if atoms != [] {
      if atoms[0].Call? { DerivesMono(p, w, m, n, atoms[0].name, ValsOf(map[], e, atoms[0].args)); }
      BodyMono(p, w, m, n, atoms[1..], e);
    }
  }

  lemma {:induction false} BodyBound(p: Program, w: World, atoms: seq<Atom>, e: Asg) returns (n: nat)
    requires BodyHolds(p, w, atoms, e)
    ensures BodyTrue(p, w, n, atoms, e)
  {
    if atoms == [] {
      n := 0;
    } else {
      n := BodyBound(p, w, atoms[1..], e);
      if atoms[0].Call? {
        var k: nat :| Derives(p, w, k, atoms[0].name, ValsOf(map[], e, atoms[0].args));
        if k > n {
          BodyMono(p, w, n, k, atoms[1..], e);
          n := k;
        } else {
          DerivesMono(p, w, k, n, atoms[0].name, ValsOf(map[], e, atoms[0].args));
        }
      }
    }
  }

  lemma {:induction false} BodyTrueHolds(p: Program, w: World, n: nat, atoms: seq<Atom>, e: Asg)
    requires BodyTrue(p, w, n, atoms, e)
    ensures BodyHolds(p, w, atoms, e)
    decreases |atoms|
  {
    if atoms != [] {
      if atoms[0].Call? { assert Derives(p, w, n, atoms[0].name, ValsOf(map[], e, atoms[0].args)); }
      BodyTrueHolds(p, w, n, atoms[1..], e);
    }
  }

  /** The least fixed point is closed under the rules. */
  lemma {:induction false} DerivableClosed(p: Program, w: World, name: string, i: nat, vals: seq<Value>, e: Asg)
    requires name in p && i < |p[name]| && HeadIs(p[name][i].head, vals, e) && BodyHolds(p, w, p[name][i].body, e)
    ensures Derivable(p, w, name, vals)
  {
    var n := BodyBound(p, w, p[name][i].body, e);
    assert BranchAt(p, w, n + 1, name, i, vals, e);
    assert Derives(p, w, n + 1, name, vals);
  }

  // ------------------------------------------------------------ well-formedness

  predicate Older(v: Var, id: nat) {
    v.Renamed? ==> v.seqid < id
  }

  function AtomVars(a: Atom): set<Var> {
    match a
    case Match(ts) => TermVars(ts)
    case Test(_, ts) => TermVars(ts)
    case Call(_, ts) => TermVars(ts)
  }

  function AtomsVars(atoms: seq<Atom>): set<Var> {
    if atoms == [] then {} else AtomVars(atoms[0]) + AtomsVars(atoms[1..])
  }

  /** Variables that have values once the body is solved: those of patterns and calls. */
  function SafeVars(atoms: seq<Atom>): set<Var> {
    if atoms == [] then {} else (if atoms[0].Test? then {} else AtomVars(atoms[0])) + SafeVars(atoms[1..])
  }

  predicate AllVariables(ts: seq<Term>) {
    ts == [] || (ts[0].Variable? && AllVariables(ts[1..]))
  }

  /** Patterns do not repeat a variable; calls fit their rule, and pass each variable once. */
  ghost predicate AtomOk(p: Program, a: Atom) {
    match a
    case Match(ts) => |ts| <= 5 && DistinctVars(ts)
    case Test(_, _) => true
    case Call(name, ts) =>
      && DistinctVars(ts)
      && (forall k :: 0 <= k < |ts| ==> ts[k] != Blank && (ts[k].Constant? ==> Truthy(ts[k].c)))
      && name in p && p[name] != [] && forall i :: 0 <= i < |p[name]| ==> |p[name][i].head| == |ts|
  }

  ghost predicate AtomsOk(p: Program, atoms: seq<Atom>) {
    atoms == [] || (AtomOk(p, atoms[0]) && AtomsOk(p, atoms[1..]))
  }

  /** Every call passes variables only. */
  predicate VarCalls(atoms: seq<Atom>) {
    atoms == [] || ((atoms[0].Call? ==> AllVariables(atoms[0].args)) && VarCalls(atoms[1..]))
  }

  predicate AllNamed(vs: set<Var>) {
    forall v :: v in vs ==> v.Named?
  }

  /** A positive, safe rule program whose calls pass distinct variables. */
  ghost predicate ProgramOk(p: Program) {
    forall name, i :: name in p && 0 <= i < |p[name]| ==> BranchOk(p, p[name][i])
  }

  ghost predicate BranchOk(p: Program, br: Branch) {
    && NoDups(br.head) && AllNamed(Elems(br.head) + AtomsVars(br.body))
    && Elems(br.head) <= SafeVars(br.body)
    && AtomsOk(p, br.body) && VarCalls(br.body)
  }

  /** `-differ?` compares the first half of its arguments with the second. */
  ghost predicate DifferOk(w: World) {
    forall xs: seq<Value>, ys: seq<Value> {:trigger w.pred(DIFFER, xs + ys)} ::
      |xs| == |ys| ==> (w.pred(DIFFER, xs + ys) <==> xs != ys)
  }

  // ------------------------------------------------------- solving a prefix

  /** `e` gives the context's constants their values. */
  ghost predicate EnvConsts(consts: map<Var, Value>, e: Asg) {
    forall v :: v in consts ==> v in e && e[v] == consts[v]
  }

  /** Patterns that do not repeat a variable, and predicates. */
  ghost predicate Solvable(cs: seq<Clause>) {
    cs == [] || (((cs[0].Pattern? && DistinctVars(cs[0].terms)) || cs[0].Pred?) && Solvable(cs[1..]))
  }

  lemma {:induction false} SolvableConcat(s: seq<Clause>, t: seq<Clause>)
    ensures Solvable(s + t) <==> Solvable(s) && Solvable(t)
  {
    if s == [] {
      assert s + t == t;
    } else {
      assert (s + t)[1..] == s[1..] + t;
      SolvableConcat(s[1..], t);
    }
  }

  lemma {:induction false} SolvableFlat(w: World, ctx: Ctx, cs: seq<Clause>)
    requires WellFormed(ctx.rels) && Solvable(cs)
    ensures AllFlat(cs) && RegularAll(w, ctx, cs)
    decreases |cs|
  {
    if cs != [] {
      if ResolveClause(w, ctx, cs[0]).Ok? {
        SolvableFlat(w, ResolveClause(w, ctx, cs[0]).ctx, cs[1..]);
      } else {
        SolvableFlat(w, ctx, cs[1..]);
      }
    }
  }

  lemma {:induction false} SolvableOrder(bound: set<Var>, cs: seq<Clause>)
    requires Solvable(cs)
    ensures Pass(bound, cs) == (cs, []) && Order(bound, cs) == cs
    decreases |cs|
  {
    if cs != [] {
      SolvableOrder(bound + Binds(cs[0]), cs[1..]);
      var r := Pass(bound + Binds(cs[0]), cs[1..]);
      assert cs == [cs[0]] + cs[1..];
      assert Pass(bound, cs) == ([cs[0]] + r.0, r.1);
    }
    var p := Pass(bound, cs);
    if p.0 != [] {
      assert Order(bound + BindsAll(p.0), []) == [];
    }
  }

  lemma {:induction false} SatEnv(w: World, consts: map<Var, Value>, c: Clause, e: Asg)
    requires (c.Pattern? || c.Pred?) && EnvConsts(consts, e)
    ensures Sat(w, consts, c, e) <==> Sat(w, map[], c, e)
  {
    if c.Pred? {
      forall i | 0 <= i < |c.args| ensures ValOf(consts, e, c.args[i]) == ValOf(map[], e, c.args[i]) {}
      assert ValsOf(consts, e, c.args) == ValsOf(map[], e, c.args);
    }
  }

  lemma {:induction false} SatAllEnv(w: World, consts: map<Var, Value>, cs: seq<Clause>, e: Asg)
    requires Solvable(cs) && AllFlat(cs) && EnvConsts(consts, e)
    ensures SatAll(w, consts, cs, e) <==> SatAll(w, map[], cs, e)
  {
    if cs != [] {
      SatEnv(w, consts, cs[0], e);
      SatAllEnv(w, consts, cs[1..], e);
    }
  }

  /** Variables of the clauses are bound in the solved context. */
  lemma {:induction false} FoldBinds(w: World, ctx: Ctx, cs: seq<Clause>)
    requires WellFormed(ctx.rels) && Solvable(cs) && FoldClauses(w, ctx, cs).Ok?
    ensures ClausesVars(cs) <= VarsAll(ctx.rels) + BindsAll(cs) + ctx.consts.Keys
    decreases |cs|
  {
    if cs != [] {
      ArgsBound(w, ctx, cs[0]);
      FoldBinds(w, ResolveClause(w, ctx, cs[0]).ctx, cs[1..]);
    }
  }

  lemma {:induction false} SatAllCut(w: World, consts: map<Var, Value>, cs: seq<Clause>, vars: set<Var>, e: Asg)
    requires Solvable(cs) && AllFlat(cs) && vars <= e.Keys
    requires ClausesVars(cs) <= vars + consts.Keys && BindsAll(cs) <= vars
    ensures SatAll(w, consts, cs, Cut(e, vars)) <==> SatAll(w, consts, cs, e)
  {
    if cs != [] {
      SatCut(w, consts, cs[0], vars, e);
      SatAllCut(w, consts, cs[1..], vars, e);
    }
  }

  /** Solving patterns and predicates keeps exactly the assignments that make them true. */
  lemma {:induction false} SolveExact(w: World, ctx: Ctx, cs: seq<Clause>, e: Asg)
    requires Sane(w, ctx) && Solvable(cs) && AllFlat(cs) && ResolveClauses(w, ctx, cs).Ok?
    requires EnvConsts(ctx.consts, e) && VarsAll(ctx.rels) + BindsAll(cs) <= e.Keys
    ensures HoldsAll(ResolveClauses(w, ctx, cs).ctx.rels, e) <==> HoldsAll(ctx.rels, e) && SatAll(w, map[], cs, e)
  {
    var vars := VarsAll(ctx.rels) + BindsAll(cs);
    SolvableFlat(w, ctx, cs);
    SolvableOrder(Bound(ctx), cs);
    ResolveIsFold(w, ctx, cs);
    CutCut(e, vars, {});
    FlatExact(w, ctx, cs, Cut(e, vars));
    FoldBinds(w, ctx, cs);
    HoldsCut(ResolveClauses(w, ctx, cs).ctx.rels, vars, e);
    HoldsCut(ctx.rels, vars, e);
    SatAllCut(w, ctx.consts, cs, vars, e);
    SatAllEnv(w, ctx.consts, cs, e);
  }

  lemma {:induction false} SolveBinds(w: World, ctx: Ctx, cs: seq<Clause>)
    requires WellFormed(ctx.rels) && Solvable(cs) && ResolveClauses(w, ctx, cs).Ok?
    ensures ClausesVars(cs) <= VarsAll(ctx.rels) + BindsAll(cs) + ctx.consts.Keys
  {
    SolvableOrder(Bound(ctx), cs);
    ResolveIsFold(w, ctx, cs);
    FoldBinds(w, ctx, cs);
  }
}
