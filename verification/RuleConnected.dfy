/** Rule programs whose text alone says that leaves lose nothing: the atoms of each branch hang
    together by shared variables. With such rules soundness needs no condition on the run. */
module RuleConnected {
  import opened Relations
  import opened Sequences
  import opened RelationOps
  import opened Contexts
  import opened Search
  import opened Clauses
  import opened Collecting
  import opened Semantics
  import opened Schedule
  import opened Evaluator
  import opened Flat
  import opened Rules
  import opened RuleSemantics
  import opened RuleFrames
  import opened RuleTrees
  import opened RuleSoundness
  import opened RuleCompleteness
  import opened RuleTermination
  import opened RuleStatic

  // -------------------------------------------------------------- the condition

  /** `s` has all of the variables or none. */
  predicate Whole(s: set<Var>, vs: set<Var>) {
    vs <= s || vs !! s
  }

  predicate ClosedAtoms(s: set<Var>, atoms: seq<Atom>) {
    atoms == [] || (Whole(s, AtomVars(atoms[0])) && ClosedAtoms(s, atoms[1..]))
  }

  /** No set of variables separates some atoms from the others. */
  ghost predicate Connected(atoms: seq<Atom>) {
    forall s: set<Var> :: ClosedAtoms(s, atoms) ==> Whole(s, AtomsVars(atoms))
  }

  /** Each atom has a variable, and those of a predicate are in `vars` or in patterns before it. */
  predicate Grounded(vars: set<Var>, atoms: seq<Atom>)
    decreases |atoms|
  {
    atoms == [] || (
      && AtomVars(atoms[0]) != {} && (atoms[0].Test? ==> AtomVars(atoms[0]) <= vars)
      && Grounded(vars + (if atoms[0].Match? then AtomVars(atoms[0]) else {}), atoms[1..]))
  }

  ghost predicate ConnectedBranch(br: Branch) {
    Connected(br.body) && Grounded({}, br.body)
  }

  ghost predicate ConnectedRules(p: Program) {
    forall name, i :: name in p && 0 <= i < |p[name]| ==> ConnectedBranch(p[name][i])
  }

  /** Each atom shares a variable with `vars` or an atom before it. */
  predicate Chained(vars: set<Var>, atoms: seq<Atom>)
    decreases |atoms|
  {
    atoms == [] || (AtomVars(atoms[0]) * vars != {} && Chained(vars + AtomVars(atoms[0]), atoms[1..]))
  }

  lemma {:induction false} ChainedWhole(s: set<Var>, vars: set<Var>, atoms: seq<Atom>)
    requires Chained(vars, atoms) && ClosedAtoms(s, atoms) && Whole(s, vars)
    ensures Whole(s, vars + AtomsVars(atoms))
    decreases |atoms|
  {
    if atoms != [] {
      var v :| v in AtomVars(atoms[0]) * vars;
      ChainedWhole(s, vars + AtomVars(atoms[0]), atoms[1..]);
      assert vars + AtomVars(atoms[0]) + AtomsVars(atoms[1..]) == vars + AtomsVars(atoms);
    }
  }

  /** A body written so that each atom shares a variable with an earlier one is connected. */
  lemma {:induction false} ChainedConnected(atoms: seq<Atom>)
    requires atoms != [] && Chained(AtomVars(atoms[0]), atoms[1..])
    ensures Connected(atoms)
  {
    forall s: set<Var> | ClosedAtoms(s, atoms) ensures Whole(s, AtomsVars(atoms)) {
      ChainedWhole(s, AtomVars(atoms[0]), atoms[1..]);
    }
  }

  // ------------------------------------------------------------- what frames keep

  predicate ClosedRels(s: set<Var>, rels: seq<Rel>) {
    rels == [] || (Whole(s, rels[0].attrs.Keys) && ClosedRels(s, rels[1..]))
  }

  /** What hangs together with an atom, over relations and atoms, has a variable of the call. */
  ghost predicate Anchored(finals: set<Var>, rels: seq<Rel>, atoms: seq<Atom>) {
    forall s: set<Var> :: ClosedAtoms(s, atoms) && ClosedRels(s, rels) && s !! finals ==> s !! AtomsVars(atoms)
  }

  ghost predicate ConnectedFrame(finals: set<Var>, f: Frame) {
    && Anchored(finals, f.ctx.rels, f.atoms) && Grounded(VarsAll(f.ctx.rels), f.atoms)
    && (FromCall(f.atoms) == [] ==> !HasEmpty(f.ctx.rels))
  }

  ghost predicate ConnectedStack(finals: set<Var>, stack: seq<Frame>) {
    stack == [] || (ConnectedFrame(finals, stack[0]) && ConnectedStack(finals, stack[1..]))
  }

  ghost predicate ConnectedState(finals: set<Var>, s: State) {
    s.State? ==> ConnectedStack(finals, s.stack)
  }

  // ------------------------------------------------- relations only grow together

  lemma {:induction false} ClosedRelsConcat(s: set<Var>, x: seq<Rel>, y: seq<Rel>)
    ensures ClosedRels(s, x + y) <==> ClosedRels(s, x) && ClosedRels(s, y)
  {
    if x == [] {
      assert x + y == y;
    } else {
      assert (x + y)[1..] == x[1..] + y;
      ClosedRelsConcat(s, x[1..], y);
    }
  }

  lemma {:induction false} ClosedRelsOne(s: set<Var>, r: Rel)
    ensures ClosedRels(s, [r]) <==> Whole(s, r.attrs.Keys)
  {
    assert [r][1..] == [];
  }

  lemma {:induction false} WholeParts(s: set<Var>, x: set<Var>, y: set<Var>)
    requires Whole(s, x + y)
    ensures Whole(s, x) && Whole(s, y)
  {
    assert x <= x + y && y <= x + y;
  }

  lemma {:induction false} CollapseClosed(s: set<Var>, rels: seq<Rel>, newRel: Rel, acc: seq<Rel>)
    requires AllGood(rels) && Good(newRel) && ClosedRels(s, Collapse(rels, newRel, acc))
    ensures ClosedRels(s, acc) && ClosedRels(s, rels) && Whole(s, newRel.attrs.Keys)
  {
    if rels == [] {
      ClosedRelsConcat(s, acc, [newRel]);
      ClosedRelsOne(s, newRel);
    } else if rels[0].attrs.Keys * newRel.attrs.Keys != {} {
      JoinGood(rels[0], newRel);
      CollapseClosed(s, rels[1..], JoinRel(rels[0], newRel), acc);
      WholeParts(s, rels[0].attrs.Keys, newRel.attrs.Keys);
    } else {
      CollapseClosed(s, rels[1..], newRel, acc + [rels[0]]);
      ClosedRelsConcat(s, acc, [rels[0]]);
      ClosedRelsOne(s, rels[0]);
    }
  }

  lemma {:induction false} HavingClosed(s: set<Var>, rels: seq<Rel>, vs: set<Var>)
    requires ClosedRels(s, Having(rels, vs, false)) && Whole(s, VarsAll(Having(rels, vs, true)))
    ensures ClosedRels(s, rels)
  {
    if rels != [] {
      var hit := rels[0].attrs.Keys * vs != {};
      var h := Having(rels[1..], vs, hit);
      assert Having(rels, vs, hit) == [rels[0]] + h && ([rels[0]] + h)[1..] == h;
      assert Having(rels, vs, !hit) == Having(rels[1..], vs, !hit);
      if hit { WholeParts(s, rels[0].attrs.Keys, VarsAll(h)); }
      HavingClosed(s, rels[1..], vs);
    }
  }

  lemma {:induction false} PatternClosed(s: set<Var>, w: World, ctx: Ctx, terms: seq<Term>)
    requires WellFormed(ctx.rels) && ResolvePattern(w, ctx, terms).Ok?
    requires ClosedRels(s, ResolvePattern(w, ctx, terms).ctx.rels)
    ensures ClosedRels(s, ctx.rels) && Whole(s, TermVars(terms))
  {
    VarColsGood(terms);
    CollapseClosed(s, ctx.rels, PatternRel(w, ctx, terms), []);
  }

  lemma {:induction false} PredClosed(s: set<Var>, w: World, ctx: Ctx, f: string, args: seq<Term>)
    requires WellFormed(ctx.rels) && ResolvePred(w, ctx, f, args).Ok?
    requires ClosedRels(s, ResolvePred(w, ctx, f, args).ctx.rels)
    ensures ClosedRels(s, ctx.rels) && (TermVars(args) <= VarsAll(ctx.rels) ==> Whole(s, TermVars(args)))
  {
    var vs := TermVars(args);
    var prod := Product(ctx, vs);
    var kept := prod.(tuples := Passing(w, f, ctx.consts, prod.attrs, args, prod.tuples));
    ClosedRelsConcat(s, [kept], Others(ctx, vs));
    ClosedRelsOne(s, kept);
    HavingClosed(s, ctx.rels, vs);
    HavingSplit(ctx.rels, vs, map[]);
    if vs <= VarsAll(ctx.rels) {
      assert VarsAll(Having(ctx.rels, vs, true)) == VarsAll(Having(ctx.rels, vs, true)) + vs;
      WholeParts(s, VarsAll(Having(ctx.rels, vs, true)), vs);
    }
  }

  /** Solving one pattern or predicate. */
  lemma {:induction false} ClauseClosed(s: set<Var>, w: World, ctx: Ctx, c: Clause)
    requires WellFormed(ctx.rels) && (c.Pattern? || c.Pred?) && ResolveClause(w, ctx, c).Ok?
    requires ClosedRels(s, ResolveClause(w, ctx, c).ctx.rels)
    ensures ClosedRels(s, ctx.rels) && (c.Pattern? || ClauseVars(c) <= VarsAll(ctx.rels) ==> Whole(s, ClauseVars(c)))
  {
    match c
    case Pattern(terms) => PatternClosed(s, w, ctx, terms);
    case Pred(f, args) => PredClosed(s, w, ctx, f, args);
  }

  lemma {:induction false} FoldClosed(s: set<Var>, w: World, ctx: Ctx, cs: seq<Clause>)
    requires WellFormed(ctx.rels) && Solvable(cs) && FoldClauses(w, ctx, cs).Ok?
    requires ClosedRels(s, FoldClauses(w, ctx, cs).ctx.rels)
    ensures ClosedRels(s, ctx.rels)
    decreases |cs|
  {
    if cs != [] {
      FoldClosed(s, w, ResolveClause(w, ctx, cs[0]).ctx, cs[1..]);
      ClauseClosed(s, w, ctx, cs[0]);
    }
  }

  /** The clause of an atom that is not a call. */
  function LitOf(a: Atom): Clause
    requires !a.Call?
  {
    if a.Match? then Pattern(a.terms) else Pred(a.f, a.args)
  }

  lemma {:induction false} LitsCons(atoms: seq<Atom>, gs: seq<Clause>)
    requires atoms != [] && !atoms[0].Call?
    ensures Lits(atoms) + gs == [LitOf(atoms[0])] + (Lits(atoms[1..]) + gs)
    ensures (Lits(atoms) + gs)[0] == LitOf(atoms[0]) && (Lits(atoms) + gs)[1..] == Lits(atoms[1..]) + gs
    ensures ClausesVars(Lits(atoms)) == AtomVars(atoms[0]) + ClausesVars(Lits(atoms[1..]))
  {
    var more := Lits(atoms[1..]);
    assert Lits(atoms) == [LitOf(atoms[0])] + more && ([LitOf(atoms[0])] + more)[1..] == more;
  }

  /** The atoms before the call are solved together with `gs`. */
  lemma {:induction false} LitsClosed(s: set<Var>, w: World, ctx: Ctx, atoms: seq<Atom>, gs: seq<Clause>)
    requires WellFormed(ctx.rels) && Grounded(VarsAll(ctx.rels), atoms) && Solvable(Lits(atoms) + gs)
    requires FoldClauses(w, ctx, Lits(atoms) + gs).Ok?
    requires ClosedRels(s, FoldClauses(w, ctx, Lits(atoms) + gs).ctx.rels)
    ensures ClosedRels(s, ctx.rels) && (ClosedAtoms(s, FromCall(atoms)) ==> ClosedAtoms(s, atoms))
    decreases |atoms|
  {
    if atoms == [] || atoms[0].Call? {
      FoldClosed(s, w, ctx, Lits(atoms) + gs);
    } else {
      LitsCons(atoms, gs);
      var c := LitOf(atoms[0]);
      var next := ResolveClause(w, ctx, c).ctx;
      LitsClosed(s, w, next, atoms[1..], gs);
      ClauseClosed(s, w, ctx, c);
    }
  }

  // -------------------------------------------------------------------- leaves

  /** Every empty relation has a variable of `vs`. */
  predicate Filled(rels: seq<Rel>, vs: set<Var>) {
    rels == [] || ((rels[0].tuples == [] ==> rels[0].attrs.Keys * vs != {}) && Filled(rels[1..], vs))
  }

  lemma {:induction false} FilledConcat(x: seq<Rel>, y: seq<Rel>, vs: set<Var>)
    ensures Filled(x + y, vs) <==> Filled(x, vs) && Filled(y, vs)
  {
    if x == [] {
      assert x + y == y;
    } else {
      assert (x + y)[1..] == x[1..] + y;
      FilledConcat(x[1..], y, vs);
    }
  }

  lemma {:induction false} FilledOne(r: Rel, vs: set<Var>)
    ensures Filled([r], vs) <==> (r.tuples == [] ==> r.attrs.Keys * vs != {})
  {
    assert [r][1..] == [];
  }

  lemma {:induction false} NoneEmpty(rels: seq<Rel>, vs: set<Var>)
    requires !HasEmpty(rels)
    ensures Filled(rels, vs)
  {
    if rels != [] { NoneEmpty(rels[1..], vs); }
  }

  lemma {:induction false} CollapseFilled(rels: seq<Rel>, newRel: Rel, acc: seq<Rel>, vs: set<Var>)
    requires AllGood(rels) && Good(newRel) && newRel.attrs.Keys * vs != {} && Filled(acc, vs) && Filled(rels, vs)
    ensures Filled(Collapse(rels, newRel, acc), vs)
  {
    if rels == [] {
      FilledConcat(acc, [newRel], vs);
      FilledOne(newRel, vs);
    } else if rels[0].attrs.Keys * newRel.attrs.Keys != {} {
      JoinGood(rels[0], newRel);
      assert (rels[0].attrs.Keys + newRel.attrs.Keys) * vs >= newRel.attrs.Keys * vs;
      CollapseFilled(rels[1..], JoinRel(rels[0], newRel), acc, vs);
    } else {
      FilledConcat(acc, [rels[0]], vs);
      FilledOne(rels[0], vs);
      CollapseFilled(rels[1..], newRel, acc + [rels[0]], vs);
    }
  }

  lemma {:induction false} HavingFilled(rels: seq<Rel>, some: set<Var>, vs: set<Var>)
    requires Filled(rels, vs)
    ensures Filled(Having(rels, some, false), vs)
  {
    if rels != [] {
      var h := Having(rels[1..], some, false);
      HavingFilled(rels[1..], some, vs);
      if rels[0].attrs.Keys * some == {} {
        assert Having(rels, some, false) == [rels[0]] + h && ([rels[0]] + h)[1..] == h;
      } else {
        assert Having(rels, some, false) == [] + h == h;
      }
    }
  }

  lemma {:induction false} PredFilled(w: World, ctx: Ctx, f: string, args: seq<Term>, vs: set<Var>)
    requires WellFormed(ctx.rels) && ResolvePred(w, ctx, f, args).Ok? && Filled(ctx.rels, vs)
    requires TermVars(args) != {} && TermVars(args) <= VarsAll(ctx.rels) && TermVars(args) <= vs
    ensures Filled(ResolvePred(w, ctx, f, args).ctx.rels, vs)
  {
    var prod := Product(ctx, TermVars(args));
    var kept := prod.(tuples := Passing(w, f, ctx.consts, prod.attrs, args, prod.tuples));
    HavingSplit(ctx.rels, TermVars(args), map[]);
    var v :| v in TermVars(args);
    assert v in kept.attrs.Keys * vs;
    HavingFilled(ctx.rels, TermVars(args), vs);
    FilledOne(kept, vs);
    FilledConcat([kept], Others(ctx, TermVars(args)), vs);
  }

  lemma {:induction false} PatternFilled(w: World, ctx: Ctx, terms: seq<Term>, vs: set<Var>)
    requires WellFormed(ctx.rels) && ResolvePattern(w, ctx, terms).Ok? && Filled(ctx.rels, vs)
    requires TermVars(terms) != {} && TermVars(terms) <= vs
    ensures Filled(ResolvePattern(w, ctx, terms).ctx.rels, vs)
  {
    VarColsGood(terms);
    var v :| v in TermVars(terms);
    assert v in PatternRel(w, ctx, terms).attrs.Keys * vs;
    CollapseFilled(ctx.rels, PatternRel(w, ctx, terms), [], vs);
  }

  lemma {:induction false} AtomFilled(w: World, ctx: Ctx, a: Atom, vs: set<Var>)
    requires WellFormed(ctx.rels) && !a.Call? && ResolveClause(w, ctx, LitOf(a)).Ok? && Filled(ctx.rels, vs)
    requires AtomVars(a) != {} && (a.Test? ==> AtomVars(a) <= VarsAll(ctx.rels)) && AtomVars(a) <= vs
    ensures Filled(ResolveClause(w, ctx, LitOf(a)).ctx.rels, vs)
  {
    match a
    case Match(ts) => PatternFilled(w, ctx, ts, vs);
    case Test(f, ts) => PredFilled(w, ctx, f, ts, vs);
  }

  /** Once the atoms of a leaf are solved, an empty relation has one of their variables. */
  lemma {:induction false} LitsFilled(w: World, ctx: Ctx, atoms: seq<Atom>, vs: set<Var>)
    requires WellFormed(ctx.rels) && Grounded(VarsAll(ctx.rels), atoms) && Solvable(Lits(atoms))
    requires FoldClauses(w, ctx, Lits(atoms)).Ok? && Filled(ctx.rels, vs) && ClausesVars(Lits(atoms)) <= vs
    ensures Filled(FoldClauses(w, ctx, Lits(atoms)).ctx.rels, vs)
    decreases |atoms|
  {
    if atoms != [] && !atoms[0].Call? {
      LitsCons(atoms, []);
      assert Lits(atoms) + [] == Lits(atoms) && Lits(atoms[1..]) + [] == Lits(atoms[1..]);
      AtomFilled(w, ctx, atoms[0], vs);
      LitsFilled(w, ResolveClause(w, ctx, LitOf(atoms[0])).ctx, atoms[1..], vs);
    }
  }

  /** An empty relation that is dropped. */
  lemma {:induction false} DroppedAt(rels: seq<Rel>, vars: set<Var>) returns (i: nat)
    requires DropsEmpty(rels, vars)
    ensures i < |rels| && rels[i].attrs.Keys * vars == {} && rels[i].tuples == []
  {
    if rels[0].attrs.Keys * vars == {} && rels[0].tuples == [] {
      i := 0;
    } else {
      i := DroppedAt(rels[1..], vars);
      i := i + 1;
    }
  }

  lemma {:induction false} FilledAt(rels: seq<Rel>, vs: set<Var>, i: nat)
    requires Filled(rels, vs) && i < |rels| && rels[i].tuples == []
    ensures rels[i].attrs.Keys * vs != {}
  {
    if i > 0 { FilledAt(rels[1..], vs, i - 1); }
  }

  lemma {:induction false} ApartClosed(s: set<Var>, rels: seq<Rel>)
    requires VarsAll(rels) !! s
    ensures ClosedRels(s, rels)
  {
    if rels != [] { ApartClosed(s, rels[1..]); }
  }

  lemma {:induction false} OneClosed(rels: seq<Rel>, i: nat)
    requires Disjoint(rels) && i < |rels|
    ensures ClosedRels(rels[i].attrs.Keys, rels) && rels[i].attrs.Keys <= VarsAll(rels)
  {
    if i == 0 {
      ApartClosed(rels[0].attrs.Keys, rels[1..]);
    } else {
      OneClosed(rels[1..], i - 1);
    }
  }

  /** Relations that all hang together with the call lose nothing. */
  lemma {:induction false} FilledLossless(finals: set<Var>, ctx: Ctx, rels: seq<Rel>, atoms: seq<Atom>)
    requires WellFormed(rels) && Filled(rels, AtomsVars(atoms)) && Anchored(finals, ctx.rels, atoms)
    requires forall s: set<Var> :: ClosedRels(s, rels) ==> ClosedRels(s, ctx.rels) && ClosedAtoms(s, atoms)
    ensures Lossless(rels, finals)
  {
    if DropsEmpty(rels, finals) {
      var i := DroppedAt(rels, finals);
      FilledAt(rels, AtomsVars(atoms), i);
      OneClosed(rels, i);
      assert false;
    }
  }

  lemma {:induction false} LeafConnected(p: Program, w: World, finals: set<Var>, f: Frame, id: nat, keys: seq<Var>)
    requires FrameOk(p, w, finals, f, id) && ConnectedFrame(finals, f) && VarSet(keys) == finals
    ensures LeafClean(w, f, keys)
  {
    if FromCall(f.atoms) == [] && ResolveClauses(w, f.ctx, Lits(f.atoms)).Ok? {
      SplitAtoms(p, w, f.atoms, map[]);
      SolvableOrder(Bound(f.ctx), Lits(f.atoms));
      ResolveIsFold(w, f.ctx, Lits(f.atoms));
      NoneEmpty(f.ctx.rels, AtomsVars(f.atoms));
      LitsFilled(w, f.ctx, f.atoms, AtomsVars(f.atoms));
      var rels := ResolveClauses(w, f.ctx, Lits(f.atoms)).ctx.rels;
      assert Lits(f.atoms) + [] == Lits(f.atoms);
      forall s: set<Var> | ClosedRels(s, rels) ensures ClosedRels(s, f.ctx.rels) && ClosedAtoms(s, f.atoms) {
        LitsClosed(s, w, f.ctx, f.atoms, []);
      }
      FilledLossless(finals, f.ctx, rels, f.atoms);
    }
  }

  // ------------------------------------------------------------------ children

  lemma {:induction false} ClosedAtomsConcat(s: set<Var>, x: seq<Atom>, y: seq<Atom>)
    ensures ClosedAtoms(s, x + y) <==> ClosedAtoms(s, x) && ClosedAtoms(s, y)
    ensures AtomsVars(x + y) == AtomsVars(x) + AtomsVars(y)
  {
    if x == [] {
      assert x + y == y;
    } else {
      assert (x + y)[1..] == x[1..] + y;
      ClosedAtomsConcat(s, x[1..], y);
    }
  }

  lemma {:induction false} GroundedMore(vars: set<Var>, more: set<Var>, atoms: seq<Atom>)
    requires Grounded(vars, atoms) && vars <= more
    ensures Grounded(more, atoms)
    decreases |atoms|
  {
    if atoms != [] {
      var own := if atoms[0].Match? then AtomVars(atoms[0]) else {};
      GroundedMore(vars + own, more + own, atoms[1..]);
    }
  }

  lemma {:induction false} GroundedConcat(vars: set<Var>, x: seq<Atom>, y: seq<Atom>)
    requires Grounded(vars, x) && Grounded(vars, y)
    ensures Grounded(vars, x + y)
    decreases |x|
  {
    if x == [] {
      assert x + y == y;
    } else {
      var own := if x[0].Match? then AtomVars(x[0]) else {};
      assert (x + y)[0] == x[0] && (x + y)[1..] == x[1..] + y;
      GroundedMore(vars, vars + own, y);
      GroundedConcat(vars + own, x[1..], y);
    }
  }

  lemma {:induction false} GroundedTail(vars: set<Var>, atoms: seq<Atom>)
    requires Grounded(vars, atoms)
    ensures Grounded(vars + BindsAll(Lits(atoms)), FromCall(atoms))
    decreases |atoms|
  {
    if atoms == [] || atoms[0].Call? {
      assert vars + BindsAll(Lits(atoms)) == vars;
    } else {
      var own := if atoms[0].Match? then AtomVars(atoms[0]) else {};
      var more := Lits(atoms[1..]);
      assert Lits(atoms) == [LitOf(atoms[0])] + more && ([LitOf(atoms[0])] + more)[1..] == more;
      GroundedTail(vars + own, atoms[1..]);
      assert vars + BindsAll(Lits(atoms)) == vars + own + BindsAll(more);
    }
  }

  /** The variables of a renamed atom are the renamed variables. */
  lemma {:induction false} RenVars(head: seq<Var>, args: seq<Var>, id: nat, a: Atom)
    ensures forall u :: u in AtomVars(RenAtom(head, args, id, a)) <==>
        exists v :: v in AtomVars(a) && Ren(head, args, id, v) == u
  {
    forall u
      ensures u in AtomVars(RenAtom(head, args, id, a)) <==> exists v :: v in AtomVars(a) && Ren(head, args, id, v) == u
    {
      if u in AtomVars(RenAtom(head, args, id, a)) { var v := RenTermVarsFrom(head, args, id, TermsOf(a), u); }
      if v :| v in AtomVars(a) && Ren(head, args, id, v) == u { RenTermVars(head, args, id, TermsOf(a), v); }
    }
  }

  function TermsOf(a: Atom): (ts: seq<Term>)
    ensures AtomVars(a) == TermVars(ts)
  {
    match a
    case Match(ts) => ts
    case Test(_, ts) => ts
    case Call(_, ts) => ts
  }

  /** The renamed variables are among `more`. */
  ghost predicate Renames(head: seq<Var>, args: seq<Var>, id: nat, vars: set<Var>, more: set<Var>) {
    forall v :: v in vars ==> Ren(head, args, id, v) in more
  }

  lemma {:induction false} GroundedRen(head: seq<Var>, args: seq<Var>, id: nat, vars: set<Var>, more: set<Var>,
                                       atoms: seq<Atom>)
    requires Grounded(vars, atoms) && Renames(head, args, id, vars, more)
    ensures Grounded(more, RenAtoms(head, args, id, atoms))
    decreases |atoms|
  {
    if atoms != [] {
      var first, rest := RenAtom(head, args, id, atoms[0]), RenAtoms(head, args, id, atoms[1..]);
      var own := if atoms[0].Match? then AtomVars(atoms[0]) else {};
      var renamed := if first.Match? then AtomVars(first) else {};
      RenVars(head, args, id, atoms[0]);
      var v :| v in AtomVars(atoms[0]);
      assert Ren(head, args, id, v) in AtomVars(first);
      GroundedRen(head, args, id, vars + own, more + renamed, atoms[1..]);
      assert ([first] + rest)[0] == first && ([first] + rest)[1..] == rest;
    }
  }

  /** The variables whose new names are in `s`. */
  function PulledBack(head: seq<Var>, args: seq<Var>, id: nat, s: set<Var>, vars: set<Var>): set<Var> {
    set v | v in vars && Ren(head, args, id, v) in s
  }

  lemma {:induction false} ClosedBack(s: set<Var>, head: seq<Var>, args: seq<Var>, id: nat, atoms: seq<Atom>,
                                      vars: set<Var>)
    requires ClosedAtoms(s, RenAtoms(head, args, id, atoms)) && AtomsVars(atoms) <= vars
    ensures ClosedAtoms(PulledBack(head, args, id, s, vars), atoms)
  {
    if atoms != [] {
      var first, rest := RenAtom(head, args, id, atoms[0]), RenAtoms(head, args, id, atoms[1..]);
      assert ([first] + rest)[0] == first && ([first] + rest)[1..] == rest;
      ClosedBack(s, head, args, id, atoms[1..], vars);
      RenVars(head, args, id, atoms[0]);
      forall v | v in AtomVars(atoms[0]) ensures Ren(head, args, id, v) in AtomVars(first) {}
    }
  }

  /** Renaming keeps a body connected. */
  lemma {:induction false} ConnectedRen(s: set<Var>, head: seq<Var>, args: seq<Var>, id: nat, atoms: seq<Atom>)
    requires Connected(atoms) && ClosedAtoms(s, RenAtoms(head, args, id, atoms))
    ensures Whole(s, AtomsVars(RenAtoms(head, args, id, atoms)))
  {
    var vars, body := AtomsVars(atoms), RenAtoms(head, args, id, atoms);
    var back := PulledBack(head, args, id, s, vars);
    ClosedBack(s, head, args, id, atoms, vars);
    assert Whole(back, vars);
    forall u | u in AtomsVars(body) ensures u in s <==> vars <= back {
      var v := RenAtomVarsFrom(head, args, id, atoms, u);
      assert v in vars && (v in back <==> u in s);
    }
  }

  /** The variables a call passes occur in the renamed body. */
  lemma {:induction false} PassedVars(br: Branch, ts: seq<Term>, id: nat)
    requires |br.head| == |ts| && NoDups(br.head) && Elems(br.head) <= AtomsVars(br.body)
    ensures TermVars(ts) <= AtomsVars(RenAtoms(br.head, NewArgs(ts), id, br.body))
  {
    var args := NewArgs(ts);
    forall v | v in TermVars(ts) ensures v in AtomsVars(RenAtoms(br.head, args, id, br.body)) {
      TermVarsAt(ts, v);
      var k :| 0 <= k < |ts| && ts[k] == Variable(v);
      ElemsAt(br.head, k);
      assert InSeq(br.head, br.head[k], k);
      RenIs(br.head, args, id, br.head[k]);
      RenAtomVars(br.head, args, id, br.body, br.head[k]);
    }
  }

  lemma {:induction false} ChildGrounded(f: Frame, ctx: Ctx, br: Branch, id: nat)
    requires FromCall(f.atoms) != [] && Grounded(VarsAll(f.ctx.rels), f.atoms) && Grounded({}, br.body)
    requires VarsAll(ctx.rels) == VarsAll(f.ctx.rels) + BindsAll(Lits(f.atoms))
    ensures Grounded(VarsAll(ctx.rels), Child(f, ctx, br, id).atoms)
  {
    var tail, args := FromCall(f.atoms), NewArgs(FromCall(f.atoms)[0].args);
    GroundedTail(VarsAll(f.ctx.rels), f.atoms);
    GroundedRen(br.head, args, id, {}, VarsAll(ctx.rels), br.body);
    assert VarsAll(ctx.rels) + {} == VarsAll(ctx.rels);
    GroundedConcat(VarsAll(ctx.rels), RenAtoms(br.head, args, id, br.body), tail[1..]);
  }

  /** The branch is one of the called rule: its head fits the call and occurs in its body. */
  ghost predicate Applies(br: Branch, call: Atom) {
    call.Call? && |br.head| == |call.args| && NoDups(br.head) && Elems(br.head) <= AtomsVars(br.body)
  }

  /** What is closed for a child is closed for its frame. */
  lemma {:induction false} ClosedUp(s: set<Var>, f: Frame, ctx: Ctx, br: Branch, id: nat, body: seq<Atom>)
    requires FromCall(f.atoms) != [] && Applies(br, FromCall(f.atoms)[0])
    requires body == RenAtoms(br.head, NewArgs(FromCall(f.atoms)[0].args), id, br.body)
    requires Connected(br.body) && ClosedAtoms(s, Child(f, ctx, br, id).atoms)
    ensures ClosedAtoms(s, FromCall(f.atoms)) && Whole(s, AtomsVars(body))
  {
    var tail := FromCall(f.atoms);
    ClosedAtomsConcat(s, body, tail[1..]);
    ConnectedRen(s, br.head, NewArgs(tail[0].args), id, br.body);
    PassedVars(br, tail[0].args, id);
  }

  lemma {:induction false} ChildAnchored(finals: set<Var>, f: Frame, ctx: Ctx, br: Branch, id: nat)
    requires FromCall(f.atoms) != [] && Applies(br, FromCall(f.atoms)[0]) && Connected(br.body)
    requires TermVars(FromCall(f.atoms)[0].args) != {} && AtomsVars(FromCall(f.atoms)) <= AtomsVars(f.atoms)
    requires Anchored(finals, f.ctx.rels, f.atoms)
    requires forall s: set<Var> :: ClosedRels(s, ctx.rels) && ClosedAtoms(s, FromCall(f.atoms)) ==>
               ClosedRels(s, f.ctx.rels) && ClosedAtoms(s, f.atoms)
    ensures Anchored(finals, ctx.rels, Child(f, ctx, br, id).atoms)
  {
    var c, tail := Child(f, ctx, br, id), FromCall(f.atoms);
    var body := RenAtoms(br.head, NewArgs(tail[0].args), id, br.body);
    forall s: set<Var> | ClosedAtoms(s, c.atoms) && ClosedRels(s, ctx.rels) && s !! finals
      ensures s !! AtomsVars(c.atoms)
    {
      ClosedUp(s, f, ctx, br, id, body);
      PassedVars(br, tail[0].args, id);
      var v :| v in TermVars(tail[0].args);
      assert v in AtomsVars(body) && v !in s;
      ClosedAtomsConcat(s, body, tail[1..]);
    }
  }

  lemma {:induction false} CallGrounded(vars: set<Var>, atoms: seq<Atom>)
    requires Grounded(vars, atoms) && FromCall(atoms) != []
    ensures TermVars(FromCall(atoms)[0].args) != {}
  {
    GroundedTail(vars, atoms);
  }

  /** Solving the clauses before the call leaves no set of variables closed that was not. */
  lemma {:induction false} PrefixClosed(p: Program, w: World, finals: set<Var>, f: Frame, id: nat, s: set<Var>)
    requires DifferOk(w) && FrameOk(p, w, finals, f, id) && FromCall(f.atoms) != []
    requires ResolveClauses(w, f.ctx, PrefixOf(f)).Ok? && Grounded(VarsAll(f.ctx.rels), f.atoms)
    requires ClosedRels(s, ResolveClauses(w, f.ctx, PrefixOf(f)).ctx.rels) && ClosedAtoms(s, FromCall(f.atoms))
    ensures ClosedRels(s, f.ctx.rels) && ClosedAtoms(s, f.atoms)
  {
    FrameGuards(p, w, f, map[]);
    SolvableOrder(Bound(f.ctx), PrefixOf(f));
    ResolveIsFold(w, f.ctx, PrefixOf(f));
    LitsClosed(s, w, f.ctx, f.atoms, GuardsNow(f, true));
  }

  /** Children of a connected frame are connected. */
  lemma {:induction false} ChildConnected(p: Program, w: World, finals: set<Var>, f: Frame, ctx: Ctx, br: Branch,
                                          id: nat)
    requires DifferOk(w) && FrameOk(p, w, finals, f, id) && FromCall(f.atoms) != [] && ConnectedFrame(finals, f)
    requires ResolveClauses(w, f.ctx, PrefixOf(f)) == Ok(ctx) && !HasEmpty(ctx.rels)
    requires BranchOk(p, br) && |br.head| == |FromCall(f.atoms)[0].args| && ConnectedBranch(br)
    ensures ConnectedFrame(finals, Child(f, ctx, br, id))
  {
    SolvedOk(p, w, finals, f, id);
    ChildGrounded(f, ctx, br, id);
    CallGrounded(VarsAll(f.ctx.rels), f.atoms);
    SafeWritten(br.body);
    SplitAtoms(p, w, f.atoms, map[]);
    forall s: set<Var> | ClosedRels(s, ctx.rels) && ClosedAtoms(s, FromCall(f.atoms))
      ensures ClosedRels(s, f.ctx.rels) && ClosedAtoms(s, f.atoms)
    {
      PrefixClosed(p, w, finals, f, id, s);
    }
    ChildAnchored(finals, f, ctx, br, id);
  }

  // ---------------------------------------------------------------------- runs

  lemma {:induction false} ConnectedCons(finals: set<Var>, f: Frame, rest: seq<Frame>)
    ensures ConnectedStack(finals, [f] + rest) <==> ConnectedFrame(finals, f) && ConnectedStack(finals, rest)
  {
    var all := [f] + rest;
    assert all[0] == f && all[1..] == rest;
  }

  lemma {:induction false} FirstConnected(finals: set<Var>, f: Frame, ctx: Ctx, branches: seq<Branch>, id: nat,
                                          rest: seq<Frame>)
    returns (c: Frame, more: seq<Frame>)
    requires FromCall(f.atoms) != [] && branches != [] && ConnectedFrame(finals, Child(f, ctx, branches[0], id))
    ensures ConnectedFrame(finals, c) && more == Children(f, ctx, branches[1..], id)
    ensures Children(f, ctx, branches, id) + rest == [c] + (more + rest)
  {
    c, more := Child(f, ctx, branches[0], id), Children(f, ctx, branches[1..], id);
    assert Children(f, ctx, branches, id) == [c] + more;
  }

  lemma {:induction false} ChildrenConnected(finals: set<Var>, f: Frame, ctx: Ctx, branches: seq<Branch>, id: nat,
                                             rest: seq<Frame>)
    requires FromCall(f.atoms) != [] && ConnectedStack(finals, rest)
    requires forall i :: 0 <= i < |branches| ==> ConnectedFrame(finals, Child(f, ctx, branches[i], id))
    ensures ConnectedStack(finals, Children(f, ctx, branches, id) + rest)
    decreases |branches|
  {
    if branches == [] {
      assert Children(f, ctx, branches, id) + rest == rest;
    } else {
      var c, more := FirstConnected(finals, f, ctx, branches, id, rest);
      assert forall i :: 0 <= i < |branches[1..]| ==> branches[1..][i] == branches[i + 1];
      ChildrenConnected(finals, f, ctx, branches[1..], id, rest);
      ConnectedCons(finals, c, more + rest);
    }
  }

  lemma {:induction false} ExpandConnected(p: Program, w: World, finals: set<Var>, f: Frame, id: nat, rest: seq<Frame>)
    requires DifferOk(w) && ProgramOk(p) && ConnectedRules(p) && FrameOk(p, w, finals, f, id) && FromCall(f.atoms) != []
    requires ConnectedFrame(finals, f) && ConnectedStack(finals, rest) && Expand(p, w, f, id).Expanded?
    ensures ConnectedStack(finals, Expand(p, w, f, id).frames + rest)
  {
    var ctx := ResolveClauses(w, f.ctx, PrefixOf(f)).ctx;
    var name := FromCall(f.atoms)[0].name;
    var branches := BranchesOf(p, name);
    forall i | 0 <= i < |branches| ensures ConnectedFrame(finals, Child(f, ctx, branches[i], id)) {
      BranchFits(p, w, finals, f, i, id);
      assert ConnectedBranch(branches[i]);
      ChildConnected(p, w, finals, f, ctx, branches[i], id);
    }
    ChildrenConnected(finals, f, ctx, branches, id, rest);
  }

  lemma {:induction false} StepConnected(p: Program, w: World, finals: set<Var>, s: State)
    requires DifferOk(w) && ProgramOk(p) && ConnectedRules(p) && Runnable(s) && ConnectedState(finals, s)
    requires s.State? ==> StackOk(p, w, finals, s.stack, s.seqid)
    ensures ConnectedState(finals, Step(p, w, s))
  {
    if s.State? && s.stack != [] {
      StepCases(p, w, s);
      if FromCall(s.stack[0].atoms) != [] && Expand(p, w, s.stack[0], s.seqid).Expanded? {
        ExpandConnected(p, w, finals, s.stack[0], s.seqid, s.stack[1..]);
      }
    }
  }

  lemma {:induction false} TopConnected(p: Program, w: World, goal: Atom, finals: set<Var>, s: State)
    requires Runnable(s) && ConnectedState(finals, s) && SoundState(p, w, goal, finals, s)
    ensures TopClean(w, s)
  {
    if s.State? && s.stack != [] {
      VarSetElems(s.rel.keys);
      LeafConnected(p, w, finals, s.stack[0], s.seqid, s.rel.keys);
    }
  }

  lemma {:induction false} RunConnected(p: Program, w: World, goal: Atom, finals: set<Var>, s: State, n: nat)
    requires DifferOk(w) && ProgramOk(p) && ConnectedRules(p) && goal.Call? && TermVars(goal.args) <= finals
    requires Runnable(s) && ConnectedState(finals, s) && SoundState(p, w, goal, finals, s)
    ensures RunClean(p, w, s, n)
    decreases n
  {
    if n > 0 {
      TopConnected(p, w, goal, finals, s);
      StepSound(p, w, goal, finals, s);
      StepConnected(p, w, finals, s);
      RunConnected(p, w, goal, finals, Step(p, w, s), n - 1);
    }
  }

  lemma {:induction false} InitialConnected(ctx: Ctx, goal: Atom)
    requires goal.Call? && TermVars(goal.args) != {}
    ensures ConnectedState(TermVars(goal.args), Initial(ctx, goal))
  {
    var finals, atoms := TermVars(goal.args), [goal];
    var f := Frame([], ctx, atoms, map[], []);
    assert atoms[1..] == [] && AtomsVars(atoms) == finals + {};
    assert FromCall(atoms) == atoms;
    assert Grounded(VarsAll(ctx.rels), atoms) by { assert AtomVars(atoms[0]) == finals; }
    assert Anchored(finals, ctx.rels, atoms);
    assert Initial(ctx, goal).stack == [f] && [f][1..] == [];
  }

  /** A call that passes at least one variable, to rules whose branches are connected, loses
      nothing along its run. */
  lemma {:induction false} ConnectedClean(p: Program, w: World, ctx: Ctx, goal: Atom, n: nat)
    requires DifferOk(w) && ProgramOk(p) && GoalOk(p, w, ctx, goal) && Runnable(Initial(ctx, goal))
    requires ConnectedRules(p) && TermVars(goal.args) != {}
    ensures RunClean(p, w, Initial(ctx, goal), n)
  {
    InitialSound(p, w, ctx, goal);
    InitialConnected(ctx, goal);
    RunConnected(p, w, goal, TermVars(goal.args), Initial(ctx, goal), n);
  }

  /** Soundness from the text of the rules: at any point of any run, every answer found is in
      the least fixed point. */
  lemma {:induction false} ConnectedSound(p: Program, w: World, ctx: Ctx, goal: Atom, n: nat, x: Asg)
    requires DifferOk(w) && ProgramOk(p) && GoalOk(p, w, ctx, goal) && Runnable(Initial(ctx, goal))
    requires ConnectedRules(p) && TermVars(goal.args) != {}
    ensures Run(p, w, Initial(ctx, goal), n).State? && Holds(Run(p, w, Initial(ctx, goal), n).rel, x)
            ==> Derivable(p, w, goal.name, ValsOf(map[], x, goal.args))
  {
    ConnectedClean(p, w, ctx, goal, n);
    RuleSound(p, w, ctx, goal, n, x);
  }

  /** Total correctness from the text of the rules: the solver ends, and unless a clause raised,
      its context is the old one with exactly the derivable calls. */
  lemma {:induction false} ConnectedSolved(p: Program, w: World, ctx: Ctx, goal: Atom, rank: string -> nat)
    returns (n: nat)
    requires DifferOk(w) && ProgramOk(p) && GoalOk(p, w, ctx, goal) && Runnable(Initial(ctx, goal))
    requires ConnectedRules(p) && TermVars(goal.args) != {} && BoundRules(p, rank, rank(goal.name))
    ensures Done(Run(p, w, Initial(ctx, goal), n))
    ensures Run(p, w, Initial(ctx, goal), n).State? ==> Solved(p, w, ctx, goal, Run(p, w, Initial(ctx, goal), n).rel)
  {
    n := BoundRulesSolved(p, w, ctx, goal, rank);
    ConnectedClean(p, w, ctx, goal, n);
  }

  /** The transitive closure is connected. */
  lemma {:induction false} FollowConnected()
    ensures ConnectedRules(Follow())
  {
    var x, y, z := Named("?x"), Named("?y"), Named("?z");
    Names();
    BaseConnected(x, y);
    HopConnected(x, y, z);
  }

  lemma {:induction false} BaseConnected(x: Var, y: Var)
    ensures ConnectedBranch(Branch([x, y], [Edge(x, y)]))
  {
    var body := [Edge(x, y)];
    EdgeVars(x, y);
    assert body[1..] == [];
    assert Grounded({}, body) by { assert x in AtomVars(body[0]); }
    ChainedConnected(body);
  }

  lemma {:induction false} HopConnected(x: Var, y: Var, z: Var)
    requires z != y
    ensures ConnectedBranch(Branch([x, y], [Edge(x, z), Call("follow", [Variable(z), Variable(y)])]))
  {
    var call := Call("follow", [Variable(z), Variable(y)]);
    var body, rest := [Edge(x, z), call], [call];
    EdgeVars(x, z);
    PairOf(z, y);
    assert body[1..] == rest && rest[1..] == [];
    assert z in AtomVars(call) * AtomVars(Edge(x, z));
    assert Grounded({x, z}, rest) by { assert z in AtomVars(rest[0]); }
    assert Grounded({}, body) by { assert x in AtomVars(body[0]) && {} + {x, z} == {x, z}; }
    ChainedConnected(body);
  }
}
