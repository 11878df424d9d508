/** How runs of the rule solver end: they fail only where a clause raises, and for some rule
    programs the text says that no clause does. */
module RuleOutcome {
  import opened Options
  import opened Relations
  import opened Sequences
  import opened RelationOps
  import opened Contexts
  import opened Search
  import opened Clauses
  import opened Collecting
  import opened Semantics
  import opened Schedule
  import opened Evaluator
  import opened Flat
  import opened Resolving
  import opened Rules
  import opened RuleSemantics
  import opened RuleFrames
  import opened RuleTrees
  import opened RuleSoundness
  import opened RuleCompleteness
  import opened RuleTermination
  import opened RuleStatic
  import opened RuleConnected

  // ------------------------------------------------------ only clauses that raise

  /** Resolving the clauses of the frame raises: those of a leaf, or those before a call, if
      the frame is not dropped for repeating one. */
  ghost predicate TopRaises(w: World, f: Frame)
    requires WellFormed(f.ctx.rels)
  {
    if FromCall(f.atoms) == [] then ResolveClauses(w, f.ctx, Lits(f.atoms)) == Raised
    else Pred(DIFFER, []) !in GuardsNow(f, true) && ResolveClauses(w, f.ctx, PrefixOf(f)) == Raised
  }

  /** In one of the next `n` turns a clause of the frame on top raises. */
  ghost predicate RunRaises(p: Program, w: World, s: State, n: nat)
    requires Runnable(s)
    decreases n
  {
    n > 0 && s.State? && s.stack != [] && (TopRaises(w, s.stack[0]) || RunRaises(p, w, Step(p, w, s), n - 1))
  }

  lemma {:induction false} FinishFails(w: World, f: Frame, rel: Rel)
    requires WellFormed(f.ctx.rels) && Good(rel)
    ensures Finish(w, f, rel).None? <==> ResolveClauses(w, f.ctx, Lits(f.atoms)) == Raised
  {
    var o := ResolveClauses(w, f.ctx, Lits(f.atoms));
    if o.Ok? { CollectedGood(o.ctx, rel.keys); }
  }

  /** A turn fails exactly if a clause of the frame on top raises. */
  lemma {:induction false} StepFails(p: Program, w: World, s: State)
    requires Runnable(s) && s.State?
    ensures Step(p, w, s).Failed? <==> s.stack != [] && TopRaises(w, s.stack[0])
  {
    if s.stack != [] {
      StepCases(p, w, s);
      if FromCall(s.stack[0].atoms) == [] { FinishFails(w, s.stack[0], s.rel); }
    }
  }

  /** A run fails exactly if a clause raises in one of its turns. */
  lemma {:induction false} RunFails(p: Program, w: World, s: State, n: nat)
    requires Runnable(s) && s.State?
    ensures Run(p, w, s, n).Failed? <==> RunRaises(p, w, s, n)
    decreases n
  {
    if n > 0 {
      StepFails(p, w, s);
      if s.stack == [] {
        DoneStays(p, w, s, n);
      } else if Step(p, w, s).State? {
        RunFails(p, w, Step(p, w, s), n - 1);
      } else {
        FailedStays(p, w, Step(p, w, s), n - 1);
      }
    }
  }

  lemma {:induction false} FailedStays(p: Program, w: World, s: State, n: nat)
    requires Runnable(s) && s.Failed?
    ensures Run(p, w, s, n) == s
    decreases n
  {
    if n > 0 { FailedStays(p, w, Step(p, w, s), n - 1); }
  }

  // ------------------------------------------------------ a condition on the text

  /** The arguments of predicates are in `vars` or in patterns before, and are not listed
      more often than there are such variables. */
  predicate Sure(vars: set<Var>, atoms: seq<Atom>)
    decreases |atoms|
  {
    atoms == [] || (
      && (atoms[0].Test? ==> AtomVars(atoms[0]) <= vars && |TermVarSeq(atoms[0].args)| <= |vars|)
      && Sure(vars + (if atoms[0].Match? then AtomVars(atoms[0]) else {}), atoms[1..]))
  }

  /** The value may stand in this place of a pattern. */
  predicate SlotAllows(i: nat, c: Value) {
    match i
    case 0 => c.Int?
    case 1 => c.Int? || c.Kw?
    case 3 => c.Int?
    case 4 => c.Bool?
    case _ => true
  }

  /** `kind` says which constants may be passed to each parameter of each rule. */
  type Kind = (string, nat, Value) -> bool

  /** Patterns are valid whatever is passed for the parameters in them, and calls pass on
      parameters only where they may be passed. */
  ghost predicate KindAtom(kind: Kind, name: string, head: seq<Var>, a: Atom) {
    match a
    case Match(ts) =>
      && PatternOk(map[], Pattern(ts))
      && forall i, k, c :: 0 <= i < |ts| && 0 <= k < |head| && ts[i] == Variable(head[k]) && kind(name, k, c) ==>
        SlotAllows(i, c)
    case Test(_, _) => true
    case Call(callee, ts) =>
      forall j, k, c :: 0 <= j < |ts| && 0 <= k < |head| && ts[j] == Variable(head[k]) && kind(name, k, c) ==>
        kind(callee, j, c)
  }

  ghost predicate KindAtoms(kind: Kind, name: string, head: seq<Var>, atoms: seq<Atom>) {
    atoms == [] || (KindAtom(kind, name, head, atoms[0]) && KindAtoms(kind, name, head, atoms[1..]))
  }

  /** In a call of its own rule a branch passes each parameter on unchanged, or a variable
      that is no parameter. */
  ghost predicate FreshArgs(br: Branch, ts: seq<Term>) {
    |ts| == |br.head| &&
    forall k :: 0 <= k < |ts| ==> ts[k] == Variable(br.head[k]) || (ts[k].Variable? && ts[k].v !in Elems(br.head))
  }

  ghost predicate SureBranch(kind: Kind, name: string, br: Branch) {
    && Sure({}, br.body) && KindAtoms(kind, name, br.head, br.body)
    && (FromCall(br.body) != [] && FromCall(br.body)[0].name == name ==> FreshArgs(br, FromCall(br.body)[0].args))
  }

  ghost predicate SureRules(p: Program, kind: Kind) {
    forall name, i :: name in p && 0 <= i < |p[name]| ==> SureBranch(kind, name, p[name][i])
  }

  // --------------------------------------------------------------- what frames keep

  function ConstOf(consts: map<Var, Value>, t: Term): Option<Value> {
    match t
    case Constant(c) => Some(c)
    case Variable(v) => if v in consts then Some(consts[v]) else None
    case Blank => None
  }

  /** The constants fit where they stand. */
  ghost predicate AtomFits(kind: Kind, consts: map<Var, Value>, a: Atom) {
    match a
    case Match(ts) => PatternOk(consts, Pattern(ts))
    case Test(_, _) => true
    case Call(name, ts) =>
      forall k :: 0 <= k < |ts| && ConstOf(consts, ts[k]).Some? ==> kind(name, k, ConstOf(consts, ts[k]).value)
  }

  ghost predicate AtomsFit(kind: Kind, consts: map<Var, Value>, atoms: seq<Atom>) {
    atoms == [] || (AtomFits(kind, consts, atoms[0]) && AtomsFit(kind, consts, atoms[1..]))
  }

  /** Where the calls are written differently, the new one passes a variable that the earlier
      one does not. */
  ghost predicate Fresher(xs: seq<Term>, ys: seq<Term>) {
    |xs| == |ys| && forall k :: 0 <= k < |xs| ==> xs[k] == ys[k] || (xs[k].Variable? && xs[k].v !in TermVars(ys))
  }

  ghost predicate AllFresher(xs: seq<Term>, calls: seq<seq<Term>>) {
    forall i :: 0 <= i < |calls| ==> Fresher(xs, calls[i])
  }

  ghost predicate PlainCalls(calls: seq<seq<Term>>, id: nat) {
    forall i :: 0 <= i < |calls| ==> DistinctVars(calls[i]) && AllOlder(TermVars(calls[i]), id)
  }

  ghost predicate PlainUsed(used: map<string, seq<seq<Term>>>, id: nat) {
    forall name :: name in used ==> PlainCalls(used[name], id)
  }

  ghost predicate SureFrame(kind: Kind, f: Frame, id: nat) {
    && Sure(VarsAll(f.ctx.rels), f.atoms) && AtomsFit(kind, f.ctx.consts, f.atoms)
    && ClausesVars(f.prefix) <= Bound(f.ctx) && PlainUsed(f.used, id)
    && (FromCall(f.atoms) != [] ==>
      AllFresher(FromCall(f.atoms)[0].args, EarlierCalls(f.used, FromCall(f.atoms)[0].name)))
  }

  // -------------------------------------------------------------- no frame raises

  lemma {:induction false} CheckedSet(s: Scope, vs: seq<Var>, vars: set<Var>)
    requires VarSet(vs) <= vars <= InScope(s) && |vs| <= |vars|
    ensures Checked(s, vs)
  {
    Smaller(vars, InScope(s));
  }

  lemma {:induction false} SureAtom(kind: Kind, s: Scope, a: Atom)
    requires !a.Call? && AtomFits(kind, s.consts, a)
    requires a.Test? ==> AtomVars(a) <= s.vars && |TermVarSeq(a.args)| <= |s.vars|
    ensures Resolves(s, LitOf(a))
            && After(s, LitOf(a)) == Scope(s.vars + (if a.Match? then AtomVars(a) else {}), true, s.consts)
  {
    if a.Test? {
      TermVarSeqSet(a.args);
      CheckedSet(s, TermVarSeq(a.args), s.vars);
      assert s.vars + {} == s.vars;
    }
  }

  lemma {:induction false} AfterCons(s: Scope, c: Clause, cs: seq<Clause>)
    ensures AfterAll(s, [c] + cs) == AfterAll(After(s, c), cs)
            && InTurn(s, [c] + cs) == (Resolves(s, c) && InTurn(After(s, c), cs))
  {
    assert ([c] + cs)[0] == c && ([c] + cs)[1..] == cs;
    assert s.vars + BindsAll([c] + cs) == s.vars + Binds(c) + BindsAll(cs);
  }

  /** The atoms before the call resolve, and then the guards. */
  lemma {:induction false} SureLits(kind: Kind, s: Scope, atoms: seq<Atom>, gs: seq<Clause>)
    requires Sure(s.vars, atoms) && AtomsFit(kind, s.consts, atoms)
    requires InTurn(AfterAll(s, Lits(atoms)), gs)
    ensures InTurn(s, Lits(atoms) + gs)
    decreases |atoms|
  {
    if atoms == [] || atoms[0].Call? {
      assert Lits(atoms) + gs == gs && AfterAll(s, Lits(atoms)) == s;
    } else {
      var c, more := LitOf(atoms[0]), Lits(atoms[1..]);
      LitsCons(atoms, gs);
      assert Lits(atoms) == [c] + more;
      AfterCons(s, c, more);
      AfterCons(s, c, more + gs);
      SureAtom(kind, s, atoms[0]);
      SureLits(kind, After(s, c), atoms[1..], gs);
    }
  }

  /** Guards resolve whose arguments are bound and listed once. */
  lemma {:induction false} GuardsInTurn(s: Scope, gs: seq<Clause>)
    requires forall g :: g in gs ==> g.Pred? && Checked(s, TermVarSeq(g.args))
    ensures InTurn(s, gs)
    decreases |gs|
  {
    if gs != [] {
      assert gs[0] in gs;
      forall g | g in gs[1..] ensures g.Pred? && Checked(After(s, gs[0]), TermVarSeq(g.args)) {
        assert g in gs;
        assert InScope(After(s, gs[0])) == InScope(s);
      }
      GuardsInTurn(After(s, gs[0]), gs[1..]);
    }
  }

  lemma {:induction false} SeqConcat(s: seq<Term>, t: seq<Term>)
    ensures TermVarSeq(s + t) == TermVarSeq(s) + TermVarSeq(t)
  {
    if s == [] {
      assert s + t == t;
    } else {
      var rest := s[1..];
      SeqConcat(rest, t);
      TermVarsCons(s[0], rest + t);
      assert s + t == [s[0]] + (rest + t);
      var own: seq<Var> := if s[0].Variable? then [s[0].v] else [];
      assert own + (TermVarSeq(rest) + TermVarSeq(t)) == own + TermVarSeq(rest) + TermVarSeq(t);
    }
  }

  lemma {:induction false} DistinctTail(ts: seq<Term>)
    requires ts != [] && DistinctVars(ts)
    ensures DistinctVars(ts[1..]) && (ts[0].Variable? ==> ts[0].v !in TermVars(ts[1..]))
  {
    var rest := ts[1..];
    forall i, j | 0 <= i < j < |rest| && rest[i].Variable? && rest[j].Variable? ensures rest[i] != rest[j] {
      assert rest[i] == ts[i + 1] && rest[j] == ts[j + 1];
    }
    if ts[0].Variable? {
      forall i | 0 <= i < |rest| ensures rest[i] != ts[0] { assert rest[i] == ts[i + 1]; }
      TermVarsAt(rest, ts[0].v);
    }
  }

  lemma {:induction false} FresherTail(xs: seq<Term>, ys: seq<Term>)
    requires Fresher(xs, ys) && xs != []
    ensures Fresher(xs[1..], ys[1..]) && (xs[0] != ys[0] ==> xs[0].Variable? && xs[0].v !in TermVars(ys))
  {
    forall k | 0 <= k < |xs| - 1
      ensures xs[1..][k] == ys[1..][k] || (xs[1..][k].Variable? && xs[1..][k].v !in TermVars(ys[1..]))
    {
      assert xs[1..][k] == xs[k + 1] && ys[1..][k] == ys[k + 1];
    }
  }

  /** The differing arguments, each list without repetitions, and the lists apart. */
  lemma {:induction false} DifferingApart(xs: seq<Term>, ys: seq<Term>)
    requires DistinctVars(xs) && DistinctVars(ys) && Fresher(xs, ys)
    ensures var d := DifferingArgs(xs, ys);
            && NoDups(TermVarSeq(d.0)) && NoDups(TermVarSeq(d.1))
            && TermVars(d.0) <= TermVars(xs) && TermVars(d.1) <= TermVars(ys) && TermVars(d.0) !! TermVars(ys)
  {
    if xs != [] {
      var (x, y, r) := (xs[0], ys[0], DifferingArgs(xs[1..], ys[1..]));
      DistinctTail(xs);
      DistinctTail(ys);
      FresherTail(xs, ys);
      DifferingApart(xs[1..], ys[1..]);
      DifferingVars(xs, ys);
      if x != y {
        ConsNoDups(x, r.0);
        ConsNoDups(y, r.1);
        TermVarsCons(x, r.0);
        TermVarsCons(y, r.1);
      }
      FresherVars(xs, ys);
    }
  }

  /** No differing argument of the new call is passed by the earlier one. */
  lemma {:induction false} FresherVars(xs: seq<Term>, ys: seq<Term>)
    requires Fresher(xs, ys)
    ensures TermVars(DifferingArgs(xs, ys).0) !! TermVars(ys)
  {
    forall v | v in TermVars(DifferingArgs(xs, ys).0) ensures v !in TermVars(ys) {
      var k := DifferingAt(xs, ys, v);
      assert xs[k] == ys[k] || xs[k].v !in TermVars(ys);
    }
  }

  lemma {:induction false} DifferingAt(xs: seq<Term>, ys: seq<Term>, v: Var) returns (k: nat)
    requires |xs| == |ys| && v in TermVars(DifferingArgs(xs, ys).0)
    ensures k < |xs| && xs[k] == Variable(v) && xs[k] != ys[k]
  {
    var r := DifferingArgs(xs[1..], ys[1..]);
    if xs[0] != ys[0] && xs[0] == Variable(v) {
      k := 0;
    } else {
      if xs[0] != ys[0] { TermVarsCons(xs[0], r.0); }
      k := DifferingAt(xs[1..], ys[1..], v);
      k := k + 1;
    }
  }

  lemma {:induction false} TermVarsCons(t: Term, ts: seq<Term>)
    ensures TermVars([t] + ts) == (if t.Variable? then {t.v} else {}) + TermVars(ts)
    ensures TermVarSeq([t] + ts) == (if t.Variable? then [t.v] else []) + TermVarSeq(ts)
  {
    assert ([t] + ts)[1..] == ts;
  }

  lemma {:induction false} ConsNoDups(t: Term, ts: seq<Term>)
    requires NoDups(TermVarSeq(ts)) && (t.Variable? ==> t.v !in TermVars(ts))
    ensures NoDups(TermVarSeq([t] + ts))
  {
    TermVarsCons(t, ts);
    TermVarSeqSet(ts);
    VarSetElems(TermVarSeq(ts));
    if t.Variable? {
      assert [t.v][..0] == [] && Elems([t.v]) == {t.v} && NoDups([t.v]);
      NoDupsAppend([t.v], TermVarSeq(ts));
    } else {
      assert [] + TermVarSeq(ts) == TermVarSeq(ts);
    }
  }

  /** A guard between such calls lists no variable twice. */
  lemma {:induction false} GuardOnce(xs: seq<Term>, ys: seq<Term>)
    requires DistinctVars(xs) && DistinctVars(ys) && Fresher(xs, ys)
    ensures NoDups(TermVarSeq(Guard(xs, ys).args))
  {
    var d := DifferingArgs(xs, ys);
    DifferingApart(xs, ys);
    SeqConcat(d.0, d.1);
    TermVarSeqSet(d.0);
    TermVarSeqSet(d.1);
    VarSetElems(TermVarSeq(d.0));
    VarSetElems(TermVarSeq(d.1));
    NoDupsAppend(TermVarSeq(d.0), TermVarSeq(d.1));
  }

  lemma {:induction false} OnceChecked(s: Scope, args: seq<Term>)
    requires TermVars(args) <= InScope(s) && NoDups(TermVarSeq(args))
    ensures Checked(s, TermVarSeq(args))
  {
    TermVarSeqSet(args);
    CountDistinct(TermVarSeq(args));
    CheckedSet(s, TermVarSeq(args), TermVars(args));
  }

  lemma {:induction false} CheckableFrom(vars: set<Var>, gs: seq<Clause>, g: Clause)
    requires g in Checkable(vars, gs, true)
    ensures g in gs && g.Pred? && Covered(vars, g.args)
  {
    var first, more := if (gs[0].Pred? && Covered(vars, gs[0].args))
        == true then [gs[0]] else [], Checkable(vars, gs[1..], true);
    assert Checkable(vars, gs, true) == first + more;
    if g !in first { CheckableFrom(vars, gs[1..], g); }
  }

  lemma {:induction false} CoveredIs(vars: set<Var>, ts: seq<Term>)
    requires Covered(vars, ts)
    ensures AllVariables(ts) && TermVars(ts) <= vars
  {
    if ts != [] { CoveredIs(vars, ts[1..]); }
  }

  lemma {:induction false} SureVars(vars: set<Var>, atoms: seq<Atom>)
    requires Sure(vars, atoms)
    ensures ClausesVars(Lits(atoms)) <= vars + BindsAll(Lits(atoms))
    decreases |atoms|
  {
    if atoms != [] && !atoms[0].Call? {
      var own := if atoms[0].Match? then AtomVars(atoms[0]) else {};
      var c, more := LitOf(atoms[0]), Lits(atoms[1..]);
      assert Lits(atoms) == [c] + more && ([c] + more)[1..] == more;
      SureVars(vars + own, atoms[1..]);
    }
  }

  /** The guards that a frame checks resolve. */
  lemma {:induction false} GuardChecked(p: Program, kind: Kind, f: Frame, id: nat, s: Scope, g: Clause)
    requires AtomsOk(p, f.atoms) && UsedOk(p, f.used) && AllOpen(f.pending) && SureFrame(kind, f, id)
             && FromCall(f.atoms) != []
    requires g in GuardsNow(f, true) && s == AfterAll(ScopeOf(f.ctx), Lits(f.atoms))
    ensures g.Pred? && Checked(s, TermVarSeq(g.args))
  {
    var a, vars := FromCall(f.atoms)[0], ClausesVars(f.prefix + Lits(f.atoms));
    var calls := EarlierCalls(f.used, a.name);
    CheckableFrom(vars, GuardsOf(f), g);
    CoveredIs(vars, g.args);
    VarsConcat(f.prefix, Lits(f.atoms));
    SureVars(VarsAll(f.ctx.rels), f.atoms);
    if g in f.pending {
      OpenIn(f.pending, g);
    } else {
      var i := GuardOf(a.args, calls, g);
      CallArity(p, f);
      GuardOnce(a.args, calls[i]);
      OnceChecked(s, g.args);
    }
  }

  /** A list of patterns and predicates that resolve in their turn resolves. */
  lemma {:induction false} InTurnResolves(w: World, ctx: Ctx, cs: seq<Clause>)
    requires WellFormed(ctx.rels) && Solvable(cs) && InTurn(ScopeOf(ctx), cs)
    ensures ResolveClauses(w, ctx, cs).Ok?
  {
    SolvableOrder(InScope(ScopeOf(ctx)), cs);
    ClausesResolve(w, ctx, cs);
  }

  lemma {:induction false} PrefixSure(p: Program, kind: Kind, f: Frame, id: nat, s: Scope)
    requires AtomsOk(p, f.atoms) && UsedOk(p, f.used) && AllOpen(f.pending) && SureFrame(kind, f, id)
             && FromCall(f.atoms) != []
    requires s == ScopeOf(f.ctx)
    ensures InTurn(s, PrefixOf(f))
  {
    var end := AfterAll(s, Lits(f.atoms));
    forall g | g in GuardsNow(f, true) ensures g.Pred? && Checked(end, TermVarSeq(g.args)) {
      GuardChecked(p, kind, f, id, end, g);
    }
    GuardsInTurn(end, GuardsNow(f, true));
    SureLits(kind, s, f.atoms, GuardsNow(f, true));
  }

  lemma {:induction false} LeafInTurn(kind: Kind, s: Scope, atoms: seq<Atom>, cs: seq<Clause>)
    requires Sure(s.vars, atoms) && AtomsFit(kind, s.consts, atoms) && cs == Lits(atoms)
    ensures InTurn(s, cs)
  {
    SureLits(kind, s, atoms, []);
    assert cs + [] == cs;
  }

  /** The clauses of such a frame do not raise: those of a leaf, and those before a call. */
  lemma {:induction false} LeafSure(p: Program, w: World, kind: Kind, f: Frame)
    requires WellFormed(f.ctx.rels) && AtomsOk(p, f.atoms)
             && Sure(VarsAll(f.ctx.rels), f.atoms) && AtomsFit(kind, f.ctx.consts, f.atoms)
    ensures ResolveClauses(w, f.ctx, Lits(f.atoms)).Ok?
  {
    SplitAtoms(p, w, f.atoms, map[]);
    LeafInTurn(kind, ScopeOf(f.ctx), f.atoms, Lits(f.atoms));
    InTurnResolves(w, f.ctx, Lits(f.atoms));
  }

  lemma {:induction false} CallSure(p: Program, w: World, kind: Kind, f: Frame, id: nat)
    requires WellFormed(f.ctx.rels) && DifferOk(w) && AtomsOk(p, f.atoms) && AllPreds(f.pending) && UsedOk(p, f.used)
    requires AllOpen(f.pending) && SureFrame(kind, f, id) && FromCall(f.atoms) != []
    ensures ResolveClauses(w, f.ctx, PrefixOf(f)).Ok?
  {
    FrameGuards(p, w, f, map[]);
    PrefixSure(p, kind, f, id, ScopeOf(f.ctx));
    InTurnResolves(w, f.ctx, PrefixOf(f));
  }

  lemma {:induction false} FrameSure(p: Program, w: World, kind: Kind, finals: set<Var>, f: Frame, id: nat)
    requires DifferOk(w) && FrameOk(p, w, finals, f, id) && AllOpen(f.pending) && SureFrame(kind, f, id)
    ensures !TopRaises(w, f)
  {
    if FromCall(f.atoms) == [] { LeafSure(p, w, kind, f); } else { CallSure(p, w, kind, f, id); }
  }

  // ------------------------------------------------- children: predicates in scope

  lemma {:induction false} SureMore(vars: set<Var>, more: set<Var>, atoms: seq<Atom>)
    requires Sure(vars, atoms) && vars <= more
    ensures Sure(more, atoms)
    decreases |atoms|
  {
    if atoms != [] {
      var own := if atoms[0].Match? then AtomVars(atoms[0]) else {};
      Smaller(vars, more);
      SureMore(vars + own, more + own, atoms[1..]);
    }
  }

  lemma {:induction false} SureConcat(vars: set<Var>, x: seq<Atom>, y: seq<Atom>)
    requires Sure(vars, x) && Sure(vars, y)
    ensures Sure(vars, x + y)
    decreases |x|
  {
    if x == [] {
      assert x + y == y;
    } else {
      var own := if x[0].Match? then AtomVars(x[0]) else {};
      assert (x + y)[0] == x[0] && (x + y)[1..] == x[1..] + y;
      SureMore(vars, vars + own, y);
      SureConcat(vars + own, x[1..], y);
    }
  }

  lemma {:induction false} SureTail(vars: set<Var>, atoms: seq<Atom>, all: set<Var>)
    requires Sure(vars, atoms) && all == vars + BindsAll(Lits(atoms))
    ensures Sure(all, FromCall(atoms))
    decreases |atoms|
  {
    if atoms == [] || atoms[0].Call? {
      assert all == vars;
    } else {
      var own := if atoms[0].Match? then AtomVars(atoms[0]) else {};
      var c, more := LitOf(atoms[0]), Lits(atoms[1..]);
      assert Lits(atoms) == [c] + more && ([c] + more)[1..] == more;
      assert all == vars + own + BindsAll(more);
      SureTail(vars + own, atoms[1..], all);
    }
  }

  /** What renaming needs to keep variables apart. */
  ghost predicate KeepsApart(head: seq<Var>, args: seq<Var>, id: nat) {
    |head| == |args| && NoDups(head) && NoDups(args) && AllOlder(Elems(args), id)
  }

  lemma {:induction false} ImageCount(head: seq<Var>, args: seq<Var>, id: nat, vars: set<Var>, more: set<Var>)
    requires KeepsApart(head, args, id) && Renames(head, args, id, vars, more)
    ensures |vars| <= |more|
  {
    if vars != {} {
      var v :| v in vars;
      var u := Ren(head, args, id, v);
      forall z | z in vars - {v} ensures Ren(head, args, id, z) in more - {u} {
        if Ren(head, args, id, z) == u { RenInjective(head, args, id, z, v); }
      }
      ImageCount(head, args, id, vars - {v}, more - {u});
    }
  }

  lemma {:induction false} RenCount(head: seq<Var>, args: seq<Var>, id: nat, ts: seq<Term>)
    ensures |TermVarSeq(RenTerms(head, args, id, ts))| == |TermVarSeq(ts)|
  {
    if ts != [] {
      RenCount(head, args, id, ts[1..]);
      assert RenTerms(head, args, id, ts)[1..] == RenTerms(head, args, id, ts[1..]);
    }
  }

  lemma {:induction false} SureRen(head: seq<Var>, args: seq<Var>, id: nat, vars: set<Var>, more: set<Var>,
                                   atoms: seq<Atom>)
    requires KeepsApart(head, args, id) && Sure(vars, atoms) && Renames(head, args, id, vars, more)
    ensures Sure(more, RenAtoms(head, args, id, atoms))
    decreases |atoms|
  {
    if atoms != [] {
      var first, rest := RenAtom(head, args, id, atoms[0]), RenAtoms(head, args, id, atoms[1..]);
      var own := if atoms[0].Match? then AtomVars(atoms[0]) else {};
      var renamed := if first.Match? then AtomVars(first) else {};
      RenVars(head, args, id, atoms[0]);
      assert Renames(head, args, id, vars + own, more + renamed);
      SureRen(head, args, id, vars + own, more + renamed, atoms[1..]);
      ImageCount(head, args, id, vars, more);
      if atoms[0].Test? { RenCount(head, args, id, atoms[0].args); }
      assert ([first] + rest)[0] == first && ([first] + rest)[1..] == rest;
    }
  }

  lemma {:induction false} ChildSure(f: Frame, ctx: Ctx, br: Branch, id: nat)
    requires FromCall(f.atoms) != [] && Sure(VarsAll(f.ctx.rels), f.atoms) && Sure({}, br.body)
    requires KeepsApart(br.head, NewArgs(FromCall(f.atoms)[0].args), id)
    requires VarsAll(ctx.rels) == VarsAll(f.ctx.rels) + BindsAll(Lits(f.atoms))
    ensures Sure(VarsAll(ctx.rels), Child(f, ctx, br, id).atoms)
  {
    var tail, args, vars := FromCall(f.atoms), NewArgs(FromCall(f.atoms)[0].args), VarsAll(ctx.rels);
    SureTail(VarsAll(f.ctx.rels), f.atoms, vars);
    assert vars + {} == vars;
    SureRen(br.head, args, id, {}, vars, br.body);
    SureConcat(vars, RenAtoms(br.head, args, id, br.body), tail[1..]);
  }

  // ------------------------------------------------------- children: constants fit

  /** A pattern is valid exactly if the constants in it may stand where they are. */
  lemma {:induction false} PatternFits(consts: map<Var, Value>, ts: seq<Term>)
    ensures PatternOk(consts, Pattern(ts)) <==>
        |ts| <= 5 && forall i ::
            0 <= i < |ts| && ConstOf(consts, ts[i]).Some? && ConstOf(consts, ts[i]).value != Nil ==>
          SlotAllows(i, ConstOf(consts, ts[i]).value)
  {
    var ctx := Ctx([], consts);
    if |ts| <= 5 {
      var slots := SlotsOf(ctx, ts);
      forall i | 0 <= i < |ts|
        ensures slots[i].Const? <==> ConstOf(consts, ts[i]).Some? && ConstOf(consts, ts[i]).value != Nil
        ensures slots[i].Const? ==> slots[i].c == ConstOf(consts, ts[i]).value
      {}
      if ValidSlots(slots) {
        forall i | 0 <= i < |ts| && ConstOf(consts, ts[i]).Some? && ConstOf(consts, ts[i]).value != Nil
          ensures SlotAllows(i, ConstOf(consts, ts[i]).value)
        {
          assert slots[i].Const?;
        }
      }
      forall i | |ts| <= i < 5 ensures slots[i] == Wild {}
    }
  }

  /** The value a renamed variable has as a constant is one that the call passes. */
  lemma {:induction false} RenConst(kind: Kind, name: string, head: seq<Var>, ts: seq<Term>, id: nat,
                                    consts: map<Var, Value>, v: Var)
    requires |head| == |ts| && NoDups(head) && AllOlder(consts.Keys, id) && PlainArgs(ts)
    requires (forall k :: 0 <= k < |ts| ==> ts[k] != Blank) && AtomFits(kind, consts, Call(name, ts))
    requires Ren(head, NewArgs(ts), id, v) in consts + ArgConsts(ts)
    ensures exists k ::
        0 <= k < |head| && head[k] == v && kind(name, k, (consts + ArgConsts(ts))[Ren(head, NewArgs(ts), id, v)])
  {
    var u, all := Ren(head, NewArgs(ts), id, v), consts + ArgConsts(ts);
    RenIs(head, NewArgs(ts), id, v);
    if k :| InSeq(head, v, k) && u == NewArgs(ts)[k] {
      if ts[k].Constant? {
        assert ArgConsts(ts)[Auto(k)] == ts[k].c && ConstOf(consts, ts[k]) == Some(ts[k].c);
      } else {
        PassedConst(ts, k);
        assert ConstOf(consts, ts[k]) == Some(consts[u]) && all[u] == consts[u];
      }
    }
  }

  /** A variable that is passed is not the name of a constant that is passed. */
  lemma {:induction false} PassedConst(ts: seq<Term>, k: nat)
    requires k < |ts| && ts[k].Variable? && PlainArgs(ts)
    ensures ts[k].v !in ArgConsts(ts)
  {
    if AllVariables(ts) {
      NoArgConsts(ts);
    } else {
      TermVarsAt(ts, ts[k].v);
    }
  }

  lemma {:induction false} RenFits(kind: Kind, name: string, head: seq<Var>, ts: seq<Term>, id: nat,
                                   consts: map<Var, Value>, a: Atom)
    requires |head| == |ts| && NoDups(head) && AllOlder(consts.Keys, id) && PlainArgs(ts)
    requires (forall k :: 0 <= k < |ts| ==> ts[k] != Blank) && AtomFits(kind, consts, Call(name, ts))
    requires KindAtom(kind, name, head, a) && (a.Call? ==> AllVariables(a.args))
    ensures AtomFits(kind, consts + ArgConsts(ts), RenAtom(head, NewArgs(ts), id, a))
  {
    var all, args := consts + ArgConsts(ts), NewArgs(ts);
    match a
    case Match(us) =>
      var rs := RenTerms(head, args, id, us);
      PatternFits(map[], us);
      PatternFits(all, rs);
      forall i | 0 <= i < |rs| && ConstOf(all, rs[i]).Some? && ConstOf(all, rs[i]).value != Nil
        ensures SlotAllows(i, ConstOf(all, rs[i]).value)
      {
        if us[i].Variable? {
          RenConst(kind, name, head, ts, id, consts, us[i].v);
        } else {
          assert ConstOf(map[], us[i]) == ConstOf(all, rs[i]);
        }
      }
    case Test(_, _) =>
    case Call(callee, us) =>
      var rs := RenTerms(head, args, id, us);
      forall j | 0 <= j < |rs| && ConstOf(all, rs[j]).Some? ensures kind(callee, j, ConstOf(all, rs[j]).value) {
        AllVariablesAt(us, j);
        RenConst(kind, name, head, ts, id, consts, us[j].v);
      }
  }

  lemma {:induction false} RenAllFit(kind: Kind, name: string, head: seq<Var>, ts: seq<Term>, id: nat,
                                     consts: map<Var, Value>, atoms: seq<Atom>)
    requires |head| == |ts| && NoDups(head) && AllOlder(consts.Keys, id) && PlainArgs(ts)
    requires (forall k :: 0 <= k < |ts| ==> ts[k] != Blank) && AtomFits(kind, consts, Call(name, ts))
    requires KindAtoms(kind, name, head, atoms) && VarCalls(atoms)
    ensures AtomsFit(kind, consts + ArgConsts(ts), RenAtoms(head, NewArgs(ts), id, atoms))
    decreases |atoms|
  {
    if atoms != [] {
      var first, rest := RenAtom(head, NewArgs(ts), id, atoms[0]), RenAtoms(head, NewArgs(ts), id, atoms[1..]);
      RenFits(kind, name, head, ts, id, consts, atoms[0]);
      RenAllFit(kind, name, head, ts, id, consts, atoms[1..]);
      assert ([first] + rest)[0] == first && ([first] + rest)[1..] == rest;
    }
  }

  lemma {:induction false} FitConcat(kind: Kind, consts: map<Var, Value>, x: seq<Atom>, y: seq<Atom>)
    ensures AtomsFit(kind, consts, x + y) <==> AtomsFit(kind, consts, x) && AtomsFit(kind, consts, y)
  {
    if x == [] {
      assert x + y == y;
    } else {
      assert (x + y)[0] == x[0] && (x + y)[1..] == x[1..] + y;
      FitConcat(kind, consts, x[1..], y);
    }
  }

  lemma {:induction false} FitTail(kind: Kind, consts: map<Var, Value>, atoms: seq<Atom>)
    requires AtomsFit(kind, consts, atoms)
    ensures AtomsFit(kind, consts, FromCall(atoms))
  {
    if atoms != [] && !atoms[0].Call? { FitTail(kind, consts, atoms[1..]); }
  }

  lemma {:induction false} ChildFits(p: Program, w: World, kind: Kind, finals: set<Var>, f: Frame, br: Branch, id: nat)
    requires FrameOk(p, w, finals, f, id) && FromCall(f.atoms) != [] && AtomsFit(kind, f.ctx.consts, f.atoms)
    requires BranchOk(p, br) && |br.head| == |FromCall(f.atoms)[0].args|
             && KindAtoms(kind, FromCall(f.atoms)[0].name, br.head, br.body)
    ensures AtomsFit(kind, f.ctx.consts + ArgConsts(FromCall(f.atoms)[0].args), Child(f, f.ctx, br, id).atoms)
  {
    var tail, consts := FromCall(f.atoms), f.ctx.consts;
    var ts := tail[0].args;
    var body := RenAtoms(br.head, NewArgs(ts), id, br.body);
    CallOk(p, w, finals, f, id);
    FitTail(kind, consts, f.atoms);
    assert AtomsFit(kind, consts, tail[1..]);
    RenAllFit(kind, tail[0].name, br.head, ts, id, consts, br.body);
    FitConcat(kind, consts + ArgConsts(ts), body, tail[1..]);
    if VarCalls(f.atoms) {
      SplitAtoms(p, w, f.atoms, map[]);
      NoArgConsts(ts);
      assert consts + map[] == consts;
    } else {
      assert tail[1..] == [];
    }
  }

  // --------------------------------------------------------- children: fresh calls

  /** A variable made up for an expansion is in no earlier call. */
  lemma {:induction false} NewIsFresh(head: seq<Var>, args: seq<Var>, id: nat, v: Var, ys: seq<Term>)
    requires |head| == |args| && NoDups(head) && v !in Elems(head) && AllOlder(TermVars(ys), id)
    ensures Ren(head, args, id, v) == Renamed(v, id) && Renamed(v, id) !in TermVars(ys)
  {
    RenIs(head, args, id, v);
    forall k ensures !InSeq(head, v, k) { if InSeq(head, v, k) { ElemsAt(head, k); } }
    assert !Older(Renamed(v, id), id);
  }

  /** The recursive call is fresher than the call it comes from. */
  lemma {:induction false} FreshLink(br: Branch, a: seq<Term>, id: nat, ts: seq<Term>)
    requires |a| == |br.head| && NoDups(br.head) && FreshArgs(br, ts) && PlainArgs(a) && AllOlder(TermVars(a), id)
    requires forall k :: 0 <= k < |a| ==> a[k] != Blank
    ensures Fresher(RenTerms(br.head, NewArgs(a), id, ts), a)
  {
    var bs, args := RenTerms(br.head, NewArgs(a), id, ts), NewArgs(a);
    forall k | 0 <= k < |bs| ensures bs[k] == a[k] || (bs[k].Variable? && bs[k].v !in TermVars(a)) {
      if ts[k] == Variable(br.head[k]) {
        RenIs(br.head, args, id, br.head[k]);
        assert InSeq(br.head, br.head[k], k);
        if a[k].Constant? { AutoUnused(a, k); }
      } else {
        NewIsFresh(br.head, args, id, ts[k].v, a);
      }
    }
  }

  lemma {:induction false} AutoUnused(a: seq<Term>, k: nat)
    requires k < |a| && a[k].Constant? && PlainArgs(a)
    ensures Auto(k) !in TermVars(a)
  {
    if AllVariables(a) { AllVariablesAt(a, k); }
  }

  /** ... and than the calls that one is fresher than. */
  lemma {:induction false} FreshEarlier(br: Branch, a: seq<Term>, id: nat, ts: seq<Term>, ys: seq<Term>)
    requires |a| == |br.head| && NoDups(br.head) && FreshArgs(br, ts) && AllVariables(a)
    requires Fresher(a, ys) && AllOlder(TermVars(ys), id)
    ensures Fresher(RenTerms(br.head, NewArgs(a), id, ts), ys)
  {
    var bs, args := RenTerms(br.head, NewArgs(a), id, ts), NewArgs(a);
    forall k | 0 <= k < |bs| ensures bs[k] == ys[k] || (bs[k].Variable? && bs[k].v !in TermVars(ys)) {
      AllVariablesAt(a, k);
      if ts[k] == Variable(br.head[k]) {
        RenIs(br.head, args, id, br.head[k]);
        assert InSeq(br.head, br.head[k], k);
        assert bs[k] == a[k];
      } else {
        NewIsFresh(br.head, args, id, ts[k].v, ys);
      }
    }
  }

  /** The call of a child is the renamed call of the branch. */
  lemma {:induction false} RenamedCall(f: Frame, ctx: Ctx, br: Branch, id: nat, a: Atom)
    requires FromCall(f.atoms) != [] && Calls(f.atoms) <= 1 && a == FromCall(f.atoms)[0] && |br.head| == |a.args|
    ensures var calls := FromCall(Child(f, ctx, br, id).atoms);
            && (calls != [] <==> FromCall(br.body) != [])
            && (calls != [] ==> calls[0] == RenAtom(br.head, NewArgs(a.args), id, FromCall(br.body)[0]))
  {
    var rest := FromCall(f.atoms)[1..];
    CallAfter(f.atoms);
    NoCall(rest);
    LitsRen(br.head, NewArgs(a.args), id, br.body, rest, Auto(0));
  }

  lemma {:induction false} UsedCalls(f: Frame, used: map<string, seq<seq<Term>>>, a: Atom, name: string)
    requires FromCall(f.atoms) != [] && a == FromCall(f.atoms)[0] && used == UsedAfter(f)
    ensures EarlierCalls(used, name) == EarlierCalls(f.used, name) + (if name == a.name then [a.args] else [])
  {
    assert EarlierCalls(f.used, name) + [] == EarlierCalls(f.used, name);
  }

  /** The call of a child is fresher than all earlier calls of its rule. */
  lemma {:induction false} ChildFresher(p: Program, w: World, kind: Kind, rank: string -> nat, top: nat,
                                        finals: set<Var>, f: Frame, ctx: Ctx, br: Branch, id: nat)
    requires FrameOk(p, w, finals, f, id) && StaticFrame(rank, top, f) && SureFrame(kind, f, id)
             && FromCall(f.atoms) != []
    requires BranchOk(p, br) && |br.head| == |FromCall(f.atoms)[0].args|
    requires BoundBranch(rank, FromCall(f.atoms)[0].name, br) && SureBranch(kind, FromCall(f.atoms)[0].name, br)
    ensures var c := Child(f, ctx, br, id);
            FromCall(c.atoms) != [] ==>
              AllFresher(FromCall(c.atoms)[0].args, EarlierCalls(c.used, FromCall(c.atoms)[0].name))
  {
    var c, a := Child(f, ctx, br, id), FromCall(f.atoms)[0];
    var calls := EarlierCalls(f.used, a.name);
    CallOk(p, w, finals, f, id);
    RenamedCall(f, ctx, br, id, a);
    if FromCall(br.body) != [] {
      var call := FromCall(br.body)[0];
      UsedCalls(f, c.used, a, call.name);
      if call.name == a.name {
        CallFresher(br, a.args, id, call.args, calls, f.used == map[]);
      } else {
        assert EarlierCalls(c.used, call.name) == [];
      }
    }
  }

  lemma {:induction false} CallFresher(br: Branch, a: seq<Term>, id: nat, ts: seq<Term>, calls: seq<seq<Term>>,
                                       first: bool)
    requires |a| == |br.head| && NoDups(br.head) && FreshArgs(br, ts) && PlainArgs(a) && AllOlder(TermVars(a), id)
    requires (forall k :: 0 <= k < |a| ==> a[k] != Blank) && AllFresher(a, calls) && PlainCalls(calls, id)
    requires if first then calls == [] else AllVariables(a)
    ensures AllFresher(RenTerms(br.head, NewArgs(a), id, ts), calls + [a])
  {
    FreshLink(br, a, id, ts);
    forall i | 0 <= i < |calls| ensures Fresher(RenTerms(br.head, NewArgs(a), id, ts), calls[i]) {
      FreshEarlier(br, a, id, ts, calls[i]);
    }
  }

  lemma {:induction false} ChildUsedPlain(f: Frame, id: nat, next: nat)
    requires next == id + 1 && FromCall(f.atoms) != [] && PlainUsed(f.used, id)
    requires DistinctVars(FromCall(f.atoms)[0].args) && AllOlder(TermVars(FromCall(f.atoms)[0].args), id)
    ensures PlainUsed(UsedAfter(f), next)
  {
    var a := FromCall(f.atoms)[0];
    forall name | name in UsedAfter(f) ensures PlainCalls(UsedAfter(f)[name], next) {
      var calls := UsedAfter(f)[name];
      forall i | 0 <= i < |calls| ensures DistinctVars(calls[i]) && AllOlder(TermVars(calls[i]), next) {
        if name in f.used && i < |f.used[name]| { assert calls[i] == f.used[name][i] && PlainCalls(f.used[name], id); }
      }
    }
  }

  lemma {:induction false} PrefixBound(p: Program, w: World, finals: set<Var>, f: Frame, ctx: Ctx, id: nat)
    requires DifferOk(w) && FrameOk(p, w, finals, f, id) && FromCall(f.atoms) != []
             && ResolveClauses(w, f.ctx, PrefixOf(f)) == Ok(ctx)
    ensures ClausesVars(PrefixOf(f)) <= Bound(ctx) && VarsAll(ctx.rels) == VarsAll(f.ctx.rels) + BindsAll(Lits(f.atoms))
    ensures ctx.consts == f.ctx.consts
  {
    FrameGuards(p, w, f, map[]);
    SolveBinds(w, f.ctx, PrefixOf(f));
    SolvedOk(p, w, finals, f, id);
  }

  /** Children of such a frame are such frames. */
  lemma {:induction false} ChildKeepsSure(p: Program, w: World, kind: Kind, rank: string -> nat, top: nat,
                                          finals: set<Var>, f: Frame, ctx: Ctx, br: Branch, id: nat, next: nat)
    requires next == id + 1 && DifferOk(w) && FrameOk(p, w, finals, f, id) && StaticFrame(rank, top, f)
             && SureFrame(kind, f, id)
    requires FromCall(f.atoms) != [] && ResolveClauses(w, f.ctx, PrefixOf(f)) == Ok(ctx)
    requires BranchOk(p, br) && |br.head| == |FromCall(f.atoms)[0].args|
    requires BoundBranch(rank, FromCall(f.atoms)[0].name, br) && SureBranch(kind, FromCall(f.atoms)[0].name, br)
    ensures SureFrame(kind, Child(f, ctx, br, id), next)
  {
    CallOk(p, w, finals, f, id);
    PrefixBound(p, w, finals, f, ctx, id);
    ChildSure(f, ctx, br, id);
    ChildFits(p, w, kind, finals, f, br, id);
    ChildUsedPlain(f, id, next);
    ChildFresher(p, w, kind, rank, top, finals, f, ctx, br, id);
  }

  // ---------------------------------------------------------------------- runs

  ghost predicate SureStack(kind: Kind, stack: seq<Frame>, id: nat) {
    stack == [] || (SureFrame(kind, stack[0], id) && SureStack(kind, stack[1..], id))
  }

  lemma {:induction false} SureLater(kind: Kind, stack: seq<Frame>, id: nat, next: nat)
    requires SureStack(kind, stack, id) && id <= next
    ensures SureStack(kind, stack, next)
  {
    if stack != [] {
      var f := stack[0];
      forall name | name in f.used ensures PlainCalls(f.used[name], next) {
        assert PlainCalls(f.used[name], id);
        forall i | 0 <= i < |f.used[name]|
          ensures DistinctVars(f.used[name][i]) && AllOlder(TermVars(f.used[name][i]), next)
        {
          assert AllOlder(TermVars(f.used[name][i]), id);
        }
      }
      SureLater(kind, stack[1..], id, next);
    }
  }

  lemma {:induction false} SureCons(kind: Kind, f: Frame, rest: seq<Frame>, id: nat)
    ensures SureStack(kind, [f] + rest, id) <==> SureFrame(kind, f, id) && SureStack(kind, rest, id)
  {
    var all := [f] + rest;
    assert all[0] == f && all[1..] == rest;
  }

  /** The frames of all the branches. */
  ghost predicate BranchesSure(kind: Kind, f: Frame, ctx: Ctx, branches: seq<Branch>, id: nat, next: nat)
    requires FromCall(f.atoms) != []
  {
    forall br :: br in branches ==> SureFrame(kind, Child(f, ctx, br, id), next)
  }

  lemma {:induction false} BranchesSureTail(kind: Kind, f: Frame, ctx: Ctx, branches: seq<Branch>, id: nat, next: nat)
    requires FromCall(f.atoms) != [] && branches != [] && BranchesSure(kind, f, ctx, branches, id, next)
    ensures SureFrame(kind, Child(f, ctx, branches[0], id), next)
            && BranchesSure(kind, f, ctx, branches[1..], id, next)
  {
    forall br | br in branches[1..] ensures br in branches {}
  }

  lemma {:induction false} ChildrenSure(kind: Kind, f: Frame, ctx: Ctx, branches: seq<Branch>, id: nat, next: nat,
                                        rest: seq<Frame>)
    requires FromCall(f.atoms) != [] && SureStack(kind, rest, next) && BranchesSure(kind, f, ctx, branches, id, next)
    ensures SureStack(kind, Children(f, ctx, branches, id) + rest, next)
    decreases |branches|
  {
    if branches == [] {
      assert Children(f, ctx, branches, id) + rest == rest;
    } else {
      BranchesSureTail(kind, f, ctx, branches, id, next);
      var c, more := Child(f, ctx, branches[0], id), Children(f, ctx, branches[1..], id);
      ChildrenCons(f, ctx, branches, id, rest, c, more);
      ChildrenSure(kind, f, ctx, branches[1..], id, next, rest);
      SureCons(kind, c, more + rest, next);
    }
  }

  lemma {:induction false} ExpandSure(p: Program, w: World, kind: Kind, rank: string -> nat, top: nat,
                                      finals: set<Var>, f: Frame, id: nat, next: nat, rest: seq<Frame>)
    requires next == id + 1 && DifferOk(w) && ProgramOk(p) && BoundRules(p, rank, top) && SureRules(p, kind)
    requires FrameOk(p, w, finals, f, id) && StaticFrame(rank, top, f) && SureFrame(kind, f, id)
             && SureStack(kind, rest, id)
    requires FromCall(f.atoms) != [] && Expand(p, w, f, id).Expanded?
    ensures SureStack(kind, Expand(p, w, f, id).frames + rest, next)
  {
    var ctx := ResolveClauses(w, f.ctx, PrefixOf(f)).ctx;
    var name := FromCall(f.atoms)[0].name;
    var branches := BranchesOf(p, name);
    forall i | 0 <= i < |branches| ensures SureFrame(kind, Child(f, ctx, branches[i], id), next) {
      BranchFits(p, w, finals, f, i, id);
      assert BoundBranch(rank, name, branches[i]) && SureBranch(kind, name, branches[i]);
      ChildKeepsSure(p, w, kind, rank, top, finals, f, ctx, branches[i], id, next);
    }
    SureLater(kind, rest, id, next);
    assert BranchesSure(kind, f, ctx, branches, id, next);
    ChildrenSure(kind, f, ctx, branches, id, next, rest);
  }

  /** What such a run keeps. */
  ghost predicate SureAt(p: Program, w: World, kind: Kind, rank: string -> nat, top: nat, finals: set<Var>,
                         stack: seq<Frame>, id: nat) {
    StackOk(p, w, finals, stack, id) && StaticStack(rank, top, stack) && SureStack(kind, stack, id)
  }

  lemma {:induction false} TopSure(p: Program, w: World, kind: Kind, rank: string -> nat, top: nat, finals: set<Var>,
                                   stack: seq<Frame>, id: nat)
    requires stack != [] && SureAt(p, w, kind, rank, top, finals, stack, id)
    ensures FrameOk(p, w, finals, stack[0], id) && StaticFrame(rank, top, stack[0]) && SureFrame(kind, stack[0], id)
    ensures SureAt(p, w, kind, rank, top, finals, stack[1..], id)
  {}

  lemma {:induction false} ExpandStays(p: Program, w: World, kind: Kind, rank: string -> nat, top: nat,
                                       finals: set<Var>, stack: seq<Frame>, id: nat, next: nat)
    requires next == id + 1 && DifferOk(w) && ProgramOk(p) && BoundRules(p, rank, top) && SureRules(p, kind)
    requires stack != [] && SureAt(p, w, kind, rank, top, finals, stack, id) && WellFormed(stack[0].ctx.rels)
    requires FromCall(stack[0].atoms) != [] && Expand(p, w, stack[0], id).Expanded?
    ensures SureAt(p, w, kind, rank, top, finals, Expand(p, w, stack[0], id).frames + stack[1..], next)
  {
    TopSure(p, w, kind, rank, top, finals, stack, id);
    ExpandOk(p, w, finals, stack[0], id, next, stack[1..]);
    ExpandStatic(p, w, rank, top, finals, stack, id);
    ExpandSure(p, w, kind, rank, top, finals, stack[0], id, next, stack[1..]);
  }

  lemma {:induction false} StepSure(p: Program, w: World, kind: Kind, rank: string -> nat, top: nat, finals: set<Var>,
                                    s: State)
    requires DifferOk(w) && ProgramOk(p) && BoundRules(p, rank, top) && SureRules(p, kind) && Runnable(s) && s.State?
    requires SureAt(p, w, kind, rank, top, finals, s.stack, s.seqid)
    ensures Step(p, w, s).State? && SureAt(p, w, kind, rank, top, finals, Step(p, w, s).stack, Step(p, w, s).seqid)
  {
    if s.stack != [] {
      StepCases(p, w, s);
      StepFails(p, w, s);
      TopSure(p, w, kind, rank, top, finals, s.stack, s.seqid);
      FrameSure(p, w, kind, finals, s.stack[0], s.seqid);
      if FromCall(s.stack[0].atoms) != [] && Expand(p, w, s.stack[0], s.seqid).Expanded? {
        ExpandStays(p, w, kind, rank, top, finals, s.stack, s.seqid, Step(p, w, s).seqid);
      }
    }
  }

  /** What every turn keeps, the whole run keeps. */
  lemma {:induction false} RunKeeps(p: Program, w: World, inv: State -> bool, s: State, n: nat)
    requires inv(s) && forall t :: inv(t) ==> Runnable(t) && t.State? && inv(Step(p, w, t))
    ensures Runnable(s) && Run(p, w, s, n).State?
    decreases n
  {
    if n > 0 { RunKeeps(p, w, inv, Step(p, w, s), n - 1); }
  }

  lemma {:induction false} InitialSure(p: Program, w: World, kind: Kind, rank: string -> nat, ctx: Ctx, goal: Atom)
    requires GoalOk(p, w, ctx, goal) && AtomFits(kind, ctx.consts, goal)
    ensures var s := Initial(ctx, goal);
            SureAt(p, w, kind, rank, rank(goal.name), TermVars(goal.args), s.stack, s.seqid)
  {
    var f := Frame([], ctx, [goal], map[], []);
    InitialFrameOk(p, w, ctx, goal);
    InitialStatic(ctx, goal, rank);
    assert [goal][1..] == [] && FromCall(f.atoms) == [goal] && EarlierCalls(f.used, goal.name) == [];
    assert ClausesVars(f.prefix) == {};
    assert SureFrame(kind, f, 0);
    assert Initial(ctx, goal).stack == [f] && [f][1..] == [];
  }

  /** Rules whose text says that they end and that no clause raises: no run fails. */
  lemma {:induction false} NeverRaises(p: Program, w: World, kind: Kind, rank: string -> nat, ctx: Ctx, goal: Atom,
                                       n: nat)
    requires DifferOk(w) && ProgramOk(p) && GoalOk(p, w, ctx, goal) && Runnable(Initial(ctx, goal))
    requires BoundRules(p, rank, rank(goal.name)) && SureRules(p, kind) && AtomFits(kind, ctx.consts, goal)
    ensures Run(p, w, Initial(ctx, goal), n).State?
  {
    var top, finals := rank(goal.name), TermVars(goal.args);
    var inv := (s: State) => Runnable(s) && s.State? && SureAt(p, w, kind, rank, top, finals, s.stack, s.seqid);
    InitialSure(p, w, kind, rank, ctx, goal);
    forall s | inv(s) ensures inv(Step(p, w, s)) { StepSure(p, w, kind, rank, top, finals, s); }
    RunKeeps(p, w, inv, Initial(ctx, goal), n);
  }

  /** Total correctness from the text of the rules, with nothing left to the run: the solver
      ends without an error, and its context is the old one with exactly the derivable calls. */
  lemma {:induction false} RulesSolved(p: Program, w: World, kind: Kind, rank: string -> nat, ctx: Ctx, goal: Atom)
    returns (n: nat)
    requires DifferOk(w) && ProgramOk(p) && GoalOk(p, w, ctx, goal) && Runnable(Initial(ctx, goal))
    requires BoundRules(p, rank, rank(goal.name)) && ConnectedRules(p) && TermVars(goal.args) != {}
    requires SureRules(p, kind) && AtomFits(kind, ctx.consts, goal)
    ensures Done(Run(p, w, Initial(ctx, goal), n)) && Run(p, w, Initial(ctx, goal), n).State?
    ensures Solved(p, w, ctx, goal, Run(p, w, Initial(ctx, goal), n).rel)
  {
    n := ConnectedSolved(p, w, ctx, goal, rank);
    NeverRaises(p, w, kind, rank, ctx, goal, n);
  }

  /** For connected rules that end, the result is exact unless a clause raises. */
  lemma {:induction false} ConnectedOutcome(p: Program, w: World, rank: string -> nat, ctx: Ctx, goal: Atom)
    returns (n: nat)
    requires DifferOk(w) && ProgramOk(p) && GoalOk(p, w, ctx, goal) && Runnable(Initial(ctx, goal))
    requires BoundRules(p, rank, rank(goal.name)) && ConnectedRules(p) && TermVars(goal.args) != {}
    ensures var r := Run(p, w, Initial(ctx, goal), n);
            if RunRaises(p, w, Initial(ctx, goal), n) then r.Failed?
            else r.State? && r.stack == [] && Solved(p, w, ctx, goal, r.rel)
  {
    n := ConnectedSolved(p, w, ctx, goal, rank);
    RunFails(p, w, Initial(ctx, goal), n);
  }

  // ------------------------------------------------------------------ an example

  /** Integers may be passed for both ends of an edge. */
  function Ints(): Kind {
    (name: string, k: nat, c: Value) => c.Int?
  }

  lemma {:induction false} EdgeKind(name: string, head: seq<Var>, x: Var, y: Var)
    ensures KindAtom(Ints(), name, head, Edge(x, y))
  {
    PatternFits(map[], Edge(x, y).terms);
  }

  lemma {:induction false} FollowSure()
    ensures SureRules(Follow(), Ints())
  {
    var x, y, z := Named("?x"), Named("?y"), Named("?z");
    Names();
    var call := Call("follow", [Variable(z), Variable(y)]);
    var one, two := [Edge(x, y)], [Edge(x, z), call];
    assert one[1..] == [] && two[1..] == [call] && [call][1..] == [];
    EdgeKind("follow", [x, y], x, y);
    EdgeKind("follow", [x, y], x, z);
    assert KindAtoms(Ints(), "follow", [x, y], [call]);
    assert Sure({}, one) && Sure({}, two);
    FollowFresh(x, y, z, call);
    assert Follow()["follow"] == [Branch([x, y], one), Branch([x, y], two)];
  }

  lemma {:induction false} FollowFresh(x: Var, y: Var, z: Var, call: Atom)
    requires x != y && x != z && y != z && call == Call("follow", [Variable(z), Variable(y)])
    ensures FromCall([Edge(x, z), call]) == [call] && FreshArgs(Branch([x, y], [Edge(x, z), call]), call.args)
  {
    assert [Edge(x, z), call][1..] == [call];
    PairOf(x, y);
  }

  /** The transitive closure, of any data and from or to any entity: it ends, without error,
      and keeps exactly the pairs that are linked. */
  lemma {:induction false} FollowSolved(w: World, ctx: Ctx, goal: Atom) returns (n: nat)
    requires DifferOk(w) && GoalOk(Follow(), w, ctx, goal) && Runnable(Initial(ctx, goal)) && TermVars(goal.args) != {}
    requires forall k :: 0 <= k < |goal.args| && ConstOf(ctx.consts, goal.args[k]).Some? ==>
        ConstOf(ctx.consts, goal.args[k]).value.Int?
    ensures var r := Run(Follow(), w, Initial(ctx, goal), n);
            r.State? && r.stack == [] && Solved(Follow(), w, ctx, goal, r.rel)
  {
    FollowOk();
    FollowConnected();
    FollowSure();
    assert goal.name == "follow";
    n := RulesSolved(Follow(), w, Ints(), _ => 0, ctx, goal);
  }

  // ----------------------------------------------------- a call that is turned round

  /** `[(near ?x ?y) [?x :follow ?y]]` and `[(near ?x ?y) [?x :follow ?y] (near ?y ?x)]`. */
  function Near(): Program {
    var (x, y) := (Named("?x"), Named("?y"));
    map["near" := [Branch([x, y], [Edge(x, y)]), Branch([x, y], NearAtoms())]]
  }

  function NearAtoms(): seq<Atom> {
    [Edge(Named("?x"), Named("?y")), Call("near", [Variable(Named("?y")), Variable(Named("?x"))])]
  }

  function NearGoal(): Atom {
    Call("near", [Variable(Named("?x")), Variable(Named("?y"))])
  }

  function NearFrame(atoms: seq<Atom>): Frame {
    Frame([], Ctx([], map[]), atoms, map["near" := [NearGoal().args]], [])
  }

  lemma {:induction false} DifferCons(x: Term, y: Term, xs: seq<Term>, ys: seq<Term>)
    requires x != y
    ensures var d := DifferingArgs(xs, ys); DifferingArgs([x] + xs, [y] + ys) == ([x] + d.0, [y] + d.1)
  {
    assert ([x] + xs)[1..] == xs && ([y] + ys)[1..] == ys;
  }

  /** The guard lists each of the two variables twice, more often than there are variables. */
  lemma {:induction false} NearGuard(x: Var, y: Var, s: Scope)
    requires x != y && s == Scope({x, y}, true, map[])
    ensures var g := Guard([Variable(y), Variable(x)], [Variable(x), Variable(y)]);
            g.args != [] && Covered({x, y}, g.args) && !Resolves(s, g)
  {
    var xs, ys := [Variable(y), Variable(x)], [Variable(x), Variable(y)];
    DifferCons(Variable(x), Variable(y), [], []);
    DifferCons(Variable(y), Variable(x), [Variable(x)], [Variable(y)]);
    assert [Variable(x)] + [] == [Variable(x)] && [Variable(y)] + [] == [Variable(y)];
    assert xs == [Variable(y)] + [Variable(x)] && ys == [Variable(x)] + [Variable(y)];
    var args := [Variable(y), Variable(x), Variable(x), Variable(y)];
    assert Guard(xs, ys).args == args;
    assert args[1..] == [Variable(x), Variable(x), Variable(y)] && args[1..][1..] == [Variable(x), Variable(y)];
    TwoVars(x, y);
    TermVarsCons(Variable(x), [Variable(x), Variable(y)]);
    assert [Variable(x)] + [Variable(x), Variable(y)] == args[1..];
    TermVarsCons(Variable(y), args[1..]);
    assert [Variable(y)] + args[1..] == args;
    assert |TermVarSeq(args)| == 4;
    assert |{x, y}| == 2 && InScope(s) == {x, y};
  }

  lemma {:induction false} TwoVars(x: Var, y: Var)
    ensures TermVarSeq([Variable(x), Variable(y)]) == [x, y]
    ensures Covered({x, y}, [Variable(y), Variable(x), Variable(x), Variable(y)])
  {
    var ts := [Variable(x), Variable(y)];
    assert ts[1..] == [Variable(y)] && ts[1..][1..] == [];
    assert TermVarSeq(ts[1..]) == [y] + [] && TermVarSeq(ts) == [x] + TermVarSeq(ts[1..]);
    var all := [Variable(y), Variable(x), Variable(x), Variable(y)];
    assert all[1..] == [Variable(x), Variable(x), Variable(y)] && all[1..][1..] == ts;
    assert Covered({x, y}, ts[1..]) && Covered({x, y}, ts) && Covered({x, y}, all[1..]);
  }

  /** The clauses before the call: the pattern, and then the guard. */
  lemma {:induction false} NearClauses(f: Frame, x: Var, y: Var, guard: Clause)
    requires f == NearFrame(NearAtoms()) && x == Named("?x") && y == Named("?y")
             && guard == Guard([Variable(y), Variable(x)], [Variable(x), Variable(y)])
             && guard.args != [] && Covered({x, y}, guard.args)
    ensures FromCall(f.atoms) == [NearAtoms()[1]] && GuardsNow(f, true) == [guard]
    ensures PrefixOf(f) == [Pattern(Edge(x, y).terms), guard]
  {
    var (call, lit) := (NearAtoms()[1], Pattern(Edge(x, y).terms));
    assert f.atoms[1..] == [call];
    assert Lits(f.atoms) == [lit] + [];
    EdgeVars(x, y);
    assert ClausesVars([lit]) == {x, y} by { assert [lit][1..] == []; }
    assert f.prefix + Lits(f.atoms) == [lit];
    assert [NearGoal().args][1..] == [] && Guards(call.args, [NearGoal().args]) == [guard] + [];
    assert GuardsOf(f) == [guard] && [guard][1..] == [];
    assert GuardsNow(f, true) == [guard] + [];
    assert [lit] + [guard] == [lit, guard];
  }

  lemma {:induction false} NearStuck(w: World, x: Var, y: Var, guard: Clause)
    requires x != y && guard.Pred? && !Resolves(Scope({x, y}, true, map[]), guard)
    ensures ResolveClauses(w, Ctx([], map[]), [Pattern(Edge(x, y).terms), guard]) == Raised
  {
    var lit, ctx := Pattern(Edge(x, y).terms), Ctx([], map[]);
    var cs := [lit, guard];
    var start := ScopeOf(ctx);
    EdgeVars(x, y);
    assert cs[1..] == [guard] && After(start, lit) == Scope({x, y}, true, map[]);
    assert !InTurn(start, cs);
    assert Solvable(cs) by {
      assert lit.terms[0] != lit.terms[2] && Solvable([guard]);
      assert cs == [lit] + [guard];
    }
    SolvableOrder(InScope(start), cs);
    ClausesResolve(w, ctx, cs);
  }

  lemma {:induction false} NearRaises(w: World)
    ensures TopRaises(w, NearFrame(NearAtoms()))
  {
    var f, x, y := NearFrame(NearAtoms()), Named("?x"), Named("?y");
    var guard := Guard([Variable(y), Variable(x)], [Variable(x), Variable(y)]);
    Names();
    NearGuard(x, y, Scope({x, y}, true, map[]));
    NearClauses(f, x, y, guard);
    NearStuck(w, x, y, guard);
  }

  lemma {:induction false} PairKept(x: Var, y: Var, id: nat)
    requires x != y
    ensures Ren([x, y], [x, y], id, x) == x && Ren([x, y], [x, y], id, y) == y
    ensures NewArgs([Variable(x), Variable(y)]) == [x, y] && ArgConsts([Variable(x), Variable(y)]) == map[]
  {
    PairOf(x, y);
    RenIs([x, y], [x, y], id, x);
    RenIs([x, y], [x, y], id, y);
    assert InSeq([x, y], x, 0) && InSeq([x, y], y, 1);
    NoArgConsts([Variable(x), Variable(y)]);
  }

  lemma {:induction false} NearBodies(x: Var, y: Var, id: nat)
    requires x == Named("?x") && y == Named("?y")
    ensures RenAtoms([x, y], [x, y], id, [Edge(x, y)]) == [Edge(x, y)]
    ensures RenAtoms([x, y], [x, y], id, NearAtoms()) == NearAtoms()
  {
    Names();
    PairKept(x, y, id);
    var (edge, call) := (NearAtoms()[0], NearAtoms()[1]);
    assert RenTerms([x, y], [x, y], id, edge.terms) == edge.terms;
    assert RenTerms([x, y], [x, y], id, call.args) == call.args;
    assert [edge][1..] == [] && NearAtoms()[1..] == [call] && [call][1..] == [];
    assert RenAtoms([x, y], [x, y], id, []) == [];
    assert RenAtoms([x, y], [x, y], id, [edge]) == [edge] + [];
    assert RenAtoms([x, y], [x, y], id, [call]) == [call] + [];
    assert RenAtoms([x, y], [x, y], id, NearAtoms()) == [edge] + [call];
  }

  lemma {:induction false} NearExpands(w: World, f: Frame, x: Var, y: Var)
    requires f == Frame([], Ctx([], map[]), [NearGoal()], map[], []) && x == Named("?x") && y == Named("?y")
    ensures FromCall(f.atoms) == [NearGoal()]
            && Expand(Near(), w, f, 0) == Expanded([NearFrame([Edge(x, y)]), NearFrame(NearAtoms())])
  {
    var p: Program, ctx := Near(), f.ctx;
    var bodies := p["near"];
    assert [NearGoal()][1..] == [] && Lits(f.atoms) == [] && GuardsOf(f) == [] && PrefixOf(f) == [];
    assert ResolveClauses(w, ctx, []) == Outcome.Ok(ctx);
    Names();
    PairKept(x, y, 0);
    NearBodies(x, y, 0);
    assert UsedAfter(f) == map["near" := [NearGoal().args]] by { assert [] + [NearGoal().args] == [NearGoal().args]; }
    var one, two := bodies[0], bodies[1];
    assert [Edge(x, y)] + [] == [Edge(x, y)] && NearAtoms() + [] == NearAtoms();
    assert Child(f, ctx, one, 0) == NearFrame([Edge(x, y)]);
    assert Child(f, ctx, two, 0) == NearFrame(NearAtoms());
    assert bodies == [one, two] && bodies[1..] == [two] && bodies[1..][1..] == [];
    assert Children(f, ctx, bodies[1..], 0) == [NearFrame(NearAtoms())] + [];
    assert Children(f, ctx, bodies, 0) == [NearFrame([Edge(x, y)])] + [NearFrame(NearAtoms())];
  }

  /** The base branch does not raise. */
  lemma {:induction false} BaseResolves(w: World, x: Var, y: Var)
    requires x == Named("?x") && y == Named("?y")
    ensures !TopRaises(w, NearFrame([Edge(x, y)])) && FromCall(NearFrame([Edge(x, y)]).atoms) == []
  {
    var f, lit := NearFrame([Edge(x, y)]), Pattern(Edge(x, y).terms);
    assert f.atoms[1..] == [] && Lits(f.atoms) == [lit] + [] && [lit][1..] == [];
    assert Lits(f.atoms) == [lit];
    PatternFits(map[], lit.terms);
    Names();
    assert InTurn(ScopeOf(f.ctx), [lit]);
    assert Solvable([lit]) by { assert lit.terms[0] != lit.terms[2]; }
    InTurnResolves(w, f.ctx, [lit]);
  }

  /** The first two turns expand the call and finish the base branch. */
  lemma {:induction false} NearTurns(w: World, s: State, next: State, last: State)
    requires s == Initial(Ctx([], map[]), NearGoal()) && Runnable(s) && next == Step(Near(), w, s)
    requires last == Step(Near(), w, next)
    ensures !s.Failed? && s.stack != [] && !next.Failed? && next.stack != [] && !last.Failed?
            && last.stack == [NearFrame(NearAtoms())]
  {
    var (x, y) := (Named("?x"), Named("?y"));
    NearExpands(w, s.stack[0], x, y);
    StepCases(Near(), w, s);
    assert s.stack[1..] == [] && next.stack == [NearFrame([Edge(x, y)]), NearFrame(NearAtoms())];
    BaseResolves(w, x, y);
    StepCases(Near(), w, next);
    StepFails(Near(), w, next);
  }

  /** A symmetric closure written like this raises, in every database, in its third turn. */
  lemma {:induction false} NearFails(w: World)
    ensures var s := Initial(Ctx([], map[]), NearGoal());
            Runnable(s) && RunRaises(Near(), w, s, 3) && Run(Near(), w, s, 3).Failed?
  {
    var (p, s) := (Near(), Initial(Ctx([], map[]), NearGoal()));
    NearRunnable(s);
    var next := Step(p, w, s);
    var last := Step(p, w, next);
    NearTurns(w, s, next, last);
    NearRaises(w);
    assert RunRaises(p, w, last, 1);
    assert RunRaises(p, w, next, 2);
    RunFails(p, w, s, 3);
  }

  lemma {:induction false} NearRunnable(s: State)
    requires s == Initial(Ctx([], map[]), NearGoal())
    ensures Runnable(s)
  {
    Names();
    PairOf(Named("?x"), Named("?y"));
    FinalsAre(NearGoal().args);
    InitialRunnable(Ctx([], map[]), NearGoal());
  }
}
