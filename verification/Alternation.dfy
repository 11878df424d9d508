/** Two rules that call each other in turn: although each varying argument is bound before its
    call, the solver need not end. */
module Alternation {
  import opened Options
  import opened Relations
  import opened Sequences
  import opened RelationOps
  import opened Contexts
  import opened Search
  import opened Clauses
  import opened Collecting
  import opened Semantics
  import opened Schedule
  import opened Evaluator
  import opened Flat
  import opened Rules
  import opened RuleSemantics
  import opened RuleFrames
  import opened RuleTrees
  import opened RuleSoundness
  import opened RuleCompleteness
  import opened RuleTermination
  import opened RuleStatic
  import opened Shortcuts

  // ------------------------------------------------------------------ the program

  function Base(): Branch {
    var (x, y) := (Named("?x"), Named("?y"));
    Branch([x, y], [Match([Variable(x), Constant(Kw(":a")), Variable(y)])])
  }

  function Hops(attr: string, other: string): Branch {
    var (x, y, t) := (Named("?x"), Named("?y"), Named("?t"));
    Branch([x, y], [Match([Variable(x), Constant(Kw(attr)), Variable(t)]), Call(other, [Variable(t), Variable(y)])])
  }

  /** `[(f1 ?x ?y) [?x :a ?y]]`, `[(f1 ?x ?y) [?x :a ?t] (f2 ?t ?y)]` and
      `[(f2 ?x ?y) [?x :b ?t] (f1 ?t ?y)]`. */
  function Turning(): Program {
    map["f1" := [Base(), Hops(":a", "f2")], "f2" := [Hops(":b", "f1")]]
  }

  /** Three entities in a ring, by both attributes. */
  ghost predicate Ring(w: World) {
    forall k: nat {:trigger Link(k, ":a")} {:trigger Link(k, ":b")} ::
      k < 3 ==> Link(k, ":a") in w.src.datoms && Link(k, ":b") in w.src.datoms
  }

  function Link(k: nat, attr: string): Tuple {
    Arr([Int(k % 3), Kw(attr), Int((k + 1) % 3)])
  }

  // ------------------------------------------------------- the frames of the only path

  /** The variable passed by the call at depth `i + 1`. */
  function Node(i: int): Var {
    if i < 0 then Named("?x") else Renamed(Named("?t"), i)
  }

  function HopArgs(k: nat): seq<Term> {
    [Variable(Node(k - 1)), Variable(Named("?y"))]
  }

  function Callee(k: nat): string {
    if k % 2 == 0 then "f1" else "f2"
  }

  function HopTerms(k: nat): seq<Term> {
    [Variable(Node(k - 2)), Constant(Kw(if k % 2 == 1 then ":a" else ":b")), Variable(Node(k - 1))]
  }

  function HopLits(k: nat): seq<Clause> {
    if k == 0 then [] else [Pattern(HopTerms(k))]
  }

  function AtomsOf(k: nat): seq<Atom> {
    if k == 0 then [Call(Callee(k), HopArgs(k))] else [Match(HopTerms(k)), Call(Callee(k), HopArgs(k))]
  }

  lemma {:induction false} AtomsAre(k: nat)
    ensures Lits(AtomsOf(k)) == HopLits(k) && FromCall(AtomsOf(k)) == [Call(Callee(k), HopArgs(k))]
    ensures ClausesVars(HopLits(k)) == (if k == 0 then {} else {Node(k - 2), Node(k - 1)}) == BindsAll(HopLits(k))
  {
    var call := Call(Callee(k), HopArgs(k));
    if k > 0 {
      assert AtomsOf(k)[1..] == [call] && Lits([call]) == [];
      assert Lits(AtomsOf(k)) == [Pattern(HopTerms(k))] + [];
      HopVars(k);
      assert HopLits(k)[1..] == [];
      assert ClausesVars(HopLits(k)) == TermVars(HopTerms(k)) + {};
    }
  }

  lemma {:induction false} HopVars(k: nat)
    ensures TermVars(HopTerms(k)) == {Node(k - 2), Node(k - 1)}
  {
    var ts := HopTerms(k);
    forall v ensures v in TermVars(ts) <==> v == Node(k - 2) || v == Node(k - 1) {
      TermVarsAt(ts, v);
      assert ts[0] == Variable(Node(k - 2)) && ts[2] == Variable(Node(k - 1));
    }
  }

  /** Walking along the ring: node `i` is entity `i + 1`, modulo 3. */
  ghost function Walk(k: nat): Asg {
    if k == 0 then map[Node(-1) := Int(0)] else Walk(k - 1)[Node(k - 1) := Int(k % 3)]
  }

  lemma {:induction false} WalkAt(k: nat, i: int)
    requires -1 <= i < k
    ensures Node(i) in Walk(k) && Walk(k)[Node(i)] == Int((i + 1) % 3)
  {
    if k > 0 && i < k - 1 { WalkAt(k - 1, i); }
  }

  lemma {:induction false} WalkKeys(k: nat, v: Var)
    requires v in Walk(k)
    ensures exists i :: -1 <= i < k && v == Node(i)
  {
    if k == 0 {
      assert v == Node(-1);
    } else if v == Node(k - 1) {
    } else {
      WalkKeys(k - 1, v);
      var i :| -1 <= i < k - 1 && v == Node(i);
      assert -1 <= i < k;
    }
  }

  /** All variables are nodes from `low` to `high`. */
  ghost predicate NodesIn(vars: set<Var>, low: int, high: int) {
    forall v :: v in vars ==> exists i :: -1 <= i && low <= i <= high && v == Node(i)
  }

  /** Guards that mention a node of six frames ago or more. */
  ghost predicate OldGuards(k: nat, gs: seq<Clause>) {
    forall g :: g in gs ==> g.Pred? && exists i :: -1 <= i <= k - 6 && Variable(Node(i)) in g.args
  }

  ghost predicate CallBefore(k: nat, name: string, ts: seq<Term>) {
    exists j: nat :: j < k && name == Callee(j) && ts == HopArgs(j)
  }

  ghost predicate UsedAre(k: nat, used: map<string, seq<seq<Term>>>) {
    forall name, i :: name in used && 0 <= i < |used[name]| ==> CallBefore(k, name, used[name][i])
  }

  /** The frame at depth `k`: its prefix reaches back no further than four nodes. */
  ghost predicate Shape(k: nat, f: Frame) {
    && f.atoms == AtomsOf(k) && f.ctx.consts == map[] && UsedAre(k, f.used) && OldGuards(k, f.pending)
    && NodesIn(ClausesVars(f.prefix), k - 4, k - 2) && ClausesVars(f.prefix) <= VarsAll(f.ctx.rels)
    && (k >= 2 ==> Node(k - 3) in ClausesVars(f.prefix))
    && HoldsAll(f.ctx.rels, Walk(k))
  }

  // ------------------------------------------------------------ the guards of a frame

  lemma {:induction false} GuardArgs(k: nat, j: nat)
    requires j < k
    ensures Guard(HopArgs(k), HopArgs(j)) == Pred(DIFFER, [Variable(Node(k - 1)), Variable(Node(j - 1))])
  {
    var xs, ys := HopArgs(k), HopArgs(j);
    assert xs[1..] == ys[1..] && xs[1..][1..] == [] && xs[0] != ys[0];
    assert DifferingArgs(xs[1..], ys[1..]) == ([], []);
    assert DifferingArgs(xs, ys) == ([xs[0]] + [], [ys[0]] + []);
    assert [xs[0]] + [ys[0]] == [xs[0], ys[0]];
  }

  lemma {:induction false} CheckedIn(vars: set<Var>, gs: seq<Clause>, now: bool, g: Clause)
    requires g in Checkable(vars, gs, now)
    ensures g in gs && (g.Pred? && Covered(vars, g.args)) == now
  {
    assert gs == [gs[0]] + gs[1..];
    CheckableCons(vars, gs[0], gs[1..], now);
    if g in Checkable(vars, gs[1..], now) { CheckedIn(vars, gs[1..], now, g); }
  }

  lemma {:induction false} CoveredIn(vars: set<Var>, ts: seq<Term>, v: Var)
    requires Covered(vars, ts) && Variable(v) in ts
    ensures v in vars
  {
    if ts[0] != Variable(v) { CoveredIn(vars, ts[1..], v); }
  }

  /** The variables of the clauses a frame solves and those solved before it. */
  lemma {:induction false} ScopeVars(k: nat, f: Frame)
    requires Shape(k, f)
    ensures ClausesVars(f.prefix + Lits(f.atoms)) == ClausesVars(f.prefix) + ClausesVars(HopLits(k))
    ensures NodesIn(ClausesVars(f.prefix + Lits(f.atoms)), k - 4, k - 1)
  {
    AtomsAre(k);
    VarsConcat(f.prefix, Lits(f.atoms));
    forall v | v in ClausesVars(f.prefix) + ClausesVars(HopLits(k))
      ensures exists i :: -1 <= i && k - 4 <= i <= k - 1 && v == Node(i)
    {
      if v in ClausesVars(f.prefix) {
        var i :| -1 <= i && k - 4 <= i <= k - 2 && v == Node(i);
        assert -1 <= i && k - 4 <= i <= k - 1 && v == Node(i);
      } else if v == Node(k - 1) {
      } else {
        assert v == Node(k - 2) && k >= 1;
      }
    }
  }

  /** A guard of the frame is put off already, or compares with a call of the same rule. */
  lemma {:induction false} GuardIs(k: nat, f: Frame, g: Clause) returns (j: nat)
    requires Shape(k, f) && FromCall(f.atoms) != [] && g in GuardsOf(f)
    ensures g in f.pending || (j < k && j % 2 == k % 2 && g == Guard(HopArgs(k), HopArgs(j)))
  {
    AtomsAre(k);
    j := 0;
    if g !in f.pending {
      var calls := EarlierCalls(f.used, Callee(k));
      var i := GuardOf(HopArgs(k), calls, g);
      assert CallBefore(k, Callee(k), f.used[Callee(k)][i]);
      j :| j < k && Callee(k) == Callee(j) && f.used[Callee(k)][i] == HopArgs(j);
      assert "f1"[1] != "f2"[1];
    }
  }

  lemma {:induction false} NodeIn(vars: set<Var>, low: int, high: int, i: int)
    requires NodesIn(vars, low, high) && i >= -1 && Node(i) in vars
    ensures low <= i <= high
  {
    var m :| -1 <= m && low <= m <= high && Node(i) == Node(m);
    assert i == m;
  }

  /** A guard that was put off stays so. */
  lemma {:induction false} OldUncovered(k: nat, gs: seq<Clause>, vars: set<Var>, g: Clause)
    requires OldGuards(k, gs) && g in gs && NodesIn(vars, k - 4, k - 1)
    ensures g.Pred? && !Covered(vars, g.args)
  {
    var i :| -1 <= i <= k - 6 && Variable(Node(i)) in g.args;
    if Covered(vars, g.args) {
      CoveredIn(vars, g.args, Node(i));
      NodeIn(vars, k - 4, k - 1, i);
    }
  }

  lemma {:induction false} PairCovered(vars: set<Var>, k: nat, j: nat)
    requires j < k
    ensures Covered(vars, Guard(HopArgs(k), HopArgs(j)).args) <==> Node(k - 1) in vars && Node(j - 1) in vars
  {
    GuardArgs(k, j);
    var ts := Guard(HopArgs(k), HopArgs(j)).args;
    assert ts[1..] == [Variable(Node(j - 1))] && ts[1..][1..] == [];
    assert Covered(vars, ts[1..]) <==> Node(j - 1) in vars;
  }

  lemma {:induction false} RecentCall(k: nat, j: nat, vars: set<Var>)
    requires j < k && j % 2 == k % 2 && NodesIn(vars, k - 4, k - 1)
    requires Covered(vars, Guard(HopArgs(k), HopArgs(j)).args)
    ensures k >= 2 && j == k - 2 && Node(k - 3) in vars
  {
    PairCovered(vars, k, j);
    NodeIn(vars, k - 4, k - 1, j - 1);
  }

  lemma {:induction false} DistantCall(k: nat, j: nat, vars: set<Var>)
    requires j < k && j % 2 == k % 2 && Node(k - 1) in vars && (k >= 2 ==> Node(k - 3) in vars)
    requires !Covered(vars, Guard(HopArgs(k), HopArgs(j)).args)
    ensures j <= k - 4 && Variable(Node(j - 1)) in Guard(HopArgs(k), HopArgs(j)).args
  {
    PairCovered(vars, k, j);
    GuardArgs(k, j);
    assert Guard(HopArgs(k), HopArgs(j)).args[1] == Variable(Node(j - 1));
  }

  /** The only guard that is checked compares with the call of the same rule two frames up. */
  lemma {:induction false} OnlyGuard(k: nat, f: Frame, g: Clause)
    requires Shape(k, f) && FromCall(f.atoms) != [] && g in GuardsNow(f, true)
    ensures k >= 2 && g == Guard(HopArgs(k), HopArgs(k - 2)) && Node(k - 3) in ClausesVars(f.prefix + Lits(f.atoms))
  {
    var vars := ClausesVars(f.prefix + Lits(f.atoms));
    CheckedIn(vars, GuardsOf(f), true, g);
    ScopeVars(k, f);
    var j := GuardIs(k, f, g);
    if g in f.pending { OldUncovered(k, f.pending, vars, g); }
    RecentCall(k, j, vars);
  }

  lemma {:induction false} LeftGuard(k: nat, f: Frame, g: Clause)
    requires Shape(k, f) && FromCall(f.atoms) != [] && g in GuardsNow(f, false)
    ensures g.Pred? && exists i :: -1 <= i <= k - 5 && Variable(Node(i)) in g.args
  {
    var vars := ClausesVars(f.prefix + Lits(f.atoms));
    CheckedIn(vars, GuardsOf(f), false, g);
    ScopeVars(k, f);
    AtomsAre(k);
    var j := GuardIs(k, f, g);
    if g in f.pending {
      var i :| -1 <= i <= k - 6 && Variable(Node(i)) in g.args;
      assert -1 <= i <= k - 5;
    } else {
      DistantCall(k, j, vars);
    }
  }

  // ------------------------------------------------------------ solving the prefix

  lemma {:induction false} PairVars(u: Var, v: Var)
    ensures TermVars([Variable(u), Variable(v)]) == {u, v} && TermVarSeq([Variable(u), Variable(v)]) == [u, v]
  {
    var ts := [Variable(u), Variable(v)];
    assert ts[1..] == [Variable(v)] && ts[1..][1..] == [];
    assert TermVars(ts[1..]) == {v} + {} && TermVarSeq(ts[1..]) == [v] + [] && TermVarSeq(ts) == [u] + [v];
  }

  lemma {:induction false} GuardResolves(w: World, ctx: Ctx, u: Var, v: Var)
    requires WellFormed(ctx.rels) && u != v && {u, v} <= Bound(ctx)
    ensures ResolvePred(w, ctx, DIFFER, [Variable(u), Variable(v)]).Ok?
  {
    PairVars(u, v);
    Smaller({u, v}, Bound(ctx));
    assert |{u, v}| == 2;
    BoundButRefused(w, ctx, DIFFER, [Variable(u), Variable(v)]);
  }

  lemma {:induction false} GuardKeeps(w: World, ctx: Ctx, g: Clause, next: Ctx)
    requires WellFormed(ctx.rels) && g.Pred? && ResolvePred(w, ctx, g.f, g.args) == Outcome.Ok(next)
    ensures ResolveClause(w, ctx, g) == Outcome.Ok(next)
    ensures WellFormed(next.rels) && VarsAll(next.rels) == VarsAll(ctx.rels) && next.consts == ctx.consts
  {
    assert Resolved(ctx, {}, ResolvePred(w, ctx, g.f, g.args));
  }

  lemma {:induction false} GuardNext(w: World, ctx: Ctx, u: Var, v: Var, guard: Clause) returns (next: Ctx)
    requires WellFormed(ctx.rels) && u != v && {u, v} <= Bound(ctx) && guard == Pred(DIFFER, [Variable(u), Variable(v)])
    ensures WellFormed(next.rels) && Bound(next) == Bound(ctx) && ResolveClause(w, ctx, guard) == Outcome.Ok(next)
  {
    GuardResolves(w, ctx, u, v);
    next := ResolvePred(w, ctx, DIFFER, guard.args).ctx;
    GuardKeeps(w, ctx, guard, next);
  }

  lemma {:induction false} FirstGuard(w: World, ctx: Ctx, gs: seq<Clause>, u: Var, v: Var, guard: Clause)
    returns (next: Ctx)
    requires WellFormed(ctx.rels) && u != v && {u, v} <= Bound(ctx) && gs != [] && gs[0] == guard
    requires guard == Pred(DIFFER, [Variable(u), Variable(v)])
    ensures WellFormed(next.rels) && {u, v} <= Bound(next)
            && ReduceClauses(w, ctx, gs) == ReduceClauses(w, next, gs[1..])
  {
    next := GuardNext(w, ctx, u, v, guard);
    ReduceCons(w, ctx, guard, gs[1..], next);
    assert gs == [guard] + gs[1..];
  }

  lemma {:induction false} GuardsResolve(w: World, ctx: Ctx, gs: seq<Clause>, u: Var, v: Var, guard: Clause)
    requires WellFormed(ctx.rels) && u != v && {u, v} <= Bound(ctx)
    requires guard == Pred(DIFFER, [Variable(u), Variable(v)]) && forall g :: g in gs ==> g == guard
    ensures ReduceClauses(w, ctx, gs).0.Ok? && ReduceClauses(w, ctx, gs).1 == []
    decreases |gs|
  {
    if gs != [] {
      var rest := gs[1..];
      assert gs[0] in gs;
      forall g | g in rest ensures g == guard { assert g in gs; }
      var next := FirstGuard(w, ctx, gs, u, v, guard);
      GuardsResolve(w, next, rest, u, v, guard);
    }
  }

  lemma {:induction false} EdgeResolves(w: World, ctx: Ctx, u: Var, attr: string, v: Var)
    requires WellFormed(ctx.rels) && ctx.consts == map[]
    ensures ResolveClause(w, ctx, Pattern([Variable(u), Constant(Kw(attr)), Variable(v)])).Ok?
  {
    var slots := SlotsOf(ctx, [Variable(u), Constant(Kw(attr)), Variable(v)]);
    assert !slots[0].Const? && slots[1].Const? && slots[1].c.Kw? && !slots[3].Const? && !slots[4].Const?;
  }

  lemma {:induction false} PrefixResolves(w: World, ctx: Ctx, k: nat, gs: seq<Clause>)
    requires WellFormed(ctx.rels) && ctx.consts == map[]
    requires forall g :: g in gs ==> k >= 2 && g == Pred(DIFFER, [Variable(Node(k - 1)), Variable(Node(k - 3))])
    requires gs != [] ==> k >= 2 && Node(k - 3) in Bound(ctx) + BindsAll(HopLits(k))
    ensures ResolveClauses(w, ctx, HopLits(k) + gs).Ok?
  {
    var cs := HopLits(k) + gs;
    if k == 0 {
      assert cs == [];
    } else {
      EdgeResolves(w, ctx, Node(k - 2), if k % 2 == 1 then ":a" else ":b", Node(k - 1));
      HopVars(k);
      var next := ResolveClause(w, ctx, cs[0]).ctx;
      assert cs[1..] == gs;
      if gs != [] {
        assert gs[0] in gs;
        AtomsAre(k);
        GuardsResolve(w, next, gs, Node(k - 1), Node(k - 3), gs[0]);
      }
      assert ReduceClauses(w, ctx, cs) == ReduceClauses(w, next, gs);
    }
  }

  lemma {:induction false} HopTrue(w: World, k: nat)
    requires Ring(w) && k > 0
    ensures PatternSat(w, map[], HopTerms(k), Walk(k))
  {
    var d := Link((k - 1) % 3, if k % 2 == 1 then ":a" else ":b");
    var ts, e := HopTerms(k), Walk(k);
    WalkAt(k, k - 2);
    WalkAt(k, k - 1);
    assert ((k - 1) % 3 + 1) % 3 == k % 3;
    assert d in w.src.datoms;
    forall i | 0 <= i < 3 ensures MatchTerm(ts[i], e, Get(d, At(i))) {}
    assert MatchDatom(ts, e, d);
  }

  lemma {:induction false} GuardTrueHere(w: World, k: nat)
    requires DifferOk(w) && k >= 2
    ensures Sat(w, map[], Guard(HopArgs(k), HopArgs(k - 2)), Walk(k))
  {
    WalkAt(k, k - 1);
    WalkAt(k, k - 3);
    var e := Walk(k);
    assert Vals(e, HopArgs(k))[0] == Int(k % 3) && Vals(e, HopArgs(k - 2))[0] == Int((k - 2) % 3);
    assert k % 3 != (k - 2) % 3;
    GuardTrue(w, HopArgs(k), HopArgs(k - 2), e);
  }

  lemma {:induction false} AllTrue(w: World, cs: seq<Clause>, e: Asg)
    requires AllFlat(cs) && forall c :: c in cs && IsFlat(c) ==> Sat(w, map[], c, e)
    ensures SatAll(w, map[], cs, e)
  {
    if cs != [] { AllTrue(w, cs[1..], e); }
  }

  /** The prefix of a frame on the path is solved, and walking along the ring satisfies it. */
  lemma {:induction false} PathSolved(p: Program, w: World, finals: set<Var>, k: nat, f: Frame)
    requires DifferOk(w) && Ring(w) && Shape(k, f) && FrameOk(p, w, finals, f, k) && FromCall(f.atoms) != []
    ensures ResolveClauses(w, f.ctx, PrefixOf(f)).Ok?
    ensures HoldsAll(ResolveClauses(w, f.ctx, PrefixOf(f)).ctx.rels, Walk(k))
    ensures Pred(DIFFER, []) !in GuardsNow(f, true) && !HasEmpty(ResolveClauses(w, f.ctx, PrefixOf(f)).ctx.rels)
  {
    var gs, e := GuardsNow(f, true), Walk(k);
    AtomsAre(k);
    ScopeVars(k, f);
    FrameGuards(p, w, f, e);
    forall g | g in gs ensures k >= 2 && g == Pred(DIFFER, [Variable(Node(k - 1)), Variable(Node(k - 3))])
                               && Node(k - 3) in Bound(f.ctx) + BindsAll(HopLits(k)) && Sat(w, map[], g, e)
    {
      OnlyGuard(k, f, g);
      GuardArgs(k, k - 2);
      GuardTrueHere(w, k);
    }
    if gs != [] { assert gs[0] in gs; }
    PrefixResolves(w, f.ctx, k, gs);
    if k > 0 { HopTrue(w, k); }
    AllTrue(w, PrefixOf(f), e);
    forall v | v in VarsAll(f.ctx.rels) + BindsAll(PrefixOf(f)) ensures v in e {
      HoldsCovers(f.ctx.rels, e);
      if k > 0 {
        WalkAt(k, k - 1);
        WalkAt(k, k - 2);
      }
    }
    SolveExact(w, f.ctx, PrefixOf(f), e);
    HoldsHasNoEmpty(ResolveClauses(w, f.ctx, PrefixOf(f)).ctx.rels, e);
  }

  // ------------------------------------------------------------- the next frame

  /** The branch of the rule called at depth `k` that calls the other rule. */
  function HopBranch(k: nat): Branch {
    if k % 2 == 0 then Hops(":a", "f2") else Hops(":b", "f1")
  }

  lemma {:induction false} RenamedVars(k: nat)
    ensures var (x, y) := (Named("?x"), Named("?y"));
            && NewArgs(HopArgs(k)) == [Node(k - 1), y] && Ren([x, y], NewArgs(HopArgs(k)), k, x) == Node(k - 1)
            && Ren([x, y], NewArgs(HopArgs(k)), k, y) == y
            && Ren([x, y], NewArgs(HopArgs(k)), k, Named("?t")) == Node(k)
  {
    var x, y, t := Named("?x"), Named("?y"), Named("?t");
    assert "?x"[1] != "?y"[1] && "?x"[1] != "?t"[1] && "?y"[1] != "?t"[1];
    var head, args := [x, y], [Node(k - 1), y];
    assert NewArgs(HopArgs(k)) == args;
    assert head[1..] == [y] && args[1..] == [y] && head[1..][1..] == [] && args[1..][1..] == [];
    assert Replacement([y], [y], x) == Option.None && Replacement([y], [y], y) == Option.Some(y);
    assert Replacement([y], [y], t) == Option.None;
  }

  lemma {:induction false} RenamedHop(k: nat, next: nat)
    requires next == k + 1
    ensures RenAtoms(HopBranch(k).head, NewArgs(HopArgs(k)), k, HopBranch(k).body) == AtomsOf(next)
  {
    var head, args, body := HopBranch(k).head, NewArgs(HopArgs(k)), HopBranch(k).body;
    RenamedVars(k);
    assert RenTerms(head, args, k, body[0].terms) == HopTerms(next);
    assert RenTerms(head, args, k, body[1].args) == HopArgs(next);
    assert body[1..] == [body[1]] && body[1..][1..] == [];
    assert RenAtoms(head, args, k, body[1..]) == [Call(Callee(next), HopArgs(next))] + [];
    assert RenAtoms(head, args, k, body) == [Match(HopTerms(next))] + [Call(Callee(next), HopArgs(next))];
  }

  lemma {:induction false} UsedNext(k: nat, next: nat, f: Frame)
    requires next == k + 1 && Shape(k, f) && FromCall(f.atoms) != []
    ensures UsedAre(next, UsedAfter(f))
  {
    AtomsAre(k);
    forall name, i | name in UsedAfter(f) && 0 <= i < |UsedAfter(f)[name]|
      ensures CallBefore(next, name, UsedAfter(f)[name][i])
    {
      var j := UsedOf(k, next, f, name, i);
    }
  }

  lemma {:induction false} UsedOf(k: nat, next: nat, f: Frame, name: string, i: nat) returns (j: nat)
    requires next == k + 1 && UsedAre(k, f.used) && FromCall(f.atoms) == [Call(Callee(k), HopArgs(k))]
    requires name in UsedAfter(f) && i < |UsedAfter(f)[name]|
    ensures j < next && name == Callee(j) && UsedAfter(f)[name][i] == HopArgs(j)
  {
    if name == Callee(k) && i == |EarlierCalls(f.used, name)| {
      j := k;
    } else {
      assert name in f.used && i < |f.used[name]| && UsedAfter(f)[name][i] == f.used[name][i];
      assert CallBefore(k, name, f.used[name][i]);
      j :| j < k && name == Callee(j) && f.used[name][i] == HopArgs(j);
    }
  }

  lemma {:induction false} GuardVarsIn(k: nat, gs: seq<Clause>)
    requires forall g :: g in gs ==> k >= 2 && g == Pred(DIFFER, [Variable(Node(k - 1)), Variable(Node(k - 3))])
    ensures ClausesVars(gs) <= {Node(k - 1), Node(k - 3)} && (gs != [] ==> k >= 2)
  {
    if gs != [] {
      assert gs[0] in gs;
      PairVars(Node(k - 1), Node(k - 3));
      forall g | g in gs[1..]
        ensures g == Pred(DIFFER, [Variable(Node(k - 1)), Variable(Node(k - 3))])
      {
        assert g in gs;
      }
      GuardVarsIn(k, gs[1..]);
    }
  }

  lemma {:induction false} PrefixNext(k: nat, next: nat, f: Frame)
    requires next == k + 1 && Shape(k, f) && FromCall(f.atoms) != []
    ensures NodesIn(ClausesVars(PrefixOf(f)), next - 4, next - 2)
    ensures next >= 2 ==> Node(next - 3) in ClausesVars(PrefixOf(f))
    ensures ClausesVars(PrefixOf(f)) <= VarsAll(f.ctx.rels) + BindsAll(HopLits(k))
  {
    var gs := GuardsNow(f, true);
    AtomsAre(k);
    ScopeVars(k, f);
    VarsConcat(Lits(f.atoms), gs);
    forall g | g in gs ensures k >= 2 && g == Pred(DIFFER, [Variable(Node(k - 1)), Variable(Node(k - 3))])
                               && Node(k - 3) in VarsAll(f.ctx.rels) + BindsAll(HopLits(k))
    {
      OnlyGuard(k, f, g);
      GuardArgs(k, k - 2);
    }
    GuardVarsIn(k, gs);
    if gs != [] { assert gs[0] in gs; }
    forall v | v in ClausesVars(PrefixOf(f)) ensures exists i :: -1 <= i && next - 4 <= i <= next - 2 && v == Node(i) {
      if v in ClausesVars(HopLits(k)) {
        assert k >= 1 && (v == Node(k - 2) || v == Node(k - 1));
      } else {
        assert k >= 2 && (v == Node(k - 1) || v == Node(k - 3));
      }
    }
  }

  lemma {:induction false} WalkOn(k: nat, next: nat, rels: seq<Rel>)
    requires next == k + 1 && HoldsAll(rels, Walk(k))
    ensures HoldsAll(rels, Walk(next))
  {
    forall v | v in VarsAll(rels) && v in Walk(k) ensures v in Walk(next) && Walk(next)[v] == Walk(k)[v] {
      WalkKeys(k, v);
      var i :| -1 <= i < k && v == Node(i);
      WalkAt(k, i);
      WalkAt(next, i);
    }
    HoldsAgree(rels, Walk(k), Walk(next));
  }

  lemma {:induction false} PendingNext(k: nat, next: nat, f: Frame)
    requires next == k + 1 && Shape(k, f) && FromCall(f.atoms) != []
    ensures OldGuards(next, GuardsNow(f, false))
  {
    forall g | g in GuardsNow(f, false)
      ensures g.Pred? && exists i :: -1 <= i <= next - 6 && Variable(Node(i)) in g.args
    {
      LeftGuard(k, f, g);
    }
  }

  lemma {:induction false} ChildIs(k: nat, next: nat, f: Frame, ctx: Ctx)
    requires next == k + 1 && Shape(k, f) && FromCall(f.atoms) != [] && ctx.consts == map[]
    ensures Child(f, ctx, HopBranch(k), k) == Frame(PrefixOf(f), ctx, AtomsOf(next), UsedAfter(f), GuardsNow(f, false))
  {
    AtomsAre(k);
    RenamedHop(k, next);
    assert [Call(Callee(k), HopArgs(k))][1..] == [] && AtomsOf(next) + [] == AtomsOf(next);
    assert ArgConsts(HopArgs(k)) == map[] && map[] + map[] == ctx.consts;
  }

  lemma {:induction false} ShapeNext(p: Program, w: World, finals: set<Var>, k: nat, next: nat, f: Frame)
    requires next == k + 1 && DifferOk(w) && Ring(w) && Shape(k, f) && FrameOk(p, w, finals, f, k)
             && FromCall(f.atoms) != []
    ensures ResolveClauses(w, f.ctx, PrefixOf(f)).Ok?
    ensures Shape(next, Child(f, ResolveClauses(w, f.ctx, PrefixOf(f)).ctx, HopBranch(k), k))
  {
    PathSolved(p, w, finals, k, f);
    var ctx := ResolveClauses(w, f.ctx, PrefixOf(f)).ctx;
    SolvedOk(p, w, finals, f, k);
    AtomsAre(k);
    ChildIs(k, next, f, ctx);
    UsedNext(k, next, f);
    PrefixNext(k, next, f);
    PendingNext(k, next, f);
    WalkOn(k, next, ctx.rels);
  }

  // --------------------------------------------------------------------- for ever

  /** One frame is left, and it is the one at depth `k`. */
  ghost predicate On(p: Program, w: World, finals: set<Var>, k: nat, s: State) {
    Runnable(s) && s.State? && s.seqid == k && |s.stack| == 1 && Shape(k, s.stack[0])
      && FrameOk(p, w, finals, s.stack[0], k)
  }

  lemma {:induction false} PathExpands(p: Program, w: World, finals: set<Var>, k: nat, f: Frame)
    requires DifferOk(w) && Ring(w) && Shape(k, f) && FrameOk(p, w, finals, f, k) && FromCall(f.atoms) != []
    ensures ResolveClauses(w, f.ctx, PrefixOf(f)).Ok? && FromCall(f.atoms)[0] == Call(Callee(k), HopArgs(k))
    ensures Expand(p, w, f, k)
        == Expanded(Children(f, ResolveClauses(w, f.ctx, PrefixOf(f)).ctx, BranchesOf(p, Callee(k)), k))
  {
    AtomsAre(k);
    PathSolved(p, w, finals, k, f);
  }

  lemma {:induction false} HopChild(w: World, finals: set<Var>, k: nat, next: nat, f: Frame)
    requires next == k + 1 && DifferOk(w) && Ring(w) && Shape(k, f) && FrameOk(Turning(), w, finals, f, k)
             && FromCall(f.atoms) != []
    ensures ResolveClauses(w, f.ctx, PrefixOf(f)).Ok?
    ensures var c := Child(f, ResolveClauses(w, f.ctx, PrefixOf(f)).ctx, HopBranch(k), k);
            Shape(next, c) && FrameOk(Turning(), w, finals, c, next)
  {
    AtomsAre(k);
    ShapeNext(Turning(), w, finals, k, next, f);
    TurningOk();
    var branches := Turning()[Callee(k)];
    assert HopBranch(k) == branches[|branches| - 1];
    ChildOk(Turning(), w, finals, f, HopBranch(k), k, next);
  }

  lemma {:induction false} OneChild(f: Frame, ctx: Ctx, br: Branch, id: nat)
    requires FromCall(f.atoms) != []
    ensures Children(f, ctx, [br], id) == [Child(f, ctx, br, id)]
  {
    assert [br][1..] == [] && Children(f, ctx, [br], id) == [Child(f, ctx, br, id)] + [];
  }

  lemma {:induction false} Arrives(w: World, finals: set<Var>, k: nat, f: Frame, s: State)
    requires s.State? && s.seqid == k && s.stack == [f] && Good(s.rel) && Shape(k, f)
             && FrameOk(Turning(), w, finals, f, k)
    ensures On(Turning(), w, finals, k, s)
  {
    assert s.stack[1..] == [];
  }

  lemma {:induction false} OddTurn(w: World, finals: set<Var>, k: nat, next: nat, s: State)
    requires next == k + 1 && k % 2 == 1 && DifferOk(w) && Ring(w) && On(Turning(), w, finals, k, s)
    ensures On(Turning(), w, finals, next, Step(Turning(), w, s))
  {
    var f := s.stack[0];
    assert s.stack == [f] && FromCall(f.atoms) != [] by { AtomsAre(k); }
    var c := OddExpands(w, finals, k, next, f);
    OneFrame(Turning(), w, s, f, [c], next);
    Arrives(w, finals, next, c, State([c], s.rel, next));
  }

  lemma {:induction false} OddExpands(w: World, finals: set<Var>, k: nat, next: nat, f: Frame) returns (c: Frame)
    requires next == k + 1 && k % 2 == 1 && DifferOk(w) && Ring(w)
    requires Shape(k, f) && FrameOk(Turning(), w, finals, f, k) && FromCall(f.atoms) != []
    ensures Expand(Turning(), w, f, k) == Expanded([c]) && Shape(next, c) && FrameOk(Turning(), w, finals, c, next)
  {
    HopChild(w, finals, k, next, f);
    c := Child(f, ResolveClauses(w, f.ctx, PrefixOf(f)).ctx, HopBranch(k), k);
    PathExpands(Turning(), w, finals, k, f);
    assert BranchesOf(Turning(), Callee(k)) == [HopBranch(k)];
    OneChild(f, ResolveClauses(w, f.ctx, PrefixOf(f)).ctx, HopBranch(k), k);
  }

  /** A turn that expands the only frame. */
  lemma {:induction false} OneFrame(p: Program, w: World, s: State, f: Frame, frames: seq<Frame>, next: nat)
    requires s.State? && next == s.seqid + 1 && Runnable(s) && s.stack == [f] && FromCall(f.atoms) != []
             && WellFormed(f.ctx.rels)
    requires Expand(p, w, f, s.seqid) == Expanded(frames)
    ensures Step(p, w, s) == State(frames, s.rel, next)
  {
    StepCases(p, w, s);
    assert [f][1..] == [] && frames + [] == frames;
  }

  // ------------------------------------------------------- a rule with a base branch

  function BaseAtoms(k: nat): seq<Atom> {
    [Match([Variable(Node(k - 1)), Constant(Kw(":a")), Variable(Named("?y"))])]
  }

  lemma {:induction false} BaseChild(k: nat, f: Frame, ctx: Ctx)
    requires Shape(k, f) && FromCall(f.atoms) != [] && ctx.consts == map[]
    ensures Child(f, ctx, Base(), k).atoms == BaseAtoms(k) && Child(f, ctx, Base(), k).ctx == ctx
  {
    AtomsAre(k);
    RenamedVars(k);
    var head, args, body := Base().head, NewArgs(HopArgs(k)), Base().body;
    assert body[1..] == [];
    assert RenTerms(head, args, k, body[0].terms) == BaseAtoms(k)[0].terms;
    assert RenAtoms(head, args, k, body) == [Match(BaseAtoms(k)[0].terms)] + [];
    assert [Call(Callee(k), HopArgs(k))][1..] == [] && BaseAtoms(k) + [] == BaseAtoms(k);
    assert ArgConsts(HopArgs(k)) == map[] && map[] + map[] == ctx.consts;
  }

  lemma {:induction false} BaseSolved(w: World, k: nat, ctx: Ctx)
    requires WellFormed(ctx.rels) && ctx.consts == map[]
    ensures FromCall(BaseAtoms(k)) == [] && ResolveClauses(w, ctx, Lits(BaseAtoms(k))).Ok?
  {
    var c := Pattern(BaseAtoms(k)[0].terms);
    assert BaseAtoms(k)[1..] == [] && Lits(BaseAtoms(k)) == [c] + [];
    EdgeResolves(w, ctx, Node(k - 1), ":a", Named("?y"));
    ReduceCons(w, ctx, c, [], ResolveClause(w, ctx, c).ctx);
    assert [c] + [] == [c];
  }

  lemma {:induction false} Finishes(w: World, f: Frame, rel: Rel)
    requires WellFormed(f.ctx.rels) && Good(rel) && ResolveClauses(w, f.ctx, Lits(f.atoms)).Ok?
    ensures Finish(w, f, rel).Some?
  {
    var o := ResolveClauses(w, f.ctx, Lits(f.atoms));
    CollectedGood(o.ctx, rel.keys);
    assert rel.attrs.Keys == CollectedRel(o.ctx, rel.keys).attrs.Keys;
  }

  lemma {:induction false} TwoChildren(f: Frame, ctx: Ctx, br: Branch, other: Branch, id: nat)
    requires FromCall(f.atoms) != []
    ensures Children(f, ctx, [br, other], id) == [Child(f, ctx, br, id), Child(f, ctx, other, id)]
  {
    OneChild(f, ctx, other, id);
    assert [br, other][1..] == [other];
    assert Children(f, ctx, [br, other], id) == [Child(f, ctx, br, id)] + [Child(f, ctx, other, id)];
  }

  lemma {:induction false} EvenExpands(w: World, finals: set<Var>, k: nat, next: nat, f: Frame)
    returns (leaf: Frame, c: Frame)
    requires next == k + 1 && k % 2 == 0 && DifferOk(w) && Ring(w)
    requires Shape(k, f) && FrameOk(Turning(), w, finals, f, k) && FromCall(f.atoms) != []
    ensures Expand(Turning(), w, f, k) == Expanded([leaf, c]) && leaf.ctx.consts == map[] && leaf.atoms == BaseAtoms(k)
    ensures Shape(next, c) && FrameOk(Turning(), w, finals, c, next)
  {
    HopChild(w, finals, k, next, f);
    var ctx := ResolveClauses(w, f.ctx, PrefixOf(f)).ctx;
    leaf, c := Child(f, ctx, Base(), k), Child(f, ctx, HopBranch(k), k);
    BaseChild(k, f, ctx);
    PathExpands(Turning(), w, finals, k, f);
    assert BranchesOf(Turning(), Callee(k)) == [Base(), HopBranch(k)];
    TwoChildren(f, ctx, Base(), HopBranch(k), k);
  }

  lemma {:induction false} BaseTurn(w: World, k: nat, s: State, leaf: Frame, rest: Frame)
    requires s.State? && Runnable(s) && s.stack == [leaf, rest]
    requires leaf.ctx.consts == map[] && leaf.atoms == BaseAtoms(k)
    ensures Step(Turning(), w, s).State? && Step(Turning(), w, s).stack == [rest]
            && Step(Turning(), w, s).seqid == s.seqid
  {
    BaseSolved(w, k, leaf.ctx);
    Finishes(w, leaf, s.rel);
    StepCases(Turning(), w, s);
    assert s.stack[1..] == [rest];
  }

  lemma {:induction false} EvenTurns(w: World, finals: set<Var>, k: nat, next: nat, s: State)
    requires next == k + 1 && k % 2 == 0 && DifferOk(w) && Ring(w) && On(Turning(), w, finals, k, s)
    ensures !Done(Step(Turning(), w, s)) && On(Turning(), w, finals, next, Step(Turning(), w, Step(Turning(), w, s)))
  {
    var f := s.stack[0];
    AtomsAre(k);
    var leaf, c := EvenExpands(w, finals, k, next, f);
    OneFrame(Turning(), w, s, f, [leaf, c], next);
    var t := Step(Turning(), w, s);
    BaseTurn(w, k, t, leaf, c);
    Arrives(w, finals, next, c, Step(Turning(), w, t));
  }

  lemma {:induction false} RunTwo(p: Program, w: World, s: State)
    requires Runnable(s)
    ensures Run(p, w, s, 0) == s && Run(p, w, s, 1) == Step(p, w, s) && Run(p, w, s, 2) == Step(p, w, Step(p, w, s))
  {
    var t := Step(p, w, s);
    RunStep(p, w, s, 1);
    RunStep(p, w, s, 2);
    RunStep(p, w, t, 1);
    assert Run(p, w, t, 0) == t && Run(p, w, Step(p, w, t), 0) == Step(p, w, t);
  }

  /** Within two turns, the solver is on the path again. */
  lemma {:induction false} Turn(p: Program, w: World, finals: set<Var>, k: nat, next: nat, s: State)
    returns (m: nat, t: State)
    requires next == k + 1 && p == Turning() && DifferOk(w) && Ring(w) && On(p, w, finals, k, s)
    ensures 1 <= m <= 2 && t == Run(p, w, s, m) && On(p, w, finals, next, t)
    ensures Run(p, w, s, 0) == s && (m == 2 ==> !Done(Run(p, w, s, 1)))
  {
    RunTwo(p, w, s);
    if k % 2 == 1 {
      OddTurn(w, finals, k, next, s);
      m, t := 1, Step(p, w, s);
    } else {
      EvenTurns(w, finals, k, next, s);
      m, t := 2, Step(p, w, Step(p, w, s));
    }
  }

  lemma {:induction false} RunSum(p: Program, w: World, s: State, m: nat, n: nat, all: nat)
    requires Runnable(s) && all == m + n
    ensures Run(p, w, s, all) == Run(p, w, Run(p, w, s, m), n)
    decreases m
  {
    if m > 0 {
      RunStep(p, w, s, m);
      RunStep(p, w, s, all);
      RunSum(p, w, Step(p, w, s), m - 1, n, all - 1);
    }
  }

  lemma {:induction false} RunsOn(p: Program, w: World, finals: set<Var>, k: nat, next: nat, s: State, n: nat)
    requires next == k + 1 && p == Turning() && DifferOk(w) && Ring(w) && On(p, w, finals, k, s)
    ensures !Done(Run(p, w, s, n))
    decreases n
  {
    var m, t := Turn(p, w, finals, k, next, s);
    if n >= m {
      var left: nat := n - m;
      RunSum(p, w, s, m, left, n);
      RunsOn(p, w, finals, next, next + 1, t, left);
    }
  }

  lemma {:induction false} RunStep(p: Program, w: World, s: State, n: nat)
    requires Runnable(s) && n > 0
    ensures Run(p, w, s, n) == Run(p, w, Step(p, w, s), n - 1)
  {}

  /** In every database with the ring, the solver never ends: guards against calls of the same
      rule further up are put off for ever, and those that are checked are true. */
  lemma {:induction false} NeverEnds(w: World, n: nat)
    requires LookupOk(w.src) && DifferOk(w) && Ring(w)
    ensures var s := Initial(Ctx([], map[]), Call("f1", [Variable(Named("?x")), Variable(Named("?y"))]));
            Runnable(s) && !Done(Run(Turning(), w, s, n))
  {
    var x, y, ctx := Named("?x"), Named("?y"), Ctx([], map[]);
    var goal := Call("f1", [Variable(x), Variable(y)]);
    assert "?x"[1] != "?y"[1];
    PairOf(x, y);
    PairVars(x, y);
    TurningOk();
    assert goal.args == HopArgs(0) && AtomsOf(0) == [goal];
    FinalsAre(goal.args);
    InitialRunnable(ctx, goal);
    assert GoalOk(Turning(), w, ctx, goal);
    InitialFrameOk(Turning(), w, ctx, goal);
    assert On(Turning(), w, TermVars(goal.args), 0, Initial(ctx, goal));
    RunsOn(Turning(), w, TermVars(goal.args), 0, 1, Initial(ctx, goal), n);
  }

  lemma {:induction false} HopOk(attr: string, other: string)
    requires other in Turning()
    ensures BranchOk(Turning(), Hops(attr, other)) && Calls(Hops(attr, other).body) == 1
    ensures BoundArgs(Hops(attr, other), Hops(attr, other).body[1].args)
  {
    var p: Program, br := Turning(), Hops(attr, other);
    var x, y, t := Named("?x"), Named("?y"), Named("?t");
    assert "?x"[1] != "?y"[1] && "?x"[1] != "?t"[1] && "?y"[1] != "?t"[1];
    var hop, call := br.body[0], br.body[1];
    BodyFrom(p, call, []);
    BodyFrom(p, hop, [call]);
    assert br.body == [hop] + [call] && [call] + [] == [call];
    PairOf(x, y);
    PairOf(t, y);
    HopVarsOf(attr);
    assert hop.terms[0] != hop.terms[2] && AtomOk(p, hop);
    assert SafeVars(br.body) == {x, t, y} && AtomsVars(br.body) == {x, t, y};
    assert Lits(br.body) == [Pattern(hop.terms)] + Lits([call]) && Lits([call]) == [];
    assert ([Pattern(hop.terms)] + [])[1..] == [] && ClausesVars(Lits(br.body)) == {x, t} + {};
    assert BoundArg(br, call.args, 0) && BoundArg(br, call.args, 1);
  }

  lemma {:induction false} HopVarsOf(attr: string)
    ensures TermVars([Variable(Named("?x")), Constant(Kw(attr)), Variable(Named("?t"))]) == {Named("?x"), Named("?t")}
  {
    var ts := [Variable(Named("?x")), Constant(Kw(attr)), Variable(Named("?t"))];
    forall v ensures v in TermVars(ts) <==> v == Named("?x") || v == Named("?t") {
      TermVarsAt(ts, v);
      assert ts[0] == Variable(Named("?x")) && ts[2] == Variable(Named("?t"));
    }
  }

  lemma {:induction false} BaseFits()
    ensures BranchOk(Turning(), Base()) && Calls(Base().body) == 0
  {
    var p: Program, base := Turning(), Base();
    var x, y, ts := Named("?x"), Named("?y"), base.body[0].terms;
    assert "?x"[1] != "?y"[1];
    PairOf(x, y);
    BodyFrom(p, base.body[0], []);
    assert base.body == base.body + [] && ts[0] != ts[2] && AtomOk(p, base.body[0]);
    forall v ensures v in TermVars(ts) <==> v == x || v == y {
      TermVarsAt(ts, v);
      assert ts[0] == Variable(x) && ts[2] == Variable(y);
    }
  }

  lemma {:induction false} HopCall(k: nat)
    ensures FromCall(HopBranch(k).body) == [HopBranch(k).body[1]]
  {
    assert HopBranch(k).body[1..] == [HopBranch(k).body[1]];
  }

  /** The program is one the solver is sound and complete for, and each argument that varies
      is bound before its call; but each rule calls the other one. */
  lemma {:induction false} TurningOk()
    ensures ProgramOk(Turning()) && Linear(Turning())
    ensures forall k: nat ::
        FromCall(HopBranch(k).body) != [] && BoundArgs(HopBranch(k), FromCall(HopBranch(k).body)[0].args)
  {
    HopOk(":a", "f2");
    HopOk(":b", "f1");
    BaseFits();
    forall k: nat ensures FromCall(HopBranch(k).body) == [HopBranch(k).body[1]] { HopCall(k); }
    var p: Program := Turning();
    forall name, i | name in p && 0 <= i < |p[name]| ensures BranchOk(p, p[name][i]) && Calls(p[name][i].body) <= 1 {
      assert p[name][i] == Base() || p[name][i] == Hops(":a", "f2") || p[name][i] == Hops(":b", "f1");
    }
  }

  /** No ranking of the two rules makes them bound, so BoundRulesTerminate does not apply. */
  lemma {:induction false} NoRank(rank: string -> nat)
    ensures !BoundRules(Turning(), rank, rank("f1"))
  {
    var p: Program := Turning();
    HopCall(0);
    HopCall(1);
    assert p["f1"][1] == HopBranch(0) && p["f2"][0] == HopBranch(1);
    assert "f1"[1] != "f2"[1];
    if rank("f2") < rank("f1") {
      assert !BoundBranch(rank, "f2", HopBranch(1));
    } else {
      assert !BoundBranch(rank, "f1", HopBranch(0));
    }
  }
}
