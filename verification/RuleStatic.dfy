/** Rule programs whose text alone says that the solver ends: a branch calls its own rule, with
    each varying argument bound by the clauses before the call, or a rule of lower rank. */
module RuleStatic {
  import opened Relations
  import opened Sequences
  import opened RelationOps
  import opened Contexts
  import opened Search
  import opened Clauses
  import opened Semantics
  import opened Schedule
  import opened Evaluator
  import opened Flat
  import opened Rules
  import opened RuleSemantics
  import opened RuleFrames
  import opened RuleTrees
  import opened RuleSoundness
  import opened RuleCompleteness
  import opened RuleTermination

  // ------------------------------------------------------------- the condition

  /** The terms are variables of the clauses. */
  predicate InVars(vars: set<Var>, t: Term) {
    t.Variable? && t.v in vars
  }

  /** A branch calls at most one rule. In a call of its own rule, each argument is passed on
      unchanged, or it and the parameter it replaces occur in the clauses before the call; any
      other rule it calls has a lower rank, so there is no way back. */
  ghost predicate BoundBranch(rank: string -> nat, name: string, br: Branch) {
    && Calls(br.body) <= 1
    && (FromCall(br.body) != [] ==>
          var call := FromCall(br.body)[0];
          rank(call.name) < rank(name) || (call.name == name && BoundArgs(br, call.args)))
  }

  ghost predicate BoundArgs(br: Branch, ts: seq<Term>) {
    |ts| == |br.head| && forall k :: 0 <= k < |ts| ==> BoundArg(br, ts, k)
  }

  ghost predicate BoundArg(br: Branch, ts: seq<Term>, k: nat)
    requires |ts| == |br.head|
  {
    k < |ts| ==>
      ts[k] == Variable(br.head[k])
        || (br.head[k] in ClausesVars(Lits(br.body)) && InVars(ClausesVars(Lits(br.body)), ts[k]))
  }

  /** All rules up to the rank `top` are bound. */
  ghost predicate BoundRules(p: Program, rank: string -> nat, top: nat) {
    forall name, i :: name in p && rank(name) <= top && 0 <= i < |p[name]| ==> BoundBranch(rank, name, p[name][i])
  }

  // --------------------------------------------------------------- what frames keep

  /** Where the calls are written differently, both arguments are variables of `vars`. */
  ghost predicate PairReady(vars: set<Var>, xs: seq<Term>, ys: seq<Term>) {
    |xs| == |ys| && forall k :: 0 <= k < |xs| ==> xs[k] == ys[k] || (InVars(vars, xs[k]) && InVars(vars, ys[k]))
  }

  /** ... for any two of the calls that pass only variables. */
  ghost predicate Ready(vars: set<Var>, calls: seq<seq<Term>>) {
    forall i, j :: 0 <= i < |calls| && 0 <= j < |calls| && AllVariables(calls[i]) && AllVariables(calls[j]) ==>
      PairReady(vars, calls[i], calls[j])
  }

  ghost predicate AllReady(vars: set<Var>, a: seq<Term>, calls: seq<seq<Term>>) {
    forall i :: 0 <= i < |calls| && AllVariables(calls[i]) ==> PairReady(vars, a, calls[i])
  }

  /** The next call has no rule of lower rank before it; the earlier calls of its rule are
      ready in the clauses solved last, and it differs from the last one only in variables of
      the clauses before it. */
  ghost predicate StaticCall(rank: string -> nat, top: nat, f: Frame, a: Atom)
    requires a.Call?
  {
    var calls := EarlierCalls(f.used, a.name);
    && rank(a.name) <= top && (forall name :: name in f.used ==> rank(name) >= rank(a.name))
    && (f.used != map[] ==> AllVariables(a.args))
    && (calls != [] ==>
          && Ready(ClausesVars(f.prefix), calls)
          && (AllVariables(calls[|calls| - 1]) ==> PairReady(ClausesVars(Lits(f.atoms)), calls[|calls| - 1], a.args)))
  }

  ghost predicate StaticFrame(rank: string -> nat, top: nat, f: Frame) {
    && AllOpen(f.pending) && Calls(f.atoms) <= 1 && OuterFirst(f.used)
    && (FromCall(f.atoms) != [] ==> StaticCall(rank, top, f, FromCall(f.atoms)[0]))
  }

  ghost predicate StaticStack(rank: string -> nat, top: nat, stack: seq<Frame>) {
    stack == [] || (StaticFrame(rank, top, stack[0]) && StaticStack(rank, top, stack[1..]))
  }

  /** The next call is ready against every earlier one. */
  lemma {:induction false} CallReady(prefix: set<Var>, lits: set<Var>, calls: seq<seq<Term>>, a: seq<Term>)
    requires Ready(prefix, calls) && calls != []
    requires forall i :: 0 < i < |calls| ==> AllVariables(calls[i])
    requires AllVariables(calls[|calls| - 1]) ==> PairReady(lits, calls[|calls| - 1], a)
    ensures AllReady(prefix + lits, a, calls)
  {
    var n := |calls| - 1;
    forall i | 0 <= i < |calls| && AllVariables(calls[i]) ensures PairReady(prefix + lits, a, calls[i]) {
      assert PairReady(prefix, calls[i], calls[n]);
      forall k | 0 <= k < |a|
        ensures a[k] == calls[i][k] || (InVars(prefix + lits, a[k]) && InVars(prefix + lits, calls[i][k]))
      {
        assert a[k] == calls[n][k] || (InVars(lits, calls[n][k]) && InVars(lits, a[k]));
        assert calls[i][k] == calls[n][k] || (InVars(prefix, calls[i][k]) && InVars(prefix, calls[n][k]));
      }
    }
  }

  // ------------------------------------------------------------- guards are checked

  lemma {:induction false} CoveredConcat(vars: set<Var>, s: seq<Term>, t: seq<Term>)
    ensures Covered(vars, s + t) <==> Covered(vars, s) && Covered(vars, t)
  {
    if s == [] {
      assert s + t == t;
    } else {
      assert (s + t)[1..] == s[1..] + t;
      CoveredConcat(vars, s[1..], t);
    }
  }

  lemma {:induction false} ReadyTail(vars: set<Var>, xs: seq<Term>, ys: seq<Term>)
    requires PairReady(vars, xs, ys) && xs != []
    ensures PairReady(vars, xs[1..], ys[1..])
  {}

  /** The differing arguments are covered, and conversely. */
  lemma {:induction false} DifferingCovered(vars: set<Var>, xs: seq<Term>, ys: seq<Term>)
    requires |xs| == |ys|
    ensures PairReady(vars, xs, ys) <==>
        Covered(vars, DifferingArgs(xs, ys).0) && Covered(vars, DifferingArgs(xs, ys).1)
  {
    if xs != [] {
      var r := DifferingArgs(xs[1..], ys[1..]);
      DifferingCovered(vars, xs[1..], ys[1..]);
      if PairReady(vars, xs, ys) { ReadyTail(vars, xs, ys); }
      assert ([xs[0]] + r.0)[1..] == r.0 && ([ys[0]] + r.1)[1..] == r.1;
      if PairReady(vars, xs[1..], ys[1..]) {
        forall k | 1 <= k < |xs| ensures xs[k] == ys[k] || (InVars(vars, xs[k]) && InVars(vars, ys[k])) {
          assert xs[k] == xs[1..][k - 1] && ys[k] == ys[1..][k - 1];
        }
      }
    }
  }

  lemma {:induction false} GuardCovered(vars: set<Var>, xs: seq<Term>, ys: seq<Term>)
    requires |xs| == |ys|
    ensures PairReady(vars, xs, ys) <==> Covered(vars, Guard(xs, ys).args)
  {
    DifferingCovered(vars, xs, ys);
    CoveredConcat(vars, DifferingArgs(xs, ys).0, DifferingArgs(xs, ys).1);
  }

  /** A call of variables differs from one with a constant in a guard that passes the constant. */
  lemma {:induction false} GuardOpen(xs: seq<Term>, ys: seq<Term>)
    requires |xs| == |ys| && AllVariables(xs) && AllVariables(DifferingArgs(xs, ys).1)
    ensures AllVariables(ys)
  {
    if xs != [] {
      var r := DifferingArgs(xs[1..], ys[1..]);
      assert ([ys[0]] + r.1)[1..] == r.1;
      GuardOpen(xs[1..], ys[1..]);
    }
  }

  lemma {:induction false} CoveredChecked(vars: set<Var>, gs: seq<Clause>, g: Clause)
    requires g in gs && g.Pred? && Covered(vars, g.args)
    ensures g in Checkable(vars, gs, true)
  {
    assert gs == [gs[0]] + gs[1..];
    CheckableCons(vars, gs[0], gs[1..], true);
    if gs[0] != g { CoveredChecked(vars, gs[1..], g); }
  }

  lemma {:induction false} LeftOpen(vars: set<Var>, gs: seq<Clause>)
    requires forall g :: g in gs ==> g.Pred? && (Covered(vars, g.args) || !AllVariables(g.args))
    ensures AllOpen(Checkable(vars, gs, false))
  {
    if gs != [] {
      assert gs == [gs[0]] + gs[1..];
      LeftOpen(vars, gs[1..]);
      CheckableCons(vars, gs[0], gs[1..], false);
      var left := Checkable(vars, gs[1..], false);
      assert ([gs[0]] + left)[1..] == left;
    }
  }

  lemma {:induction false} OpenIn(gs: seq<Clause>, g: Clause)
    requires AllOpen(gs) && g in gs
    ensures g.Pred? && !AllVariables(g.args)
  {
    if gs[0] != g { OpenIn(gs[1..], g); }
  }

  /** A static frame puts off only guards that pass a constant, and its new call is ready
      against all earlier calls of variables. */
  lemma {:induction false} StaticChecked(p: Program, rank: string -> nat, top: nat, f: Frame)
    requires StaticFrame(rank, top, f) && FromCall(f.atoms) != [] && AtomsOk(p, f.atoms) && UsedOk(p, f.used)
    ensures AllOpen(GuardsNow(f, false))
    ensures var a := FromCall(f.atoms)[0];
            AllReady(ClausesVars(f.prefix + Lits(f.atoms)), a.args, EarlierCalls(f.used, a.name))
  {
    var a := FromCall(f.atoms)[0];
    var calls, vars := EarlierCalls(f.used, a.name), ClausesVars(f.prefix + Lits(f.atoms));
    VarsConcat(f.prefix, Lits(f.atoms));
    CallArity(p, f);
    if calls != [] { CallReady(ClausesVars(f.prefix), ClausesVars(Lits(f.atoms)), calls, a.args); }
    forall g | g in GuardsOf(f) ensures g.Pred? && (Covered(vars, g.args) || !AllVariables(g.args)) {
      if g in f.pending {
        OpenIn(f.pending, g);
      } else {
        var i := GuardOf(a.args, calls, g);
        ArityAt(|a.args|, calls, i);
        if AllVariables(calls[i]) {
          GuardCovered(vars, a.args, calls[i]);
        } else if AllVariables(g.args) {
          VariablesConcat(DifferingArgs(a.args, calls[i]).0, DifferingArgs(a.args, calls[i]).1);
          GuardOpen(a.args, calls[i]);
        }
      }
    }
    LeftOpen(vars, GuardsOf(f));
  }

  lemma {:induction false} GuardOf(a: seq<Term>, calls: seq<seq<Term>>, g: Clause) returns (i: nat)
    requires g in Guards(a, calls)
    ensures i < |calls| && g == Guard(a, calls[i])
  {
    if g == Guard(a, calls[0]) {
      i := 0;
    } else {
      assert Guards(a, calls) == [Guard(a, calls[0])] + Guards(a, calls[1..]);
      i := GuardOf(a, calls[1..], g);
      i := i + 1;
    }
  }

  // ------------------------------------------------------------ children are static

  lemma {:induction false} CoveredMore(vars: set<Var>, more: set<Var>, ts: seq<Term>)
    requires Covered(vars, ts) && TermVars(ts) <= more
    ensures Covered(more, ts)
  {
    if ts != [] { CoveredMore(vars, more, ts[1..]); }
  }

  lemma {:induction false} VarsIn(cs: seq<Clause>, c: Clause)
    requires c in cs
    ensures ClauseVars(c) <= ClausesVars(cs)
  {
    if cs[0] != c { VarsIn(cs[1..], c); }
  }

  /** The variables of checked guards are carried forward. */
  lemma {:induction false} GuardsCarry(p: Program, f: Frame)
    requires AtomsOk(p, f.atoms) && UsedOk(p, f.used) && FromCall(f.atoms) != []
    requires var a := FromCall(f.atoms)[0];
             AllReady(ClausesVars(f.prefix + Lits(f.atoms)), a.args, EarlierCalls(f.used, a.name))
    ensures var a := FromCall(f.atoms)[0]; AllReady(ClausesVars(PrefixOf(f)), a.args, EarlierCalls(f.used, a.name))
  {
    var a := FromCall(f.atoms)[0];
    var calls, vars, more :=
        EarlierCalls(f.used, a.name), ClausesVars(f.prefix + Lits(f.atoms)), ClausesVars(PrefixOf(f));
    CallArity(p, f);
    forall i | 0 <= i < |calls| && AllVariables(calls[i]) ensures PairReady(more, a.args, calls[i]) {
      var g := Guard(a.args, calls[i]);
      ArityAt(|a.args|, calls, i);
      GuardCovered(vars, a.args, calls[i]);
      GuardAt(a.args, calls, i);
      assert GuardsOf(f)[i] == g;
      CoveredChecked(vars, GuardsOf(f), g);
      assert g in PrefixOf(f);
      VarsIn(PrefixOf(f), g);
      CoveredMore(vars, more, g.args);
      GuardCovered(more, a.args, calls[i]);
    }
  }

  /** With the new call, all calls stay ready. */
  lemma {:induction false} ReadyAfter(vars: set<Var>, a: seq<Term>, calls: seq<seq<Term>>)
    requires AllReady(vars, a, calls)
    ensures Ready(vars, calls + [a])
  {
    var all := calls + [a];
    forall i, j | 0 <= i < |all| && 0 <= j < |all| && AllVariables(all[i]) && AllVariables(all[j])
      ensures PairReady(vars, all[i], all[j])
    {
      assert i < |calls| ==> PairReady(vars, a, calls[i]);
      assert j < |calls| ==> PairReady(vars, a, calls[j]);
      forall k | 0 <= k < |a| ensures all[i][k] == all[j][k] || (InVars(vars, all[i][k]) && InVars(vars, all[j][k])) {}
    }
  }

  /** Literals of a renamed body. */
  lemma {:induction false} LitsRen(head: seq<Var>, args: seq<Var>, id: nat, atoms: seq<Atom>, next: seq<Atom>, v: Var)
    requires Calls(next) == 0 || FromCall(atoms) != []
    ensures v in ClausesVars(Lits(atoms)) ==>
        Ren(head, args, id, v) in ClausesVars(Lits(RenAtoms(head, args, id, atoms) + next))
    ensures FromCall(RenAtoms(head, args, id, atoms) + next) ==
              if FromCall(atoms) == [] then [] else RenAtoms(head, args, id, FromCall(atoms)) + next
  {
    if atoms == [] {
      assert RenAtoms(head, args, id, atoms) + next == next;
      NoCall(next);
    } else {
      var first, more := RenAtom(head, args, id, atoms[0]), RenAtoms(head, args, id, atoms[1..]);
      var all := RenAtoms(head, args, id, atoms) + next;
      assert all[0] == first && all[1..] == more + next;
      if !atoms[0].Call? {
        LitsRen(head, args, id, atoms[1..], next, v);
        var lits := Lits(atoms[1..]);
        var lit := if atoms[0].Match? then Pattern(atoms[0].terms) else Pred(atoms[0].f, atoms[0].args);
        assert Lits(atoms) == [lit] + lits && ([lit] + lits)[1..] == lits;
        var rest := Lits(all[1..]);
        var renamed := if first.Match? then Pattern(first.terms) else Pred(first.f, first.args);
        assert Lits(all) == [renamed] + rest && ([renamed] + rest)[1..] == rest;
        if v in ClauseVars(lit) {
          match atoms[0]
          case Match(ts) => RenTermVars(head, args, id, ts, v);
          case Test(_, ts) => RenTermVars(head, args, id, ts, v);
        }
      }
    }
  }

  lemma {:induction false} NoCall(atoms: seq<Atom>)
    requires Calls(atoms) == 0
    ensures FromCall(atoms) == []
  {
    if atoms != [] { NoCall(atoms[1..]); }
  }

  lemma {:induction false} CallAfter(atoms: seq<Atom>)
    requires Calls(atoms) <= 1 && FromCall(atoms) != []
    ensures Calls(FromCall(atoms)[1..]) == 0
  {
    CallsFromCall(atoms);
  }

  /** The recursive call of a renamed branch is ready against the call it came from. */
  lemma {:induction false} LinkReady(br: Branch, a: seq<Term>, id: nat, ts: seq<Term>, vars: set<Var>)
    requires |a| == |br.head| && NoDups(br.head) && AllVariables(a) && BoundArgs(br, ts)
    requires forall v :: v in ClausesVars(Lits(br.body)) ==> Ren(br.head, NewArgs(a), id, v) in vars
    ensures PairReady(vars, a, RenTerms(br.head, NewArgs(a), id, ts))
  {
    var rs := RenTerms(br.head, NewArgs(a), id, ts);
    forall k | 0 <= k < |a| ensures a[k] == rs[k] || (InVars(vars, a[k]) && InVars(vars, rs[k])) {
      AllVariablesAt(a, k);
      RenIs(br.head, NewArgs(a), id, br.head[k]);
      assert InSeq(br.head, br.head[k], k);
      assert BoundArg(br, ts, k);
    }
  }

  lemma {:induction false} ChildCall(rank: string -> nat, f: Frame, ctx: Ctx, br: Branch, id: nat)
    requires FromCall(f.atoms) != [] && Calls(f.atoms) <= 1 && BoundBranch(rank, FromCall(f.atoms)[0].name, br)
             && VarCalls(br.body)
    requires |br.head| == |FromCall(f.atoms)[0].args| && NoDups(br.head)
    ensures var c, a := Child(f, ctx, br, id), FromCall(f.atoms)[0];
            && Calls(c.atoms) <= 1
            && (FromCall(c.atoms) != [] ==>
                  var b := FromCall(c.atoms)[0];
                  && AllVariables(b.args)
                  && (rank(b.name) < rank(a.name)
                      || (b.name == a.name
                        && (AllVariables(a.args) ==> PairReady(ClausesVars(Lits(c.atoms)), a.args, b.args)))))
  {
    var a, tail := FromCall(f.atoms)[0], FromCall(f.atoms);
    var args := NewArgs(a.args);
    var body := RenAtoms(br.head, args, id, br.body);
    CallAfter(f.atoms);
    CallsRen(br.head, args, id, br.body);
    CallsConcat(body, tail[1..]);
    NoCall(tail[1..]);
    forall v | v in ClausesVars(Lits(br.body))
      ensures Ren(br.head, args, id, v) in ClausesVars(Lits(body + tail[1..]))
    {
      LitsRen(br.head, args, id, br.body, tail[1..], v);
    }
    LitsRen(br.head, args, id, br.body, tail[1..], Auto(0));
    if FromCall(br.body) != [] {
      var call := FromCall(br.body)[0];
      CallVariables(br.body);
      RenAllVariables(br.head, args, id, call.args);
      if call.name == a.name && BoundArgs(br, call.args) && AllVariables(a.args) {
        LinkReady(br, a.args, id, call.args, ClausesVars(Lits(body + tail[1..])));
      }
    }
  }

  lemma {:induction false} ChildStatic(p: Program, rank: string -> nat, top: nat, f: Frame, ctx: Ctx, br: Branch,
                                       id: nat)
    requires StaticFrame(rank, top, f) && FromCall(f.atoms) != [] && AtomsOk(p, f.atoms) && UsedOk(p, f.used)
    requires BoundBranch(rank, FromCall(f.atoms)[0].name, br) && VarCalls(br.body)
    requires |br.head| == |FromCall(f.atoms)[0].args| && NoDups(br.head)
    ensures StaticFrame(rank, top, Child(f, ctx, br, id))
  {
    var c, a := Child(f, ctx, br, id), FromCall(f.atoms)[0];
    var calls := EarlierCalls(f.used, a.name);
    StaticChecked(p, rank, top, f);
    ChildCall(rank, f, ctx, br, id);
    GuardsCarry(p, f);
    ReadyAfter(ClausesVars(c.prefix), a.args, calls);
    OuterAfter(f);
    assert EarlierCalls(c.used, a.name) == calls + [a.args];
    if FromCall(c.atoms) != [] {
      var b := FromCall(c.atoms)[0];
      if rank(b.name) < rank(a.name) { assert EarlierCalls(c.used, b.name) == []; }
      assert StaticCall(rank, top, c, b);
    }
  }

  // --------------------------------------------------------------------- runs

  lemma {:induction false} StaticCons(rank: string -> nat, top: nat, f: Frame, rest: seq<Frame>)
    ensures StaticStack(rank, top, [f] + rest) <==> StaticFrame(rank, top, f) && StaticStack(rank, top, rest)
  {
    var all := [f] + rest;
    assert all[0] == f && all[1..] == rest;
  }

  lemma {:induction false} FirstStatic(rank: string -> nat, top: nat, f: Frame, ctx: Ctx, branches: seq<Branch>,
                                       id: nat, rest: seq<Frame>)
    returns (c: Frame, more: seq<Frame>)
    requires FromCall(f.atoms) != [] && branches != [] && StaticFrame(rank, top, Child(f, ctx, branches[0], id))
    ensures StaticFrame(rank, top, c) && more == Children(f, ctx, branches[1..], id)
    ensures Children(f, ctx, branches, id) + rest == [c] + (more + rest)
  {
    c, more := Child(f, ctx, branches[0], id), Children(f, ctx, branches[1..], id);
    assert Children(f, ctx, branches, id) == [c] + more;
  }

  lemma {:induction false} ChildrenStatic(rank: string -> nat, top: nat, f: Frame, ctx: Ctx, branches: seq<Branch>,
                                          id: nat, rest: seq<Frame>)
    requires FromCall(f.atoms) != []
    requires forall i :: 0 <= i < |branches| ==> StaticFrame(rank, top, Child(f, ctx, branches[i], id))
    ensures StaticStack(rank, top, Children(f, ctx, branches, id) + rest) <==> StaticStack(rank, top, rest)
    decreases |branches|
  {
    if branches == [] {
      assert Children(f, ctx, branches, id) + rest == rest;
    } else {
      var c, more := FirstStatic(rank, top, f, ctx, branches, id, rest);
      assert forall i :: 0 <= i < |branches[1..]| ==> branches[1..][i] == branches[i + 1];
      ChildrenStatic(rank, top, f, ctx, branches[1..], id, rest);
      StaticCons(rank, top, c, more + rest);
    }
  }

  lemma {:induction false} ExpandStatic(p: Program, w: World, rank: string -> nat, top: nat, finals: set<Var>,
                                        stack: seq<Frame>, id: nat)
    requires ProgramOk(p) && BoundRules(p, rank, top) && stack != []
    requires StackOk(p, w, finals, stack, id) && StaticStack(rank, top, stack)
    requires WellFormed(stack[0].ctx.rels) && FromCall(stack[0].atoms) != [] && Expand(p, w, stack[0], id).Expanded?
    ensures StaticStack(rank, top, Expand(p, w, stack[0], id).frames + stack[1..])
  {
    var f, rest := stack[0], stack[1..];
    var ctx := ResolveClauses(w, f.ctx, PrefixOf(f)).ctx;
    var a := FromCall(f.atoms)[0];
    var branches := BranchesOf(p, a.name);
    forall i | 0 <= i < |branches| ensures StaticFrame(rank, top, Child(f, ctx, branches[i], id)) {
      BranchFits(p, w, finals, f, i, id);
      assert BoundBranch(rank, a.name, branches[i]);
      ChildStatic(p, rank, top, f, ctx, branches[i], id);
    }
    ChildrenStatic(rank, top, f, ctx, branches, id, rest);
  }

  ghost predicate StaticState(rank: string -> nat, top: nat, s: State) {
    s.State? ==> StaticStack(rank, top, s.stack)
  }

  lemma {:induction false} StepStatic(p: Program, w: World, rank: string -> nat, top: nat, finals: set<Var>, s: State)
    requires ProgramOk(p) && BoundRules(p, rank, top) && Runnable(s) && StaticState(rank, top, s)
    requires s.State? ==> StackOk(p, w, finals, s.stack, s.seqid)
    ensures TopChecked(s) && StaticState(rank, top, Step(p, w, s))
  {
    if s.State? && s.stack != [] {
      StepCases(p, w, s);
      if FromCall(s.stack[0].atoms) != [] {
        StaticChecked(p, rank, top, s.stack[0]);
        if Expand(p, w, s.stack[0], s.seqid).Expanded? { ExpandStatic(p, w, rank, top, finals, s.stack, s.seqid); }
      }
    }
  }

  lemma {:induction false} RunStatic(p: Program, w: World, rank: string -> nat, top: nat, dom: set<Value>,
                                     finals: set<Var>, s: State, width: nat, n: nat)
    requires DifferOk(w) && ProgramOk(p) && DatomsIn(dom, w) && Nil in dom && Wide(p, width) && BoundRules(p, rank, top)
    requires Runnable(s) && BoundedState(p, w, dom, finals, s) && StaticState(rank, top, s)
    ensures RunChecked(p, w, s, n)
    decreases n
  {
    if n > 0 {
      StepStatic(p, w, rank, top, finals, s);
      if Done(s) {
        assert Step(p, w, s) == s;
      } else {
        StepTurns(p, w, dom, finals, s, width);
      }
      RunStatic(p, w, rank, top, dom, finals, Step(p, w, s), width, n - 1);
    }
  }

  /** Rules that are bound up to the rank of the called one end on all data, cyclic or not,
      whatever the call passes. */
  lemma {:induction false} BoundRulesTerminate(p: Program, w: World, ctx: Ctx, goal: Atom, rank: string -> nat)
    returns (n: nat)
    requires DifferOk(w) && ProgramOk(p) && GoalOk(p, w, ctx, goal) && Runnable(Initial(ctx, goal))
    requires BoundRules(p, rank, rank(goal.name))
    ensures Done(Run(p, w, Initial(ctx, goal), n))
  {
    var dom := Domain(w, ctx, goal);
    var width := BranchBound(p);
    n := RuleTerminates(p, w, ctx, goal);
    InitialBounded(p, w, ctx, goal);
    InitialFrameBounded(w, ctx, goal, dom);
    InitialStatic(ctx, goal, rank);
    RunStatic(p, w, rank, rank(goal.name), dom, TermVars(goal.args), Initial(ctx, goal), width, n);
  }

  /** What `solve-rule` returns for the call, collapsed into the context. */
  ghost predicate Solved(p: Program, w: World, ctx: Ctx, goal: Atom, r: Rel)
    requires WellFormed(ctx.rels) && Good(r) && goal.Call?
  {
    forall x :: EnvConsts(ctx.consts, x) && TermVars(goal.args) <= x.Keys ==>
      (HoldsAll(Collapse(ctx.rels, r, []), x) <==>
        HoldsAll(ctx.rels, x) && Derivable(p, w, goal.name, ValsOf(map[], x, goal.args)))
  }

  lemma {:induction false} BoundNoneLost(p: Program, w: World, rank: string -> nat, name: string)
    requires BoundRules(p, rank, rank(name))
    ensures NoneLost(p, w, name)
  {
    var names := set m | m in p && rank(m) <= rank(name);
    forall m, i | m in names && 0 <= i < |p[m]| ensures Calls(p[m][i].body) <= 1 && CallsAmong(p, names, p[m][i].body) {
      BoundAmong(p, rank, rank(name), names, m, p[m][i]);
    }
    forall vals | Derivable(p, w, name, vals) ensures Unrepeated(p, w, name, vals) {
      assert name in names;
      AmongUnrepeated(p, w, names, name, vals);
    }
  }

  lemma {:induction false} BoundAmong(p: Program, rank: string -> nat, top: nat, names: set<string>, name: string,
                                      br: Branch)
    requires BoundBranch(rank, name, br) && rank(name) <= top && forall m :: m in p && rank(m) <= top ==> m in names
    ensures Calls(br.body) <= 1 && CallsAmong(p, names, br.body)
  {
    AmongFirst(p, names, br.body);
  }

  /** Total correctness for such rules: the solver ends, and unless a clause raised or a leaf
      skipped an empty relation, its context is the old one with exactly the derivable calls. */
  lemma {:induction false} BoundRulesSolved(p: Program, w: World, ctx: Ctx, goal: Atom, rank: string -> nat)
    returns (n: nat)
    requires DifferOk(w) && ProgramOk(p) && GoalOk(p, w, ctx, goal) && Runnable(Initial(ctx, goal))
    requires BoundRules(p, rank, rank(goal.name))
    ensures Done(Run(p, w, Initial(ctx, goal), n))
    ensures Run(p, w, Initial(ctx, goal), n).State? && RunClean(p, w, Initial(ctx, goal), n)
            ==> Solved(p, w, ctx, goal, Run(p, w, Initial(ctx, goal), n).rel)
  {
    n := BoundRulesTerminate(p, w, ctx, goal, rank);
    BoundNoneLost(p, w, rank, goal.name);
    if Run(p, w, Initial(ctx, goal), n).State? && RunClean(p, w, Initial(ctx, goal), n) {
      AllSolved(p, w, ctx, goal, n);
    }
  }

  lemma {:induction false} AllSolved(p: Program, w: World, ctx: Ctx, goal: Atom, n: nat)
    requires DifferOk(w) && ProgramOk(p) && GoalOk(p, w, ctx, goal) && Runnable(Initial(ctx, goal))
    requires NoneLost(p, w, goal.name) && RunClean(p, w, Initial(ctx, goal), n)
    requires Run(p, w, Initial(ctx, goal), n).State? && Run(p, w, Initial(ctx, goal), n).stack == []
    ensures Solved(p, w, ctx, goal, Run(p, w, Initial(ctx, goal), n).rel)
  {
    forall x | EnvConsts(ctx.consts, x) && TermVars(goal.args) <= x.Keys
      ensures HoldsAll(Collapse(ctx.rels, Run(p, w, Initial(ctx, goal), n).rel, []), x)
         <==> HoldsAll(ctx.rels, x) && Derivable(p, w, goal.name, ValsOf(map[], x, goal.args))
    {
      RuleExact(p, w, ctx, goal, n, x);
    }
  }

  lemma {:induction false} InitialStatic(ctx: Ctx, goal: Atom, rank: string -> nat)
    requires goal.Call?
    ensures StaticState(rank, rank(goal.name), Initial(ctx, goal))
  {
    var f := Frame([], ctx, [goal], map[], []);
    var stack := Initial(ctx, goal).stack;
    assert [goal][1..] == [] && Calls([goal]) == 1 + Calls([]);
    assert FromCall(f.atoms) == [goal] && EarlierCalls(f.used, goal.name) == [];
    assert StaticFrame(rank, rank(goal.name), f);
    assert stack[0] == f && stack[1..] == [];
  }

  // ------------------------------------------------------------------ an example

  function Edge(x: Var, y: Var): Atom {
    Match([Variable(x), Constant(Kw(":follow")), Variable(y)])
  }

  /** `[(follow ?x ?y) [?x :follow ?y]]` and
      `[(follow ?x ?y) [?x :follow ?z] (follow ?z ?y)]`. */
  function Follow(): Program {
    var (x, y, z) := (Named("?x"), Named("?y"), Named("?z"));
    map["follow" :=
        [Branch([x, y], [Edge(x, y)]), Branch([x, y], [Edge(x, z), Call("follow", [Variable(z), Variable(y)])])]]
  }

  lemma {:induction false} EdgeVars(x: Var, y: Var)
    ensures AtomVars(Edge(x, y)) == {x, y}
  {
    var ts := Edge(x, y).terms;
    forall v ensures v in TermVars(ts) <==> v == x || v == y {
      TermVarsAt(ts, v);
      assert ts[0] == Variable(x) && ts[2] == Variable(y);
    }
  }

  lemma {:induction false} PairOf(x: Var, y: Var)
    requires x != y
    ensures NoDups([x, y]) && Elems([x, y]) == {x, y} && TermVars([Variable(x), Variable(y)]) == {x, y}
    ensures AllVariables([Variable(x), Variable(y)]) && DistinctVars([Variable(x), Variable(y)])
  {
    var s, ts := [x, y], [Variable(x), Variable(y)];
    assert s[..1] == [x] && [x][..0] == [];
    assert Elems([x]) == {x} && NoDups([x]);
    assert ts[1..] == [Variable(y)] && ts[1..][1..] == [];
    assert TermVars(ts[1..]) == {y} + {};
    assert AllVariables(ts[1..]);
  }

  lemma {:induction false} Names()
    ensures Named("?x") != Named("?y") && Named("?x") != Named("?z") && Named("?y") != Named("?z")
  {
    assert "?x"[1] != "?y"[1] && "?x"[1] != "?z"[1] && "?y"[1] != "?z"[1];
  }

  /** A body read from its first atom on. */
  lemma {:induction false} BodyFrom(p: Program, a: Atom, rest: seq<Atom>)
    ensures AtomsVars([a] + rest) == AtomVars(a) + AtomsVars(rest)
    ensures SafeVars([a] + rest) == (if a.Test? then {} else AtomVars(a)) + SafeVars(rest)
    ensures Calls([a] + rest) == (if a.Call? then 1 else 0) + Calls(rest)
    ensures FromCall([a] + rest) == if a.Call? then [a] + rest else FromCall(rest)
    ensures AtomsOk(p, [a] + rest) <==> AtomOk(p, a) && AtomsOk(p, rest)
    ensures VarCalls([a] + rest) <==> (a.Call? ==> AllVariables(a.args)) && VarCalls(rest)
  {
    assert ([a] + rest)[1..] == rest;
  }

  lemma {:induction false} BaseOk()
    ensures var br := Follow()["follow"][0];
            BranchOk(Follow(), br) && Calls(br.body) == 0 && BoundBranch(_ => 0, "follow", br)
  {
    var p: Program, x, y := Follow(), Named("?x"), Named("?y");
    var br := p["follow"][0];
    Names();
    PairOf(x, y);
    EdgeVars(x, y);
    EdgeOk(p, x, y);
    BodyFrom(p, Edge(x, y), []);
    assert br.body == [Edge(x, y)] + [];
    assert br.head == [x, y];
    assert SafeVars(br.body) == {x, y} && AtomsVars(br.body) == {x, y};
    assert BranchOk(p, br);
  }

  lemma {:induction false} EdgeOk(p: Program, x: Var, y: Var)
    requires x != y
    ensures AtomOk(p, Edge(x, y))
  {
    var ts := Edge(x, y).terms;
    assert ts[0] != ts[2] && !ts[1].Variable?;
  }

  lemma {:induction false} StepOk()
    ensures var br := Follow()["follow"][1];
            BranchOk(Follow(), br) && Calls(br.body) == 1 && BoundBranch(_ => 0, "follow", br)
  {
    var p: Program, x, y, z := Follow(), Named("?x"), Named("?y"), Named("?z");
    var br, call := p["follow"][1], Call("follow", [Variable(z), Variable(y)]);
    Names();
    PairOf(x, y);
    PairOf(z, y);
    EdgeVars(x, z);
    EdgeOk(p, x, z);
    BodyFrom(p, call, []);
    BodyFrom(p, Edge(x, z), [call]);
    assert [call] + [] == [call];
    assert br.body == [Edge(x, z)] + [call] && br.head == [x, y];
    assert AtomVars(call) == {z, y} && AtomOk(p, call);
    assert SafeVars(br.body) == {x, z, y} && AtomsVars(br.body) == {x, z, y};
    assert BranchOk(p, br);
    StepBound(x, y, z);
  }

  lemma {:induction false} StepBound(x: Var, y: Var, z: Var)
    ensures BoundBranch(_ => 0, "follow", Branch([x, y], [Edge(x, z), Call("follow", [Variable(z), Variable(y)])]))
  {
    var call := Call("follow", [Variable(z), Variable(y)]);
    var br := Branch([x, y], [Edge(x, z), call]);
    var rest, lit := [call], Pattern(Edge(x, z).terms);
    EdgeVars(x, z);
    assert br.body[1..] == rest && rest[1..] == [];
    assert FromCall(br.body) == FromCall(rest) == rest;
    assert Calls(rest) == 1 + 0 && Calls(br.body) == 0 + Calls(rest);
    assert Lits(br.body) == [lit] + Lits(rest) && Lits(rest) == [];
    assert ([lit] + Lits(rest))[1..] == Lits(rest);
    assert ClausesVars(Lits(br.body)) == {x, z} + ClausesVars(Lits(rest));
    assert BoundArg(br, call.args, 0) && BoundArg(br, call.args, 1);
  }

  /** The transitive closure meets all conditions. */
  lemma {:induction false} FollowOk()
    ensures ProgramOk(Follow()) && Linear(Follow()) && BoundRules(Follow(), _ => 0, 0)
  {
    BaseOk();
    StepOk();
  }
}
