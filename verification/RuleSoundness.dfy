/** Soundness of the rule solver: every tuple it yields is in the least fixed point. */
module RuleSoundness {
  import opened Options
  import opened Relations
  import opened Sequences
  import opened RelationOps
  import opened Contexts
  import opened Search
  import opened Clauses
  import opened Collecting
  import opened Semantics
  import opened Schedule
  import opened Evaluator
  import opened Flat
  import opened Rules
  import opened RuleSemantics
  import opened RuleFrames

  /** `e` makes the frame's context and all its atoms true. */
  ghost predicate Premise(p: Program, w: World, f: Frame, e: Asg) {
    && HoldsAll(f.ctx.rels, e) && EnvConsts(f.ctx.consts, e)
    && AtomsVars(f.atoms) <= e.Keys && BodyHolds(p, w, f.atoms, e)
  }

  /** The goal is in the least fixed point for the values `e` gives its arguments. */
  ghost predicate GoalHolds(p: Program, w: World, goal: Atom, e: Asg) {
    goal.Call? && Derivable(p, w, goal.name, Vals(e, goal.args))
  }

  ghost predicate SoundFrame(p: Program, w: World, goal: Atom, f: Frame) {
    forall e :: Premise(p, w, f, e) ==> GoalHolds(p, w, goal, e)
  }

  ghost predicate SoundStack(p: Program, w: World, goal: Atom, stack: seq<Frame>) {
    stack == [] || (SoundFrame(p, w, goal, stack[0]) && SoundStack(p, w, goal, stack[1..]))
  }

  lemma {:induction false} SoundCons(p: Program, w: World, goal: Atom, f: Frame, rest: seq<Frame>)
    ensures SoundStack(p, w, goal, [f] + rest) <==> SoundFrame(p, w, goal, f) && SoundStack(p, w, goal, rest)
  {
    var all := [f] + rest;
    assert all[0] == f && all[1..] == rest;
  }

  // ------------------------------------------------------------------- children

  /** What the renamed body says about the caller's variables. */
  ghost function Pulled(head: seq<Var>, args: seq<Var>, id: nat, vars: set<Var>, e: Asg): Asg {
    map v | v in vars && Ren(head, args, id, v) in e :: e[Ren(head, args, id, v)]
  }

  lemma {:induction false} PulledLinked(br: Branch, args: seq<Var>, id: nat, e: Asg)
    requires AtomsVars(RenAtoms(br.head, args, id, br.body)) <= e.Keys
    ensures Linked(br.head, args, id, AtomsVars(br.body), Pulled(br.head, args, id, AtomsVars(br.body), e), e)
    ensures AtomsVars(br.body) <= Pulled(br.head, args, id, AtomsVars(br.body), e).Keys
  {
    forall v | v in AtomsVars(br.body) ensures Ren(br.head, args, id, v) in e {
      RenAtomVars(br.head, args, id, br.body, v);
    }
  }

  lemma {:induction false} PulledHead(br: Branch, ts: seq<Term>, id: nat, e: Asg)
    requires |br.head| == |ts| && NoDups(br.head) && Elems(br.head) <= AtomsVars(br.body)
    requires AtomsVars(RenAtoms(br.head, NewArgs(ts), id, br.body)) <= e.Keys
    requires EnvConsts(ArgConsts(ts), e) && forall k :: 0 <= k < |ts| ==> ts[k] != Blank
    ensures HeadIs(br.head, Vals(e, ts), Pulled(br.head, NewArgs(ts), id, AtomsVars(br.body), e))
  {
    var args := NewArgs(ts);
    var b := Pulled(br.head, args, id, AtomsVars(br.body), e);
    PulledLinked(br, args, id, e);
    forall k | 0 <= k < |ts| ensures br.head[k] in b && b[br.head[k]] == Vals(e, ts)[k] {
      ElemsAt(br.head, k);
      assert InSeq(br.head, br.head[k], k);
      RenIs(br.head, args, id, br.head[k]);
      assert LinkedAt(br.head, args, id, br.head[k], b, e);
      if ts[k].Constant? { assert Auto(k) in ArgConsts(ts); }
    }
  }

  /** A branch that holds makes the call it replaces hold. */
  lemma {:induction false} BranchDerives(p: Program, w: World, call: Atom, i: nat, id: nat, e: Asg)
    requires call.Call? && AtomOk(p, call) && i < |p[call.name]| && BranchOk(p, p[call.name][i])
    requires EnvConsts(ArgConsts(call.args), e)
    requires var br := p[call.name][i]; var body := RenAtoms(br.head, NewArgs(call.args), id, br.body);
             AtomsVars(body) <= e.Keys && BodyHolds(p, w, body, e)
    ensures AtomHolds(p, w, call, e)
  {
    var br := p[call.name][i];
    var args := NewArgs(call.args);
    var b := Pulled(br.head, args, id, AtomsVars(br.body), e);
    SafeWritten(br.body);
    PulledLinked(br, args, id, e);
    PulledHead(br, call.args, id, e);
    PulledBody(p, w, br.head, args, id, br.body, b, e);
    DerivableClosed(p, w, call.name, i, Vals(e, call.args), b);
  }

  /** A solved prefix holds where the frame's context does, its literals are true, and the
      call differs from the earlier ones. */
  lemma {:induction false} PrefixHolds(p: Program, w: World, finals: set<Var>, f: Frame, id: nat, e: Asg)
    requires DifferOk(w) && FrameOk(p, w, finals, f, id) && FromCall(f.atoms) != []
    requires ResolveClauses(w, f.ctx, PrefixOf(f)).Ok? && EnvConsts(f.ctx.consts, e)
    requires HoldsAll(ResolveClauses(w, f.ctx, PrefixOf(f)).ctx.rels, e)
    ensures HoldsAll(f.ctx.rels, e) && AllFlat(Lits(f.atoms)) && SatAll(w, map[], Lits(f.atoms), e)
    ensures AllFlat(PrefixOf(f)) && SatAll(w, map[], PrefixOf(f), e)
    ensures ClausesVars(Lits(f.atoms)) <= e.Keys
  {
    SolvedOk(p, w, finals, f, id);
    HoldsCovers(ResolveClauses(w, f.ctx, PrefixOf(f)).ctx.rels, e);
    FrameGuards(p, w, f, e);
    SolveExact(w, f.ctx, PrefixOf(f), e);
    SatConcat(w, Lits(f.atoms), GuardsNow(f, true), e);
    SolveBinds(w, f.ctx, PrefixOf(f));
    VarsConcat(Lits(f.atoms), GuardsNow(f, true));
  }

  /** What makes a child's clauses true makes the frame's call and the clauses after it true. */
  lemma {:induction false} ChildBody(p: Program, w: World, finals: set<Var>, f: Frame, i: nat, id: nat, e: Asg)
    requires ProgramOk(p) && FrameOk(p, w, finals, f, id) && FromCall(f.atoms) != []
    requires i < |BranchesOf(p, FromCall(f.atoms)[0].name)|
    requires var c := Child(f, f.ctx, BranchesOf(p, FromCall(f.atoms)[0].name)[i], id);
             BodyHolds(p, w, c.atoms, e) && AtomsVars(c.atoms) <= e.Keys
    requires EnvConsts(ArgConsts(FromCall(f.atoms)[0].args), e)
    ensures BodyHolds(p, w, FromCall(f.atoms), e) && AtomsVars(f.atoms) - ClausesVars(Lits(f.atoms)) <= e.Keys
  {
    var tail := FromCall(f.atoms);
    CallOk(p, w, finals, f, id);
    var br := p[tail[0].name][i];
    assert BranchOk(p, br);
    var body := RenAtoms(br.head, NewArgs(tail[0].args), id, br.body);
    AtomsConcat(p, w, body, tail[1..], e);
    BranchDerives(p, w, tail[0], i, id, e);
    ConjoinCall(p, w, tail, e);
    ChildVars(p, w, f, br, id, e);
  }

  /** What makes a child true makes the frame it came from true. */
  lemma {:induction false} ChildPremise(p: Program, w: World, finals: set<Var>, f: Frame, i: nat, id: nat, e: Asg)
    requires DifferOk(w) && ProgramOk(p) && FrameOk(p, w, finals, f, id) && FromCall(f.atoms) != []
    requires ResolveClauses(w, f.ctx, PrefixOf(f)).Ok? && i < |BranchesOf(p, FromCall(f.atoms)[0].name)|
    requires Premise(p, w,
        Child(f, ResolveClauses(w, f.ctx, PrefixOf(f)).ctx, BranchesOf(p, FromCall(f.atoms)[0].name)[i], id), e)
    ensures Premise(p, w, f, e)
  {
    CallOk(p, w, finals, f, id);
    SplitConsts(f.ctx.consts, ArgConsts(FromCall(f.atoms)[0].args), e);
    PrefixHolds(p, w, finals, f, id, e);
    ChildBody(p, w, finals, f, i, id, e);
    SplitAtoms(p, w, f.atoms, e);
  }

  lemma {:induction false} ChildSound(p: Program, w: World, goal: Atom, finals: set<Var>, f: Frame, i: nat, id: nat)
    requires DifferOk(w) && ProgramOk(p) && FrameOk(p, w, finals, f, id) && FromCall(f.atoms) != []
    requires ResolveClauses(w, f.ctx, PrefixOf(f)).Ok? && SoundFrame(p, w, goal, f)
    requires i < |BranchesOf(p, FromCall(f.atoms)[0].name)|
    ensures SoundFrame(p, w, goal,
        Child(f, ResolveClauses(w, f.ctx, PrefixOf(f)).ctx, BranchesOf(p, FromCall(f.atoms)[0].name)[i], id))
  {
    var c := Child(f, ResolveClauses(w, f.ctx, PrefixOf(f)).ctx, BranchesOf(p, FromCall(f.atoms)[0].name)[i], id);
    forall e | Premise(p, w, c, e) ensures GoalHolds(p, w, goal, e) {
      ChildPremise(p, w, finals, f, i, id, e);
    }
  }

  lemma {:induction false} ChildrenSound(p: Program, w: World, goal: Atom, f: Frame, ctx: Ctx, branches: seq<Branch>,
                                         id: nat, rest: seq<Frame>)
    requires FromCall(f.atoms) != [] && SoundStack(p, w, goal, rest)
    requires forall i :: 0 <= i < |branches| ==> SoundFrame(p, w, goal, Child(f, ctx, branches[i], id))
    ensures SoundStack(p, w, goal, Children(f, ctx, branches, id) + rest)
    decreases |branches|
  {
    if branches == [] {
      assert Children(f, ctx, branches, id) + rest == rest;
    } else {
      var c, more := Child(f, ctx, branches[0], id), Children(f, ctx, branches[1..], id);
      assert forall i :: 0 <= i < |branches[1..]| ==> branches[1..][i] == branches[i + 1];
      ChildrenSound(p, w, goal, f, ctx, branches[1..], id, rest);
      SoundCons(p, w, goal, c, more + rest);
      assert Children(f, ctx, branches, id) + rest == [c] + (more + rest);
    }
  }

  lemma {:induction false} ConjoinCall(p: Program, w: World, tail: seq<Atom>, e: Asg)
    requires tail != [] && AtomHolds(p, w, tail[0], e) && BodyHolds(p, w, tail[1..], e)
    ensures BodyHolds(p, w, tail, e)
  {}

  lemma {:induction false} VarsConcat(s: seq<Clause>, t: seq<Clause>)
    ensures ClausesVars(s + t) == ClausesVars(s) + ClausesVars(t)
  {
    if s == [] {
      assert s + t == t;
    } else {
      assert (s + t)[1..] == s[1..] + t;
      VarsConcat(s[1..], t);
    }
  }

  lemma {:induction false} SplitConsts(consts: map<Var, Value>, more: map<Var, Value>, e: Asg)
    requires consts.Keys !! more.Keys
    ensures EnvConsts(consts + more, e) <==> EnvConsts(consts, e) && EnvConsts(more, e)
  {
    forall v | v in more ensures v in consts + more && (consts + more)[v] == more[v] {}
    forall v | v in consts ensures v in consts + more && (consts + more)[v] == consts[v] {}
  }

  // --------------------------------------------------------------------- leaves

  /** Nothing is lost when the leaf's answers are read off. */
  ghost predicate LeafClean(w: World, f: Frame, keys: seq<Var>)
    requires WellFormed(f.ctx.rels)
  {
    FromCall(f.atoms) == [] && ResolveClauses(w, f.ctx, Lits(f.atoms)).Ok?
    ==> Lossless(ResolveClauses(w, f.ctx, Lits(f.atoms)).ctx.rels, VarSet(keys))
  }

  lemma {:induction false} LeafSolved(p: Program, w: World, finals: set<Var>, f: Frame, id: nat)
    requires FrameOk(p, w, finals, f, id) && FromCall(f.atoms) == [] && ResolveClauses(w, f.ctx, Lits(f.atoms)).Ok?
    ensures var ctx := ResolveClauses(w, f.ctx, Lits(f.atoms)).ctx;
            && Sane(w, ctx) && ctx.consts == f.ctx.consts && AllFlat(Lits(f.atoms)) && Solvable(Lits(f.atoms))
            && VarsAll(ctx.rels) == VarsAll(f.ctx.rels) + BindsAll(Lits(f.atoms))
            && AtomsVars(f.atoms) <= VarsAll(ctx.rels) + ctx.consts.Keys
            && finals <= VarsAll(ctx.rels) + ctx.consts.Keys
  {
    SplitAtoms(p, w, f.atoms, map[]);
    SolveBinds(w, f.ctx, Lits(f.atoms));
    assert ResolveClause(w, f.ctx, And(Lits(f.atoms))) == ResolveClauses(w, f.ctx, Lits(f.atoms));
    SaneNext(w, f.ctx, And(Lits(f.atoms)));
  }

  lemma {:induction false} WithConsts(w: World, ctx: Ctx, b: Asg)
    requires Sane(w, ctx) && HoldsAll(ctx.rels, b) && b.Keys == VarsAll(ctx.rels)
    ensures EnvConsts(ctx.consts, ctx.consts + b) && HoldsAll(ctx.rels, ctx.consts + b)
  {
    ConstAllAgrees(ctx.consts, ctx.rels, b);
    HoldsAgree(ctx.rels, b, ctx.consts + b);
  }

  /** The constants and an assignment of the solved leaf make the leaf true. */
  lemma {:induction false} LeafPremise(p: Program, w: World, finals: set<Var>, f: Frame, id: nat, b: Asg)
    requires FrameOk(p, w, finals, f, id) && FromCall(f.atoms) == [] && ResolveClauses(w, f.ctx, Lits(f.atoms)).Ok?
    requires var ctx := ResolveClauses(w, f.ctx, Lits(f.atoms)).ctx;
             HoldsAll(ctx.rels, b) && b.Keys == VarsAll(ctx.rels)
    ensures Premise(p, w, f, f.ctx.consts + b)
  {
    var ctx := ResolveClauses(w, f.ctx, Lits(f.atoms)).ctx;
    var e := ctx.consts + b;
    LeafSolved(p, w, finals, f, id);
    WithConsts(w, ctx, b);
    SolveExact(w, f.ctx, Lits(f.atoms), e);
    SplitAtoms(p, w, f.atoms, e);
  }

  /** A collected answer is read off an assignment that makes the leaf true. */
  lemma {:induction false} LeafSound(p: Program, w: World, finals: set<Var>, f: Frame, id: nat, keys: seq<Var>, x: Asg)
    returns (e: Asg)
    requires FrameOk(p, w, finals, f, id) && FromCall(f.atoms) == [] && ResolveClauses(w, f.ctx, Lits(f.atoms)).Ok?
    requires NoDups(keys) && Elems(keys) == finals && LeafClean(w, f, keys)
    requires Holds(CollectedRel(ResolveClauses(w, f.ctx, Lits(f.atoms)).ctx, keys), x)
    ensures Premise(p, w, f, e) && forall v :: v in finals ==> v in e && v in x && e[v] == x[v]
  {
    var ctx := ResolveClauses(w, f.ctx, Lits(f.atoms)).ctx;
    LeafSolved(p, w, finals, f, id);
    var b := CollectOnly(ctx, keys, x);
    e := f.ctx.consts + b;
    LeafPremise(p, w, finals, f, id, b);
    ReadsFinals(ctx, keys, finals, b, x);
  }

  lemma {:induction false} ReadsFinals(ctx: Ctx, keys: seq<Var>, finals: set<Var>, b: Asg, x: Asg)
    requires ReadsCtx(ctx, keys, b, x) && Elems(keys) == finals && finals <= VarsAll(ctx.rels) + ctx.consts.Keys
    requires b.Keys == VarsAll(ctx.rels)
    ensures forall v :: v in finals ==> v in ctx.consts + b && v in x && (ctx.consts + b)[v] == x[v]
  {
    forall v | v in finals ensures v in ctx.consts + b && v in x && (ctx.consts + b)[v] == x[v] {
      var k := IndexOf(keys, v);
      assert x[keys[k]] == SymbolValue(ctx, b, keys[k]);
    }
  }

  // ----------------------------------------------------------------------- runs

  /** What soundness keeps: the frames imply the goal, and the answers are derivable. */
  ghost predicate SoundAt(p: Program, w: World, goal: Atom, finals: set<Var>, stack: seq<Frame>, rel: Rel, id: nat) {
    && Good(rel) && rel.attrs.Keys == finals && RelSound(p, w, goal, rel)
    && StackOk(p, w, finals, stack, id) && SoundStack(p, w, goal, stack)
  }

  ghost predicate RelSound(p: Program, w: World, goal: Atom, rel: Rel) {
    forall x :: Holds(rel, x) ==> GoalHolds(p, w, goal, x)
  }

  ghost predicate SoundState(p: Program, w: World, goal: Atom, finals: set<Var>, s: State) {
    s.State? ==> SoundAt(p, w, goal, finals, s.stack, s.rel, s.seqid)
  }

  /** The frame on top of the stack, if it is a leaf, loses nothing. */
  ghost predicate TopClean(w: World, s: State)
    requires Runnable(s)
  {
    s.State? && s.stack != [] ==> LeafClean(w, s.stack[0], s.rel.keys)
  }

  lemma {:induction false} ValsAgreeOn(e: Asg, x: Asg, ts: seq<Term>)
    requires forall v :: v in TermVars(ts) ==> v in e && v in x && e[v] == x[v]
    ensures Vals(e, ts) == Vals(x, ts)
  {
    ValsAgree(map[], ts, e, x);
  }

  lemma {:induction false} FinishSound(p: Program, w: World, goal: Atom, finals: set<Var>, f: Frame, id: nat, rel: Rel,
                                       x: Asg)
    requires FrameOk(p, w, finals, f, id) && SoundFrame(p, w, goal, f) && FromCall(f.atoms) == []
    requires Good(rel) && rel.attrs.Keys == finals && LeafClean(w, f, rel.keys)
    requires goal.Call? && TermVars(goal.args) <= finals && Finish(w, f, rel).Some?
    requires Holds(Finish(w, f, rel).value, x) && !Holds(rel, x)
    ensures GoalHolds(p, w, goal, x)
  {
    var e := LeafSound(p, w, finals, f, id, rel.keys, x);
    ValsAgreeOn(e, x, goal.args);
    assert GoalHolds(p, w, goal, e);
  }

  /** The frames of all the branches. */
  ghost predicate BranchesOk(p: Program, w: World, finals: set<Var>, f: Frame, ctx: Ctx, branches: seq<Branch>,
                             id: nat, next: nat)
    requires FromCall(f.atoms) != []
  {
    forall br :: br in branches ==> FrameOk(p, w, finals, Child(f, ctx, br, id), next)
  }

  lemma {:induction false} BranchesOkTail(p: Program, w: World, finals: set<Var>, f: Frame, ctx: Ctx,
                                          branches: seq<Branch>, id: nat, next: nat)
    requires FromCall(f.atoms) != [] && branches != [] && BranchesOk(p, w, finals, f, ctx, branches, id, next)
    ensures FrameOk(p, w, finals, Child(f, ctx, branches[0], id), next)
            && BranchesOk(p, w, finals, f, ctx, branches[1..], id, next)
  {
    forall br | br in branches[1..] ensures br in branches {}
  }

  lemma {:induction false} ChildrenCons(f: Frame, ctx: Ctx, branches: seq<Branch>, id: nat, rest: seq<Frame>, c: Frame,
                                        more: seq<Frame>)
    requires FromCall(f.atoms) != [] && branches != []
    requires c == Child(f, ctx, branches[0], id) && more == Children(f, ctx, branches[1..], id)
    ensures Children(f, ctx, branches, id) + rest == [c] + (more + rest)
  {
    assert Children(f, ctx, branches, id) == [c] + more;
  }

  lemma {:induction false} ChildrenOk(p: Program, w: World, finals: set<Var>, f: Frame, ctx: Ctx,
                                      branches: seq<Branch>, id: nat, next: nat, rest: seq<Frame>)
    requires FromCall(f.atoms) != [] && BranchesOk(p, w, finals, f, ctx, branches, id, next)
    ensures StackOk(p, w, finals, Children(f, ctx, branches, id) + rest, next) <==> StackOk(p, w, finals, rest, next)
    decreases |branches|
  {
    if branches == [] {
      assert Children(f, ctx, branches, id) + rest == rest;
    } else {
      BranchesOkTail(p, w, finals, f, ctx, branches, id, next);
      var c, more := Child(f, ctx, branches[0], id), Children(f, ctx, branches[1..], id);
      ChildrenCons(f, ctx, branches, id, rest, c, more);
      ChildrenOk(p, w, finals, f, ctx, branches[1..], id, next, rest);
      StackCons(p, w, finals, c, more + rest, next);
    }
  }

  lemma {:induction false} BranchFits(p: Program, w: World, finals: set<Var>, f: Frame, i: nat, id: nat)
    requires ProgramOk(p) && FrameOk(p, w, finals, f, id) && FromCall(f.atoms) != []
    requires i < |BranchesOf(p, FromCall(f.atoms)[0].name)|
    ensures var br := BranchesOf(p, FromCall(f.atoms)[0].name)[i];
            BranchOk(p, br) && |br.head| == |FromCall(f.atoms)[0].args|
  {
    CallOk(p, w, finals, f, id);
  }

  lemma {:induction false} ExpandOk(p: Program, w: World, finals: set<Var>, f: Frame, id: nat, next: nat,
                                    rest: seq<Frame>)
    requires next == id + 1 && DifferOk(w) && ProgramOk(p) && FrameOk(p, w, finals, f, id) && FromCall(f.atoms) != []
    requires StackOk(p, w, finals, rest, id) && Expand(p, w, f, id).Expanded?
    ensures StackOk(p, w, finals, Expand(p, w, f, id).frames + rest, next)
  {
    var ctx := ResolveClauses(w, f.ctx, PrefixOf(f)).ctx;
    var branches := BranchesOf(p, FromCall(f.atoms)[0].name);
    forall i | 0 <= i < |branches| ensures FrameOk(p, w, finals, Child(f, ctx, branches[i], id), next) {
      BranchFits(p, w, finals, f, i, id);
      ChildOk(p, w, finals, f, branches[i], id, next);
    }
    StackLater(p, w, finals, rest, id, next);
    assert BranchesOk(p, w, finals, f, ctx, branches, id, next);
    ChildrenOk(p, w, finals, f, ctx, branches, id, next, rest);
  }

  lemma {:induction false} ExpandSound(p: Program, w: World, goal: Atom, finals: set<Var>, f: Frame, id: nat,
                                       rest: seq<Frame>)
    requires DifferOk(w) && ProgramOk(p) && FrameOk(p, w, finals, f, id) && FromCall(f.atoms) != []
    requires SoundFrame(p, w, goal, f) && SoundStack(p, w, goal, rest) && Expand(p, w, f, id).Expanded?
    ensures SoundStack(p, w, goal, Expand(p, w, f, id).frames + rest)
  {
    var ctx := ResolveClauses(w, f.ctx, PrefixOf(f)).ctx;
    var branches := BranchesOf(p, FromCall(f.atoms)[0].name);
    forall i | 0 <= i < |branches| ensures SoundFrame(p, w, goal, Child(f, ctx, branches[i], id)) {
      ChildSound(p, w, goal, finals, f, i, id);
    }
    ChildrenSound(p, w, goal, f, ctx, branches, id, rest);
  }

  lemma {:induction false} LeafStep(p: Program, w: World, goal: Atom, finals: set<Var>, f: Frame, id: nat, rel: Rel)
    requires FrameOk(p, w, finals, f, id) && SoundFrame(p, w, goal, f) && FromCall(f.atoms) == []
    requires Good(rel) && rel.attrs.Keys == finals && LeafClean(w, f, rel.keys)
    requires goal.Call? && TermVars(goal.args) <= finals && Finish(w, f, rel).Some?
    requires RelSound(p, w, goal, rel)
    ensures RelSound(p, w, goal, Finish(w, f, rel).value)
  {
    forall x | Holds(Finish(w, f, rel).value, x) ensures GoalHolds(p, w, goal, x) {
      if !Holds(rel, x) { FinishSound(p, w, goal, finals, f, id, rel, x); }
    }
  }

  /** A state is sound exactly if its top frame and the state without it are. */
  lemma {:induction false} Uncons(p: Program, w: World, goal: Atom, finals: set<Var>, stack: seq<Frame>, rel: Rel,
                                  id: nat)
    requires stack != []
    ensures SoundAt(p, w, goal, finals, stack, rel, id) <==>
              FrameOk(p, w, finals, stack[0], id) && SoundFrame(p, w, goal, stack[0])
                && SoundAt(p, w, goal, finals, stack[1..], rel, id)
  {}

  lemma {:induction false} FinishKeeps(p: Program, w: World, goal: Atom, finals: set<Var>, stack: seq<Frame>, rel: Rel,
                                       id: nat)
    requires stack != [] && SoundAt(p, w, goal, finals, stack, rel, id) && goal.Call? && TermVars(goal.args) <= finals
    requires FromCall(stack[0].atoms) == [] && LeafClean(w, stack[0], rel.keys) && Finish(w, stack[0], rel).Some?
    ensures SoundState(p, w, goal, finals, State(stack[1..], Finish(w, stack[0], rel).value, id))
  {
    Uncons(p, w, goal, finals, stack, rel, id);
    LeafStep(p, w, goal, finals, stack[0], id, rel);
  }

  lemma {:induction false} ExpandKeeps(p: Program, w: World, goal: Atom, finals: set<Var>, stack: seq<Frame>, rel: Rel,
                                       id: nat, next: nat)
    requires DifferOk(w) && ProgramOk(p) && stack != [] && SoundAt(p, w, goal, finals, stack, rel, id) && next == id + 1
    requires FromCall(stack[0].atoms) != [] && Expand(p, w, stack[0], id).Expanded?
    ensures SoundAt(p, w, goal, finals, Expand(p, w, stack[0], id).frames + stack[1..], rel, next)
  {
    Uncons(p, w, goal, finals, stack, rel, id);
    ExpandOk(p, w, finals, stack[0], id, next, stack[1..]);
    ExpandSound(p, w, goal, finals, stack[0], id, stack[1..]);
  }

  lemma {:induction false} DropKeeps(p: Program, w: World, goal: Atom, finals: set<Var>, stack: seq<Frame>, rel: Rel,
                                     id: nat)
    requires stack != [] && SoundAt(p, w, goal, finals, stack, rel, id)
    ensures SoundState(p, w, goal, finals, State(stack[1..], rel, id))
  {
    Uncons(p, w, goal, finals, stack, rel, id);
  }

  lemma {:induction false} StepExpandSound(p: Program, w: World, goal: Atom, finals: set<Var>, s: State)
    requires DifferOk(w) && ProgramOk(p) && s.State? && s.stack != [] && FromCall(s.stack[0].atoms) != []
    requires Runnable(s) && SoundAt(p, w, goal, finals, s.stack, s.rel, s.seqid)
             && Expand(p, w, s.stack[0], s.seqid).Expanded?
    ensures SoundState(p, w, goal, finals, Step(p, w, s))
  {
    StepCases(p, w, s);
    ExpandKeeps(p, w, goal, finals, s.stack, s.rel, s.seqid, Step(p, w, s).seqid);
  }

  lemma {:induction false} StepDropSound(p: Program, w: World, goal: Atom, finals: set<Var>, s: State)
    requires s.State? && s.stack != [] && FromCall(s.stack[0].atoms) != []
    requires Runnable(s) && SoundAt(p, w, goal, finals, s.stack, s.rel, s.seqid)
             && !Expand(p, w, s.stack[0], s.seqid).Expanded?
    ensures SoundState(p, w, goal, finals, Step(p, w, s))
  {
    StepCases(p, w, s);
    DropKeeps(p, w, goal, finals, s.stack, s.rel, s.seqid);
  }

  /** One turn of the loop keeps soundness. */
  lemma {:induction false} StepSound(p: Program, w: World, goal: Atom, finals: set<Var>, s: State)
    requires DifferOk(w) && ProgramOk(p) && goal.Call? && TermVars(goal.args) <= finals
    requires Runnable(s) && SoundState(p, w, goal, finals, s) && TopClean(w, s)
    ensures SoundState(p, w, goal, finals, Step(p, w, s))
  {
    if s.State? && s.stack != [] {
      StepCases(p, w, s);
      if FromCall(s.stack[0].atoms) != [] {
        if Expand(p, w, s.stack[0], s.seqid).Expanded? {
          StepExpandSound(p, w, goal, finals, s);
        } else {
          StepDropSound(p, w, goal, finals, s);
        }
      } else if Finish(w, s.stack[0], s.rel).Some? {
        FinishKeeps(p, w, goal, finals, s.stack, s.rel, s.seqid);
      }
    }
  }

  /** Along the whole run, no leaf loses anything. */
  ghost predicate RunClean(p: Program, w: World, s: State, n: nat)
    requires Runnable(s)
    decreases n
  {
    n > 0 ==> TopClean(w, s) && RunClean(p, w, Step(p, w, s), n - 1)
  }

  lemma {:induction false} RunSound(p: Program, w: World, goal: Atom, finals: set<Var>, s: State, n: nat)
    requires DifferOk(w) && ProgramOk(p) && goal.Call? && TermVars(goal.args) <= finals
    requires Runnable(s) && SoundState(p, w, goal, finals, s) && RunClean(p, w, s, n)
    ensures SoundState(p, w, goal, finals, Run(p, w, s, n))
    decreases n
  {
    if n > 0 {
      StepSound(p, w, goal, finals, s);
      RunSound(p, w, goal, finals, Step(p, w, s), n - 1);
    }
  }

  // ------------------------------------------------------------ from a goal on

  /** A call that can be solved: it fits its rule and uses no variable the solver makes up. */
  ghost predicate GoalOk(p: Program, w: World, ctx: Ctx, goal: Atom) {
    && goal.Call? && AtomOk(p, goal) && Sane(w, ctx)
    && forall v :: v in Bound(ctx) + TermVars(goal.args) ==> v.Named?
  }

  lemma {:induction false} FinalsAre(args: seq<Term>)
    requires DistinctVars(args)
    ensures NoDups(Finals(args)) && Elems(Finals(args)) == TermVars(args)
  {
    TermVarSeqSet(args);
    VarSetElems(Finals(args));
    FinalsDistinct(args);
  }

  lemma {:induction false} VarSetElems(vs: seq<Var>)
    ensures VarSet(vs) == Elems(vs)
  {
    forall v ensures v in VarSet(vs) <==> v in Elems(vs) {
      VarSetAt(vs, v);
      if i :| 0 <= i < |vs| && vs[i] == v { ElemsAt(vs, i); }
      if v in Elems(vs) { var i := IndexOf(vs, v); }
    }
  }

  lemma {:induction false} FinalsDistinct(args: seq<Term>)
    requires DistinctVars(args)
    ensures NoDups(Finals(args))
  {
    if args != [] {
      var rest := Finals(args[1..]);
      FinalsDistinct(args[1..]);
      if args[0].Variable? {
        TermVarSeqSet(args[1..]);
        VarSetElems(rest);
        TermVarsAt(args[1..], args[0].v);
        assert Elems([args[0].v]) == {args[0].v} && NoDups([args[0].v]) by {
          assert [args[0].v][..0] == [];
        }
        NoDupsAppend([args[0].v], rest);
      } else {
        assert Finals(args) == rest;
      }
    }
  }

  lemma {:induction false} InitialFrameOk(p: Program, w: World, ctx: Ctx, goal: Atom)
    requires GoalOk(p, w, ctx, goal)
    ensures FrameOk(p, w, TermVars(goal.args), Frame([], ctx, [goal], map[], []), 0)
    ensures SoundFrame(p, w, goal, Frame([], ctx, [goal], map[], []))
  {
    var f := Frame([], ctx, [goal], map[], []);
    assert f.atoms[1..] == [] && AtomsVars(f.atoms) == SafeVars(f.atoms) == TermVars(goal.args);
    assert FrameVars(f) == Bound(ctx) + TermVars(goal.args);
    assert AtomsOk(p, f.atoms[1..]);
    forall e | Premise(p, w, f, e) ensures GoalHolds(p, w, goal, e) {
      assert AtomHolds(p, w, goal, e);
    }
  }

  lemma {:induction false} InitialSound(p: Program, w: World, ctx: Ctx, goal: Atom)
    requires GoalOk(p, w, ctx, goal)
    ensures Runnable(Initial(ctx, goal)) && SoundState(p, w, goal, TermVars(goal.args), Initial(ctx, goal))
  {
    FinalsAre(goal.args);
    InitialRunnable(ctx, goal);
    InitialFrameOk(p, w, ctx, goal);
    var s := Initial(ctx, goal);
    assert s.stack[1..] == [];
    forall x ensures !Holds(s.rel, x) {}
  }

  /** Soundness: at any point of a run whose leaves lose nothing, every answer found is in
      the least fixed point of the rules. */
  lemma {:induction false} RuleSound(p: Program, w: World, ctx: Ctx, goal: Atom, n: nat, x: Asg)
    requires DifferOk(w) && ProgramOk(p) && GoalOk(p, w, ctx, goal) && Runnable(Initial(ctx, goal))
    requires RunClean(p, w, Initial(ctx, goal), n)
    ensures Run(p, w, Initial(ctx, goal), n).State? && Holds(Run(p, w, Initial(ctx, goal), n).rel, x)
            ==> Derivable(p, w, goal.name, ValsOf(map[], x, goal.args))
  {
    InitialSound(p, w, ctx, goal);
    RunSound(p, w, goal, TermVars(goal.args), Initial(ctx, goal), n);
  }
}
