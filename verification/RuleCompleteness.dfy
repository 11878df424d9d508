/** Completeness of the rule solver: when the stack empties, every tuple that has a derivation
    without a repeated call has been found. In linear programs these are all derivable ones. */
module RuleCompleteness {
  import opened Options
  import opened Relations
  import opened Sequences
  import opened RelationOps
  import opened Contexts
  import opened Search
  import opened Clauses
  import opened Collecting
  import opened Semantics
  import opened Schedule
  import opened Evaluator
  import opened Flat
  import opened Rules
  import opened RuleSemantics
  import opened RuleFrames
  import opened RuleTrees
  import opened RuleSoundness

  /** The earlier calls are in the past of a derivation. */
  ghost predicate AllPast(past: set<(string, seq<Value>)>, name: string, earlier: seq<seq<Term>>, e: Asg) {
    earlier == [] ||
    (TermVars(earlier[0]) <= e.Keys && (name, Vals(e, earlier[0])) in past && AllPast(past, name, earlier[1..], e))
  }

  ghost predicate UsedPast(past: set<(string, seq<Value>)>, used: map<string, seq<seq<Term>>>, e: Asg) {
    forall name :: name in used ==> AllPast(past, name, used[name], e)
  }

  ghost predicate PendingTrue(w: World, pending: seq<Clause>, e: Asg) {
    AllFlat(pending) && SatAll(w, map[], pending, e) && ClausesVars(pending) <= e.Keys
  }

  /** A way through a derivation: the values of the variables, the calls made so far, and the
      trees that derive the calls still to be made. */
  datatype Way = Way(e: Asg, past: seq<(string, seq<Value>)>, trees: seq<Tree>)

  /** The frame is on its way to the answer `x`: its atoms are proved by trees which, with the
      calls made so far, repeat no call. */
  ghost predicate Track(p: Program, w: World, finals: set<Var>, f: Frame, id: nat, x: Asg, y: Way) {
    && HoldsAll(f.ctx.rels, y.e) && EnvConsts(f.ctx.consts, y.e)
    && AtomsVars(f.atoms) <= y.e.Keys && AllOlder(y.e.Keys, id) && (VarCalls(f.atoms) || NoAuto(y.e.Keys))
    && Proves(p, w, f.atoms, y.e, y.trees) && NoDups(y.past + CallsMade(y.trees))
    && UsedPast(Elems(y.past), f.used, y.e) && PendingTrue(w, f.pending, y.e)
    && Agrees(finals, y.e, x)
  }

  ghost predicate Agrees(finals: set<Var>, e: Asg, x: Asg) {
    forall v :: v in finals ==> v in e && v in x && e[v] == x[v]
  }

  ghost predicate Tracked(p: Program, w: World, finals: set<Var>, f: Frame, id: nat, x: Asg) {
    exists y :: Track(p, w, finals, f, id, x, y)
  }

  ghost predicate StackTracked(p: Program, w: World, finals: set<Var>, stack: seq<Frame>, id: nat, x: Asg) {
    stack != [] && (Tracked(p, w, finals, stack[0], id, x) || StackTracked(p, w, finals, stack[1..], id, x))
  }

  // --------------------------------------------------------------- larger assignments

  ghost predicate GrowsTo(e: Asg, e2: Asg) {
    forall v :: v in e ==> v in e2 && e2[v] == e[v]
  }

  lemma {:induction false} ValsGrow(e: Asg, e2: Asg, ts: seq<Term>)
    requires GrowsTo(e, e2) && TermVars(ts) <= e.Keys
    ensures Vals(e2, ts) == Vals(e, ts)
  {
    ValsAgree(map[], ts, e, e2);
  }

  lemma {:induction false} MatchGrow(w: World, ts: seq<Term>, e: Asg, e2: Asg)
    requires GrowsTo(e, e2) && PatternSat(w, map[], ts, e)
    ensures PatternSat(w, map[], ts, e2)
  {
    var d :| d in w.src.datoms && MatchDatom(ts, e, d);
    forall i | 0 <= i < |ts| ensures MatchTerm(ts[i], e2, Get(d, At(i))) {
      assert MatchTerm(ts[i], e, Get(d, At(i)));
    }
  }

  lemma {:induction false} ProvesGrow(p: Program, w: World, atoms: seq<Atom>, e: Asg, e2: Asg, ts: seq<Tree>)
    requires GrowsTo(e, e2) && AtomsVars(atoms) <= e.Keys && Proves(p, w, atoms, e, ts)
    ensures Proves(p, w, atoms, e2, ts)
    decreases |atoms|
  {
    if atoms != [] {
      match atoms[0]
      case Match(terms) =>
        MatchGrow(w, terms, e, e2);
        ProvesGrow(p, w, atoms[1..], e, e2, ts);
      case Test(_, args) =>
        ValsGrow(e, e2, args);
        ProvesGrow(p, w, atoms[1..], e, e2, ts);
      case Call(_, args) =>
        ValsGrow(e, e2, args);
        ProvesGrow(p, w, atoms[1..], e, e2, ts[1..]);
    }
  }

  lemma {:induction false} PastGrow(past: set<(string, seq<Value>)>, more: set<(string, seq<Value>)>, name: string,
                                    earlier: seq<seq<Term>>, e: Asg, e2: Asg)
    requires GrowsTo(e, e2) && past <= more && AllPast(past, name, earlier, e)
    ensures AllPast(more, name, earlier, e2)
    decreases |earlier|
  {
    if earlier != [] {
      ValsGrow(e, e2, earlier[0]);
      PastGrow(past, more, name, earlier[1..], e, e2);
    }
  }

  lemma {:induction false} PendingGrow(w: World, cs: seq<Clause>, e: Asg, e2: Asg)
    requires GrowsTo(e, e2) && AllPreds(cs) && PendingTrue(w, cs, e)
    ensures PendingTrue(w, cs, e2)
  {
    if cs != [] {
      PendingGrow(w, cs[1..], e, e2);
      assert ClauseVars(cs[0]) == TermVars(cs[0].args);
      ValsGrow(e, e2, cs[0].args);
    }
  }

  lemma {:induction false} PastConcat(past: set<(string, seq<Value>)>, name: string, s: seq<seq<Term>>,
                                      t: seq<seq<Term>>, e: Asg)
    ensures AllPast(past, name, s + t, e) <==> AllPast(past, name, s, e) && AllPast(past, name, t, e)
  {
    if s == [] {
      assert s + t == t;
    } else {
      assert (s + t)[1..] == s[1..] + t;
      PastConcat(past, name, s[1..], t, e);
    }
  }

  lemma {:induction false} ProvesConcat(p: Program, w: World, s: seq<Atom>, t: seq<Atom>, e: Asg, xs: seq<Tree>,
                                        ys: seq<Tree>)
    requires Proves(p, w, s, e, xs) && Proves(p, w, t, e, ys)
    ensures Proves(p, w, s + t, e, xs + ys)
    decreases |s|
  {
    if s == [] {
      assert s + t == t && xs + ys == ys;
    } else {
      assert (s + t)[0] == s[0] && (s + t)[1..] == s[1..] + t;
      if s[0].Call? {
        assert (xs + ys)[0] == xs[0] && (xs + ys)[1..] == xs[1..] + ys;
        ProvesConcat(p, w, s[1..], t, e, xs[1..], ys);
      } else {
        ProvesConcat(p, w, s[1..], t, e, xs, ys);
      }
    }
  }

  lemma {:induction false} ProvesSplit(p: Program, w: World, atoms: seq<Atom>, e: Asg, ts: seq<Tree>)
    requires AtomsOk(p, atoms) && Proves(p, w, atoms, e, ts)
    ensures AllFlat(Lits(atoms)) && SatAll(w, map[], Lits(atoms), e) && Proves(p, w, FromCall(atoms), e, ts)
    decreases |atoms|
  {
    if atoms != [] && !atoms[0].Call? {
      ProvesSplit(p, w, atoms[1..], e, ts);
      var more := Lits(atoms[1..]);
      assert ([Lits(atoms)[0]] + more)[1..] == more && Lits(atoms) == [Lits(atoms)[0]] + more;
    }
  }

  /** A body that is proved makes its renamed form proved, by the same trees. */
  lemma {:induction false} ProvesRen(p: Program, w: World, head: seq<Var>, args: seq<Var>, id: nat, atoms: seq<Atom>,
                                     b: Asg, e: Asg, ts: seq<Tree>)
    requires Linked(head, args, id, AtomsVars(atoms), b, e) && Proves(p, w, atoms, b, ts)
    ensures Proves(p, w, RenAtoms(head, args, id, atoms), e, ts)
    decreases |atoms|
  {
    if atoms != [] {
      var first, more := RenAtom(head, args, id, atoms[0]), RenAtoms(head, args, id, atoms[1..]);
      assert ([first] + more)[0] == first && ([first] + more)[1..] == more;
      LinkedPart(head, args, id, AtomsVars(atoms), AtomsVars(atoms[1..]), b, e);
      LinkedPart(head, args, id, AtomsVars(atoms), AtomVars(atoms[0]), b, e);
      match atoms[0]
      case Match(terms) =>
        LinkedMatch(w, head, args, id, terms, b, e);
        ProvesRen(p, w, head, args, id, atoms[1..], b, e, ts);
      case Test(_, args0) =>
        LinkedVals(head, args, id, args0, b, e);
        ProvesRen(p, w, head, args, id, atoms[1..], b, e, ts);
      case Call(_, args0) =>
        LinkedVals(head, args, id, args0, b, e);
        ProvesRen(p, w, head, args, id, atoms[1..], b, e, ts[1..]);
    }
  }

  // ------------------------------------------------- a frame on track is not dropped

  lemma {:induction false} PastDiffers(past: set<(string, seq<Value>)>, name: string, vals: seq<Value>,
                                       earlier: seq<seq<Term>>, e: Asg)
    requires (name, vals) !in past && AllPast(past, name, earlier, e)
    ensures Differs(vals, earlier, e)
    decreases |earlier|
  {
    if earlier != [] { PastDiffers(past, name, vals, earlier[1..], e); }
  }

  /** The next call is none of those made so far. */
  lemma {:induction false} CallIsNew(past: seq<(string, seq<Value>)>, ts: seq<Tree>)
    requires ts != [] && NoDups(past + CallsMade(ts))
    ensures (ts[0].name, ts[0].vals) !in Elems(past)
  {
    var all := past + CallsMade(ts);
    assert all[|past|] == (ts[0].name, ts[0].vals);
    if (ts[0].name, ts[0].vals) in Elems(past) {
      var i := IndexOf(past, (ts[0].name, ts[0].vals));
      assert all[i] == past[i];
      NoDupsAt(all, i, |past|);
    }
  }

  /** The solved prefix of a frame on track still has its assignment, and the pending guards
      are true. */
  lemma {:induction false} TrackSolved(p: Program, w: World, finals: set<Var>, f: Frame, id: nat, x: Asg, y: Way)
    requires DifferOk(w) && FrameOk(p, w, finals, f, id) && Track(p, w, finals, f, id, x, y) && FromCall(f.atoms) != []
    ensures AllFlat(GuardsNow(f, true)) && SatAll(w, map[], GuardsNow(f, true), y.e)
    ensures AllFlat(GuardsNow(f, false)) && SatAll(w, map[], GuardsNow(f, false), y.e)
    ensures ResolveClauses(w, f.ctx, PrefixOf(f)).Ok? ==> HoldsAll(ResolveClauses(w, f.ctx, PrefixOf(f)).ctx.rels, y.e)
  {
    var call := FromCall(f.atoms)[0];
    ProvesSplit(p, w, f.atoms, y.e, y.trees);
    CallIsNew(y.past, y.trees);
    if call.name in f.used {
      PastDiffers(Elems(y.past), call.name, Vals(y.e, call.args), f.used[call.name], y.e);
    }
    FrameGuards(p, w, f, y.e);
    SatConcat(w, Lits(f.atoms), GuardsNow(f, true), y.e);
    SplitAtoms(p, w, f.atoms, y.e);
    BindsWritten(Lits(f.atoms));
    HoldsCovers(f.ctx.rels, y.e);
    if ResolveClauses(w, f.ctx, PrefixOf(f)).Ok? { SolveExact(w, f.ctx, PrefixOf(f), y.e); }
  }

  lemma {:induction false} SatAt(w: World, cs: seq<Clause>, c: Clause, e: Asg)
    requires AllFlat(cs) && SatAll(w, map[], cs, e) && c in cs
    ensures IsFlat(c) && Sat(w, map[], c, e)
  {
    if c != cs[0] { SatAt(w, cs[1..], c, e); }
  }

  lemma {:induction false} HoldsHasNoEmpty(rels: seq<Rel>, e: Asg)
    requires HoldsAll(rels, e)
    ensures !HasEmpty(rels)
  {
    if rels != [] { HoldsHasNoEmpty(rels[1..], e); }
  }

  /** The guard of a call against itself is false. */
  lemma {:induction false} TrivialGuard(w: World, e: Asg)
    requires DifferOk(w)
    ensures !Sat(w, map[], Pred(DIFFER, []), e)
  {
    var none: seq<Value> := [];
    assert Vals(e, []) == none + none;
    assert w.pred(DIFFER, none + none) <==> none != none;
  }

  lemma {:induction false} NotDropped(p: Program, w: World, finals: set<Var>, f: Frame, id: nat, x: Asg, y: Way)
    requires DifferOk(w) && FrameOk(p, w, finals, f, id) && Track(p, w, finals, f, id, x, y) && FromCall(f.atoms) != []
    ensures !Expand(p, w, f, id).Dropped?
  {
    TrackSolved(p, w, finals, f, id, x, y);
    if Pred(DIFFER, []) in GuardsNow(f, true) {
      TrivialGuard(w, y.e);
      SatAt(w, GuardsNow(f, true), Pred(DIFFER, []), y.e);
    }
    if ResolveClauses(w, f.ctx, PrefixOf(f)).Ok? {
      HoldsHasNoEmpty(ResolveClauses(w, f.ctx, PrefixOf(f)).ctx.rels, y.e);
    }
  }

  // ------------------------------------------------------ the child that is on track

  /** `e` with values for the variables of the branch that are new. */
  ghost function Grown(call: Atom, br: Branch, id: nat, e: Asg, b: Asg): Asg
    requires call.Call?
  {
    e + ArgConsts(call.args)
      + (map v | v in AtomsVars(br.body) && v !in Elems(br.head) :: Renamed(v, id) := if v in b then b[v] else Nil)
  }

  lemma {:induction false} GrownKeeps(call: Atom, br: Branch, id: nat, e: Asg, b: Asg)
    requires call.Call? && AllOlder(e.Keys, id) && ArgConsts(call.args).Keys !! e.Keys
    ensures GrowsTo(e, Grown(call, br, id, e, b)) && EnvConsts(ArgConsts(call.args), Grown(call, br, id, e, b))
    ensures AllOlder(Grown(call, br, id, e, b).Keys, id + 1)
  {}

  lemma {:induction false} GrownLinked(call: Atom, br: Branch, id: nat, e: Asg, b: Asg)
    requires call.Call? && AllOlder(e.Keys, id) && ArgConsts(call.args).Keys !! e.Keys
    requires TermVars(call.args) <= e.Keys && NoDups(br.head)
             && (forall k :: 0 <= k < |call.args| ==> call.args[k] != Blank)
    requires HeadIs(br.head, Vals(e, call.args), b)
    ensures Linked(br.head, NewArgs(call.args), id, AtomsVars(br.body), b, Grown(call, br, id, e, b))
  {
    var e2, args := Grown(call, br, id, e, b), NewArgs(call.args);
    GrownKeeps(call, br, id, e, b);
    forall v | v in AtomsVars(br.body) ensures LinkedAt(br.head, args, id, v, b, e2) {
      RenIs(br.head, args, id, v);
      if v in Elems(br.head) {
        var k := IndexOf(br.head, v);
        assert InSeq(br.head, v, k);
        ArgLinked(call, k, e, e2);
      } else {
        forall k ensures !InSeq(br.head, v, k) { if InSeq(br.head, v, k) { ElemsAt(br.head, k); } }
      }
    }
  }

  lemma {:induction false} ArgLinked(call: Atom, k: nat, e: Asg, e2: Asg)
    requires call.Call? && k < |call.args| && call.args[k] != Blank && TermVars(call.args) <= e.Keys
    requires GrowsTo(e, e2) && EnvConsts(ArgConsts(call.args), e2)
    ensures NewArgs(call.args)[k] in e2 && e2[NewArgs(call.args)[k]] == Vals(e, call.args)[k]
  {
    if call.args[k].Variable? {
      TermVarsAt(call.args, call.args[k].v);
    } else {
      assert Auto(k) in ArgConsts(call.args);
    }
  }

  lemma {:induction false} ChildUsed(f: Frame, past: seq<(string, seq<Value>)>, call: Atom, c: (string, seq<Value>),
                                     e: Asg, e2: Asg)
    requires FromCall(f.atoms) != [] && call == FromCall(f.atoms)[0] && UsedPast(Elems(past), f.used, e)
             && GrowsTo(e, e2)
    requires TermVars(call.args) <= e.Keys && c == (call.name, Vals(e, call.args))
    ensures UsedPast(Elems(past + [c]), UsedAfter(f), e2)
  {
    var earlier, more := EarlierCalls(f.used, call.name), Elems(past + [c]);
    assert (past + [c])[..|past|] == past;
    ValsGrow(e, e2, call.args);
    assert [call.args][1..] == [] && AllPast(more, call.name, [call.args], e2);
    forall name | name in UsedAfter(f) ensures AllPast(more, name, UsedAfter(f)[name], e2) {
      if name in f.used { PastGrow(Elems(past), more, name, f.used[name], e, e2); }
      if name == call.name { PastConcat(more, name, earlier, [call.args], e2); }
    }
  }

  lemma {:induction false} ChildProved(p: Program, w: World, f: Frame, br: Branch, id: nat, e: Asg, e2: Asg, b: Asg,
                                       xs: seq<Tree>, ys: seq<Tree>)
    requires FromCall(f.atoms) != [] && Proves(p, w, FromCall(f.atoms)[1..], e, ys) && Proves(p, w, br.body, b, xs)
    requires AtomsVars(FromCall(f.atoms)[1..]) <= e.Keys && GrowsTo(e, e2)
    requires Linked(br.head, NewArgs(FromCall(f.atoms)[0].args), id, AtomsVars(br.body), b, e2)
    ensures Proves(p, w, Child(f, f.ctx, br, id).atoms, e2, xs + ys)
  {
    var tail := FromCall(f.atoms);
    var args := NewArgs(tail[0].args);
    ProvesRen(p, w, br.head, args, id, br.body, b, e2, xs);
    ProvesGrow(p, w, tail[1..], e, e2, ys);
    ProvesConcat(p, w, RenAtoms(br.head, args, id, br.body), tail[1..], e2, xs, ys);
  }

  lemma {:induction false} ChildVarsBound(p: Program, w: World, f: Frame, br: Branch, id: nat, e: Asg, b: Asg)
    requires FromCall(f.atoms) != [] && AtomsVars(FromCall(f.atoms)) <= e.Keys
    requires var call := FromCall(f.atoms)[0];
             GrowsTo(e, Grown(call, br, id, e, b))
               && Linked(br.head, NewArgs(call.args), id, AtomsVars(br.body), b, Grown(call, br, id, e, b))
    ensures AtomsVars(Child(f, f.ctx, br, id).atoms) <= Grown(FromCall(f.atoms)[0], br, id, e, b).Keys
  {
    var tail := FromCall(f.atoms);
    var args, e2 := NewArgs(tail[0].args), Grown(tail[0], br, id, e, b);
    var body := RenAtoms(br.head, args, id, br.body);
    AtomsConcat(p, w, body, tail[1..], e);
    forall u | u in AtomsVars(body) ensures u in e2 {
      var v := RenAtomVarsFrom(br.head, args, id, br.body, u);
      assert LinkedAt(br.head, args, id, v, b, e2);
    }
  }

  /** The guards carried forward stay true, and their variables stay bound. */
  lemma {:induction false} GuardsBound(p: Program, w: World, finals: set<Var>, f: Frame, id: nat, x: Asg, y: Way)
    requires DifferOk(w) && FrameOk(p, w, finals, f, id) && Track(p, w, finals, f, id, x, y) && FromCall(f.atoms) != []
    ensures PendingTrue(w, GuardsNow(f, false), y.e)
  {
    var call := FromCall(f.atoms)[0];
    TrackSolved(p, w, finals, f, id, x, y);
    SplitAtoms(p, w, f.atoms, y.e);
    if call.name in f.used { GuardVars(Elems(y.past), call.args, call.name, f.used[call.name], y.e); }
    VarsConcat(Guards(call.args, EarlierCalls(f.used, call.name)), f.pending);
    CheckableVars(ClausesVars(f.prefix + Lits(f.atoms)), GuardsOf(f), false);
  }

  lemma {:induction false} GuardVars(past: set<(string, seq<Value>)>, args: seq<Term>, name: string,
                                     earlier: seq<seq<Term>>, e: Asg)
    requires TermVars(args) <= e.Keys && AllPast(past, name, earlier, e)
    ensures ClausesVars(Guards(args, earlier)) <= e.Keys
    decreases |earlier|
  {
    if earlier != [] {
      GuardVars(past, args, name, earlier[1..], e);
      var more := Guards(args, earlier[1..]);
      assert ([Guard(args, earlier[0])] + more)[1..] == more;
      DifferingVars(args, earlier[0]);
      var d := DifferingArgs(args, earlier[0]);
      TermVarsConcat(d.0, d.1);
      assert ClauseVars(Guard(args, earlier[0])) == TermVars(d.0 + d.1);
    }
  }

  lemma {:induction false} DifferingVars(xs: seq<Term>, ys: seq<Term>)
    ensures TermVars(DifferingArgs(xs, ys).0) <= TermVars(xs) && TermVars(DifferingArgs(xs, ys).1) <= TermVars(ys)
  {
    if xs != [] && ys != [] {
      DifferingVars(xs[1..], ys[1..]);
      var r := DifferingArgs(xs[1..], ys[1..]);
      TermVarsConcat([xs[0]], r.0);
      TermVarsConcat([ys[0]], r.1);
      assert [xs[0]][1..] == [] && [ys[0]][1..] == [];
    }
  }

  lemma {:induction false} TermVarsConcat(s: seq<Term>, t: seq<Term>)
    ensures TermVars(s + t) == TermVars(s) + TermVars(t)
  {
    if s == [] {
      assert s + t == t;
    } else {
      assert (s + t)[1..] == s[1..] + t;
      TermVarsConcat(s[1..], t);
    }
  }

  lemma {:induction false} CheckableVars(vars: set<Var>, cs: seq<Clause>, now: bool)
    ensures ClausesVars(Checkable(vars, cs, now)) <= ClausesVars(cs)
  {
    if cs != [] {
      CheckableVars(vars, cs[1..], now);
      VarsConcat([cs[0]], Checkable(vars, cs[1..], now));
      VarsConcat([], Checkable(vars, cs[1..], now));
      assert [cs[0]][1..] == [] && [] + Checkable(vars, cs[1..], now) == Checkable(vars, cs[1..], now);
    }
  }

  /** The way on, after the next call is expanded. */
  ghost function WayOn(call: Atom, br: Branch, id: nat, y: Way): Way
    requires call.Call? && y.trees != []
  {
    var t := y.trees[0];
    Way(Grown(call, br, id, y.e, t.b), y.past + [(t.name, t.vals)], t.subs + y.trees[1..])
  }

  /** The branch in which the next tree derives the call is on track. */
  lemma {:induction false} ChildTracked(p: Program, w: World, finals: set<Var>, f: Frame, ctx: Ctx, br: Branch,
                                        id: nat, next: nat, x: Asg, y: Way)
    requires next == id + 1 && DifferOk(w) && ProgramOk(p)
    requires FrameOk(p, w, finals, f, id) && Track(p, w, finals, f, id, x, y) && FromCall(f.atoms) != []
    requires ctx.consts == f.ctx.consts && HoldsAll(ctx.rels, y.e) && BranchOk(p, br) && y.trees != []
    requires var t := y.trees[0]; HeadIs(br.head, t.vals, t.b) && Proves(p, w, br.body, t.b, t.subs)
    ensures Track(p, w, finals, Child(f, ctx, br, id), next, x, WayOn(FromCall(f.atoms)[0], br, id, y))
  {
    var call, t := FromCall(f.atoms)[0], y.trees[0];
    var e2 := Grown(call, br, id, y.e, t.b);
    CallOk(p, w, finals, f, id);
    CallUnbound(p, w, finals, f, id, x, y);
    SplitAtoms(p, w, f.atoms, y.e);
    ProvesSplit(p, w, f.atoms, y.e, y.trees);
    GrownKeeps(call, br, id, y.e, t.b);
    GrownLinked(call, br, id, y.e, t.b);
    HoldsAgree(ctx.rels, y.e, e2);
    ChildConsts(f.ctx.consts, call, y.e, e2);
    ChildProved(p, w, f, br, id, y.e, e2, t.b, t.subs, y.trees[1..]);
    ChildVarsBound(p, w, f, br, id, y.e, t.b);
    ChildUsed(f, y.past, call, (t.name, t.vals), y.e, e2);
    GuardsBound(p, w, finals, f, id, x, y);
    FrameGuards(p, w, f, y.e);
    PendingGrow(w, GuardsNow(f, false), y.e, e2);
    ChildAtoms(p, w, finals, f, br, id);
    CallsMadeFirst(y.past, y.trees);
  }

  /** The names the call gives its constants are not in use. */
  lemma {:induction false} CallUnbound(p: Program, w: World, finals: set<Var>, f: Frame, id: nat, x: Asg, y: Way)
    requires FrameOk(p, w, finals, f, id) && Track(p, w, finals, f, id, x, y) && FromCall(f.atoms) != []
    ensures ArgConsts(FromCall(f.atoms)[0].args).Keys !! y.e.Keys
  {
    SplitAtoms(p, w, f.atoms, y.e);
    if VarCalls(f.atoms) { NoArgConsts(FromCall(f.atoms)[0].args); }
  }

  lemma {:induction false} ChildConsts(consts: map<Var, Value>, call: Atom, e: Asg, e2: Asg)
    requires call.Call? && EnvConsts(consts, e) && GrowsTo(e, e2) && EnvConsts(ArgConsts(call.args), e2)
    ensures EnvConsts(consts + ArgConsts(call.args), e2)
  {}

  // ---------------------------------------------------------------------- stacks

  lemma {:induction false} TrackedCons(p: Program, w: World, finals: set<Var>, f: Frame, rest: seq<Frame>, id: nat,
                                       x: Asg)
    ensures StackTracked(p, w, finals, [f] + rest, id, x) <==>
        Tracked(p, w, finals, f, id, x) || StackTracked(p, w, finals, rest, id, x)
  {
    var all := [f] + rest;
    assert all[0] == f && all[1..] == rest;
  }

  lemma {:induction false} TrackLater(p: Program, w: World, finals: set<Var>, f: Frame, id: nat, next: nat, x: Asg)
    requires Tracked(p, w, finals, f, id, x) && id <= next
    ensures Tracked(p, w, finals, f, next, x)
  {
    var y :| Track(p, w, finals, f, id, x, y);
    assert AllOlder(y.e.Keys, next);
    assert Track(p, w, finals, f, next, x, y);
  }

  lemma {:induction false} TrackedLater(p: Program, w: World, finals: set<Var>, stack: seq<Frame>, id: nat, next: nat,
                                        x: Asg)
    requires StackTracked(p, w, finals, stack, id, x) && id <= next
    ensures StackTracked(p, w, finals, stack, next, x)
  {
    if Tracked(p, w, finals, stack[0], id, x) {
      TrackLater(p, w, finals, stack[0], id, next, x);
    } else {
      TrackedLater(p, w, finals, stack[1..], id, next, x);
    }
  }

  /** A child on track, or the rest of the stack, keeps the new stack on track. */
  lemma {:induction false} ChildrenTracked(p: Program, w: World, finals: set<Var>, f: Frame, ctx: Ctx,
                                           branches: seq<Branch>, i: int, id: nat, next: nat, rest: seq<Frame>, x: Asg)
    requires FromCall(f.atoms) != []
    requires (0 <= i < |branches| && Tracked(p, w, finals, Child(f, ctx, branches[i], id), next, x))
             || StackTracked(p, w, finals, rest, next, x)
    ensures StackTracked(p, w, finals, Children(f, ctx, branches, id) + rest, next, x)
    decreases |branches|
  {
    if branches == [] {
      assert Children(f, ctx, branches, id) + rest == rest;
    } else {
      var c, more := Child(f, ctx, branches[0], id), Children(f, ctx, branches[1..], id);
      TrackedCons(p, w, finals, c, more + rest, next, x);
      assert [c] + more + rest == [c] + (more + rest);
      if i != 0 || StackTracked(p, w, finals, rest, next, x) {
        ChildrenTracked(p, w, finals, f, ctx, branches[1..], i - 1, id, next, rest, x);
      }
    }
  }

  /** Expanding a frame on track leaves a child on track. */
  lemma {:induction false} ExpandTracked(p: Program, w: World, finals: set<Var>, f: Frame, id: nat, next: nat,
                                         rest: seq<Frame>, x: Asg)
    requires next == id + 1 && DifferOk(w) && ProgramOk(p)
    requires FrameOk(p, w, finals, f, id) && Tracked(p, w, finals, f, id, x) && FromCall(f.atoms) != []
    requires Expand(p, w, f, id).Expanded?
    ensures StackTracked(p, w, finals, Expand(p, w, f, id).frames + rest, next, x)
  {
    var y :| Track(p, w, finals, f, id, x, y);
    var call := FromCall(f.atoms)[0];
    var ctx := ResolveClauses(w, f.ctx, PrefixOf(f)).ctx;
    TrackSolved(p, w, finals, f, id, x, y);
    ProvesSplit(p, w, f.atoms, y.e, y.trees);
    SolvedOk(p, w, finals, f, id);
    var i := y.trees[0].branch;
    assert BranchOk(p, p[call.name][i]);
    ChildTracked(p, w, finals, f, ctx, p[call.name][i], id, next, x, y);
    assert Tracked(p, w, finals, Child(f, ctx, p[call.name][i], id), next, x);
    ChildrenTracked(p, w, finals, f, ctx, p[call.name], i, id, next, rest, x);
  }

  /** A leaf on track yields its answer. */
  lemma {:induction false} LeafFound(p: Program, w: World, finals: set<Var>, f: Frame, id: nat, rel: Rel, x: Asg)
    requires FrameOk(p, w, finals, f, id) && Tracked(p, w, finals, f, id, x) && FromCall(f.atoms) == []
    requires Good(rel) && rel.attrs.Keys == finals && Finish(w, f, rel).Some?
    ensures Holds(Finish(w, f, rel).value, x)
  {
    var y :| Track(p, w, finals, f, id, x, y);
    var ctx := ResolveClauses(w, f.ctx, Lits(f.atoms)).ctx;
    LeafSolved(p, w, finals, f, id);
    ProvesSplit(p, w, f.atoms, y.e, y.trees);
    SplitAtoms(p, w, f.atoms, y.e);
    BindsWritten(Lits(f.atoms));
    HoldsCovers(f.ctx.rels, y.e);
    SolveExact(w, f.ctx, Lits(f.atoms), y.e);
    LeafReads(ctx, rel.keys, finals, y.e, x);
    CollectAll(ctx, rel.keys, y.e, x);
  }

  lemma {:induction false} LeafReads(ctx: Ctx, keys: seq<Var>, finals: set<Var>, e: Asg, x: Asg)
    requires HoldsAll(ctx.rels, e) && EnvConsts(ctx.consts, e) && Elems(keys) == finals && Agrees(finals, e, x)
    requires finals <= VarsAll(ctx.rels) + ctx.consts.Keys
    ensures ReadsCtx(ctx, keys, e, x)
  {
    forall i | 0 <= i < |keys| ensures keys[i] in x && x[keys[i]] == SymbolValue(ctx, e, keys[i]) {
      ElemsAt(keys, i);
    }
  }

  // ------------------------------------------------------------------------ runs

  /** The frames are well formed, and the answer is found already or still on track. */
  ghost predicate CompleteAt(p: Program, w: World, finals: set<Var>, stack: seq<Frame>, rel: Rel, id: nat, x: Asg) {
    && Good(rel) && rel.attrs.Keys == finals && StackOk(p, w, finals, stack, id)
    && (Holds(rel, x) || StackTracked(p, w, finals, stack, id, x))
  }

  ghost predicate CompleteState(p: Program, w: World, finals: set<Var>, s: State, x: Asg) {
    s.State? ==> CompleteAt(p, w, finals, s.stack, s.rel, s.seqid, x)
  }

  lemma {:induction false} FinishComplete(p: Program, w: World, finals: set<Var>, stack: seq<Frame>, rel: Rel, id: nat,
                                          x: Asg)
    requires stack != [] && CompleteAt(p, w, finals, stack, rel, id, x)
    requires FromCall(stack[0].atoms) == [] && WellFormed(stack[0].ctx.rels) && Finish(w, stack[0], rel).Some?
    ensures CompleteAt(p, w, finals, stack[1..], Finish(w, stack[0], rel).value, id, x)
  {
    if !Holds(rel, x) && Tracked(p, w, finals, stack[0], id, x) {
      LeafFound(p, w, finals, stack[0], id, rel, x);
    }
  }

  lemma {:induction false} ExpandComplete(p: Program, w: World, finals: set<Var>, stack: seq<Frame>, rel: Rel, id: nat,
                                          next: nat, x: Asg)
    requires DifferOk(w) && ProgramOk(p) && next == id + 1
    requires stack != [] && CompleteAt(p, w, finals, stack, rel, id, x)
    requires FromCall(stack[0].atoms) != [] && WellFormed(stack[0].ctx.rels) && Expand(p, w, stack[0], id).Expanded?
    ensures CompleteAt(p, w, finals, Expand(p, w, stack[0], id).frames + stack[1..], rel, next, x)
  {
    ExpandOk(p, w, finals, stack[0], id, next, stack[1..]);
    if !Holds(rel, x) {
      if Tracked(p, w, finals, stack[0], id, x) {
        ExpandTracked(p, w, finals, stack[0], id, next, stack[1..], x);
      } else {
        var ctx := ResolveClauses(w, stack[0].ctx, PrefixOf(stack[0])).ctx;
        TrackedLater(p, w, finals, stack[1..], id, next, x);
        ChildrenTracked(p, w, finals, stack[0], ctx, BranchesOf(p, FromCall(stack[0].atoms)[0].name), -1, id, next,
            stack[1..], x);
      }
    }
  }

  lemma {:induction false} DropComplete(p: Program, w: World, finals: set<Var>, stack: seq<Frame>, rel: Rel, id: nat,
                                        x: Asg)
    requires DifferOk(w) && stack != [] && CompleteAt(p, w, finals, stack, rel, id, x)
    requires FromCall(stack[0].atoms) != [] && WellFormed(stack[0].ctx.rels) && Expand(p, w, stack[0], id).Dropped?
    ensures CompleteAt(p, w, finals, stack[1..], rel, id, x)
  {
    if Tracked(p, w, finals, stack[0], id, x) {
      var y :| Track(p, w, finals, stack[0], id, x, y);
      NotDropped(p, w, finals, stack[0], id, x, y);
    }
  }

  /** One turn of the loop loses no answer. */
  lemma {:induction false} StepComplete(p: Program, w: World, finals: set<Var>, s: State, x: Asg)
    requires DifferOk(w) && ProgramOk(p) && Runnable(s) && CompleteState(p, w, finals, s, x)
    ensures CompleteState(p, w, finals, Step(p, w, s), x)
  {
    if s.State? && s.stack != [] {
      StepCases(p, w, s);
      if FromCall(s.stack[0].atoms) == [] {
        if Finish(w, s.stack[0], s.rel).Some? { FinishComplete(p, w, finals, s.stack, s.rel, s.seqid, x); }
      } else if Expand(p, w, s.stack[0], s.seqid).Expanded? {
        ExpandComplete(p, w, finals, s.stack, s.rel, s.seqid, Step(p, w, s).seqid, x);
      } else if Expand(p, w, s.stack[0], s.seqid).Dropped? {
        DropComplete(p, w, finals, s.stack, s.rel, s.seqid, x);
      }
    }
  }

  lemma {:induction false} RunComplete(p: Program, w: World, finals: set<Var>, s: State, n: nat, x: Asg)
    requires DifferOk(w) && ProgramOk(p) && Runnable(s) && CompleteState(p, w, finals, s, x)
    ensures CompleteState(p, w, finals, Run(p, w, s, n), x)
    decreases n
  {
    if n > 0 {
      StepComplete(p, w, finals, s, x);
      RunComplete(p, w, finals, Step(p, w, s), n - 1, x);
    }
  }

  lemma {:induction false} GoalAlone(p: Program, w: World, goal: Atom, e: Asg, t: Tree)
    requires goal.Call? && Derivation(p, w, t) && t.name == goal.name && t.vals == Vals(e, goal.args)
    ensures Proves(p, w, [goal], e, [t]) && AtomsVars([goal]) == TermVars(goal.args)
  {
    assert [goal][1..] == [] && [t][1..] == [] && AtomsVars([goal]) == AtomVars(goal) + {};
    assert Proves(p, w, [], e, []);
  }

  /** The answer, cut down to the variables there are at the start. */
  lemma {:induction false} InitialAsg(p: Program, w: World, ctx: Ctx, goal: Atom, x: Asg) returns (e: Asg)
    requires GoalOk(p, w, ctx, goal) && HoldsAll(ctx.rels, x) && EnvConsts(ctx.consts, x)
             && TermVars(goal.args) <= x.Keys
    ensures HoldsAll(ctx.rels, e) && EnvConsts(ctx.consts, e) && TermVars(goal.args) <= e.Keys
    ensures AllOlder(e.Keys, 0) && NoAuto(e.Keys) && Agrees(TermVars(goal.args), e, x)
            && Vals(e, goal.args) == Vals(x, goal.args)
  {
    e := Cut(x, Bound(ctx) + TermVars(goal.args));
    assert forall v :: v in e ==> v.Named?;
    HoldsCovers(ctx.rels, x);
    HoldsAgree(ctx.rels, x, e);
    ValsAgree(map[], goal.args, e, x);
  }

  lemma {:induction false} InitialTrack(p: Program, w: World, ctx: Ctx, goal: Atom, x: Asg)
    requires GoalOk(p, w, ctx, goal) && HoldsAll(ctx.rels, x) && EnvConsts(ctx.consts, x)
             && TermVars(goal.args) <= x.Keys
    requires Unrepeated(p, w, goal.name, Vals(x, goal.args))
    ensures Tracked(p, w, TermVars(goal.args), Frame([], ctx, [goal], map[], []), 0, x)
  {
    var t :| Derivation(p, w, t) && t.name == goal.name && t.vals == Vals(x, goal.args) && NoDups(CallsMade([t]));
    var e := InitialAsg(p, w, ctx, goal, x);
    GoalAlone(p, w, goal, e, t);
    assert [] + CallsMade([t]) == CallsMade([t]);
    assert Track(p, w, TermVars(goal.args), Frame([], ctx, [goal], map[], []), 0, x, Way(e, [], [t]));
  }

  lemma {:induction false} InitialComplete(p: Program, w: World, ctx: Ctx, goal: Atom, x: Asg)
    requires GoalOk(p, w, ctx, goal) && HoldsAll(ctx.rels, x) && EnvConsts(ctx.consts, x)
             && TermVars(goal.args) <= x.Keys
    requires Unrepeated(p, w, goal.name, ValsOf(map[], x, goal.args))
    ensures CompleteState(p, w, TermVars(goal.args), Initial(ctx, goal), x)
  {
    FinalsAre(goal.args);
    InitialRunnable(ctx, goal);
    InitialFrameOk(p, w, ctx, goal);
    InitialTrack(p, w, ctx, goal, x);
    assert Initial(ctx, goal).stack[1..] == [];
  }

  /** Completeness: when the stack is empty, every tuple that agrees with the starting context
      and has a derivation without a repeated call has been found. */
  lemma {:induction false} RuleComplete(p: Program, w: World, ctx: Ctx, goal: Atom, n: nat, x: Asg)
    requires DifferOk(w) && ProgramOk(p) && GoalOk(p, w, ctx, goal) && Runnable(Initial(ctx, goal))
    requires HoldsAll(ctx.rels, x) && EnvConsts(ctx.consts, x) && TermVars(goal.args) <= x.Keys
    requires Unrepeated(p, w, goal.name, ValsOf(map[], x, goal.args))
    ensures Run(p, w, Initial(ctx, goal), n).State? && Run(p, w, Initial(ctx, goal), n).stack == []
            ==> Holds(Run(p, w, Initial(ctx, goal), n).rel, x)
  {
    InitialComplete(p, w, ctx, goal, x);
    RunComplete(p, w, TermVars(goal.args), Initial(ctx, goal), n, x);
  }

  /** No call of the rule needs a derivation that repeats a call. */
  ghost predicate NoneLost(p: Program, w: World, name: string) {
    forall vals :: Derivable(p, w, name, vals) ==> Unrepeated(p, w, name, vals)
  }

  lemma {:induction false} LinearNoneLost(p: Program, w: World, name: string)
    requires Linear(p)
    ensures NoneLost(p, w, name)
  {
    forall vals | Derivable(p, w, name, vals) ensures Unrepeated(p, w, name, vals) {
      LinearUnrepeated(p, w, name, vals);
    }
  }

  /** `solve-rule` on rules of which nothing is lost, linear ones among them: its relation,
      collapsed into the context, keeps exactly the assignments for which the call is in the
      least fixed point. */
  lemma {:induction false} RuleExact(p: Program, w: World, ctx: Ctx, goal: Atom, n: nat, x: Asg)
    requires DifferOk(w) && ProgramOk(p) && GoalOk(p, w, ctx, goal) && Runnable(Initial(ctx, goal))
    requires NoneLost(p, w, goal.name) && RunClean(p, w, Initial(ctx, goal), n)
    requires Run(p, w, Initial(ctx, goal), n).State? && Run(p, w, Initial(ctx, goal), n).stack == []
    requires EnvConsts(ctx.consts, x) && TermVars(goal.args) <= x.Keys
    ensures HoldsAll(Collapse(ctx.rels, Run(p, w, Initial(ctx, goal), n).rel, []), x)
       <==> HoldsAll(ctx.rels, x) && Derivable(p, w, goal.name, ValsOf(map[], x, goal.args))
  {
    var r := Run(p, w, Initial(ctx, goal), n).rel;
    CollapseHolds(ctx.rels, r, [], x);
    RuleSound(p, w, ctx, goal, n, x);
    if HoldsAll(ctx.rels, x) && Derivable(p, w, goal.name, ValsOf(map[], x, goal.args)) {
      RuleComplete(p, w, ctx, goal, n, x);
    }
  }
}
