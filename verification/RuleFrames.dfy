/** Frames of the rule solver: what a guard says, how renaming a rule body relates its
    assignments to those of the caller, and what every frame on the stack keeps. */
module RuleFrames {
  import opened Options
  import opened Relations
  import opened Sequences
  import opened RelationOps
  import opened Contexts
  import opened Search
  import opened Clauses
  import opened Semantics
  import opened Schedule
  import opened Evaluator
  import opened Flat
  import opened Rules
  import opened RuleSemantics

  // --------------------------------------------------------------------- guards

  function Vals(e: Asg, ts: seq<Term>): (r: seq<Value>)
    ensures |r| == |ts|
  {
    ValsOf(map[], e, ts)
  }

  lemma {:induction false} ValsCons(e: Asg, ts: seq<Term>)
    requires ts != []
    ensures Vals(e, ts) == [ValOf(map[], e, ts[0])] + Vals(e, ts[1..])
  {}

  lemma {:induction false} ValsConcat(e: Asg, xs: seq<Term>, ys: seq<Term>)
    ensures Vals(e, xs + ys) == Vals(e, xs) + Vals(e, ys)
  {}

  /** Leaving out the arguments that are written alike does not change the comparison. */
  lemma {:induction false} DifferingVals(xs: seq<Term>, ys: seq<Term>, e: Asg)
    requires |xs| == |ys|
    ensures Vals(e, DifferingArgs(xs, ys).0) == Vals(e, DifferingArgs(xs, ys).1) <==> Vals(e, xs) == Vals(e, ys)
  {
    if xs != [] {
      var r := DifferingArgs(xs[1..], ys[1..]);
      DifferingVals(xs[1..], ys[1..], e);
      ValsCons(e, xs);
      ValsCons(e, ys);
      ConsEqual(ValOf(map[], e, xs[0]), Vals(e, xs[1..]), ValOf(map[], e, ys[0]), Vals(e, ys[1..]));
      if xs[0] != ys[0] {
        ValsConcat(e, [xs[0]], r.0);
        ValsConcat(e, [ys[0]], r.1);
        assert Vals(e, [xs[0]]) == [ValOf(map[], e, xs[0])] && Vals(e, [ys[0]]) == [ValOf(map[], e, ys[0])];
        ConsEqual(ValOf(map[], e, xs[0]), Vals(e, r.0), ValOf(map[], e, ys[0]), Vals(e, r.1));
      }
    }
  }

  lemma {:induction false} ConsEqual<T>(x: T, s: seq<T>, y: T, t: seq<T>)
    ensures [x] + s == [y] + t <==> x == y && s == t
  {
    if [x] + s == [y] + t {
      assert ([x] + s)[0] == ([y] + t)[0];
      assert ([x] + s)[1..] == s && ([y] + t)[1..] == t;
    }
  }

  /** A guard is true exactly when the two calls pass different values. */
  lemma {:induction false} GuardTrue(w: World, xs: seq<Term>, ys: seq<Term>, e: Asg)
    requires DifferOk(w) && |xs| == |ys|
    ensures Sat(w, map[], Guard(xs, ys), e) <==> Vals(e, xs) != Vals(e, ys)
  {
    var d := DifferingArgs(xs, ys);
    DifferingVals(xs, ys, e);
    ValsConcat(e, d.0, d.1);
    assert w.pred(DIFFER, Vals(e, d.0) + Vals(e, d.1)) <==> Vals(e, d.0) != Vals(e, d.1);
  }

  /** Every earlier call passes other values. */
  ghost predicate Differs(vals: seq<Value>, earlier: seq<seq<Term>>, e: Asg) {
    earlier == [] || (vals != Vals(e, earlier[0]) && Differs(vals, earlier[1..], e))
  }

  predicate Arity(n: nat, earlier: seq<seq<Term>>) {
    earlier == [] || (|earlier[0]| == n && Arity(n, earlier[1..]))
  }

  predicate AllPreds(cs: seq<Clause>) {
    cs == [] || (cs[0].Pred? && AllPreds(cs[1..]))
  }

  lemma {:induction false} PredsSolvable(cs: seq<Clause>)
    requires AllPreds(cs)
    ensures Solvable(cs) && AllFlat(cs) && BindsAll(cs) == {}
  {
    if cs != [] { PredsSolvable(cs[1..]); }
  }

  lemma {:induction false} GuardsTrue(w: World, args: seq<Term>, earlier: seq<seq<Term>>, e: Asg)
    requires DifferOk(w) && Arity(|args|, earlier)
    ensures AllPreds(Guards(args, earlier)) && AllFlat(Guards(args, earlier))
    ensures SatAll(w, map[], Guards(args, earlier), e) <==> Differs(Vals(e, args), earlier, e)
  {
    if earlier != [] {
      GuardTrue(w, args, earlier[0], e);
      GuardsTrue(w, args, earlier[1..], e);
      var rest := Guards(args, earlier[1..]);
      assert ([Guard(args, earlier[0])] + rest)[1..] == rest;
    }
  }

  lemma {:induction false} SatConcat(w: World, cs: seq<Clause>, ds: seq<Clause>, e: Asg)
    ensures AllFlat(cs + ds) <==> AllFlat(cs) && AllFlat(ds)
    ensures AllFlat(cs) && AllFlat(ds) ==>
        (SatAll(w, map[], cs + ds, e) <==> SatAll(w, map[], cs, e) && SatAll(w, map[], ds, e))
  {
    if cs == [] {
      assert cs + ds == ds;
    } else {
      assert (cs + ds)[1..] == cs[1..] + ds;
      SatConcat(w, cs[1..], ds, e);
    }
  }

  lemma {:induction false} PredsConcat(cs: seq<Clause>, ds: seq<Clause>)
    requires AllPreds(cs) && AllPreds(ds)
    ensures AllPreds(cs + ds)
  {
    if cs == [] {
      assert cs + ds == ds;
    } else {
      assert (cs + ds)[1..] == cs[1..] + ds;
      PredsConcat(cs[1..], ds);
    }
  }

  /** Splitting the guards loses none. */
  lemma {:induction false} CheckableSat(w: World, vars: set<Var>, cs: seq<Clause>, e: Asg)
    requires AllPreds(cs) && AllFlat(cs)
    ensures AllPreds(Checkable(vars, cs, true)) && AllPreds(Checkable(vars, cs, false))
    ensures AllFlat(Checkable(vars, cs, true)) && AllFlat(Checkable(vars, cs, false))
    ensures SatAll(w, map[], cs, e)
       <==> SatAll(w, map[], Checkable(vars, cs, true), e) && SatAll(w, map[], Checkable(vars, cs, false), e)
  {
    if cs != [] {
      var now := Covered(vars, cs[0].args);
      var more := Checkable(vars, cs[1..], now);
      CheckableSat(w, vars, cs[1..], e);
      assert ([cs[0]] + more)[1..] == more;
      assert Checkable(vars, cs, now) == [cs[0]] + more;
      assert Checkable(vars, cs, !now) == Checkable(vars, cs[1..], !now);
    }
  }

  // ----------------------------------------------------------- literals and calls

  lemma {:induction false} SplitAtoms(p: Program, w: World, atoms: seq<Atom>, e: Asg)
    requires AtomsOk(p, atoms)
    ensures Solvable(Lits(atoms)) && AllFlat(Lits(atoms)) && AtomsOk(p, FromCall(atoms))
    ensures AtomsVars(atoms) == ClausesVars(Lits(atoms)) + AtomsVars(FromCall(atoms))
    ensures SafeVars(atoms) == BindsAll(Lits(atoms)) + SafeVars(FromCall(atoms))
    ensures VarCalls(atoms) <==> VarCalls(FromCall(atoms))
    ensures BodyHolds(p, w, atoms, e) <==> SatAll(w, map[], Lits(atoms), e) && BodyHolds(p, w, FromCall(atoms), e)
  {
    if atoms != [] && !atoms[0].Call? {
      SplitAtoms(p, w, atoms[1..], e);
      var more := Lits(atoms[1..]);
      assert ([Lits(atoms)[0]] + more)[1..] == more && Lits(atoms) == [Lits(atoms)[0]] + more;
    }
  }

  lemma {:induction false} AtomsConcat(p: Program, w: World, s: seq<Atom>, t: seq<Atom>, e: Asg)
    ensures AtomsOk(p, s + t) <==> AtomsOk(p, s) && AtomsOk(p, t)
    ensures VarCalls(s + t) <==> VarCalls(s) && VarCalls(t)
    ensures AtomsVars(s + t) == AtomsVars(s) + AtomsVars(t)
    ensures SafeVars(s + t) == SafeVars(s) + SafeVars(t)
    ensures BodyHolds(p, w, s + t, e) <==> BodyHolds(p, w, s, e) && BodyHolds(p, w, t, e)
  {
    if s == [] {
      assert s + t == t;
    } else {
      assert (s + t)[1..] == s[1..] + t;
      AtomsConcat(p, w, s[1..], t, e);
    }
  }

  // ------------------------------------------------------------------- renaming

  ghost predicate InSeq(s: seq<Var>, v: Var, k: int) {
    0 <= k < |s| && s[k] == v
  }

  lemma {:induction false} ReplacementIs(head: seq<Var>, args: seq<Var>, v: Var)
    requires |head| == |args|
    ensures match Replacement(head, args, v)
            case Some(u) => exists k :: InSeq(head, v, k) && args[k] == u
            case None => forall k :: !InSeq(head, v, k)
  {
    if head != [] {
      ReplacementIs(head[1..], args[1..], v);
      match Replacement(head[1..], args[1..], v)
      case Some(u) =>
        var k :| InSeq(head[1..], v, k) && args[1..][k] == u;
        assert InSeq(head, v, k + 1);
      case None =>
        if head[0] == v { assert InSeq(head, v, 0); }
        forall k | InSeq(head, v, k) ensures k == 0 {
          if k > 0 { assert InSeq(head[1..], v, k - 1); }
        }
    }
  }

  /** A head variable becomes its argument, any other is marked with the expansion. */
  lemma {:induction false} RenIs(head: seq<Var>, args: seq<Var>, id: nat, v: Var)
    requires |head| == |args| && NoDups(head)
    ensures forall k :: InSeq(head, v, k) ==> Ren(head, args, id, v) == args[k]
    ensures (forall k :: !InSeq(head, v, k)) ==> Ren(head, args, id, v) == Renamed(v, id)
    ensures (exists k :: InSeq(head, v, k) && Ren(head, args, id, v) == args[k])
            || Ren(head, args, id, v) == Renamed(v, id)
  {
    ReplacementIs(head, args, v);
    forall j, k | InSeq(head, v, j) && InSeq(head, v, k) ensures j == k {
      if j < k { NoDupsAt(head, j, k); } else if k < j { NoDupsAt(head, k, j); }
    }
  }

  ghost predicate AllOlder(vs: set<Var>, id: nat) {
    forall v :: v in vs ==> Older(v, id)
  }

  lemma {:induction false} RenInjective(head: seq<Var>, args: seq<Var>, id: nat, u: Var, v: Var)
    requires |head| == |args| && NoDups(head) && NoDups(args) && AllOlder(Elems(args), id)
    requires Ren(head, args, id, u) == Ren(head, args, id, v)
    ensures u == v
  {
    RenIs(head, args, id, u);
    RenIs(head, args, id, v);
    forall j | 0 <= j < |args| ensures Older(args[j], id) { ElemsAt(args, j); }
    if j, k :|
      InSeq(head, u, j) && Ren(head, args, id, u) == args[j] && InSeq(head, v, k) && Ren(head, args, id, v) == args[k] {
      if j < k { NoDupsAt(args, j, k); } else if k < j { NoDupsAt(args, k, j); }
    }
  }

  lemma {:induction false} RenTermVars(head: seq<Var>, args: seq<Var>, id: nat, ts: seq<Term>, v: Var)
    requires v in TermVars(ts)
    ensures Ren(head, args, id, v) in TermVars(RenTerms(head, args, id, ts))
  {
    TermVarsAt(ts, v);
    var i :| 0 <= i < |ts| && ts[i] == Variable(v);
    TermVarsAt(RenTerms(head, args, id, ts), Ren(head, args, id, v));
    assert RenTerms(head, args, id, ts)[i] == Variable(Ren(head, args, id, v));
  }

  lemma {:induction false} RenTermVarsFrom(head: seq<Var>, args: seq<Var>, id: nat, ts: seq<Term>, u: Var)
    returns (v: Var)
    requires u in TermVars(RenTerms(head, args, id, ts))
    ensures v in TermVars(ts) && Ren(head, args, id, v) == u
  {
    TermVarsAt(RenTerms(head, args, id, ts), u);
    var i :| 0 <= i < |ts| && RenTerms(head, args, id, ts)[i] == Variable(u);
    v := ts[i].v;
    TermVarsAt(ts, v);
  }

  lemma {:induction false} RenAtomVars(head: seq<Var>, args: seq<Var>, id: nat, atoms: seq<Atom>, v: Var)
    ensures v in AtomsVars(atoms) ==> Ren(head, args, id, v) in AtomsVars(RenAtoms(head, args, id, atoms))
    ensures v in SafeVars(atoms) ==> Ren(head, args, id, v) in SafeVars(RenAtoms(head, args, id, atoms))
  {
    if atoms != [] {
      var first, more := RenAtom(head, args, id, atoms[0]), RenAtoms(head, args, id, atoms[1..]);
      RenAtomVars(head, args, id, atoms[1..], v);
      assert ([first] + more)[1..] == more;
      if v in AtomVars(atoms[0]) {
        match atoms[0]
        case Match(ts) => RenTermVars(head, args, id, ts, v);
        case Test(_, ts) => RenTermVars(head, args, id, ts, v);
        case Call(_, ts) => RenTermVars(head, args, id, ts, v);
      }
    }
  }

  lemma {:induction false} RenAtomVarsFrom(head: seq<Var>, args: seq<Var>, id: nat, atoms: seq<Atom>, u: Var)
    returns (v: Var)
    requires u in AtomsVars(RenAtoms(head, args, id, atoms))
    ensures v in AtomsVars(atoms) && Ren(head, args, id, v) == u
  {
    if atoms == [] {
      v := u;
    } else {
      var first, more := RenAtom(head, args, id, atoms[0]), RenAtoms(head, args, id, atoms[1..]);
      assert ([first] + more)[1..] == more;
      if u in AtomVars(first) {
        match atoms[0]
        case Match(ts) => v := RenTermVarsFrom(head, args, id, ts, u);
        case Test(_, ts) => v := RenTermVarsFrom(head, args, id, ts, u);
        case Call(_, ts) => v := RenTermVarsFrom(head, args, id, ts, u);
      } else {
        v := RenAtomVarsFrom(head, args, id, atoms[1..], u);
      }
    }
  }

  lemma {:induction false} RenDistinct(head: seq<Var>, args: seq<Var>, id: nat, ts: seq<Term>)
    requires |head| == |args| && NoDups(head) && NoDups(args) && AllOlder(Elems(args), id)
    requires DistinctVars(ts)
    ensures DistinctVars(RenTerms(head, args, id, ts))
  {
    var rs := RenTerms(head, args, id, ts);
    forall i, j | 0 <= i < j < |rs| && rs[i].Variable? && rs[j].Variable? ensures rs[i] != rs[j] {
      if rs[i] == rs[j] { RenInjective(head, args, id, ts[i].v, ts[j].v); }
    }
  }

  lemma {:induction false} RenAllVariables(head: seq<Var>, args: seq<Var>, id: nat, ts: seq<Term>)
    requires AllVariables(ts)
    ensures AllVariables(RenTerms(head, args, id, ts))
  {
    if ts != [] {
      RenAllVariables(head, args, id, ts[1..]);
      assert RenTerms(head, args, id, ts)[1..] == RenTerms(head, args, id, ts[1..]);
    }
  }

  lemma {:induction false} RenAtomsOk(p: Program, head: seq<Var>, args: seq<Var>, id: nat, atoms: seq<Atom>)
    requires |head| == |args| && NoDups(head) && NoDups(args) && AllOlder(Elems(args), id)
    requires AtomsOk(p, atoms) && VarCalls(atoms)
    ensures AtomsOk(p, RenAtoms(head, args, id, atoms)) && VarCalls(RenAtoms(head, args, id, atoms))
  {
    if atoms != [] {
      var first, more := RenAtom(head, args, id, atoms[0]), RenAtoms(head, args, id, atoms[1..]);
      RenAtomsOk(p, head, args, id, atoms[1..]);
      assert ([first] + more)[1..] == more;
      match atoms[0]
      case Match(ts) => RenDistinct(head, args, id, ts);
      case Test(_, ts) =>
      case Call(_, ts) =>
        RenDistinct(head, args, id, ts);
        RenAllVariables(head, args, id, ts);
    }
  }

  /** `e` gives the renamed variables the values `b` gives the original ones. */
  ghost predicate Linked(head: seq<Var>, args: seq<Var>, id: nat, vars: set<Var>, b: Asg, e: Asg) {
    forall v :: v in vars ==> LinkedAt(head, args, id, v, b, e)
  }

  ghost predicate LinkedAt(head: seq<Var>, args: seq<Var>, id: nat, v: Var, b: Asg, e: Asg) {
    Ren(head, args, id, v) in e && e[Ren(head, args, id, v)] == (if v in b then b[v] else Nil)
  }

  lemma {:induction false} LinkedVals(head: seq<Var>, args: seq<Var>, id: nat, ts: seq<Term>, b: Asg, e: Asg)
    requires Linked(head, args, id, TermVars(ts), b, e)
    ensures Vals(b, ts) == Vals(e, RenTerms(head, args, id, ts))
  {
    forall i | 0 <= i < |ts| ensures ValOf(map[], b, ts[i]) == ValOf(map[], e, RenTerms(head, args, id, ts)[i]) {
      if ts[i].Variable? {
        TermVarsAt(ts, ts[i].v);
        assert LinkedAt(head, args, id, ts[i].v, b, e);
      }
    }
  }

  lemma {:induction false} LinkedMatch(w: World, head: seq<Var>, args: seq<Var>, id: nat, ts: seq<Term>, b: Asg, e: Asg)
    requires Linked(head, args, id, TermVars(ts), b, e)
    ensures PatternSat(w, map[], ts, b) ==> PatternSat(w, map[], RenTerms(head, args, id, ts), e)
    ensures TermVars(ts) <= b.Keys && PatternSat(w, map[], RenTerms(head, args, id, ts), e) ==>
        PatternSat(w, map[], ts, b)
  {
    var rs := RenTerms(head, args, id, ts);
    forall i, x | 0 <= i < |ts|
      ensures MatchTerm(ts[i], b, x) ==> MatchTerm(rs[i], e, x)
      ensures TermVars(ts) <= b.Keys && MatchTerm(rs[i], e, x) ==> MatchTerm(ts[i], b, x)
    {
      if ts[i].Variable? {
        TermVarsAt(ts, ts[i].v);
        assert LinkedAt(head, args, id, ts[i].v, b, e);
      }
    }
    if PatternSat(w, map[], ts, b) {
      var d :| d in w.src.datoms && MatchDatom(ts, b, d);
      assert MatchDatom(rs, e, d);
    }
    if TermVars(ts) <= b.Keys && PatternSat(w, map[], rs, e) {
      var d :| d in w.src.datoms && MatchDatom(rs, e, d);
      assert MatchDatom(ts, b, d);
    }
  }

  lemma {:induction false} LinkedPart(head: seq<Var>, args: seq<Var>, id: nat, vars: set<Var>, part: set<Var>, b: Asg,
                                      e: Asg)
    requires Linked(head, args, id, vars, b, e) && part <= vars
    ensures Linked(head, args, id, part, b, e)
  {}

  /** A renamed body that holds makes the original body hold. */
  lemma {:induction false} PulledBody(p: Program, w: World, head: seq<Var>, args: seq<Var>, id: nat, atoms: seq<Atom>,
                                      b: Asg, e: Asg)
    requires Linked(head, args, id, AtomsVars(atoms), b, e) && AtomsVars(atoms) <= b.Keys
    requires BodyHolds(p, w, RenAtoms(head, args, id, atoms), e)
    ensures BodyHolds(p, w, atoms, b)
  {
    if atoms != [] {
      var first, more := RenAtom(head, args, id, atoms[0]), RenAtoms(head, args, id, atoms[1..]);
      assert ([first] + more)[1..] == more;
      LinkedPart(head, args, id, AtomsVars(atoms), AtomsVars(atoms[1..]), b, e);
      LinkedPart(head, args, id, AtomsVars(atoms), AtomVars(atoms[0]), b, e);
      PulledBody(p, w, head, args, id, atoms[1..], b, e);
      match atoms[0]
      case Match(ts) => LinkedMatch(w, head, args, id, ts, b, e);
      case Test(_, ts) => LinkedVals(head, args, id, ts, b, e);
      case Call(_, ts) => LinkedVals(head, args, id, ts, b, e);
    }
  }

  /** A body that is true makes its renamed form true, with the same derivations. */
  lemma {:induction false} PushedBody(p: Program, w: World, n: nat, head: seq<Var>, args: seq<Var>, id: nat,
                                      atoms: seq<Atom>, b: Asg, e: Asg)
    requires Linked(head, args, id, AtomsVars(atoms), b, e) && BodyTrue(p, w, n, atoms, b)
    ensures BodyTrue(p, w, n, RenAtoms(head, args, id, atoms), e)
    decreases |atoms|
  {
    if atoms != [] {
      var first, more := RenAtom(head, args, id, atoms[0]), RenAtoms(head, args, id, atoms[1..]);
      assert ([first] + more)[1..] == more;
      LinkedPart(head, args, id, AtomsVars(atoms), AtomsVars(atoms[1..]), b, e);
      LinkedPart(head, args, id, AtomsVars(atoms), AtomVars(atoms[0]), b, e);
      PushedBody(p, w, n, head, args, id, atoms[1..], b, e);
      match atoms[0]
      case Match(ts) => LinkedMatch(w, head, args, id, ts, b, e);
      case Test(_, ts) => LinkedVals(head, args, id, ts, b, e);
      case Call(_, ts) => LinkedVals(head, args, id, ts, b, e);
    }
  }

  // ----------------------------------------------------- what every frame keeps

  predicate NoAuto(vars: set<Var>) {
    forall v :: v in vars ==> !v.Auto?
  }

  /** Earlier calls have the arity of their rule. */
  ghost predicate UsedOk(p: Program, used: map<string, seq<seq<Term>>>) {
    forall name :: name in used ==> name in p && p[name] != [] && Arity(|p[name][0].head|, used[name])
  }

  /** The variables of the frame: of its context and its clauses. */
  function FrameVars(f: Frame): set<Var> {
    VarsAll(f.ctx.rels) + f.ctx.consts.Keys + AtomsVars(f.atoms)
  }

  ghost predicate FrameOk(p: Program, w: World, finals: set<Var>, f: Frame, id: nat) {
    && Sane(w, f.ctx) && AtomsOk(p, f.atoms) && AllPreds(f.pending) && UsedOk(p, f.used)
    && AllOlder(FrameVars(f), id)
    && finals <= VarsAll(f.ctx.rels) + f.ctx.consts.Keys + SafeVars(f.atoms)
    && (VarCalls(f.atoms) || (|f.atoms| == 1 && f.atoms[0].Call? && NoAuto(FrameVars(f))))
  }

  ghost predicate StackOk(p: Program, w: World, finals: set<Var>, stack: seq<Frame>, id: nat) {
    stack == [] || (FrameOk(p, w, finals, stack[0], id) && StackOk(p, w, finals, stack[1..], id))
  }

  lemma {:induction false} StackLater(p: Program, w: World, finals: set<Var>, stack: seq<Frame>, id: nat, next: nat)
    requires StackOk(p, w, finals, stack, id) && id <= next
    ensures StackOk(p, w, finals, stack, next)
  {
    if stack != [] {
      StackLater(p, w, finals, stack[1..], id, next);
      assert AllOlder(FrameVars(stack[0]), next);
    }
  }

  lemma {:induction false} StackCons(p: Program, w: World, finals: set<Var>, f: Frame, rest: seq<Frame>, id: nat)
    ensures StackOk(p, w, finals, [f] + rest, id) <==> FrameOk(p, w, finals, f, id) && StackOk(p, w, finals, rest, id)
  {
    var all := [f] + rest;
    assert all[0] == f && all[1..] == rest;
  }

  /** The guards of a frame, read as a comparison of calls. */
  lemma {:induction false} FrameGuards(p: Program, w: World, f: Frame, e: Asg)
    requires DifferOk(w) && AtomsOk(p, f.atoms) && AllPreds(f.pending) && UsedOk(p, f.used) && FromCall(f.atoms) != []
    ensures AllFlat(f.pending) && AllPreds(GuardsNow(f, false)) && AllFlat(GuardsNow(f, false))
            && AllFlat(Lits(f.atoms))
    ensures Solvable(PrefixOf(f)) && AllFlat(PrefixOf(f)) && BindsAll(PrefixOf(f)) == BindsAll(Lits(f.atoms))
    ensures var call := FromCall(f.atoms)[0];
            SatAll(w, map[], PrefixOf(f), e) && SatAll(w, map[], GuardsNow(f, false), e)
            <==> SatAll(w, map[], Lits(f.atoms), e) && Differs(Vals(e, call.args), EarlierCalls(f.used, call.name), e)
                 && SatAll(w, map[], f.pending, e)
  {
    var call := FromCall(f.atoms)[0];
    var earlier := EarlierCalls(f.used, call.name);
    var vars := ClausesVars(f.prefix + Lits(f.atoms));
    SplitAtoms(p, w, f.atoms, e);
    CallArity(p, f);
    GuardsTrue(w, call.args, earlier, e);
    PredsSolvable(f.pending);
    SatConcat(w, Guards(call.args, earlier), f.pending, e);
    PredsConcat(Guards(call.args, earlier), f.pending);
    CheckableSat(w, vars, GuardsOf(f), e);
    PredsSolvable(GuardsNow(f, true));
    SatConcat(w, Lits(f.atoms), GuardsNow(f, true), e);
    SolvableConcat(Lits(f.atoms), GuardsNow(f, true));
    BindsConcat(Lits(f.atoms), GuardsNow(f, true));
  }

  lemma {:induction false} CallArity(p: Program, f: Frame)
    requires AtomsOk(p, f.atoms) && UsedOk(p, f.used) && FromCall(f.atoms) != []
    ensures AtomOk(p, FromCall(f.atoms)[0])
    ensures Arity(|FromCall(f.atoms)[0].args|, EarlierCalls(f.used, FromCall(f.atoms)[0].name))
  {
    FromCallOk(p, f.atoms);
    var call := FromCall(f.atoms)[0];
    assert |p[call.name][0].head| == |call.args|;
  }

  lemma {:induction false} FromCallOk(p: Program, atoms: seq<Atom>)
    requires AtomsOk(p, atoms)
    ensures AtomsOk(p, FromCall(atoms))
  {
    if atoms != [] && !atoms[0].Call? { FromCallOk(p, atoms[1..]); }
  }

  // --------------------------------------------------- children keep it as well

  lemma {:induction false} AllVariablesAt(ts: seq<Term>, k: nat)
    requires AllVariables(ts) && k < |ts|
    ensures ts[k].Variable?
  {
    if k > 0 { AllVariablesAt(ts[1..], k - 1); }
  }

  lemma {:induction false} PairwiseNoDups(s: seq<Var>)
    requires forall i, j :: 0 <= i < j < |s| ==> s[i] != s[j]
    ensures NoDups(s)
  {
    if s != [] {
      var init := s[..|s| - 1];
      PairwiseNoDups(init);
      if s[|s| - 1] in Elems(init) { var k := IndexOf(init, s[|s| - 1]); }
    }
  }

  predicate PlainArgs(args: seq<Term>) {
    AllVariables(args) || NoAuto(TermVars(args))
  }

  lemma {:induction false} ArgVars(args: seq<Term>, id: nat)
    requires DistinctVars(args) && (forall k :: 0 <= k < |args| ==> args[k] != Blank)
    requires PlainArgs(args) && AllOlder(TermVars(args), id)
    ensures NoDups(NewArgs(args)) && AllOlder(Elems(NewArgs(args)), id)
  {
    forall i, j | 0 <= i < j < |args| ensures NewArgs(args)[i] != NewArgs(args)[j] {
      if AllVariables(args) { AllVariablesAt(args, i); AllVariablesAt(args, j); }
      if args[i].Variable? { TermVarsAt(args, args[i].v); }
      if args[j].Variable? { TermVarsAt(args, args[j].v); }
    }
    PairwiseNoDups(NewArgs(args));
    forall v | v in Elems(NewArgs(args)) ensures Older(v, id) {
      var k := IndexOf(NewArgs(args), v);
      if args[k].Variable? { TermVarsAt(args, args[k].v); }
    }
  }

  lemma {:induction false} NoArgConsts(args: seq<Term>)
    requires AllVariables(args)
    ensures ArgConsts(args) == map[]
  {
    forall i | 0 <= i < |args| ensures args[i].Variable? { AllVariablesAt(args, i); }
  }

  lemma {:induction false} SaneConsts(w: World, ctx: Ctx, more: map<Var, Value>)
    requires Sane(w, ctx) && ConstsTruthy(more) && more.Keys !! VarsAll(ctx.rels)
    ensures Sane(w, ctx.(consts := ctx.consts + more))
  {
    ConstsMore(ctx.consts, more, ctx.rels);
  }

  lemma {:induction false} ConstsMore(consts: map<Var, Value>, more: map<Var, Value>, rels: seq<Rel>)
    requires ConstAll(consts, rels) && more.Keys !! VarsAll(rels)
    ensures ConstAll(consts + more, rels)
  {
    if rels != [] {
      ConstsMore(consts, more, rels[1..]);
      forall a | Holds(rels[0], a) ensures AgreesConsts(consts + more, a, rels[0].attrs.Keys) {
        assert AgreesConsts(consts, a, rels[0].attrs.Keys);
      }
    }
  }

  /** The call that a frame expands: its arguments can be renamed apart. */
  lemma {:induction false} CallOk(p: Program, w: World, finals: set<Var>, f: Frame, id: nat)
    requires FrameOk(p, w, finals, f, id) && FromCall(f.atoms) != []
    ensures var call := FromCall(f.atoms)[0];
            && AtomOk(p, call) && TermVars(call.args) <= AtomsVars(f.atoms)
            && PlainArgs(call.args) && NoDups(NewArgs(call.args)) && AllOlder(Elems(NewArgs(call.args)), id)
            && ConstsTruthy(ArgConsts(call.args)) && ArgConsts(call.args).Keys !! FrameVars(f)
  {
    var call := FromCall(f.atoms)[0];
    SplitAtoms(p, w, f.atoms, map[]);
    FromCallOk(p, f.atoms);
    if VarCalls(f.atoms) {
      NoArgConsts(call.args);
    }
    assert PlainArgs(call.args);
    ArgVars(call.args, id);
  }

  /** The solved prefix: its variables, and that it is a sane context. */
  lemma {:induction false} SolvedOk(p: Program, w: World, finals: set<Var>, f: Frame, id: nat)
    requires DifferOk(w) && FrameOk(p, w, finals, f, id) && FromCall(f.atoms) != []
             && ResolveClauses(w, f.ctx, PrefixOf(f)).Ok?
    ensures var ctx := ResolveClauses(w, f.ctx, PrefixOf(f)).ctx;
            && Sane(w, ctx) && ctx.consts == f.ctx.consts
            && VarsAll(ctx.rels) == VarsAll(f.ctx.rels) + BindsAll(Lits(f.atoms))
            && BindsAll(Lits(f.atoms)) <= AtomsVars(f.atoms)
  {
    FrameGuards(p, w, f, map[]);
    SplitAtoms(p, w, f.atoms, map[]);
    BindsWritten(Lits(f.atoms));
    assert ResolveClause(w, f.ctx, And(PrefixOf(f))) == ResolveClauses(w, f.ctx, PrefixOf(f));
    SaneNext(w, f.ctx, And(PrefixOf(f)));
  }

  lemma {:induction false} BindsWritten(cs: seq<Clause>)
    requires Solvable(cs)
    ensures BindsAll(cs) <= ClausesVars(cs)
  {
    if cs != [] { BindsWritten(cs[1..]); }
  }

  lemma {:induction false} ArityConcat(n: nat, s: seq<seq<Term>>, t: seq<seq<Term>>)
    ensures Arity(n, s + t) <==> Arity(n, s) && Arity(n, t)
  {
    if s == [] {
      assert s + t == t;
    } else {
      assert (s + t)[1..] == s[1..] + t;
      ArityConcat(n, s[1..], t);
    }
  }

  lemma {:induction false} UsedAfterOk(p: Program, f: Frame)
    requires AtomsOk(p, f.atoms) && UsedOk(p, f.used) && FromCall(f.atoms) != []
    ensures UsedOk(p, UsedAfter(f))
  {
    var call := FromCall(f.atoms)[0];
    CallArity(p, f);
    ArityConcat(|call.args|, EarlierCalls(f.used, call.name), [call.args]);
    assert [call.args][1..] == [];
    assert |p[call.name][0].head| == |call.args|;
  }

  lemma {:induction false} ChildVars(p: Program, w: World, f: Frame, br: Branch, id: nat, e: Asg)
    requires FromCall(f.atoms) != [] && AtomOk(p, FromCall(f.atoms)[0]) && |br.head| == |FromCall(f.atoms)[0].args|
             && BranchOk(p, br)
    requires AtomsOk(p, f.atoms)
    ensures Elems(NewArgs(FromCall(f.atoms)[0].args)) <= SafeVars(Child(f, f.ctx, br, id).atoms)
    ensures SafeVars(f.atoms) - BindsAll(Lits(f.atoms)) <= SafeVars(Child(f, f.ctx, br, id).atoms)
    ensures AtomsVars(f.atoms) - ClausesVars(Lits(f.atoms)) <= AtomsVars(Child(f, f.ctx, br, id).atoms)
  {
    var tail := FromCall(f.atoms);
    var args := NewArgs(tail[0].args);
    var body := RenAtoms(br.head, args, id, br.body);
    SplitAtoms(p, w, f.atoms, e);
    AtomsConcat(p, w, body, tail[1..], e);
    forall v | v in Elems(args) ensures v in SafeVars(body) && v in AtomsVars(body) {
      var k := IndexOf(args, v);
      ElemsAt(br.head, k);
      RenIs(br.head, args, id, br.head[k]);
      assert InSeq(br.head, br.head[k], k);
      RenAtomVars(br.head, args, id, br.body, br.head[k]);
      SafeWritten(br.body);
    }
    forall v | v in TermVars(tail[0].args) ensures v in Elems(args) {
      TermVarsAt(tail[0].args, v);
      var k :| 0 <= k < |tail[0].args| && tail[0].args[k] == Variable(v);
      ElemsAt(args, k);
    }
  }

  lemma {:induction false} SafeWritten(atoms: seq<Atom>)
    ensures SafeVars(atoms) <= AtomsVars(atoms)
  {
    if atoms != [] { SafeWritten(atoms[1..]); }
  }

  lemma {:induction false} RenOlder(p: Program, br: Branch, args: seq<Var>, id: nat)
    requires |br.head| == |args| && NoDups(br.head) && AllOlder(Elems(args), id)
    ensures AllOlder(AtomsVars(RenAtoms(br.head, args, id, br.body)), id + 1)
  {
    forall u | u in AtomsVars(RenAtoms(br.head, args, id, br.body)) ensures Older(u, id + 1) {
      var v := RenAtomVarsFrom(br.head, args, id, br.body, u);
      RenIs(br.head, args, id, v);
      if k :| InSeq(br.head, v, k) && Ren(br.head, args, id, v) == args[k] { ElemsAt(args, k); }
    }
  }

  lemma {:induction false} ChildAtoms(p: Program, w: World, finals: set<Var>, f: Frame, br: Branch, id: nat)
    requires FrameOk(p, w, finals, f, id) && FromCall(f.atoms) != []
    requires BranchOk(p, br) && |br.head| == |FromCall(f.atoms)[0].args|
    ensures AtomsOk(p, Child(f, f.ctx, br, id).atoms) && VarCalls(Child(f, f.ctx, br, id).atoms)
    ensures AllOlder(AtomsVars(Child(f, f.ctx, br, id).atoms), id + 1)
  {
    var tail := FromCall(f.atoms);
    var args := NewArgs(tail[0].args);
    CallOk(p, w, finals, f, id);
    RenAtomsOk(p, br.head, args, id, br.body);
    RenOlder(p, br, args, id);
    SplitAtoms(p, w, f.atoms, map[]);
    AtomsConcat(p, w, RenAtoms(br.head, args, id, br.body), tail[1..], map[]);
    assert AtomsVars(tail[1..]) <= AtomsVars(f.atoms);
  }

  /** Variables of a solved frame and its child. */
  lemma {:induction false} ChildScope(p: Program, w: World, finals: set<Var>, f: Frame, ctx: Ctx, br: Branch, id: nat)
    requires FrameOk(p, w, finals, f, id) && FromCall(f.atoms) != []
    requires BranchOk(p, br) && |br.head| == |FromCall(f.atoms)[0].args|
    requires ctx.consts == f.ctx.consts && VarsAll(ctx.rels) == VarsAll(f.ctx.rels) + BindsAll(Lits(f.atoms))
    requires BindsAll(Lits(f.atoms)) <= AtomsVars(f.atoms)
    ensures AllOlder(FrameVars(Child(f, ctx, br, id)), id + 1)
    ensures finals <= VarsAll(ctx.rels) + Child(f, ctx, br, id).ctx.consts.Keys + SafeVars(Child(f, ctx, br, id).atoms)
  {
    var c := Child(f, ctx, br, id);
    ChildAtoms(p, w, finals, f, br, id);
    CallOk(p, w, finals, f, id);
    ChildVars(p, w, f, br, id, map[]);
    assert c.atoms == Child(f, f.ctx, br, id).atoms;
    assert VarsAll(c.ctx.rels) <= FrameVars(f);
    forall v | v in FrameVars(c) ensures Older(v, id + 1) {
      if v in FrameVars(f) { assert Older(v, id); }
    }
  }

  lemma {:induction false} ChildOk(p: Program, w: World, finals: set<Var>, f: Frame, br: Branch, id: nat, next: nat)
    requires next == id + 1 && DifferOk(w) && FrameOk(p, w, finals, f, id) && FromCall(f.atoms) != []
    requires BranchOk(p, br) && |br.head| == |FromCall(f.atoms)[0].args|
    requires ResolveClauses(w, f.ctx, PrefixOf(f)).Ok?
    ensures FrameOk(p, w, finals, Child(f, ResolveClauses(w, f.ctx, PrefixOf(f)).ctx, br, id), next)
  {
    var ctx := ResolveClauses(w, f.ctx, PrefixOf(f)).ctx;
    CallOk(p, w, finals, f, id);
    SolvedOk(p, w, finals, f, id);
    SaneConsts(w, ctx, ArgConsts(FromCall(f.atoms)[0].args));
    ChildAtoms(p, w, finals, f, br, id);
    ChildScope(p, w, finals, f, ctx, br, id);
    FrameGuards(p, w, f, map[]);
    UsedAfterOk(p, f);
  }
}
