/** Termination of guarded rule expansion: a live frame holds pairwise different calls
    over a finite domain, so the stack cannot grow for ever. */
module RuleTermination {
  import opened Relations
  import opened Sequences
  import opened RelationOps
  import opened Contexts
  import opened Search
  import opened Clauses
  import opened Collecting
  import opened Semantics
  import opened Schedule
  import opened Evaluator
  import opened Flat
  import opened Rules
  import opened RuleSemantics
  import opened RuleFrames
  import opened RuleTrees
  import opened RuleSoundness
  import opened RuleCompleteness

  // ----------------------------------------------------------------- pigeonholes

  /** All value tuples of length `k` over `dom`. */
  ghost function Tuples(dom: set<Value>, k: nat): set<seq<Value>> {
    if k == 0 then {[]} else set x, r | x in dom && r in Tuples(dom, k - 1) :: [x] + r
  }

  lemma {:induction false} InTuples(dom: set<Value>, vals: seq<Value>)
    requires forall i :: 0 <= i < |vals| ==> vals[i] in dom
    ensures vals in Tuples(dom, |vals|)
  {
    if vals != [] {
      InTuples(dom, vals[1..]);
      assert vals == [vals[0]] + vals[1..];
    }
  }

  /** All calls of the program's rules over `dom`. */
  ghost function AllCalls(p: Program, dom: set<Value>): set<(string, seq<Value>)> {
    set name, vals | name in p && p[name] != [] && vals in Tuples(dom, |p[name][0].head|) :: (name, vals)
  }

  /** The calls made so far, by rule and number. */
  ghost function Slots(used: map<string, seq<seq<Term>>>): set<(string, nat)> {
    set name, i | name in used && 0 <= i < |used[name]| :: (name, i)
  }

  /** ... without those that pass a constant. */
  ghost function PlainSlots(used: map<string, seq<seq<Term>>>): set<(string, nat)> {
    set name, i | name in used && 0 <= i < |used[name]| && AllVariables(used[name][i]) :: (name, i)
  }

  /** Only the first call of one rule, the outermost one, may pass constants. */
  ghost predicate OuterFirst(used: map<string, seq<seq<Term>>>) {
    && (forall name, i :: name in used && 0 < i < |used[name]| ==> AllVariables(used[name][i]))
    && (forall name, other :: name in used && other in used && used[name] != [] && used[other] != [] ==>
          AllVariables(used[name][0]) || AllVariables(used[other][0]) || name == other)
  }

  lemma {:induction false} OneOuter(used: map<string, seq<seq<Term>>>)
    requires OuterFirst(used)
    ensures |Slots(used)| <= |PlainSlots(used)| + 1
  {
    if name :| name in used && used[name] != [] && !AllVariables(used[name][0]) {
      assert Slots(used) == PlainSlots(used) + {(name, 0)};
    } else {
      assert Slots(used) == PlainSlots(used);
    }
  }

  lemma {:induction false} Pigeonhole<K, V>(m: map<K, V>, holes: set<V>)
    requires forall k :: k in m ==> m[k] in holes
    requires forall j, k :: j in m && k in m && m[j] == m[k] ==> j == k
    ensures |m.Keys| <= |holes|
  {
    if m.Keys != {} {
      var k :| k in m.Keys;
      var less := m - {k};
      assert less.Keys == m.Keys - {k};
      Pigeonhole(less, holes - {m[k]});
    }
  }

  /** No two calls of one rule that pass only variables pass the same values. */
  ghost predicate AllDiffer(used: map<string, seq<seq<Term>>>, e: Asg) {
    forall name, i, j ::
      name in used && 0 <= i < j < |used[name]| && AllVariables(used[name][i]) && AllVariables(used[name][j]) ==>
        Vals(e, used[name][i]) != Vals(e, used[name][j])
  }

  ghost predicate CallsIn(dom: set<Value>, used: map<string, seq<seq<Term>>>, e: Asg) {
    forall name, i :: name in used && 0 <= i < |used[name]| ==> ValsIn(dom, Vals(e, used[name][i]))
  }

  ghost predicate ValsIn(dom: set<Value>, vals: seq<Value>) {
    forall k :: 0 <= k < |vals| ==> vals[k] in dom
  }

  lemma {:induction false} ArityAt(n: nat, earlier: seq<seq<Term>>, i: nat)
    requires Arity(n, earlier) && i < |earlier|
    ensures |earlier[i]| == n
  {
    if i > 0 { ArityAt(n, earlier[1..], i - 1); }
  }

  lemma {:induction false} DepthBound(p: Program, dom: set<Value>, used: map<string, seq<seq<Term>>>, e: Asg)
    requires UsedOk(p, used) && AllDiffer(used, e) && CallsIn(dom, used, e)
    ensures |PlainSlots(used)| <= |AllCalls(p, dom)|
  {
    var m := map s | s in PlainSlots(used) :: (s.0, Vals(e, used[s.0][s.1]));
    forall s | s in m ensures m[s] in AllCalls(p, dom) {
      SlotCall(p, dom, used, e, s.0, s.1);
    }
    forall s, t | s in m && t in m && m[s] == m[t] ensures s == t {
      assert m[s].0 == s.0 && m[t].0 == t.0;
      SlotsDiffer(used, e, s.0, s.1, t.1);
    }
    Pigeonhole(m, AllCalls(p, dom));
    assert m.Keys == PlainSlots(used);
  }

  lemma {:induction false} SlotsDiffer(used: map<string, seq<seq<Term>>>, e: Asg, name: string, i: nat, j: nat)
    requires AllDiffer(used, e) && name in used && i < |used[name]| && j < |used[name]|
    requires AllVariables(used[name][i]) && AllVariables(used[name][j])
    requires Vals(e, used[name][i]) == Vals(e, used[name][j])
    ensures i == j
  {}

  lemma {:induction false} SlotCall(p: Program, dom: set<Value>, used: map<string, seq<seq<Term>>>, e: Asg,
                                    name: string, i: nat)
    requires UsedOk(p, used) && CallsIn(dom, used, e) && name in used && i < |used[name]|
    ensures (name, Vals(e, used[name][i])) in AllCalls(p, dom)
  {
    ArityAt(|p[name][0].head|, used[name], i);
    InTuples(dom, Vals(e, used[name][i]));
  }

  lemma {:induction false} SlotsAfter(f: Frame)
    requires FromCall(f.atoms) != []
    ensures |Slots(UsedAfter(f))| == |Slots(f.used)| + 1
  {
    var call := FromCall(f.atoms)[0];
    var n := |EarlierCalls(f.used, call.name)|;
    assert |UsedAfter(f)[call.name]| == n + 1;
    forall t ensures t in Slots(UsedAfter(f)) <==> t in Slots(f.used) || t == (call.name, n) {
      if t.0 != call.name { assert t.0 in f.used <==> t.0 in UsedAfter(f); }
    }
    assert Slots(UsedAfter(f)) == Slots(f.used) + {(call.name, n)};
  }

  // ----------------------------------------------------------- what frames keep

  ghost predicate TermsIn(dom: set<Value>, ts: seq<Term>) {
    Nil in dom && forall k :: 0 <= k < |ts| && ts[k].Constant? ==> ts[k].c in dom
  }

  ghost predicate EnvIn(dom: set<Value>, vars: set<Var>, e: Asg) {
    forall v :: v in vars && v in e ==> e[v] in dom
  }

  ghost predicate DatomsIn(dom: set<Value>, w: World) {
    forall d, i: nat :: d in w.src.datoms ==> Get(d, At(i)) in dom
  }

  ghost predicate ConstantsIn(dom: set<Value>, atoms: seq<Atom>) {
    atoms == [] || ((atoms[0].Call? ==> TermsIn(dom, atoms[0].args)) && ConstantsIn(dom, atoms[1..]))
  }

  ghost predicate UsedIn(dom: set<Value>, used: map<string, seq<seq<Term>>>) {
    forall name, i :: name in used && 0 <= i < |used[name]| ==> TermsIn(dom, used[name][i])
  }

  /** `e` satisfies the frame's context. */
  ghost predicate Lives(f: Frame, e: Asg) {
    HoldsAll(f.ctx.rels, e) && EnvConsts(f.ctx.consts, e)
  }

  /** Guards that pass a constant: `split-guards` puts them off for ever. */
  predicate AllOpen(gs: seq<Clause>) {
    gs == [] || (gs[0].Pred? && !AllVariables(gs[0].args) && AllOpen(gs[1..]))
  }

  /** Values stay in the domain, the calls made so far differ, and the only guards left over
      compare with an outermost call that passes constants. */
  ghost predicate Bounded(dom: set<Value>, f: Frame) {
    && AllOpen(f.pending) && OuterFirst(f.used) && (f.used == map[] || VarCalls(f.atoms))
    && ConstantsIn(dom, f.atoms) && UsedIn(dom, f.used)
    && (forall e :: Lives(f, e) ==> EnvIn(dom, VarsAll(f.ctx.rels) + f.ctx.consts.Keys, e) && AllDiffer(f.used, e))
  }

  ghost predicate BoundedStack(dom: set<Value>, stack: seq<Frame>) {
    stack == [] || (Bounded(dom, stack[0]) && BoundedStack(dom, stack[1..]))
  }

  lemma {:induction false} ConstantsConcat(dom: set<Value>, s: seq<Atom>, t: seq<Atom>)
    ensures ConstantsIn(dom, s + t) <==> ConstantsIn(dom, s) && ConstantsIn(dom, t)
  {
    if s == [] {
      assert s + t == t;
    } else {
      assert (s + t)[1..] == s[1..] + t;
      ConstantsConcat(dom, s[1..], t);
    }
  }

  lemma {:induction false} ConstantsFromCall(dom: set<Value>, atoms: seq<Atom>)
    requires ConstantsIn(dom, atoms)
    ensures ConstantsIn(dom, FromCall(atoms))
  {
    if atoms != [] && !atoms[0].Call? { ConstantsFromCall(dom, atoms[1..]); }
  }

  lemma {:induction false} VarCallsConstants(dom: set<Value>, atoms: seq<Atom>)
    requires VarCalls(atoms) && Nil in dom
    ensures ConstantsIn(dom, atoms)
  {
    if atoms != [] {
      VarCallsConstants(dom, atoms[1..]);
      if atoms[0].Call? {
        forall k | 0 <= k < |atoms[0].args| ensures atoms[0].args[k].Variable? { AllVariablesAt(atoms[0].args, k); }
      }
    }
  }

  lemma {:induction false} ValsInDomain(dom: set<Value>, ts: seq<Term>, e: Asg)
    requires TermsIn(dom, ts) && forall v :: v in e ==> e[v] in dom
    ensures ValsIn(dom, Vals(e, ts))
  {}

  /** The variables that true patterns bind have values of the data. */
  lemma {:induction false} PatternsIn(w: World, dom: set<Value>, cs: seq<Clause>, e: Asg)
    requires Solvable(cs) && AllFlat(cs) && SatAll(w, map[], cs, e) && DatomsIn(dom, w)
    ensures EnvIn(dom, BindsAll(cs), e)
  {
    if cs != [] {
      PatternsIn(w, dom, cs[1..], e);
      if cs[0].Pattern? {
        var ts := cs[0].terms;
        var d :| d in w.src.datoms && MatchDatom(ts, e, d);
        forall v | v in TermVars(ts) ensures v in e && e[v] in dom {
          TermVarsAt(ts, v);
          var i :| 0 <= i < |ts| && ts[i] == Variable(v);
          assert MatchTerm(ts[i], e, Get(d, At(i)));
        }
      }
    }
  }

  lemma {:induction false} CheckableCons(vars: set<Var>, g: Clause, rest: seq<Clause>, now: bool)
    ensures Checkable(vars, [g] + rest, now)
         == if (g.Pred? && Covered(vars, g.args)) == now then [g]
             + Checkable(vars, rest, now) else Checkable(vars, rest, now)
  {
    assert ([g] + rest)[1..] == rest && [] + Checkable(vars, rest, now) == Checkable(vars, rest, now);
  }

  /** A guard without constants is checked, if only others are put off. */
  lemma {:induction false} OpenOrChecked(vars: set<Var>, gs: seq<Clause>, g: Clause)
    requires g in gs && g.Pred? && AllVariables(g.args) && AllOpen(Checkable(vars, gs, false))
    ensures g in Checkable(vars, gs, true)
  {
    var first, rest := gs[0], gs[1..];
    assert gs == [first] + rest;
    CheckableCons(vars, first, rest, true);
    CheckableCons(vars, first, rest, false);
    var left := Checkable(vars, rest, false);
    assert ([first] + left)[1..] == left;
    if first != g { OpenOrChecked(vars, rest, g); }
  }

  lemma {:induction false} GuardAt(a: seq<Term>, earlier: seq<seq<Term>>, i: nat)
    requires i < |earlier|
    ensures |Guards(a, earlier)| == |earlier| && Guards(a, earlier)[i] == Guard(a, earlier[i])
  {
    var rest := Guards(a, earlier[1..]);
    assert Guards(a, earlier) == [Guard(a, earlier[0])] + rest;
    if |earlier| > 1 { GuardAt(a, earlier[1..], if i > 0 then i - 1 else 0); }
  }

  lemma {:induction false} VariablesConcat(s: seq<Term>, t: seq<Term>)
    ensures AllVariables(s + t) <==> AllVariables(s) && AllVariables(t)
  {
    if s == [] {
      assert s + t == t;
    } else {
      assert (s + t)[1..] == s[1..] + t;
      VariablesConcat(s[1..], t);
    }
  }

  lemma {:induction false} DifferingVariables(xs: seq<Term>, ys: seq<Term>)
    requires AllVariables(xs) && AllVariables(ys)
    ensures AllVariables(DifferingArgs(xs, ys).0) && AllVariables(DifferingArgs(xs, ys).1)
  {
    if xs != [] && ys != [] {
      var r := DifferingArgs(xs[1..], ys[1..]);
      DifferingVariables(xs[1..], ys[1..]);
      assert ([xs[0]] + r.0)[1..] == r.0 && ([ys[0]] + r.1)[1..] == r.1;
    }
  }

  lemma {:induction false} GuardVariables(xs: seq<Term>, ys: seq<Term>)
    requires AllVariables(xs) && AllVariables(ys)
    ensures AllVariables(Guard(xs, ys).args)
  {
    DifferingVariables(xs, ys);
    VariablesConcat(DifferingArgs(xs, ys).0, DifferingArgs(xs, ys).1);
  }

  /** Unless constants are passed, the guards checked make the new call differ from an
      earlier one. */
  lemma {:induction false} CallDiffers(p: Program, w: World, f: Frame, e: Asg, i: nat)
    requires DifferOk(w) && AtomsOk(p, f.atoms) && UsedOk(p, f.used) && FromCall(f.atoms) != []
    requires AllFlat(PrefixOf(f)) && SatAll(w, map[], PrefixOf(f), e) && AllOpen(GuardsNow(f, false))
    requires var call := FromCall(f.atoms)[0]; var earlier := EarlierCalls(f.used, call.name);
             i < |earlier| && AllVariables(call.args) && AllVariables(earlier[i])
    ensures var call := FromCall(f.atoms)[0];
            Vals(e, call.args) != Vals(e, EarlierCalls(f.used, call.name)[i])
  {
    var call := FromCall(f.atoms)[0];
    var earlier := EarlierCalls(f.used, call.name);
    var g := Guard(call.args, earlier[i]);
    GuardAt(call.args, earlier, i);
    assert GuardsOf(f)[i] == g;
    GuardVariables(call.args, earlier[i]);
    OpenOrChecked(ClausesVars(f.prefix + Lits(f.atoms)), GuardsOf(f), g);
    assert g in PrefixOf(f);
    SatAt(w, PrefixOf(f), g, e);
    CallArity(p, f);
    ArityAt(|call.args|, earlier, i);
    GuardTrue(w, call.args, earlier[i], e);
  }

  lemma {:induction false} DifferAfter(p: Program, w: World, f: Frame, e: Asg)
    requires DifferOk(w) && AtomsOk(p, f.atoms) && UsedOk(p, f.used) && FromCall(f.atoms) != [] && AllDiffer(f.used, e)
    requires AllFlat(PrefixOf(f)) && SatAll(w, map[], PrefixOf(f), e) && AllOpen(GuardsNow(f, false))
    ensures AllDiffer(UsedAfter(f), e)
  {
    var call := FromCall(f.atoms)[0];
    var earlier := EarlierCalls(f.used, call.name);
    forall name, i, j | name in UsedAfter(f) && 0 <= i < j < |UsedAfter(f)[name]|
                        && AllVariables(UsedAfter(f)[name][i]) && AllVariables(UsedAfter(f)[name][j])
      ensures Vals(e, UsedAfter(f)[name][i]) != Vals(e, UsedAfter(f)[name][j])
    {
      if name == call.name {
        assert UsedAfter(f)[name] == earlier + [call.args];
        if j == |earlier| { CallDiffers(p, w, f, e, i); }
      } else {
        assert UsedAfter(f)[name] == f.used[name];
      }
    }
  }

  lemma {:induction false} OuterAfter(f: Frame)
    requires FromCall(f.atoms) != [] && OuterFirst(f.used)
             && (f.used == map[] || AllVariables(FromCall(f.atoms)[0].args))
    ensures OuterFirst(UsedAfter(f)) && UsedAfter(f) != map[]
  {
    var call := FromCall(f.atoms)[0];
    var used, earlier := UsedAfter(f), EarlierCalls(f.used, call.name);
    assert used[call.name] == earlier + [call.args];
    forall name, i | name in used && 0 < i < |used[name]| ensures AllVariables(used[name][i]) {
      if name != call.name { assert used[name] == f.used[name]; }
    }
    forall name, other | name in used && other in used && used[name] != [] && used[other] != []
      ensures AllVariables(used[name][0]) || AllVariables(used[other][0]) || name == other
    {
      if name != call.name { assert used[name] == f.used[name]; }
      if other != call.name { assert used[other] == f.used[other]; }
    }
  }

  /** An assignment of a child satisfies the frame it came from. */
  lemma {:induction false} ChildLives(p: Program, w: World, finals: set<Var>, f: Frame, br: Branch, id: nat, e: Asg)
    requires DifferOk(w) && FrameOk(p, w, finals, f, id) && FromCall(f.atoms) != []
             && ResolveClauses(w, f.ctx, PrefixOf(f)).Ok?
    requires Lives(Child(f, ResolveClauses(w, f.ctx, PrefixOf(f)).ctx, br, id), e)
    ensures Lives(f, e) && EnvConsts(ArgConsts(FromCall(f.atoms)[0].args), e)
    ensures AllFlat(Lits(f.atoms)) && SatAll(w, map[], Lits(f.atoms), e) && AllFlat(PrefixOf(f))
            && SatAll(w, map[], PrefixOf(f), e)
  {
    CallOk(p, w, finals, f, id);
    SolvedOk(p, w, finals, f, id);
    SplitConsts(f.ctx.consts, ArgConsts(FromCall(f.atoms)[0].args), e);
    PrefixHolds(p, w, finals, f, id, e);
  }

  lemma {:induction false} ChildEnvIn(dom: set<Value>, call: Atom, vars: set<Var>, e: Asg)
    requires call.Call? && TermsIn(dom, call.args) && EnvIn(dom, vars, e) && EnvConsts(ArgConsts(call.args), e)
    ensures EnvIn(dom, vars + ArgConsts(call.args).Keys, e)
  {}

  lemma {:induction false} ChildBounded(p: Program, w: World, dom: set<Value>, finals: set<Var>, f: Frame, br: Branch,
                                        id: nat)
    requires DifferOk(w) && DatomsIn(dom, w) && FrameOk(p, w, finals, f, id) && Bounded(dom, f)
             && FromCall(f.atoms) != []
    requires ResolveClauses(w, f.ctx, PrefixOf(f)).Ok? && AllOpen(GuardsNow(f, false)) && Nil in dom
    requires BranchOk(p, br) && |br.head| == |FromCall(f.atoms)[0].args|
    ensures Bounded(dom, Child(f, ResolveClauses(w, f.ctx, PrefixOf(f)).ctx, br, id))
  {
    var ctx := ResolveClauses(w, f.ctx, PrefixOf(f)).ctx;
    var call, c := FromCall(f.atoms)[0], Child(f, ctx, br, id);
    SolvedOk(p, w, finals, f, id);
    CallOk(p, w, finals, f, id);
    ConstantsFromCall(dom, f.atoms);
    ChildAtoms(p, w, finals, f, br, id);
    VarCallsConstants(dom, c.atoms);
    UsedInAfter(dom, f);
    if f.used != map[] { CallVariables(f.atoms); }
    OuterAfter(f);
    forall e | Lives(c, e) ensures EnvIn(dom, VarsAll(c.ctx.rels) + c.ctx.consts.Keys, e) && AllDiffer(c.used, e) {
      ChildLives(p, w, finals, f, br, id, e);
      DifferAfter(p, w, f, e);
      SplitAtoms(p, w, f.atoms, e);
      PatternsIn(w, dom, Lits(f.atoms), e);
      ChildEnvIn(dom, call, VarsAll(f.ctx.rels) + BindsAll(Lits(f.atoms)) + f.ctx.consts.Keys, e);
    }
  }

  lemma {:induction false} UsedInAfter(dom: set<Value>, f: Frame)
    requires FromCall(f.atoms) != [] && UsedIn(dom, f.used) && TermsIn(dom, FromCall(f.atoms)[0].args)
    ensures UsedIn(dom, UsedAfter(f))
  {
    var call := FromCall(f.atoms)[0];
    forall name, i | name in UsedAfter(f) && 0 <= i < |UsedAfter(f)[name]| ensures TermsIn(dom, UsedAfter(f)[name][i]) {
      if name == call.name { assert UsedAfter(f)[name] == EarlierCalls(f.used, name) + [call.args]; }
    }
  }

  lemma {:induction false} CallVariables(atoms: seq<Atom>)
    requires VarCalls(atoms) && FromCall(atoms) != []
    ensures AllVariables(FromCall(atoms)[0].args)
  {
    if !atoms[0].Call? { CallVariables(atoms[1..]); }
  }

  /** A context without empty relations has an assignment. */
  lemma {:induction false} Inhabited(rels: seq<Rel>) returns (b: Asg)
    requires WellFormed(rels) && !HasEmpty(rels)
    ensures HoldsAll(rels, b) && b.Keys == VarsAll(rels)
  {
    if rels == [] {
      b := map[];
    } else {
      var rest := Inhabited(rels[1..]);
      b := AddTuple(rels, rels[0].tuples[0], rest);
    }
  }

  /** A live frame cannot be deeper than there are calls, and one for the outermost. */
  lemma {:induction false} LiveDepth(p: Program, w: World, dom: set<Value>, f: Frame)
    requires Sane(w, f.ctx) && UsedOk(p, f.used) && Bounded(dom, f) && !HasEmpty(f.ctx.rels) && Nil in dom
    ensures |Slots(f.used)| <= |AllCalls(p, dom)| + 1
  {
    var b := Inhabited(f.ctx.rels);
    var e := f.ctx.consts + b;
    WithConsts(w, f.ctx, b);
    assert Lives(f, e);
    forall name, i | name in f.used && 0 <= i < |f.used[name]| ensures ValsIn(dom, Vals(e, f.used[name][i])) {
      ValsInDomain(dom, f.used[name][i], e);
    }
    DepthBound(p, dom, f.used, e);
    OneOuter(f.used);
  }

  // --------------------------------------------------------------------- measure

  ghost function MaxDepth(p: Program, dom: set<Value>): nat {
    |AllCalls(p, dom)| + 1
  }

  /** An upper bound for the turns a frame takes that has room for `k` more calls. */
  ghost function Turns(width: nat, k: nat): (r: nat)
    ensures r > 0
  {
    if k == 0 then 1 else 1 + width * Turns(width, k - 1)
  }

  ghost function Room(depth: nat, f: Frame): nat {
    if |Slots(f.used)| < depth then depth - |Slots(f.used)| else 0
  }

  ghost function StackTurns(width: nat, depth: nat, stack: seq<Frame>): nat {
    if stack == [] then 0 else Turns(width, Room(depth, stack[0])) + StackTurns(width, depth, stack[1..])
  }

  lemma {:induction false} TurnsCons(width: nat, depth: nat, f: Frame, rest: seq<Frame>)
    ensures StackTurns(width, depth, [f] + rest) == Turns(width, Room(depth, f)) + StackTurns(width, depth, rest)
  {
    var all := [f] + rest;
    assert all[0] == f && all[1..] == rest;
  }

  lemma {:induction false} ChildrenTurns(width: nat, depth: nat, f: Frame, ctx: Ctx, branches: seq<Branch>, id: nat,
                                         rest: seq<Frame>, k: nat)
    requires FromCall(f.atoms) != [] && k == Room(depth, Child(f, ctx, Branch([], []), id))
    ensures StackTurns(width, depth, Children(f, ctx, branches, id) + rest) == |branches| * Turns(width, k)
        + StackTurns(width, depth, rest)
    decreases |branches|
  {
    if branches == [] {
      assert Children(f, ctx, branches, id) + rest == rest;
    } else {
      var c, more := Child(f, ctx, branches[0], id), Children(f, ctx, branches[1..], id);
      ChildrenTurns(width, depth, f, ctx, branches[1..], id, rest, k);
      TurnsCons(width, depth, c, more + rest);
      assert [c] + more + rest == [c] + (more + rest);
      assert (|branches| - 1) * Turns(width, k) + Turns(width, k) == |branches| * Turns(width, k);
    }
  }

  lemma {:induction false} TurnsEnough(width: nat, n: nat, k: nat)
    requires n <= width
    ensures n * Turns(width, k) + 1 <= Turns(width, k + 1)
  {
    assert n * Turns(width, k) <= width * Turns(width, k) by { Times(n, width, Turns(width, k)); }
  }

  lemma {:induction false} Times(a: nat, b: nat, c: nat)
    requires a <= b
    ensures a * c <= b * c
  {
    assert (b - a) * c >= 0;
    assert b * c == a * c + (b - a) * c;
  }

  /** An expanded frame has room for one more call. */
  lemma {:induction false} ExpandRoom(p: Program, w: World, dom: set<Value>, finals: set<Var>, f: Frame, id: nat,
                                      next: nat)
    requires next == id + 1 && DifferOk(w) && ProgramOk(p) && DatomsIn(dom, w) && Nil in dom
    requires FrameOk(p, w, finals, f, id) && Bounded(dom, f)
    requires FromCall(f.atoms) != [] && AllOpen(GuardsNow(f, false)) && Expand(p, w, f, id).Expanded?
    ensures |Slots(f.used)| < MaxDepth(p, dom)
  {
    var ctx := ResolveClauses(w, f.ctx, PrefixOf(f)).ctx;
    var branches := BranchesOf(p, FromCall(f.atoms)[0].name);
    CallOk(p, w, finals, f, id);
    BranchFits(p, w, finals, f, 0, id);
    ChildOk(p, w, finals, f, branches[0], id, next);
    ChildBounded(p, w, dom, finals, f, branches[0], id);
    LiveDepth(p, w, dom, Child(f, ctx, branches[0], id));
    SlotsAfter(f);
  }

  lemma {:induction false} ChildRoom(depth: nat, f: Frame, ctx: Ctx, br: Branch, id: nat)
    requires FromCall(f.atoms) != [] && |Slots(f.used)| < depth
    ensures Room(depth, Child(f, ctx, br, id)) + 1 == Room(depth, f)
  {
    SlotsAfter(f);
  }

  /** The children of an expanded frame take fewer turns together than it did. */
  lemma {:induction false} ExpandTurns(p: Program, w: World, dom: set<Value>, f: Frame, id: nat, rest: seq<Frame>,
                                       width: nat)
    requires WellFormed(f.ctx.rels) && FromCall(f.atoms) != [] && Expand(p, w, f, id).Expanded?
    requires |Slots(f.used)| < MaxDepth(p, dom) && |BranchesOf(p, FromCall(f.atoms)[0].name)| <= width
    ensures StackTurns(width, MaxDepth(p, dom), Expand(p, w, f, id).frames + rest) < StackTurns(width, MaxDepth(p, dom),
        [f] + rest)
  {
    var ctx := ResolveClauses(w, f.ctx, PrefixOf(f)).ctx;
    var depth := MaxDepth(p, dom);
    var branches := BranchesOf(p, FromCall(f.atoms)[0].name);
    var k := Room(depth, Child(f, ctx, Branch([], []), id));
    ChildRoom(depth, f, ctx, Branch([], []), id);
    ChildrenTurns(width, depth, f, ctx, branches, id, rest, k);
    TurnsEnough(width, |branches|, k);
    TurnsCons(width, depth, f, rest);
  }

  // ------------------------------------------------------------------------ runs

  ghost predicate BoundedAt(p: Program, w: World, dom: set<Value>, finals: set<Var>, stack: seq<Frame>, id: nat) {
    StackOk(p, w, finals, stack, id) && BoundedStack(dom, stack)
  }

  ghost predicate BoundedState(p: Program, w: World, dom: set<Value>, finals: set<Var>, s: State) {
    s.State? ==> BoundedAt(p, w, dom, finals, s.stack, s.seqid)
  }

  /** The frame on top puts off no guard but those that pass a constant. */
  ghost predicate TopChecked(s: State) {
    s.State? && s.stack != [] && FromCall(s.stack[0].atoms) != [] ==> AllOpen(GuardsNow(s.stack[0], false))
  }

  ghost predicate RunChecked(p: Program, w: World, s: State, n: nat)
    requires Runnable(s)
    decreases n
  {
    n > 0 ==> TopChecked(s) && RunChecked(p, w, Step(p, w, s), n - 1)
  }

  predicate Done(s: State) {
    s.Failed? || s.stack == []
  }

  ghost function StateTurns(p: Program, dom: set<Value>, width: nat, s: State): nat {
    if s.Failed? then 0 else StackTurns(width, MaxDepth(p, dom), s.stack)
  }

  ghost predicate Wide(p: Program, width: nat) {
    forall name :: name in p ==> |p[name]| <= width
  }

  lemma {:induction false} BoundedCons(dom: set<Value>, f: Frame, rest: seq<Frame>)
    ensures BoundedStack(dom, [f] + rest) <==> Bounded(dom, f) && BoundedStack(dom, rest)
  {
    var all := [f] + rest;
    assert all[0] == f && all[1..] == rest;
  }

  lemma {:induction false} FirstChild(dom: set<Value>, f: Frame, ctx: Ctx, branches: seq<Branch>, id: nat,
                                      rest: seq<Frame>)
    returns (c: Frame, more: seq<Frame>)
    requires FromCall(f.atoms) != [] && branches != [] && Bounded(dom, Child(f, ctx, branches[0], id))
    ensures Bounded(dom, c) && more == Children(f, ctx, branches[1..], id)
    ensures Children(f, ctx, branches, id) + rest == [c] + (more + rest)
  {
    c, more := Child(f, ctx, branches[0], id), Children(f, ctx, branches[1..], id);
    assert Children(f, ctx, branches, id) == [c] + more;
  }

  lemma {:induction false} ChildrenBounded(dom: set<Value>, f: Frame, ctx: Ctx, branches: seq<Branch>, id: nat,
                                           rest: seq<Frame>)
    requires FromCall(f.atoms) != []
    requires forall i :: 0 <= i < |branches| ==> Bounded(dom, Child(f, ctx, branches[i], id))
    ensures BoundedStack(dom, Children(f, ctx, branches, id) + rest) <==> BoundedStack(dom, rest)
    decreases |branches|
  {
    if branches == [] {
      assert Children(f, ctx, branches, id) + rest == rest;
    } else {
      var c, more := FirstChild(dom, f, ctx, branches, id, rest);
      assert forall i :: 0 <= i < |branches[1..]| ==> branches[1..][i] == branches[i + 1];
      ChildrenBounded(dom, f, ctx, branches[1..], id, rest);
      BoundedCons(dom, c, more + rest);
    }
  }

  lemma {:induction false} ExpandBounded(p: Program, w: World, dom: set<Value>, finals: set<Var>, f: Frame, id: nat,
                                         rest: seq<Frame>)
    requires DifferOk(w) && ProgramOk(p) && DatomsIn(dom, w) && Nil in dom && FrameOk(p, w, finals, f, id)
             && Bounded(dom, f)
    requires FromCall(f.atoms) != [] && AllOpen(GuardsNow(f, false)) && Expand(p, w, f, id).Expanded?
             && BoundedStack(dom, rest)
    ensures BoundedStack(dom, Expand(p, w, f, id).frames + rest)
  {
    var ctx := ResolveClauses(w, f.ctx, PrefixOf(f)).ctx;
    var branches := BranchesOf(p, FromCall(f.atoms)[0].name);
    forall i | 0 <= i < |branches| ensures Bounded(dom, Child(f, ctx, branches[i], id)) {
      BranchFits(p, w, finals, f, i, id);
      ChildBounded(p, w, dom, finals, f, branches[i], id);
    }
    ChildrenBounded(dom, f, ctx, branches, id, rest);
  }

  lemma {:induction false} PopBounded(p: Program, w: World, dom: set<Value>, finals: set<Var>, stack: seq<Frame>,
                                      id: nat)
    requires stack != []
    ensures BoundedAt(p, w, dom, finals, stack, id) <==>
              FrameOk(p, w, finals, stack[0], id) && Bounded(dom, stack[0])
                && BoundedAt(p, w, dom, finals, stack[1..], id)
  {}

  lemma {:induction false} PopTurns(width: nat, depth: nat, stack: seq<Frame>)
    requires stack != []
    ensures StackTurns(width, depth, stack[1..]) < StackTurns(width, depth, stack)
  {}

  lemma {:induction false} TopBounded(p: Program, w: World, dom: set<Value>, finals: set<Var>, f: Frame,
                                      rest: seq<Frame>, id: nat, next: nat)
    requires next == id + 1 && DifferOk(w) && ProgramOk(p) && DatomsIn(dom, w) && Nil in dom
    requires FrameOk(p, w, finals, f, id) && Bounded(dom, f) && BoundedAt(p, w, dom, finals, rest, id)
    requires FromCall(f.atoms) != [] && AllOpen(GuardsNow(f, false)) && Expand(p, w, f, id).Expanded?
    ensures BoundedAt(p, w, dom, finals, Expand(p, w, f, id).frames + rest, next)
  {
    ExpandBounded(p, w, dom, finals, f, id, rest);
    ExpandOk(p, w, finals, f, id, next, rest);
  }

  lemma {:induction false} ExpandTop(p: Program, w: World, dom: set<Value>, finals: set<Var>, stack: seq<Frame>,
                                     id: nat, next: nat, width: nat)
    requires next == id + 1 && DifferOk(w) && ProgramOk(p) && DatomsIn(dom, w) && Nil in dom && Wide(p, width)
    requires stack != [] && BoundedAt(p, w, dom, finals, stack, id) && WellFormed(stack[0].ctx.rels)
    requires FromCall(stack[0].atoms) != [] && AllOpen(GuardsNow(stack[0], false))
             && Expand(p, w, stack[0], id).Expanded?
    ensures BoundedAt(p, w, dom, finals, Expand(p, w, stack[0], id).frames + stack[1..], next)
    ensures StackTurns(width, MaxDepth(p, dom), Expand(p, w, stack[0], id).frames + stack[1..]) < StackTurns(width,
        MaxDepth(p, dom), stack)
  {
    var f, rest := stack[0], stack[1..];
    PopBounded(p, w, dom, finals, stack, id);
    TopBounded(p, w, dom, finals, f, rest, id, next);
    ExpandRoom(p, w, dom, finals, f, id, next);
    ExpandTurns(p, w, dom, f, id, rest, width);
    assert stack == [f] + rest;
  }

  /** One turn keeps the bounds and takes one off the measure. */
  lemma {:induction false} StepTurns(p: Program, w: World, dom: set<Value>, finals: set<Var>, s: State, width: nat)
    requires DifferOk(w) && ProgramOk(p) && DatomsIn(dom, w) && Nil in dom && Wide(p, width)
    requires Runnable(s) && BoundedState(p, w, dom, finals, s) && TopChecked(s) && !Done(s)
    ensures BoundedState(p, w, dom, finals, Step(p, w, s))
    ensures StateTurns(p, dom, width, Step(p, w, s)) < StateTurns(p, dom, width, s)
  {
    StepCases(p, w, s);
    PopBounded(p, w, dom, finals, s.stack, s.seqid);
    PopTurns(width, MaxDepth(p, dom), s.stack);
    if FromCall(s.stack[0].atoms) != [] && Expand(p, w, s.stack[0], s.seqid).Expanded? {
      ExpandTop(p, w, dom, finals, s.stack, s.seqid, Step(p, w, s).seqid, width);
    }
  }

  lemma {:induction false} RunEnds(p: Program, w: World, dom: set<Value>, finals: set<Var>, s: State, width: nat,
                                   n: nat, turns: nat)
    requires DifferOk(w) && ProgramOk(p) && DatomsIn(dom, w) && Nil in dom && Wide(p, width)
    requires Runnable(s) && BoundedState(p, w, dom, finals, s) && RunChecked(p, w, s, n)
    requires turns == StateTurns(p, dom, width, s) <= n
    ensures Done(Run(p, w, s, n))
    decreases n
  {
    if Done(s) {
      DoneStays(p, w, s, n);
    } else {
      StepTurns(p, w, dom, finals, s, width);
      var t, left := Step(p, w, s), StateTurns(p, dom, width, Step(p, w, s));
      assert left < turns;
      RunEnds(p, w, dom, finals, t, width, n - 1, left);
    }
  }

  lemma {:induction false} DoneStays(p: Program, w: World, s: State, n: nat)
    requires Runnable(s) && Done(s)
    ensures Run(p, w, s, n) == s
    decreases n
  {
    if n > 0 { DoneStays(p, w, s, n - 1); }
  }

  // ------------------------------------------------------------ from a goal on

  /** Every value of the database. */
  ghost function DatomValues(ds: seq<Tuple>): set<Value> {
    {Nil} + (set d, i | d in ds && d.Arr? && 0 <= i < |d.vals| :: d.vals[i])
  }

  ghost function RelValues(rels: seq<Rel>): set<Value> {
    if rels == [] then {} else
      (set t, v | t in rels[0].tuples && v in rels[0].attrs :: Get(t, rels[0].attrs[v])) + RelValues(rels[1..])
  }

  /** Every value that the evaluation of the goal can meet. */
  ghost function Domain(w: World, ctx: Ctx, goal: Atom): set<Value>
    requires goal.Call?
  {
    DatomValues(w.src.datoms) + RelValues(ctx.rels) + ctx.consts.Values
    + (set i | 0 <= i < |goal.args| && goal.args[i].Constant? :: goal.args[i].c)
  }

  lemma {:induction false} RelsIn(rels: seq<Rel>, e: Asg)
    requires HoldsAll(rels, e)
    ensures EnvIn(RelValues(rels), VarsAll(rels), e)
  {
    if rels != [] {
      RelsIn(rels[1..], e);
      var t :| t in rels[0].tuples && Meets(rels[0].attrs, t, e);
    }
  }

  lemma {:induction false} BranchBound(p: Program) returns (width: nat)
    ensures Wide(p, width)
  {
    if p == map[] {
      width := 0;
    } else {
      var name :| name in p;
      var less := p - {name};
      width := BranchBound(less);
      if width < |p[name]| { width := |p[name]|; }
      assert forall other :: other in p && other != name ==> other in less;
    }
  }

  lemma {:induction false} InitialFrameBounded(w: World, ctx: Ctx, goal: Atom, dom: set<Value>)
    requires goal.Call? && dom == Domain(w, ctx, goal)
    ensures Bounded(dom, Frame([], ctx, [goal], map[], [])) && DatomsIn(dom, w) && Nil in dom
  {
    var f := Frame([], ctx, [goal], map[], []);
    assert OuterFirst(f.used) && AllOpen(f.pending);
    forall e | Lives(f, e) ensures EnvIn(dom, VarsAll(ctx.rels) + ctx.consts.Keys, e) && AllDiffer(f.used, e) {
      RelsIn(ctx.rels, e);
    }
    assert TermsIn(dom, goal.args);
    assert ConstantsIn(dom, f.atoms[1..]);
    assert ConstantsIn(dom, f.atoms) by { assert f.atoms[0] == goal; }
  }

  lemma {:induction false} InitialBounded(p: Program, w: World, ctx: Ctx, goal: Atom)
    requires GoalOk(p, w, ctx, goal)
    ensures BoundedState(p, w, Domain(w, ctx, goal), TermVars(goal.args), Initial(ctx, goal))
  {
    InitialFrameOk(p, w, ctx, goal);
    InitialFrameBounded(w, ctx, goal, Domain(w, ctx, goal));
    assert Initial(ctx, goal).stack[1..] == [];
  }

  /** While no guard but those that pass a constant is put off, the stack empties (or a clause
      raises) after a number of turns that depends only on the rules and on the finite set of
      values in the data, however the data is connected. */
  lemma {:induction false} RuleTerminates(p: Program, w: World, ctx: Ctx, goal: Atom) returns (n: nat)
    requires DifferOk(w) && ProgramOk(p) && GoalOk(p, w, ctx, goal) && Runnable(Initial(ctx, goal))
    ensures RunChecked(p, w, Initial(ctx, goal), n) ==> Done(Run(p, w, Initial(ctx, goal), n))
  {
    var width := BranchBound(p);
    var dom := Domain(w, ctx, goal);
    InitialBounded(p, w, ctx, goal);
    InitialFrameBounded(w, ctx, goal, dom);
    n := StateTurns(p, dom, width, Initial(ctx, goal));
    if RunChecked(p, w, Initial(ctx, goal), n) {
      RunEnds(p, w, dom, TermVars(goal.args), Initial(ctx, goal), width, n, n);
    }
  }
}
