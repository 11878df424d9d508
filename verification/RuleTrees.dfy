/** Derivations as trees, and those in which no call occurs twice: what the guards of the rule
    solver leave. */
module RuleTrees {
  import opened Relations
  import opened Sequences
  import opened RelationOps
  import opened Contexts
  import opened Search
  import opened Clauses
  import opened Semantics
  import opened Schedule
  import opened Evaluator
  import opened Flat
  import opened Rules
  import opened RuleSemantics
  import opened RuleFrames

  /** A rule call, the branch that derives it, the values of the branch's variables, and the
      derivations of the calls in the branch. */
  datatype Tree = Tree(name: string, vals: seq<Value>, branch: nat, b: Asg, subs: seq<Tree>)

  ghost predicate Derivation(p: Program, w: World, t: Tree)
    decreases t, 1
  {
    && t.name in p && t.branch < |p[t.name]| && HeadIs(p[t.name][t.branch].head, t.vals, t.b)
    && Proves(p, w, p[t.name][t.branch].body, t.b, t.subs)
  }

  /** The atoms are true, their calls derived by the trees in order. */
  ghost predicate Proves(p: Program, w: World, atoms: seq<Atom>, e: Asg, ts: seq<Tree>)
    decreases ts, 0, |atoms|
  {
    if atoms == [] then ts == []
    else
      match atoms[0]
      case Match(terms) => PatternSat(w, map[], terms, e) && Proves(p, w, atoms[1..], e, ts)
      case Test(f, args) => w.pred(f, Vals(e, args)) && Proves(p, w, atoms[1..], e, ts)
      case Call(name, args) =>
        && ts != [] && ts[0].name == name && ts[0].vals == Vals(e, args) && Derivation(p, w, ts[0])
        && Proves(p, w, atoms[1..], e, ts[1..])
  }

  /** The calls of the trees, a call before those of its derivation. */
  function CallsMade(ts: seq<Tree>): seq<(string, seq<Value>)> {
    if ts == [] then [] else [(ts[0].name, ts[0].vals)] + CallsMade(ts[0].subs) + CallsMade(ts[1..])
  }

  /** The call has a derivation that makes no call twice. */
  ghost predicate Unrepeated(p: Program, w: World, name: string, vals: seq<Value>) {
    exists t :: Derivation(p, w, t) && t.name == name && t.vals == vals && NoDups(CallsMade([t]))
  }

  lemma {:induction false} CallsMadeOne(t: Tree)
    ensures CallsMade([t]) == [(t.name, t.vals)] + CallsMade(t.subs)
  {
    assert [t][1..] == [] && CallsMade([]) == [];
    assert [(t.name, t.vals)] + CallsMade(t.subs) + [] == [(t.name, t.vals)] + CallsMade(t.subs);
  }

  lemma {:induction false} CallsMadeConcat(s: seq<Tree>, t: seq<Tree>)
    ensures CallsMade(s + t) == CallsMade(s) + CallsMade(t)
    decreases |s|
  {
    if s == [] {
      assert s + t == t;
    } else {
      assert (s + t)[1..] == s[1..] + t;
      CallsMadeConcat(s[1..], t);
      var first, own := [(s[0].name, s[0].vals)], CallsMade(s[0].subs);
      assert first + own + (CallsMade(s[1..]) + CallsMade(t)) == first + own + CallsMade(s[1..]) + CallsMade(t);
    }
  }

  lemma {:induction false} Regrouped<T>(a: seq<T>, b: seq<T>, c: seq<T>, d: seq<T>)
    ensures a + (b + c + d) == a + b + (c + d)
  {}

  /** Taking the first tree apart: its call goes to the past, its subtrees come first. */
  lemma {:induction false} CallsMadeFirst(past: seq<(string, seq<Value>)>, ts: seq<Tree>)
    requires ts != []
    ensures past + CallsMade(ts) == past + [(ts[0].name, ts[0].vals)] + CallsMade(ts[0].subs + ts[1..])
  {
    CallsMadeConcat(ts[0].subs, ts[1..]);
    Regrouped(past, [(ts[0].name, ts[0].vals)], CallsMade(ts[0].subs), CallsMade(ts[1..]));
  }

  // ------------------------------------------------------------ trees and applications

  function Max(x: nat, y: nat): nat {
    if x < y then y else x
  }

  /** How many rule applications are nested. */
  function TreeHeight(ts: seq<Tree>): nat {
    if ts == [] then 0 else Max(1 + TreeHeight(ts[0].subs), TreeHeight(ts[1..]))
  }

  lemma {:induction false} DerivationDerives(p: Program, w: World, t: Tree, n: nat)
    requires Derivation(p, w, t) && n == TreeHeight(t.subs)
    ensures Derives(p, w, n + 1, t.name, t.vals)
    decreases t, 1
  {
    ProvesTrue(p, w, p[t.name][t.branch].body, t.b, t.subs, n);
    assert BranchAt(p, w, n + 1, t.name, t.branch, t.vals, t.b);
  }

  lemma {:induction false} ProvesTrue(p: Program, w: World, atoms: seq<Atom>, e: Asg, ts: seq<Tree>, n: nat)
    requires Proves(p, w, atoms, e, ts) && TreeHeight(ts) <= n
    ensures BodyTrue(p, w, n, atoms, e)
    decreases ts, 0, |atoms|
  {
    if atoms != [] {
      match atoms[0]
      case Match(_) => ProvesTrue(p, w, atoms[1..], e, ts, n);
      case Test(_, _) => ProvesTrue(p, w, atoms[1..], e, ts, n);
      case Call(name, args) =>
        var height := TreeHeight(ts[0].subs);
        DerivationDerives(p, w, ts[0], height);
        DerivesMono(p, w, height + 1, n, name, Vals(e, args));
        ProvesTrue(p, w, atoms[1..], e, ts[1..], n);
    }
  }

  /** A call with such a derivation is in the least fixed point. */
  lemma {:induction false} UnrepeatedDerivable(p: Program, w: World, name: string, vals: seq<Value>)
    requires Unrepeated(p, w, name, vals)
    ensures Derivable(p, w, name, vals)
  {
    var t :| Derivation(p, w, t) && t.name == name && t.vals == vals && NoDups(CallsMade([t]));
    var n := TreeHeight(t.subs);
    DerivationDerives(p, w, t, n);
  }

  // --------------------------------------------------------------- linear programs

  function Calls(atoms: seq<Atom>): nat {
    if atoms == [] then 0 else (if atoms[0].Call? then 1 else 0) + Calls(atoms[1..])
  }

  /** At most one rule call in each branch. */
  ghost predicate Linear(p: Program) {
    forall name, i :: name in p && 0 <= i < |p[name]| ==> Calls(p[name][i].body) <= 1
  }

  predicate CallsAmong(p: Program, names: set<string>, atoms: seq<Atom>) {
    atoms == []
      || ((atoms[0].Call? && atoms[0].name in p ==> atoms[0].name in names) && CallsAmong(p, names, atoms[1..]))
  }

  /** The rules of `names` call only each other, at most one in each branch. */
  ghost predicate LinearAmong(p: Program, names: set<string>) {
    forall name, i :: name in names && name in p && 0 <= i < |p[name]| ==>
      Calls(p[name][i].body) <= 1 && CallsAmong(p, names, p[name][i].body)
  }

  lemma {:induction false} AllAmong(p: Program, atoms: seq<Atom>)
    ensures CallsAmong(p, p.Keys, atoms)
  {
    if atoms != [] { AllAmong(p, atoms[1..]); }
  }

  /** Bodies with one call at most are judged by it. */
  lemma {:induction false} AmongFirst(p: Program, names: set<string>, atoms: seq<Atom>)
    requires Calls(atoms) <= 1
             && (FromCall(atoms) != [] && FromCall(atoms)[0].name in p ==> FromCall(atoms)[0].name in names)
    ensures CallsAmong(p, names, atoms)
  {
    if atoms != [] {
      if atoms[0].Call? { NoneAmong(p, names, atoms[1..]); } else { AmongFirst(p, names, atoms[1..]); }
    }
  }

  lemma {:induction false} NoneAmong(p: Program, names: set<string>, atoms: seq<Atom>)
    requires Calls(atoms) == 0
    ensures CallsAmong(p, names, atoms)
  {
    if atoms != [] { NoneAmong(p, names, atoms[1..]); }
  }

  lemma {:induction false} CallsConcat(s: seq<Atom>, t: seq<Atom>)
    ensures Calls(s + t) == Calls(s) + Calls(t)
  {
    if s == [] {
      assert s + t == t;
    } else {
      assert (s + t)[1..] == s[1..] + t;
      CallsConcat(s[1..], t);
    }
  }

  lemma {:induction false} CallsRen(head: seq<Var>, args: seq<Var>, id: nat, atoms: seq<Atom>)
    ensures Calls(RenAtoms(head, args, id, atoms)) == Calls(atoms)
  {
    if atoms != [] {
      var more := RenAtoms(head, args, id, atoms[1..]);
      CallsRen(head, args, id, atoms[1..]);
      assert ([RenAtom(head, args, id, atoms[0])] + more)[1..] == more;
    }
  }

  lemma {:induction false} CallsFromCall(atoms: seq<Atom>)
    ensures Calls(FromCall(atoms)) == Calls(atoms)
  {
    if atoms != [] && !atoms[0].Call? { CallsFromCall(atoms[1..]); }
  }

  /** The least number of applications that derives the call. */
  lemma {:induction false} LeastRank(p: Program, w: World, n: nat, name: string, vals: seq<Value>) returns (m: nat)
    requires Derives(p, w, n, name, vals)
    ensures 0 < m <= n && Derives(p, w, m, name, vals) && !Derives(p, w, m - 1, name, vals)
  {
    m := n;
    if Derives(p, w, n - 1, name, vals) { m := LeastRank(p, w, n - 1, name, vals); }
  }

  ghost predicate AllDerive(p: Program, w: World, n: nat, calls: set<(string, seq<Value>)>) {
    forall c :: c in calls ==> Derives(p, w, n, c.0, c.1)
  }

  lemma {:induction false} AllDeriveMono(p: Program, w: World, m: nat, n: nat, calls: set<(string, seq<Value>)>)
    requires AllDerive(p, w, m, calls) && m <= n
    ensures AllDerive(p, w, n, calls)
  {
    forall c | c in calls ensures Derives(p, w, n, c.0, c.1) { DerivesMono(p, w, m, n, c.0, c.1); }
  }

  /** The derivation with the fewest applications: each call takes fewer than the one above it. */
  lemma {:induction false} LeastTree(p: Program, w: World, names: set<string>, n: nat, next: nat, name: string,
                                     vals: seq<Value>) returns (t: Tree)
    requires next == n + 1 && LinearAmong(p, names) && name in names && Derives(p, w, next, name, vals)
             && !Derives(p, w, n, name, vals)
    ensures Derivation(p, w, t) && t.name == name && t.vals == vals
    ensures NoDups(CallsMade([t])) && AllDerive(p, w, next, Elems(CallsMade([t])))
    decreases n, 1
  {
    var i: nat, b :| BranchAt(p, w, next, name, i, vals, b);
    var ts := LeastTrees(p, w, names, n, p[name][i].body, b);
    t := Tree(name, vals, i, b, ts);
    CallsMadeOne(t);
    var root := [(name, vals)];
    assert root[..0] == [] && Elems(root) == {(name, vals)} && NoDups(root);
    AllDeriveMono(p, w, n, next, Elems(CallsMade(ts)));
    ElemsConcat(root, CallsMade(ts));
    NoDupsAppend(root, CallsMade(ts));
  }

  lemma {:induction false} LeastTrees(p: Program, w: World, names: set<string>, n: nat, atoms: seq<Atom>, e: Asg)
    returns (ts: seq<Tree>)
    requires LinearAmong(p, names) && Calls(atoms) <= 1 && CallsAmong(p, names, atoms) && BodyTrue(p, w, n, atoms, e)
    ensures Proves(p, w, atoms, e, ts) && NoDups(CallsMade(ts)) && AllDerive(p, w, n, Elems(CallsMade(ts)))
    ensures |ts| == Calls(atoms)
    decreases n, 0, |atoms|
  {
    if atoms == [] {
      ts := [];
    } else {
      match atoms[0]
      case Match(_) => ts := LeastTrees(p, w, names, n, atoms[1..], e);
      case Test(_, _) => ts := LeastTrees(p, w, names, n, atoms[1..], e);
      case Call(name, args) =>
        var m := LeastRank(p, w, n, name, Vals(e, args));
        var less: nat := m - 1;
        var t := LeastTree(p, w, names, less, m, name, Vals(e, args));
        var rest := LeastTrees(p, w, names, n, atoms[1..], e);
        ts := [t];
        assert rest == [] && ts[1..] == rest;
        AllDeriveMono(p, w, m, n, Elems(CallsMade(ts)));
    }
  }

  /** Whatever such rules derive, they derive without a repetition. */
  lemma {:induction false} AmongUnrepeated(p: Program, w: World, names: set<string>, name: string, vals: seq<Value>)
    requires LinearAmong(p, names) && name in names && Derivable(p, w, name, vals)
    ensures Unrepeated(p, w, name, vals)
  {
    var n: nat :| Derives(p, w, n, name, vals);
    var m := LeastRank(p, w, n, name, vals);
    var less: nat := m - 1;
    var t := LeastTree(p, w, names, less, m, name, vals);
  }

  /** In a linear program, whatever can be derived can be derived without a repetition. */
  lemma {:induction false} LinearUnrepeated(p: Program, w: World, name: string, vals: seq<Value>)
    requires Linear(p) && Derivable(p, w, name, vals)
    ensures Unrepeated(p, w, name, vals)
  {
    forall n, i | n in p && 0 <= i < |p[n]| ensures CallsAmong(p, p.Keys, p[n][i].body) { AllAmong(p, p[n][i].body); }
    AmongUnrepeated(p, w, p.Keys, name, vals);
  }
}
