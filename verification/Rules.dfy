/** The rule solver: calls are expanded depth first on an explicit stack of frames,
    with guards that cut branches repeating an earlier call. */
module Rules {
  import opened Options
  import opened Relations
  import opened Sequences
  import opened RelationOps
  import opened Contexts
  import opened Search
  import opened Clauses
  import opened Collecting
  import opened Semantics
  import opened Schedule
  import opened Evaluator
  import opened Flat

  /** An element of a rule body: a pattern or predicate, or a call of a rule. */
  datatype Atom = Match(terms: seq<Term>) | Test(f: string, args: seq<Term>) | Call(name: string, args: seq<Term>)

  datatype Branch = Branch(head: seq<Var>, body: seq<Atom>)

  type Program = map<string, seq<Branch>>

  /** `prefix` are the clauses solved last, `ctx` the context they led to. */
  datatype Frame = Frame(prefix: seq<Clause>, ctx: Ctx, atoms: seq<Atom>, used: map<string, seq<seq<Term>>>,
                         pending: seq<Clause>)

  datatype State = State(stack: seq<Frame>, rel: Rel, seqid: nat) | Failed

  // ------------------------------------------------------------------ expansion

  /** The replacement of a head variable; the last one of a repeated name. */
  function Replacement(head: seq<Var>, args: seq<Var>, v: Var): Option<Var> {
    if head == [] || args == [] then None
    else match Replacement(head[1..], args[1..], v)
      case Some(u) => Some(u)
      case None => if head[0] == v then Some(args[0]) else None
  }

  /** Renaming of a rule body: head variables become arguments, others get the expansion's number. */
  function Ren(head: seq<Var>, args: seq<Var>, id: nat, v: Var): Var {
    match Replacement(head, args, v)
    case Some(u) => u
    case None => Renamed(v, id)
  }

  function RenTerms(head: seq<Var>, args: seq<Var>, id: nat, ts: seq<Term>): (r: seq<Term>)
    ensures |r| == |ts|
    ensures forall i :: 0 <= i < |r| ==>
        r[i] == if ts[i].Variable? then Variable(Ren(head, args, id, ts[i].v)) else ts[i]
  {
    seq(|ts|, i requires 0 <= i < |ts| => if ts[i].Variable? then Variable(Ren(head, args, id, ts[i].v)) else ts[i])
  }

  function RenAtom(head: seq<Var>, args: seq<Var>, id: nat, a: Atom): Atom {
    match a
    case Match(ts) => Match(RenTerms(head, args, id, ts))
    case Test(f, ts) => Test(f, RenTerms(head, args, id, ts))
    case Call(name, ts) => Call(name, RenTerms(head, args, id, ts))
  }

  function RenAtoms(head: seq<Var>, args: seq<Var>, id: nat, atoms: seq<Atom>): seq<Atom> {
    if atoms == [] then [] else [RenAtom(head, args, id, atoms[0])] + RenAtoms(head, args, id, atoms[1..])
  }

  /** Call arguments as variables: a constant is named by its position. */
  function NewArgs(args: seq<Term>): (r: seq<Var>)
    ensures |r| == |args|
    ensures forall i :: 0 <= i < |r| ==> r[i] == if args[i].Variable? then args[i].v else Auto(i)
  {
    seq(|args|, i requires 0 <= i < |args| => if args[i].Variable? then args[i].v else Auto(i))
  }

  function ArgConsts(args: seq<Term>): map<Var, Value> {
    map i | 0 <= i < |args| && args[i].Constant? :: Auto(i) := args[i].c
  }

  // --------------------------------------------------------------------- guards

  const DIFFER: string := "-differ?"

  /** The positions at which the two calls are written differently. */
  function DifferingArgs(xs: seq<Term>, ys: seq<Term>): (r: (seq<Term>, seq<Term>))
    ensures |r.0| == |r.1|
  {
    if xs == [] || ys == [] then ([], [])
    else
      var r := DifferingArgs(xs[1..], ys[1..]);
      if xs[0] == ys[0] then r else ([xs[0]] + r.0, [ys[0]] + r.1)
  }

  function Guard(xs: seq<Term>, ys: seq<Term>): Clause {
    var d := DifferingArgs(xs, ys);
    Pred(DIFFER, d.0 + d.1)
  }

  function Guards(args: seq<Term>, earlier: seq<seq<Term>>): seq<Clause> {
    if earlier == [] then [] else [Guard(args, earlier[0])] + Guards(args, earlier[1..])
  }

  /** All arguments are variables of `vars`. */
  predicate Covered(vars: set<Var>, ts: seq<Term>) {
    ts == [] || (ts[0].Variable? && ts[0].v in vars && Covered(vars, ts[1..]))
  }

  /** The guards that can (`now`) or cannot (`!now`) be checked when `vars` are bound. */
  function Checkable(vars: set<Var>, guards: seq<Clause>, now: bool): seq<Clause> {
    if guards == [] then [] else
      (if (guards[0].Pred? && Covered(vars, guards[0].args)) == now then [guards[0]] else [])
      + Checkable(vars, guards[1..], now)
  }

  // ----------------------------------------------------------------------- steps

  function Lits(atoms: seq<Atom>): seq<Clause> {
    if atoms == [] || atoms[0].Call? then [] else
      [if atoms[0].Match? then Pattern(atoms[0].terms) else Pred(atoms[0].f, atoms[0].args)] + Lits(atoms[1..])
  }

  /** From the first rule call on. */
  function FromCall(atoms: seq<Atom>): (r: seq<Atom>)
    ensures r != [] ==> r[0].Call?
    ensures |r| <= |atoms|
  {
    if atoms == [] || atoms[0].Call? then atoms else FromCall(atoms[1..])
  }

  predicate HasEmpty(rels: seq<Rel>) {
    rels != [] && (rels[0].tuples == [] || HasEmpty(rels[1..]))
  }

  /** The free variables of the call, in order. */
  function Finals(args: seq<Term>): seq<Var> {
    TermVarSeq(args)
  }

  function Initial(ctx: Ctx, goal: Atom): State
    requires goal.Call?
  {
    State([Frame([], ctx, [goal], map[], [])], Rel(Finals(goal.args), ZipRange(Finals(goal.args)), []), 0)
  }

  function EarlierCalls(used: map<string, seq<seq<Term>>>, name: string): seq<seq<Term>> {
    if name in used then used[name] else []
  }

  /** The guards that apply to the frame's first call. */
  function GuardsOf(f: Frame): seq<Clause>
    requires FromCall(f.atoms) != []
  {
    var call := FromCall(f.atoms)[0];
    Guards(call.args, EarlierCalls(f.used, call.name)) + f.pending
  }

  /** `split-guards`: only the variables of this frame's clauses and the ones solved before it count. */
  function GuardsNow(f: Frame, now: bool): seq<Clause>
    requires FromCall(f.atoms) != []
  {
    Checkable(ClausesVars(f.prefix + Lits(f.atoms)), GuardsOf(f), now)
  }

  /** The clauses a frame solves before it expands its first call. */
  function PrefixOf(f: Frame): seq<Clause>
    requires FromCall(f.atoms) != []
  {
    Lits(f.atoms) + GuardsNow(f, true)
  }

  function UsedAfter(f: Frame): map<string, seq<seq<Term>>>
    requires FromCall(f.atoms) != []
  {
    var call := FromCall(f.atoms)[0];
    f.used[call.name := EarlierCalls(f.used, call.name) + [call.args]]
  }

  function BranchesOf(p: Program, name: string): seq<Branch> {
    if name in p then p[name] else []
  }

  /** The frame of one branch of the expanded call; `ctx` is the solved prefix. */
  function Child(f: Frame, ctx: Ctx, br: Branch, id: nat): Frame
    requires FromCall(f.atoms) != []
  {
    var tail := FromCall(f.atoms);
    Frame(PrefixOf(f), ctx.(consts := ctx.consts + ArgConsts(tail[0].args)),
          RenAtoms(br.head, NewArgs(tail[0].args), id, br.body) + tail[1..], UsedAfter(f), GuardsNow(f, false))
  }

  function Children(f: Frame, ctx: Ctx, branches: seq<Branch>, id: nat): seq<Frame>
    requires FromCall(f.atoms) != []
  {
    if branches == [] then [] else [Child(f, ctx, branches[0], id)] + Children(f, ctx, branches[1..], id)
  }

  datatype Expansion = Stuck | Dropped | Expanded(frames: seq<Frame>)

  /** A frame with a call: check the guards, solve the clauses before the call, expand it. */
  function Expand(p: Program, w: World, f: Frame, id: nat): Expansion
    requires WellFormed(f.ctx.rels) && FromCall(f.atoms) != []
  {
    if Pred(DIFFER, []) in GuardsNow(f, true) then Dropped
    else
      var o := ResolveClauses(w, f.ctx, PrefixOf(f));
      if !o.Ok? then Stuck
      else if HasEmpty(o.ctx.rels) then Dropped
      else Expanded(Children(f, o.ctx, BranchesOf(p, FromCall(f.atoms)[0].name), id))
  }

  /** A frame without a call: solve its clauses and add the collected rows to the result. */
  function Finish(w: World, f: Frame, rel: Rel): (r: Option<Rel>)
    requires WellFormed(f.ctx.rels) && Good(rel)
    ensures r.Some? ==> Good(r.value) && r.value.attrs.Keys == rel.attrs.Keys
    ensures r.Some? ==> ResolveClauses(w, f.ctx, Lits(f.atoms)).Ok?
    ensures r.Some? ==> forall x :: Holds(r.value, x) <==>
              Holds(rel, x) || Holds(CollectedRel(ResolveClauses(w, f.ctx, Lits(f.atoms)).ctx, rel.keys), x)
  {
    var o := ResolveClauses(w, f.ctx, Lits(f.atoms));
    if !o.Ok? then None else
      CollectedGood(o.ctx, rel.keys);
      SumOf(Some(rel), Some(CollectedRel(o.ctx, rel.keys)))
  }

  /** What the loop relies on. */
  ghost predicate Runnable(s: State) {
    s.State? ==> Good(s.rel) && StackFormed(s.stack)
  }

  ghost predicate StackFormed(stack: seq<Frame>) {
    stack == [] || (WellFormed(stack[0].ctx.rels) && StackFormed(stack[1..]))
  }

  /** One turn of the loop of `solve-rule`, for the frame on top of the stack. */
  function Step(p: Program, w: World, s: State): (r: State)
    requires Runnable(s)
    ensures Runnable(r)
  {
    if s.Failed? || s.stack == [] then s
    else
      var f, rest := s.stack[0], s.stack[1..];
      if FromCall(f.atoms) == [] then
        match Finish(w, f, s.rel)
        case None => Failed
        case Some(r) => State(rest, r, s.seqid)
      else
        match Expand(p, w, f, s.seqid)
        case Stuck => Failed
        case Dropped => State(rest, s.rel, s.seqid)
        case Expanded(frames) =>
          ChildrenFormed(f, ResolveClauses(w, f.ctx, PrefixOf(f)).ctx, BranchesOf(p, FromCall(f.atoms)[0].name),
              s.seqid, rest);
          State(frames + rest, s.rel, s.seqid + 1)
  }

  lemma {:induction false} StepCases(p: Program, w: World, s: State)
    requires Runnable(s) && s.State? && s.stack != []
    ensures var f, rest := s.stack[0], s.stack[1..];
            if FromCall(f.atoms) == [] then
              Step(p, w, s) == (var r := Finish(w, f, s.rel); if r.None? then Failed else State(rest, r.value, s.seqid))
            else
              var x := Expand(p, w, f, s.seqid);
              Step(p, w, s) == if x.Stuck? then Failed
                               else if x.Dropped? then State(rest, s.rel, s.seqid)
                               else State(x.frames + rest, s.rel, s.seqid + 1)
  {}

  function Run(p: Program, w: World, s: State, n: nat): (r: State)
    requires Runnable(s)
    ensures Runnable(r)
    decreases n
  {
    if n == 0 then s else Run(p, w, Step(p, w, s), n - 1)
  }

  lemma {:induction false} ChildrenFormed(f: Frame, ctx: Ctx, branches: seq<Branch>, id: nat, rest: seq<Frame>)
    requires FromCall(f.atoms) != [] && WellFormed(ctx.rels) && StackFormed(rest)
    ensures StackFormed(Children(f, ctx, branches, id) + rest)
  {
    if branches == [] {
      assert Children(f, ctx, branches, id) + rest == rest;
    } else {
      ChildrenFormed(f, ctx, branches[1..], id, rest);
      ConsFormed(Child(f, ctx, branches[0], id), Children(f, ctx, branches[1..], id), rest);
    }
  }

  lemma {:induction false} ConsFormed(f: Frame, more: seq<Frame>, rest: seq<Frame>)
    requires WellFormed(f.ctx.rels) && StackFormed(more + rest)
    ensures StackFormed([f] + more + rest)
  {
    var all := [f] + more + rest;
    assert all[1..] == more + rest;
  }

  lemma {:induction false} InitialRunnable(ctx: Ctx, goal: Atom)
    requires WellFormed(ctx.rels) && goal.Call? && NoDups(Finals(goal.args))
    ensures Runnable(Initial(ctx, goal))
  {
    ZipInjective(Finals(goal.args));
    assert Initial(ctx, goal).stack[1..] == [];
  }
}
