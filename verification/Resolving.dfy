/** When a clause resolves: the outcome depends on the text of the clause, on the variables
    that are bound and on the constants, never on the data. */
module Resolving {
  import opened Options
  import opened Relations
  import opened Sequences
  import opened RelationOps
  import opened Contexts
  import opened Search
  import opened Clauses
  import opened Semantics
  import opened Schedule
  import opened Evaluator
  import opened Flat

  // -------------------------------------------------------------- the condition

  /** What the outcome depends on: the variables of the relations, whether there are any
      relations, and the constants. */
  datatype Scope = Scope(vars: set<Var>, some: bool, consts: map<Var, Value>)

  function ScopeOf(ctx: Ctx): Scope {
    Scope(VarsAll(ctx.rels), ctx.rels != [], ctx.consts)
  }

  function InScope(s: Scope): set<Var> {
    s.vars + s.consts.Keys
  }

  /** A list of variables passes the check if they are all bound, and are not listed more
      often than there are bound variables. */
  predicate Checked(s: Scope, vs: seq<Var>) {
    VarSet(vs) <= InScope(s) && |vs| <= |InScope(s)|
  }

  /** Only conjunctions of nothing leave a context without relations as it is. */
  predicate Adds(c: Clause)
    decreases c, 1
  {
    c.And? ==> AddsAny(c.clauses)
  }

  predicate AddsAny(cs: seq<Clause>)
    decreases cs, 0
  {
    cs != [] && (Adds(cs[0]) || AddsAny(cs[1..]))
  }

  function After(s: Scope, c: Clause): Scope {
    Scope(s.vars + Binds(c), s.some || Adds(c), s.consts)
  }

  function AfterAll(s: Scope, cs: seq<Clause>): Scope {
    Scope(s.vars + BindsAll(cs), s.some || AddsAny(cs), s.consts)
  }

  /** The scope cut down to some variables: relations without any of them are dropped. */
  function LimitedTo(s: Scope, vs: set<Var>): Scope {
    Scope(s.vars * vs, s.vars * vs != {}, s.consts)
  }

  function Joined(s: Scope): Scope {
    Scope(s.vars, true, s.consts)
  }

  /** The clause resolves: patterns are valid, arguments bound, and
      - conjunctions have a schedule in which every clause resolves in its turn;
      - branches resolve, leave relations and bind the same variables;
      - negations have some variable bound, those of `not-join` and the required ones of
        `or-join` are all bound. */
  predicate Resolves(s: Scope, c: Clause)
    decreases Height(c), 1, 0
  {
    match c
    case Pattern(_) => PatternOk(s.consts, c)
    case Pred(_, args) => Checked(s, TermVarSeq(args))
    case Bind(_, args, _) => TermVars(args) <= InScope(s)
    case And(cs) => Conjoins(s, cs)
    case Or(cs) => cs != [] && Branches(s, None, FirstBinds(cs), cs)
    case OrJoin(req, vars, cs) => OrJoinScope(s, req, vars, cs)
    case Not(cs) => ClausesVars(cs) * InScope(s) != {} && s.some && Conjoins(Joined(s), cs)
    case NotJoin(vars, cs) => s.some && NotJoinScope(s, vars, cs)
  }

  predicate OrJoinScope(s: Scope, req: seq<Var>, vars: seq<Var>, cs: seq<Clause>)
    decreases 1 + HeightAll(cs), 0, 0
  {
    var vs := VarSet(req) + VarSet(vars);
    Checked(s, req) && cs != [] && Branches(LimitedTo(s, vs), Some(vs), FirstBinds(cs), cs)
  }

  predicate NotJoinScope(s: Scope, vars: seq<Var>, cs: seq<Clause>)
    decreases 1 + HeightAll(cs), 0, 0
  {
    var vs := VarSet(vars);
    Checked(s, vars) && Conjoins(LimitedTo(s, vs), cs) && (s.vars * vs + BindsAll(cs)) * vs != {}
  }

  /** The scheduler gets through: every clause has its turn, and resolves in it. */
  predicate Conjoins(s: Scope, cs: seq<Clause>)
    decreases HeightAll(cs), 3, |cs|
  {
    var order := Order(InScope(s), cs);
    |order| == |cs| && InTurn(s, order)
  }

  predicate InTurn(s: Scope, cs: seq<Clause>)
    decreases HeightAll(cs), 2, |cs|
  {
    cs == [] || (Resolves(s, cs[0]) && InTurn(After(s, cs[0]), cs[1..]))
  }

  predicate Branches(s: Scope, lim: Option<set<Var>>, binds: set<Var>, cs: seq<Clause>)
    decreases HeightAll(cs), 2, |cs|
  {
    if cs == [] then true else
      HeightSnoc(cs);
      var last := cs[|cs| - 1];
      && Branches(s, lim, binds, cs[..|cs| - 1])
      && Resolves(s, last) && LeavesSome(After(s, last), lim)
      && Within'(s.vars + Binds(last), lim) == Within'(s.vars + binds, lim)
  }

  predicate LeavesSome(s: Scope, lim: Option<set<Var>>) {
    match lim
    case None => s.some
    case Some(vs) => s.vars * vs != {}
  }

  // ------------------------------------------------------------------ single clauses

  lemma {:induction false} LimitSome(rels: seq<Rel>, vs: set<Var>)
    ensures LimitRels(rels, vs) != [] <==> VarsAll(rels) * vs != {}
  {
    if rels != [] {
      LimitSome(rels[1..], vs);
      var attrs := LimitAttrs(rels[0], vs);
      assert attrs.Keys == rels[0].attrs.Keys * vs;
      assert attrs == map[] <==> attrs.Keys == {};
      assert VarsAll(rels) * vs == attrs.Keys + VarsAll(rels[1..]) * vs;
    }
  }

  lemma {:induction false} ScopeAfter(ctx: Ctx, c: Clause, next: Ctx)
    requires WellFormed(ctx.rels) && Resolved(ctx, Binds(c), Outcome.Ok(next))
             && (next.rels != [] <==> ctx.rels != [] || Adds(c))
    ensures ScopeOf(next) == After(ScopeOf(ctx), c)
  {}

  lemma {:induction false} CollapseSome(rels: seq<Rel>, newRel: Rel, acc: seq<Rel>)
    requires AllGood(rels) && Good(newRel)
    ensures Collapse(rels, newRel, acc) != []
  {
    if rels != [] {
      if rels[0].attrs.Keys * newRel.attrs.Keys != {} {
        JoinGood(rels[0], newRel);
        CollapseSome(rels[1..], JoinRel(rels[0], newRel), acc);
      } else {
        CollapseSome(rels[1..], newRel, acc + [rels[0]]);
      }
    }
  }

  lemma {:induction false} CheckedIs(ctx: Ctx, vs: seq<Var>)
    ensures AllBound(ctx, vs) <==> Checked(ScopeOf(ctx), vs)
  {
    assert InScope(ScopeOf(ctx)) == Bound(ctx);
  }

  lemma {:induction false} PatternResolves(w: World, ctx: Ctx, c: Clause)
    requires WellFormed(ctx.rels) && c.Pattern?
    ensures ResolveClause(w, ctx, c).Ok? <==> PatternOk(ctx.consts, c)
    ensures ResolveClause(w, ctx, c).Ok? ==> ResolveClause(w, ctx, c).ctx.rels != []
  {
    PatternOkAnywhere(w, ctx, c);
    if ResolveClause(w, ctx, c).Ok? {
      VarColsGood(c.terms);
      CollapseSome(ctx.rels, PatternRel(w, ctx, c.terms), []);
    }
  }

  lemma {:induction false} BindResolves(w: World, ctx: Ctx, c: Clause)
    requires WellFormed(ctx.rels) && c.Bind?
    ensures ResolveClause(w, ctx, c).Ok? <==> TermVars(c.args) <= Bound(ctx)
    ensures ResolveClause(w, ctx, c).Ok? ==> ResolveClause(w, ctx, c).ctx.rels != []
  {
    if TermVars(c.args) <= Bound(ctx) {
      HavingSplit(ctx.rels, TermVars(c.args), map[]);
      var prod := Product(ctx, TermVars(c.args));
      BindRelGood(w, ctx.consts, prod, c.f, c.args, c.out);
      CollapseSome(Others(ctx, TermVars(c.args)), BindRel(w, ctx.consts, prod, c.f, c.args, c.out), []);
    }
  }

  lemma {:induction false} LeafResolves(w: World, ctx: Ctx, c: Clause)
    requires WellFormed(ctx.rels) && IsFlat(c)
    ensures ResolveClause(w, ctx, c).Ok? <==> Resolves(ScopeOf(ctx), c)
    ensures ResolveClause(w, ctx, c).Ok? ==> ScopeOf(ResolveClause(w, ctx, c).ctx) == After(ScopeOf(ctx), c)
  {
    match c
    case Pattern(_) => PatternResolves(w, ctx, c);
    case Pred(_, args) => CheckedIs(ctx, TermVarSeq(args));
    case Bind(_, _, _) => BindResolves(w, ctx, c);
    var o := ResolveClause(w, ctx, c);
    if o.Ok? { ScopeAfter(ctx, c, o.ctx); }
  }

  // -------------------------------------------------------------- the scheduler

  lemma {:induction false} AddsConcat(s: seq<Clause>, t: seq<Clause>)
    ensures AddsAny(s + t) <==> AddsAny(s) || AddsAny(t)
  {
    if s == [] {
      assert s + t == t;
    } else {
      assert (s + t)[1..] == s[1..] + t;
      AddsConcat(s[1..], t);
    }
  }

  lemma {:induction false} AddsFrom(cs: seq<Clause>)
    ensures AddsAny(cs) <==> exists c :: c in multiset(cs) && Adds(c)
    decreases |cs|
  {
    if cs != [] {
      assert cs == [cs[0]] + cs[1..];
      assert cs[0] in multiset(cs);
      AddsFrom(cs[1..]);
    }
  }

  /** If the clauses of a pass resolve one after the other, the pass succeeds. */
  lemma {:induction false} PassSucceeds(w: World, ctx: Ctx, cs: seq<Clause>)
    requires WellFormed(ctx.rels) && FoldClauses(w, ctx, Pass(Bound(ctx), cs).0).Ok?
    ensures ReduceClauses(w, ctx, cs).0.Ok?
    decreases |cs|
  {
    if cs != [] {
      PendingIff(w, ctx, cs[0]);
      if Enabled(Bound(ctx), cs[0]) {
        var r := Pass(Bound(ctx) + Binds(cs[0]), cs[1..]);
        assert ([cs[0]] + r.0)[1..] == r.0;
        var next := ResolveClause(w, ctx, cs[0]).ctx;
        assert Bound(next) == Bound(ctx) + Binds(cs[0]);
        PassSucceeds(w, next, cs[1..]);
      } else {
        PassSucceeds(w, ctx, cs[1..]);
      }
    }
  }

  lemma {:induction false} FoldStep(w: World, ctx: Ctx, cs: seq<Clause>, o: Outcome)
    requires WellFormed(ctx.rels) && cs != [] && o == ResolveClause(w, ctx, cs[0])
    ensures FoldClauses(w, ctx, cs) == if o.Ok? then FoldClauses(w, o.ctx, cs[1..]) else Raised
  {}

  lemma {:induction false} FoldParts(w: World, ctx: Ctx, s: seq<Clause>, t: seq<Clause>)
    requires WellFormed(ctx.rels) && FoldClauses(w, ctx, s + t).Ok?
    ensures FoldClauses(w, ctx, s).Ok? && FoldClauses(w, FoldClauses(w, ctx, s).ctx, t) == FoldClauses(w, ctx, s + t)
    decreases |s|
  {
    if s == [] {
      assert s + t == t;
    } else {
      var all, o := s + t, ResolveClause(w, ctx, s[0]);
      assert all[0] == s[0] && all[1..] == s[1..] + t;
      FoldStep(w, ctx, all, o);
      FoldStep(w, ctx, s, o);
      FoldParts(w, o.ctx, s[1..], t);
    }
  }

  /** The scheduler succeeds exactly if every clause has its turn and resolves in it. */
  lemma {:induction false} FoldSucceeds(w: World, ctx: Ctx, cs: seq<Clause>, bound: set<Var>)
    requires WellFormed(ctx.rels) && bound == Bound(ctx)
    ensures ResolveClauses(w, ctx, cs).Ok? <==> Schedulable(bound, cs) && FoldClauses(w, ctx, Order(bound, cs)).Ok?
    decreases |cs|
  {
    if ResolveClauses(w, ctx, cs).Ok? { ResolveIsFold(w, ctx, cs); }
    if cs != [] && Schedulable(bound, cs) && FoldClauses(w, ctx, Order(bound, cs)).Ok? {
      var p := Pass(bound, cs);
      var more := bound + BindsAll(p.0);
      FoldParts(w, ctx, p.0, Order(more, p.1));
      PassSucceeds(w, ctx, cs);
      ReduceIsFold(w, ctx, cs);
      OrderLength(more, p.1);
      FoldSucceeds(w, ReduceClauses(w, ctx, cs).0.ctx, p.1, more);
    }
  }

  // ------------------------------------------------------------------ all clauses

  /** Exactly the clauses that meet the condition resolve, and what is in scope then. */
  lemma {:induction false} ClauseResolves(w: World, ctx: Ctx, c: Clause)
    requires WellFormed(ctx.rels)
    ensures ResolveClause(w, ctx, c).Ok? <==> Resolves(ScopeOf(ctx), c)
    ensures ResolveClause(w, ctx, c).Ok? ==> ScopeOf(ResolveClause(w, ctx, c).ctx) == After(ScopeOf(ctx), c)
    decreases Height(c), 1, 0
  {
    match c
    case Pattern(_) => LeafResolves(w, ctx, c);
    case Pred(_, _) => LeafResolves(w, ctx, c);
    case Bind(_, _, _) => LeafResolves(w, ctx, c);
    case And(cs) => ClausesResolve(w, ctx, cs);
    case Or(cs) => JoinScope(w, ctx, c);
    case OrJoin(req, vars, cs) => JoinScope(w, ctx, c);
    case Not(cs) => JoinScope(w, ctx, c);
    case NotJoin(vars, cs) => JoinScope(w, ctx, c);
  }

  /** Disjunctions and negations leave at least one relation. */
  lemma {:induction false} JoinResolves(w: World, ctx: Ctx, c: Clause)
    requires WellFormed(ctx.rels) && (c.Or? || c.OrJoin? || c.Not? || c.NotJoin?)
    ensures ResolveClause(w, ctx, c).Ok? <==> Resolves(ScopeOf(ctx), c)
    ensures ResolveClause(w, ctx, c).Ok? ==> ResolveClause(w, ctx, c).ctx.rels != []
    decreases Height(c), 0, 2
  {
    match c
    case Or(cs) => BranchesResolve(w, ctx, None, FirstBinds(cs), cs);
    case OrJoin(req, vars, cs) => OrJoinResolves(w, ctx, req, vars, cs);
    case Not(cs) => if ctx.rels != [] { NotResolves(w, ctx, cs); }
    case NotJoin(vars, cs) => if ctx.rels != [] { NotJoinResolves(w, ctx, vars, cs); }
  }

  lemma {:induction false} JoinScope(w: World, ctx: Ctx, c: Clause)
    requires WellFormed(ctx.rels) && (c.Or? || c.OrJoin? || c.Not? || c.NotJoin?)
    ensures ResolveClause(w, ctx, c).Ok? <==> Resolves(ScopeOf(ctx), c)
    ensures ResolveClause(w, ctx, c).Ok? ==> ScopeOf(ResolveClause(w, ctx, c).ctx) == After(ScopeOf(ctx), c)
    decreases Height(c), 0, 3
  {
    JoinResolves(w, ctx, c);
    var o := ResolveClause(w, ctx, c);
    if o.Ok? { ScopeAfter(ctx, c, o.ctx); }
  }

  lemma {:induction false} NotResolves(w: World, ctx: Ctx, cs: seq<Clause>)
    requires WellFormed(ctx.rels) && ctx.rels != []
    ensures ResolveNot(w, ctx, cs).Ok? <==>
        ClausesVars(cs) * InScope(ScopeOf(ctx)) != {} && Conjoins(Joined(ScopeOf(ctx)), cs)
    ensures ResolveNot(w, ctx, cs).Ok? ==> ResolveNot(w, ctx, cs).ctx.rels != []
    decreases 1 + HeightAll(cs), 0, 1
  {
    assert InScope(ScopeOf(ctx)) == Bound(ctx);
    assert ScopeOf(JoinCtx(ctx)) == Joined(ScopeOf(ctx));
    ClausesResolve(w, JoinCtx(ctx), cs);
  }

  lemma {:induction false} LimitScope(ctx: Ctx, vs: set<Var>)
    requires WellFormed(ctx.rels)
    ensures ScopeOf(LimitCtx(ctx, vs)) == LimitedTo(ScopeOf(ctx), vs)
  {
    LimitSome(ctx.rels, vs);
  }

  lemma {:induction false} OrJoinResolves(w: World, ctx: Ctx, req: seq<Var>, vars: seq<Var>, cs: seq<Clause>)
    requires WellFormed(ctx.rels)
    ensures ResolveOrJoin(w, ctx, req, vars, cs).Ok? <==> OrJoinScope(ScopeOf(ctx), req, vars, cs)
    ensures ResolveOrJoin(w, ctx, req, vars, cs).Ok? ==> ResolveOrJoin(w, ctx, req, vars, cs).ctx.rels != []
    decreases 1 + HeightAll(cs), 0, 1
  {
    var vs := VarSet(req) + VarSet(vars);
    var lim := LimitCtx(ctx, vs);
    LimitScope(ctx, vs);
    BranchesResolve(w, lim, Some(vs), FirstBinds(cs), cs);
    var sum := ResolveBranches(w, lim, Some(vs), cs);
    if sum.Some? { CollapseSome(ctx.rels, sum.value, []); }
    CheckedIs(ctx, req);
    OrJoinIs(w, ctx, req, vars, cs, vs, sum);
  }

  lemma {:induction false} OrJoinIs(w: World, ctx: Ctx, req: seq<Var>, vars: seq<Var>, cs: seq<Clause>, vs: set<Var>,
                                    sum: Option<Rel>)
    requires WellFormed(ctx.rels) && vs == VarSet(req) + VarSet(vars)
             && sum == ResolveBranches(w, LimitCtx(ctx, vs), Some(vs), cs)
    requires sum.Some? ==> Collapse(ctx.rels, sum.value, []) != []
    ensures ResolveOrJoin(w, ctx, req, vars, cs).Ok? <==> AllBound(ctx, req) && sum.Some?
    ensures ResolveOrJoin(w, ctx, req, vars, cs).Ok? ==> ResolveOrJoin(w, ctx, req, vars, cs).ctx.rels != []
  {
    LimitTwice(VarsAll(ctx.rels), FirstBinds(cs), vs);
  }

  lemma {:induction false} NotJoinResolves(w: World, ctx: Ctx, vars: seq<Var>, cs: seq<Clause>)
    requires WellFormed(ctx.rels) && ctx.rels != []
    ensures ResolveNotJoin(w, ctx, vars, cs).Ok? <==> NotJoinScope(ScopeOf(ctx), vars, cs)
    ensures ResolveNotJoin(w, ctx, vars, cs).Ok? ==> ResolveNotJoin(w, ctx, vars, cs).ctx.rels != []
    decreases 1 + HeightAll(cs), 0, 1
  {
    var vs := VarSet(vars);
    var lim := LimitCtx(JoinCtx(ctx), vs);
    LimitScope(JoinCtx(ctx), vs);
    ClausesResolve(w, lim, cs);
    var o := ResolveClauses(w, lim, cs);
    if o.Ok? { LimitSome(o.ctx.rels, vs); }
    CheckedIs(ctx, vars);
    NegatedIs(ctx, vs, o);
    NotJoinIs(w, ctx, vars, cs, vs, o);
  }

  lemma {:induction false} NegatedIs(ctx: Ctx, vs: set<Var>, o: Outcome)
    requires WellFormed(ctx.rels) && ctx.rels != [] && (o.Ok? ==> WellFormed(o.ctx.rels))
    ensures Negated(ctx, Some(vs), o).Ok? <==> o.Ok? && LimitRels(o.ctx.rels, vs) != []
    ensures Negated(ctx, Some(vs), o).Ok? ==> Negated(ctx, Some(vs), o).ctx.rels != []
  {}

  lemma {:induction false} NotJoinIs(w: World, ctx: Ctx, vars: seq<Var>, cs: seq<Clause>, vs: set<Var>, o: Outcome)
    requires WellFormed(ctx.rels) && ctx.rels != [] && vs == VarSet(vars)
    requires o == ResolveClauses(w, LimitCtx(JoinCtx(ctx), vs), cs)
    ensures ResolveNotJoin(w, ctx, vars, cs) == if AllBound(ctx, vars) then Negated(ctx, Some(vs), o) else Raised
  {}

  lemma {:induction false} ClausesResolve(w: World, ctx: Ctx, cs: seq<Clause>)
    requires WellFormed(ctx.rels)
    ensures ResolveClauses(w, ctx, cs).Ok? <==> Conjoins(ScopeOf(ctx), cs)
    ensures ResolveClauses(w, ctx, cs).Ok? ==> ScopeOf(ResolveClauses(w, ctx, cs).ctx) == AfterAll(ScopeOf(ctx), cs)
    decreases HeightAll(cs), 3, |cs|
  {
    var order := Order(Bound(ctx), cs);
    FoldSucceeds(w, ctx, cs, Bound(ctx));
    TurnsResolve(w, ctx, order);
    if ResolveClauses(w, ctx, cs).Ok? {
      ResolveIsFold(w, ctx, cs);
      OrderIsPermutation(Bound(ctx), cs);
      AddsFrom(cs);
      AddsFrom(order);
    }
  }

  lemma {:induction false} TurnsResolve(w: World, ctx: Ctx, cs: seq<Clause>)
    requires WellFormed(ctx.rels)
    ensures FoldClauses(w, ctx, cs).Ok? <==> InTurn(ScopeOf(ctx), cs)
    ensures FoldClauses(w, ctx, cs).Ok? ==> ScopeOf(FoldClauses(w, ctx, cs).ctx) == AfterAll(ScopeOf(ctx), cs)
    decreases HeightAll(cs), 2, |cs|
  {
    if cs != [] {
      ClauseResolves(w, ctx, cs[0]);
      var o := ResolveClause(w, ctx, cs[0]);
      if o.Ok? { TurnsResolve(w, o.ctx, cs[1..]); }
    }
  }

  lemma {:induction false} LastBranch(s: Scope, lim: Option<set<Var>>, binds: set<Var>, cs: seq<Clause>, last: Clause)
    requires cs != [] && last == cs[|cs| - 1]
    ensures Branches(s, lim, binds, cs) <==>
        && Branches(s, lim, binds, cs[..|cs| - 1]) && Resolves(s, last) && LeavesSome(After(s, last), lim)
        && Within'(s.vars + Binds(last), lim) == Within'(s.vars + binds, lim)
  {
    HeightSnoc(cs);
  }

  /** The sum of the branches needs the same variables on both sides. */
  lemma {:induction false} LastSum(w: World, ctx: Ctx, lim: Option<set<Var>>, cs: seq<Clause>, last: Clause,
                                   a: Option<Rel>, b: Option<Rel>)
    requires WellFormed(ctx.rels) && |cs| > 1 && last == cs[|cs| - 1]
    requires a == ResolveBranches(w, ctx, lim, cs[..|cs| - 1])
             && b == BranchRel(ctx, Binds(last), lim, ResolveClause(w, ctx, last))
    ensures ResolveBranches(w, ctx, lim, cs).Some? <==>
        && a.Some? && b.Some?
        && Within'(VarsAll(ctx.rels) + Binds(last), lim) == Within'(VarsAll(ctx.rels) + FirstBinds(cs), lim)
  {
    assert cs[..|cs| - 1][0] == cs[0];
  }

  lemma {:induction false} BranchesResolve(w: World, ctx: Ctx, lim: Option<set<Var>>, binds: set<Var>, cs: seq<Clause>)
    requires WellFormed(ctx.rels) && binds == FirstBinds(cs)
    ensures ResolveBranches(w, ctx, lim, cs).Some? <==> cs != [] && Branches(ScopeOf(ctx), lim, binds, cs)
    decreases HeightAll(cs), 2, |cs|
  {
    if cs != [] {
      HeightSnoc(cs);
      var last, init := cs[|cs| - 1], cs[..|cs| - 1];
      var b := BranchRel(ctx, Binds(last), lim, ResolveClause(w, ctx, last));
      BranchResolves(w, ctx, lim, last, b);
      LastBranch(ScopeOf(ctx), lim, binds, cs, last);
      if |cs| > 1 {
        assert FirstBinds(init) == binds;
        BranchesResolve(w, ctx, lim, binds, init);
        LastSum(w, ctx, lim, cs, last, ResolveBranches(w, ctx, lim, init), b);
      } else {
        assert init == [];
      }
    }
  }

  lemma {:induction false} BranchResolves(w: World, ctx: Ctx, lim: Option<set<Var>>, c: Clause, b: Option<Rel>)
    requires WellFormed(ctx.rels) && b == BranchRel(ctx, Binds(c), lim, ResolveClause(w, ctx, c))
    ensures b.Some? <==> Resolves(ScopeOf(ctx), c) && LeavesSome(After(ScopeOf(ctx), c), lim)
    decreases Height(c), 2, 0
  {
    var o := ResolveClause(w, ctx, c);
    ClauseResolves(w, ctx, c);
    if o.Ok? && lim.Some? { LimitSome(o.ctx.rels, lim.value); }
  }

  /** Whether a clause raises does not depend on the data. */
  lemma {:induction false} RaisesAlike(w: World, v: World, ctx: Ctx, other: Ctx, c: Clause)
    requires WellFormed(ctx.rels) && WellFormed(other.rels) && ScopeOf(ctx) == ScopeOf(other)
    ensures ResolveClause(w, ctx, c).Ok? <==> ResolveClause(v, other, c).Ok?
    ensures ResolveClause(w, ctx, c) == Raised <==> ResolveClause(v, other, c) == Raised
  {
    ClauseResolves(w, ctx, c);
    ClauseResolves(v, other, c);
    PendingIff(w, ctx, c);
    PendingIff(v, other, c);
    assert Bound(ctx) == InScope(ScopeOf(ctx)) == Bound(other);
  }

  /** A clause that meets the condition resolves, to exactly what it means. */
  lemma {:induction false} ClauseTotal(w: World, ctx: Ctx, c: Clause, b: Asg)
    requires Sane(w, ctx) && Resolves(ScopeOf(ctx), c) && Regular(w, ctx, c) && b.Keys == VarsAll(ctx.rels) + Binds(c)
    ensures ResolveClause(w, ctx, c).Ok?
    ensures HoldsAll(ResolveClause(w, ctx, c).ctx.rels, b)
       <==> HoldsAll(ctx.rels, b) && Ext(w, ctx.consts, c, Cut(b, VarsAll(ctx.rels)), b)
  {
    ClauseResolves(w, ctx, c);
    ClauseExact(w, ctx, c, b);
  }

  // ---------------------------------------------------------- single connectives

  /** Patterns and function clauses resolve in any order in which their arguments are bound. */
  lemma {:induction false} WaitingInTurn(s: Scope, cs: seq<Clause>, bound: set<Var>)
    requires bound == InScope(s) && ValidSeq(bound, cs) && AllWaiting(cs) && forall c :: c in multiset(cs) ==>
        PatternOk(s.consts, c)
    ensures InTurn(s, cs)
    decreases |cs|
  {
    if cs != [] {
      assert cs == [cs[0]] + cs[1..];
      assert cs[0] in multiset(cs);
      WaitingInTurn(After(s, cs[0]), cs[1..], bound + Binds(cs[0]));
    }
  }

  lemma {:induction false} WaitingConjoins(s: Scope, cs: seq<Clause>)
    requires AllWaiting(cs) && Schedulable(InScope(s), cs) && forall c :: c in multiset(cs) ==> PatternOk(s.consts, c)
    ensures Conjoins(s, cs)
  {
    var order := Order(InScope(s), cs);
    OrderValid(InScope(s), cs);
    OrderIsPermutation(InScope(s), cs);
    WaitingIn(cs);
    WaitingIn(order);
    WaitingInTurn(s, order, InScope(s));
  }

  /** A negation of patterns and function clauses resolves if one variable is bound, new
      variables or not, and raises if none is. */
  lemma {:induction false} NotNeedsOne(w: World, ctx: Ctx, cs: seq<Clause>)
    requires WellFormed(ctx.rels) && ctx.rels != [] && AllWaiting(cs) && Schedulable(Bound(ctx), cs)
    requires forall c :: c in multiset(cs) ==> PatternOk(ctx.consts, c)
    ensures ResolveClause(w, ctx, Not(cs)) == Raised <==> ClausesVars(cs) !! Bound(ctx)
    ensures ClausesVars(cs) * Bound(ctx) != {} ==> ResolveClause(w, ctx, Not(cs)).Ok?
  {
    var s := ScopeOf(ctx);
    assert InScope(s) == Bound(ctx) && InScope(Joined(s)) == Bound(ctx);
    WaitingConjoins(Joined(s), cs);
    ClauseResolves(w, ctx, Not(cs));
  }

  /** `not-join` needs all of its variables, and at least one in a relation. */
  lemma {:induction false} NotJoinNeedsAll(w: World, ctx: Ctx, vars: seq<Var>, cs: seq<Clause>)
    requires WellFormed(ctx.rels) && ctx.rels != [] && AllWaiting(cs) && NoDups(vars)
    requires Schedulable(VarsAll(ctx.rels) * VarSet(vars) + ctx.consts.Keys, cs)
    requires forall c :: c in multiset(cs) ==> PatternOk(ctx.consts, c)
    requires (VarsAll(ctx.rels) + BindsAll(cs)) * VarSet(vars) != {}
    ensures ResolveClause(w, ctx, NotJoin(vars, cs)).Ok? <==> VarSet(vars) <= Bound(ctx)
    ensures ResolveClause(w, ctx, NotJoin(vars, cs)) == Raised <==> !(VarSet(vars) <= Bound(ctx))
  {
    assert InScope(ScopeOf(ctx)) == Bound(ctx);
    NotJoinWaiting(ScopeOf(ctx), vars, cs, VarSet(vars));
    NotJoinOutcome(w, ctx, vars, cs);
  }

  lemma {:induction false} NotJoinOutcome(w: World, ctx: Ctx, vars: seq<Var>, cs: seq<Clause>)
    requires WellFormed(ctx.rels) && ctx.rels != []
    ensures ResolveClause(w, ctx, NotJoin(vars, cs)).Ok? <==> NotJoinScope(ScopeOf(ctx), vars, cs)
    ensures ResolveClause(w, ctx, NotJoin(vars, cs)) != Pending
  {
    ClauseResolves(w, ctx, NotJoin(vars, cs));
    PendingIff(w, ctx, NotJoin(vars, cs));
  }

  lemma {:induction false} NotJoinWaiting(s: Scope, vars: seq<Var>, cs: seq<Clause>, vs: set<Var>)
    requires vs == VarSet(vars) && AllWaiting(cs) && NoDups(vars) && (s.vars + BindsAll(cs)) * vs != {}
    requires Schedulable(s.vars * vs + s.consts.Keys, cs) && forall c :: c in multiset(cs) ==> PatternOk(s.consts, c)
    ensures NotJoinScope(s, vars, cs) <==> vs <= InScope(s)
  {
    WaitingConjoins(LimitedTo(s, vs), cs);
    CountDistinct(vars);
    if vs <= InScope(s) { Smaller(vs, InScope(s)); }
    assert (s.vars * vs + BindsAll(cs)) * vs == (s.vars + BindsAll(cs)) * vs;
  }

  lemma {:induction false} CountDistinct(vs: seq<Var>)
    requires NoDups(vs)
    ensures |VarSet(vs)| == |vs| && VarSet(vs) == Elems(vs)
  {
    if vs != [] {
      var init, last := vs[..|vs| - 1], vs[|vs| - 1];
      CountDistinct(init);
      VarSetSnoc(vs);
      assert |VarSet(init) + {last}| == |VarSet(init)| + 1;
    }
  }

  lemma {:induction false} VarSetSnoc(vs: seq<Var>)
    requires vs != []
    ensures VarSet(vs) == VarSet(vs[..|vs| - 1]) + {vs[|vs| - 1]}
  {
    if |vs| > 1 {
      assert vs[1..][..|vs| - 2] == vs[..|vs| - 1][1..];
      VarSetSnoc(vs[1..]);
    }
  }

  /** The clause leaves the same variables as one that binds `binds`. */
  predicate Alike(s: Scope, binds: set<Var>, c: Clause) {
    s.vars + Binds(c) == s.vars + binds
  }

  /** An `or` whose branches resolve and bind the same variables resolves, and one whose
      branches bind different ones raises. */
  lemma {:induction false} OrNeedsSame(w: World, ctx: Ctx, cs: seq<Clause>)
    requires WellFormed(ctx.rels) && cs != [] && ctx.rels != []
    requires forall i :: 0 <= i < |cs| ==> ResolveClause(w, ctx, cs[i]).Ok?
    ensures ResolveClause(w, ctx, Or(cs)).Ok? <==> forall i :: 0 <= i < |cs| ==>
        Alike(ScopeOf(ctx), Binds(cs[0]), cs[i])
    ensures ResolveClause(w, ctx, Or(cs)) != Pending
  {
    forall i | 0 <= i < |cs| ensures Resolves(ScopeOf(ctx), cs[i]) { ClauseResolves(w, ctx, cs[i]); }
    ClauseResolves(w, ctx, Or(cs));
    BranchesAlike(ScopeOf(ctx), cs, FirstBinds(cs));
    PendingIff(w, ctx, Or(cs));
  }

  lemma {:induction false} AlikeSnoc(s: Scope, binds: set<Var>, init: seq<Clause>, last: Clause)
    ensures (forall i :: 0 <= i < |init + [last]| ==> Alike(s, binds, (init + [last])[i])) <==>
        (forall i :: 0 <= i < |init| ==> Alike(s, binds, init[i])) && Alike(s, binds, last)
  {
    var cs := init + [last];
    assert cs[|init|] == last;
    forall i | 0 <= i < |init| ensures cs[i] == init[i] {}
  }

  lemma {:induction false} BranchesAlike(s: Scope, cs: seq<Clause>, binds: set<Var>)
    requires s.some && forall i :: 0 <= i < |cs| ==> Resolves(s, cs[i])
    ensures Branches(s, None, binds, cs) <==> forall i :: 0 <= i < |cs| ==> Alike(s, binds, cs[i])
    decreases |cs|
  {
    if cs != [] {
      var init, last := cs[..|cs| - 1], cs[|cs| - 1];
      assert cs == init + [last];
      LastBranch(s, None, binds, cs, last);
      forall i | 0 <= i < |init| ensures Resolves(s, init[i]) { assert init[i] == cs[i]; }
      BranchesAlike(s, init, binds);
      AlikeSnoc(s, binds, init, last);
    }
  }

  /** A required variable of `or-join` that is not bound raises. */
  lemma {:induction false} RequiredBound(w: World, ctx: Ctx, req: seq<Var>, vars: seq<Var>, cs: seq<Clause>)
    requires WellFormed(ctx.rels) && !(VarSet(req) <= Bound(ctx))
    ensures ResolveClause(w, ctx, OrJoin(req, vars, cs)) == Raised
  {
    CheckedIs(ctx, req);
    OrJoinChecks(ScopeOf(ctx), req, vars, cs);
    ClauseResolves(w, ctx, OrJoin(req, vars, cs));
  }

  lemma {:induction false} OrJoinChecks(s: Scope, req: seq<Var>, vars: seq<Var>, cs: seq<Clause>)
    requires !Checked(s, req)
    ensures !Resolves(s, OrJoin(req, vars, cs))
  {}
}
