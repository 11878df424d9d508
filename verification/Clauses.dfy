/** The clause evaluator: patterns, predicates, function bindings and the
    connectives, resolved relation by relation against a context. */
module Clauses {
  import opened Options
  import opened Relations
  import opened Sequences
  import opened RelationOps
  import opened Contexts
  import opened Search

  datatype Term = Variable(v: Var) | Constant(c: Value) | Blank

  datatype Clause =
    | Pattern(terms: seq<Term>)
    | Pred(f: string, args: seq<Term>)
    | Bind(f: string, args: seq<Term>, out: Var)
    | And(clauses: seq<Clause>)
    | Or(clauses: seq<Clause>)
    | OrJoin(required: seq<Var>, vars: seq<Var>, clauses: seq<Clause>)
    | Not(clauses: seq<Clause>)
    | NotJoin(vars: seq<Var>, clauses: seq<Clause>)

  /** Predicates and functions are uninterpreted; a function may return nil, here None. */
  datatype World = World(src: Source, indexed: set<Value>,
                         pred: (string, seq<Value>) -> bool, fun: (string, seq<Value>) -> Option<Value>)

  datatype Ctx = Ctx(rels: seq<Rel>, consts: map<Var, Value>)

  /** Pending is the nil result that makes the scheduler try the clause again later. */
  datatype Outcome = Ok(ctx: Ctx) | Pending | Raised

  function Height(c: Clause): nat
    decreases c, 1
  {
    match c
    case Pattern(_) => 0
    case Pred(_, _) => 0
    case Bind(_, _, _) => 0
    case And(cs) => 1 + HeightAll(cs)
    case Or(cs) => 1 + HeightAll(cs)
    case OrJoin(_, _, cs) => 1 + HeightAll(cs)
    case Not(cs) => 1 + HeightAll(cs)
    case NotJoin(_, cs) => 1 + HeightAll(cs)
  }

  function HeightAll(cs: seq<Clause>): nat
    decreases cs, 0
  {
    if cs == [] then 0 else
      var h := HeightAll(cs[1..]);
      if Height(cs[0]) > h then Height(cs[0]) else h
  }

  // ------------------------------------------------------------------ variables

  function TermVars(terms: seq<Term>): set<Var> {
    if terms == [] then {} else
      (if terms[0].Variable? then {terms[0].v} else {}) + TermVars(terms[1..])
  }

  /** The variables in order, repetitions included. */
  function TermVarSeq(terms: seq<Term>): seq<Var> {
    if terms == [] then [] else
      (if terms[0].Variable? then [terms[0].v] else []) + TermVarSeq(terms[1..])
  }

  /** All variables written in a clause. */
  function ClauseVars(c: Clause): set<Var>
    decreases c, 1
  {
    match c
    case Pattern(terms) => TermVars(terms)
    case Pred(_, args) => TermVars(args)
    case Bind(_, args, out) => TermVars(args) + {out}
    case And(cs) => ClausesVars(cs)
    case Or(cs) => ClausesVars(cs)
    case OrJoin(req, vars, cs) => VarSet(req) + VarSet(vars) + ClausesVars(cs)
    case Not(cs) => ClausesVars(cs)
    case NotJoin(vars, cs) => VarSet(vars) + ClausesVars(cs)
  }

  function ClausesVars(cs: seq<Clause>): set<Var>
    decreases cs, 0
  {
    if cs == [] then {} else ClauseVars(cs[0]) + ClausesVars(cs[1..])
  }

  function VarSet(vs: seq<Var>): set<Var> {
    if vs == [] then {} else {vs[0]} + VarSet(vs[1..])
  }

  /** Variables a clause adds to the context. */
  function Binds(c: Clause): set<Var>
    decreases c, 1
  {
    match c
    case Pattern(terms) => TermVars(terms)
    case Pred(_, _) => {}
    case Bind(_, _, out) => {out}
    case And(cs) => BindsAll(cs)
    case Or(cs) => FirstBinds(cs)
    case OrJoin(req, vars, cs) => FirstBinds(cs) * (VarSet(req) + VarSet(vars))
    case Not(_) => {}
    case NotJoin(_, _) => {}
  }

  function FirstBinds(cs: seq<Clause>): set<Var>
    decreases cs, 0
  {
    if cs == [] then {} else Binds(cs[0])
  }

  function BindsAll(cs: seq<Clause>): set<Var>
    decreases cs, 0
  {
    if cs == [] then {} else Binds(cs[0]) + BindsAll(cs[1..])
  }

  function Bound(ctx: Ctx): set<Var> {
    VarsAll(ctx.rels) + ctx.consts.Keys
  }

  /** `check-all-bound`: a subset test that first compares sizes, so that a list that
      repeats a variable can be longer than the set of bound variables. */
  predicate AllBound(ctx: Ctx, vs: seq<Var>) {
    |vs| <= |Bound(ctx)| && VarSet(vs) <= Bound(ctx)
  }

  // ------------------------------------------------------------------- patterns

  /** `var-mapping`: each variable is read at its last position. */
  function VarKeys(terms: seq<Term>): seq<Var> {
    if terms == [] then [] else
      var (init, last) := (terms[..|terms| - 1], terms[|terms| - 1]);
      if last.Variable? && last.v !in VarCols(init) then VarKeys(init) + [last.v] else VarKeys(init)
  }

  function VarCols(terms: seq<Term>): map<Var, Col> {
    if terms == [] then map[] else
      var (init, last) := (terms[..|terms| - 1], terms[|terms| - 1]);
      if last.Variable? then VarCols(init)[last.v := At(|terms| - 1)] else VarCols(init)
  }

  /** The cleaned pattern element: constants put in, unbound variables and blanks nil. */
  function SlotOf(ctx: Ctx, t: Term): Slot {
    match t
    case Blank => Wild
    case Constant(c) => if c == Nil then Wild else Const(c)
    case Variable(v) =>
      if v in ctx.consts then (if ctx.consts[v] == Nil then Wild else Const(ctx.consts[v]))
      else if v in VarsAll(ctx.rels) then Known(v) else Wild
  }

  function SlotsOf(ctx: Ctx, terms: seq<Term>): (r: seq<Slot>)
    ensures |r| == 5
    ensures forall i :: 0 <= i < 5 ==> r[i] == if i < |terms| then SlotOf(ctx, terms[i]) else Wild
  {
    seq(5, i requires 0 <= i < 5 => if i < |terms| then SlotOf(ctx, terms[i]) else Wild)
  }

  /** `validate-pattern`. */
  predicate ValidSlots(slots: seq<Slot>)
    requires |slots| == 5
  {
    && (slots[0].Const? ==> slots[0].c.Int?)
    && (slots[1].Const? ==> slots[1].c.Int? || slots[1].c.Kw?)
    && (slots[3].Const? ==> slots[3].c.Int?)
    && (slots[4].Const? ==> slots[4].c.Bool?)
  }

  /** The strategy table: which elements an index lookup can use. */
  function StrategyVec(e: bool, a: bool, v: bool, t: bool, indexed: bool): (s: seq<Strategy>)
    ensures |s| == 4
  {
    if e then [Substitute, if a then Substitute else Skip,
               if !v then Skip else if a then Substitute else Filter,
               if !t then Skip else if a && v then Substitute else Filter]
    else if a then [Skip, Substitute,
                    if !v then Skip else if indexed then Substitute else Filter,
                    if t then Filter else Skip]
    else [Skip, Skip, if v then Filter else Skip, if t then Filter else Skip]
  }

  function StrategyOf(w: World, slots: seq<Slot>): (s: seq<Strategy>)
    requires |slots| == 5
    ensures |s| == 4
  {
    StrategyVec(slots[0] != Wild, slots[1] != Wild, slots[2] != Wild, slots[3] != Wild,
                slots[1].Const? && slots[1].c in w.indexed)
  }

  /** `distinct-tuples`. */
  function Distinct(ts: seq<Tuple>): (r: seq<Tuple>)
    ensures forall t :: t in r <==> t in ts
  {
    if ts == [] then [] else
      var r := Distinct(ts[..|ts| - 1]);
      if ts[|ts| - 1] in ts[..|ts| - 1] then r else r + [ts[|ts| - 1]]
  }

  /** Each tuple stays once. */
  lemma {:induction false} DistinctOnce(ts: seq<Tuple>, t: Tuple)
    ensures multiset(Distinct(ts))[t] == if t in ts then 1 else 0
  {
    if ts != [] {
      var init, last := ts[..|ts| - 1], ts[|ts| - 1];
      DistinctOnce(init, t);
      assert ts == init + [last];
    }
  }

  function PatternRel(w: World, ctx: Ctx, terms: seq<Term>): Rel {
    var slots := SlotsOf(ctx, terms);
    Rel(VarKeys(terms), VarCols(terms), Distinct(BatchSearch(w.src, slots, StrategyOf(w, slots), ctx.rels)))
  }

  // ------------------------------------------------------ predicates and functions

  /** Constants that the code's truth tests let through. */
  predicate Truthy(v: Value) {
    v != Nil && v != Bool(false)
  }

  /** `-call-fn`: an argument is a literal, a constant of the context, or a column. */
  function ArgOf(consts: map<Var, Value>, attrs: map<Var, Col>, t: Tuple, arg: Term): Value {
    match arg
    case Constant(c) => c
    case Blank => Nil
    case Variable(v) =>
      if v in consts && Truthy(consts[v]) then consts[v]
      else if v in attrs then Get(t, attrs[v]) else Nil
  }

  function ArgsOf(consts: map<Var, Value>, attrs: map<Var, Col>, t: Tuple, args: seq<Term>): (r: seq<Value>)
    ensures |r| == |args|
    ensures forall i :: 0 <= i < |r| ==> r[i] == ArgOf(consts, attrs, t, args[i])
  {
    seq(|args|, i requires 0 <= i < |args| => ArgOf(consts, attrs, t, args[i]))
  }

  function Passing(w: World, f: string, consts: map<Var, Value>, attrs: map<Var, Col>, args: seq<Term>,
                   ts: seq<Tuple>): (r: seq<Tuple>)
    ensures forall t :: t in r <==> t in ts && w.pred(f, ArgsOf(consts, attrs, t, args))
  {
    if ts == [] then [] else
      (if w.pred(f, ArgsOf(consts, attrs, ts[0], args)) then [ts[0]] else [])
      + Passing(w, f, consts, attrs, args, ts[1..])
  }

  function OutRel(out: Var, v: Value): Rel {
    Rel([out], map[out := At(0)], [Arr([v])])
  }

  /** Each tuple for which the function has a value, multiplied with that value. */
  function Bindings(w: World, f: string, consts: map<Var, Value>, prod: Rel, args: seq<Term>, out: Var,
                    ts: seq<Tuple>): seq<Tuple>
    requires Valid(prod)
  {
    if ts == [] then [] else
      OutRelGood(out, Nil);
      (match w.fun(f, ArgsOf(consts, prod.attrs, ts[0], args))
       case None => []
       case Some(v) => ProdRel(Rel(prod.keys, prod.attrs, [ts[0]]), OutRel(out, v)).tuples)
      + Bindings(w, f, consts, prod, args, out, ts[1..])
  }

  lemma {:induction false} OutRelGood(out: Var, v: Value)
    ensures Good(OutRel(out, v)) && OutRel(out, v).attrs.Keys == {out}
  {
    var r := OutRel(out, v);
    assert r.keys[..0] == [] && Elems(r.keys[..0]) == {};
    assert Elems(r.keys) == {out} == r.attrs.Keys;
    assert NoDups(r.keys[..0]);
    assert forall u, w :: SameCol(r.attrs, u, w) ==> u == w;
  }

  /** The output columns are compared with the context's constants. */
  predicate MeetsConsts(consts: map<Var, Value>, attrs: map<Var, Col>, t: Tuple) {
    forall v :: v in attrs && v in consts && Truthy(consts[v]) ==> Get(t, attrs[v]) == consts[v]
  }

  function FilterConsts(consts: map<Var, Value>, attrs: map<Var, Col>, ts: seq<Tuple>): (r: seq<Tuple>)
    ensures forall t :: t in r <==> t in ts && MeetsConsts(consts, attrs, t)
  {
    if ts == [] then [] else
      (if MeetsConsts(consts, attrs, ts[0]) then [ts[0]] else []) + FilterConsts(consts, attrs, ts[1..])
  }

  function BindRel(w: World, consts: map<Var, Value>, prod: Rel, f: string, args: seq<Term>, out: Var): Rel
    requires Valid(prod)
  {
    var attrs := ProdAttrs(prod, OutRel(out, Nil));
    Rel(JoinKeys(prod, OutRel(out, Nil)), attrs,
        FilterConsts(consts, attrs, Bindings(w, f, consts, prod, args, out, prod.tuples)))
  }

  // ------------------------------------------------------------------- evaluation

  /** A resolved context: well-formed, with the variables in `vs` added. */
  ghost predicate Resolved(ctx: Ctx, vs: set<Var>, r: Outcome) {
    r.Ok? ==> WellFormed(r.ctx.rels) && r.ctx.consts == ctx.consts && VarsAll(r.ctx.rels) == VarsAll(ctx.rels) + vs
  }

  function Collapsed(ctx: Ctx, r: Rel): (o: Outcome)
    requires WellFormed(ctx.rels) && Good(r)
    ensures o.Ok? && Resolved(ctx, r.attrs.Keys, o)
  {
    assert [] + ctx.rels == ctx.rels;
    CollapseWellFormed(ctx.rels, r, []);
    Ok(ctx.(rels := Collapse(ctx.rels, r, [])))
  }

  lemma {:induction false} VarColsGood(terms: seq<Term>)
    ensures NoDups(VarKeys(terms)) && Elems(VarKeys(terms)) == VarCols(terms).Keys == TermVars(terms)
    ensures forall v :: v in VarCols(terms) ==>
      VarCols(terms)[v].At? && VarCols(terms)[v].i < |terms| && terms[VarCols(terms)[v].i] == Variable(v)
  {
    if terms != [] {
      var init, last := terms[..|terms| - 1], terms[|terms| - 1];
      VarColsGood(init);
      TermVarsSnoc(terms);
      if last.Variable? && last.v !in VarCols(init) {
        var keys := VarKeys(init);
        assert (keys + [last.v])[..|keys|] == keys;
        assert VarKeys(terms) == keys + [last.v] && Elems(keys + [last.v]) == Elems(keys) + {last.v};
      }
    }
  }

  lemma {:induction false} TermVarsSnoc(terms: seq<Term>)
    requires terms != []
    ensures TermVars(terms) == TermVars(terms[..|terms| - 1])
        + (if terms[|terms| - 1].Variable? then {terms[|terms| - 1].v} else {})
  {
    if |terms| > 1 {
      assert terms[1..][..|terms| - 2] == terms[..|terms| - 1][1..];
      TermVarsSnoc(terms[1..]);
    }
  }

  function ResolvePattern(w: World, ctx: Ctx, terms: seq<Term>): (o: Outcome)
    requires WellFormed(ctx.rels)
    ensures Resolved(ctx, TermVars(terms), o) && o != Pending
  {
    if |terms| > 5 || !ValidSlots(SlotsOf(ctx, terms)) then Raised else
      VarColsGood(terms);
      assert forall u, v :: SameCol(VarCols(terms), u, v) ==> u == v;
      Collapsed(ctx, PatternRel(w, ctx, terms))
  }

  function Product(ctx: Ctx, vs: set<Var>): (r: Rel)
    requires WellFormed(ctx.rels)
    ensures Good(r) && r.attrs.Keys == VarsAll(Having(ctx.rels, vs, true))
  {
    HavingSplit(ctx.rels, vs, map[]);
    ProdAll(Having(ctx.rels, vs, true))
  }

  function Others(ctx: Ctx, vs: set<Var>): (rels: seq<Rel>)
    requires WellFormed(ctx.rels)
    ensures WellFormed(rels) && VarsAll(rels) == VarsAll(Having(ctx.rels, vs, false))
  {
    HavingSplit(ctx.rels, vs, map[]);
    Having(ctx.rels, vs, false)
  }

  lemma {:induction false} SwapProduct(ctx: Ctx, vs: set<Var>, kept: Rel)
    requires WellFormed(ctx.rels) && Good(kept) && kept.attrs.Keys == VarsAll(Having(ctx.rels, vs, true))
    ensures WellFormed([kept] + Others(ctx, vs)) && VarsAll([kept] + Others(ctx, vs)) == VarsAll(ctx.rels)
  {
    HavingSplit(ctx.rels, vs, map[]);
    Single(kept, map[]);
    Concat([kept], Others(ctx, vs));
  }

  /** `filter-by-pred`, after the check that all arguments are bound. */
  function ResolvePred(w: World, ctx: Ctx, f: string, args: seq<Term>): (o: Outcome)
    requires WellFormed(ctx.rels)
    ensures Resolved(ctx, {}, o) && o != Pending
  {
    if !AllBound(ctx, TermVarSeq(args)) then Raised else
      var prod := Product(ctx, TermVars(args));
      var kept := prod.(tuples := Passing(w, f, ctx.consts, prod.attrs, args, prod.tuples));
      SwapProduct(ctx, TermVars(args), kept);
      Ok(ctx.(rels := [kept] + Others(ctx, TermVars(args))))
  }

  lemma {:induction false} BindRelGood(w: World, consts: map<Var, Value>, prod: Rel, f: string, args: seq<Term>,
                                       out: Var)
    requires Valid(prod)
    ensures Good(BindRel(w, consts, prod, f, args, out))
    ensures BindRel(w, consts, prod, f, args, out).attrs.Keys == prod.attrs.Keys + {out}
  {
    OutRelGood(out, Nil);
    ProdValid(prod, OutRel(out, Nil));
  }

  /** `bind-by-fn`: pending until every argument has a value. */
  function ResolveBind(w: World, ctx: Ctx, f: string, args: seq<Term>, out: Var): (o: Outcome)
    requires WellFormed(ctx.rels)
    ensures Resolved(ctx, {out}, o)
  {
    if !(TermVars(args) <= Bound(ctx)) then Pending else
      HavingSplit(ctx.rels, TermVars(args), map[]);
      var prod := Product(ctx, TermVars(args));
      BindRelGood(w, ctx.consts, prod, f, args, out);
      var o := Collapsed(ctx.(rels := Others(ctx, TermVars(args))), BindRel(w, ctx.consts, prod, f, args, out));
      o
  }

  function Limited(rels: seq<Rel>, lim: Option<set<Var>>): (r: seq<Rel>)
    requires WellFormed(rels)
    ensures WellFormed(r)
    ensures VarsAll(r) == if lim.Some? then VarsAll(rels) * lim.value else VarsAll(rels)
  {
    match lim
    case None => rels
    case Some(vs) =>
      LimitWellFormed(rels, vs);
      LimitRels(rels, vs)
  }

  function Within'(vs: set<Var>, lim: Option<set<Var>>): set<Var> {
    if lim.Some? then vs * lim.value else vs
  }

  /** `(reduce hash-join (:rels ctx))` of a resolved branch; None is an error. */
  function BranchRel(ctx: Ctx, vs: set<Var>, lim: Option<set<Var>>, o: Outcome): (r: Option<Rel>)
    requires WellFormed(ctx.rels) && Resolved(ctx, vs, o)
    ensures r.Some? ==> Good(r.value) && r.value.attrs.Keys == Within'(VarsAll(ctx.rels) + vs, lim)
  {
    if !o.Ok? || Limited(o.ctx.rels, lim) == [] then None
    else Some(JoinAll(Limited(o.ctx.rels, lim)))
  }

  function SumOf(a: Option<Rel>, b: Option<Rel>): (r: Option<Rel>)
    requires (a.Some? ==> Good(a.value)) && (b.Some? ==> Good(b.value))
    ensures r.Some? ==>
        a.Some? && b.Some? && Good(r.value) && r.value.attrs.Keys == a.value.attrs.Keys == b.value.attrs.Keys
    ensures r.Some? ==> forall x :: Holds(r.value, x) <==> Holds(a.value, x) || Holds(b.value, x)
  {
    if a.None? || b.None? then None else
      SumGood(a.value, b.value);
      SumRel(a.value, b.value)
  }

  lemma {:induction false} SumGood(a: Rel, b: Rel)
    requires Good(a) && Good(b)
    ensures SumRel(a, b).Some? ==> Good(SumRel(a, b).value)
    ensures SumRel(a, b).Some? ==> forall x :: Holds(SumRel(a, b).value, x) <==> Holds(a, x) || Holds(b, x)
  {
    if a.attrs.Keys == b.attrs.Keys {
      SumHolds(a, b, map[]);
      forall x ensures Holds(SumRel(a, b).value, x) <==> Holds(a, x) || Holds(b, x) {
        SumHolds(a, b, x);
      }
    }
  }

  /** The context with all its relations joined into one. */
  function JoinCtx(ctx: Ctx): (r: Ctx)
    requires WellFormed(ctx.rels) && ctx.rels != []
    ensures WellFormed(r.rels) && VarsAll(r.rels) == VarsAll(ctx.rels) && r.consts == ctx.consts
  {
    Single(JoinAll(ctx.rels), map[]);
    ctx.(rels := [JoinAll(ctx.rels)])
  }

  /** `limit-context`. */
  function LimitCtx(ctx: Ctx, vs: set<Var>): (r: Ctx)
    requires WellFormed(ctx.rels)
    ensures WellFormed(r.rels) && VarsAll(r.rels) == VarsAll(ctx.rels) * vs && r.consts == ctx.consts
  {
    LimitWellFormed(ctx.rels, vs);
    ctx.(rels := LimitRels(ctx.rels, vs))
  }

  /** The result of `or`: the sum of the branches replaces the relations. */
  function Replaced(ctx: Ctx, vs: set<Var>, sum: Option<Rel>): (o: Outcome)
    requires sum.Some? ==> Good(sum.value) && sum.value.attrs.Keys == VarsAll(ctx.rels) + vs
    ensures Resolved(ctx, vs, o) && o != Pending
  {
    match sum
    case None => Raised
    case Some(r) =>
      Single(r, map[]);
      Ok(ctx.(rels := [r]))
  }

  /** The result of `or-join`: the sum of the branches is collapsed into the context. */
  function Combined(ctx: Ctx, vs: set<Var>, lim: set<Var>, sum: Option<Rel>): (o: Outcome)
    requires WellFormed(ctx.rels) && vs <= lim
    requires sum.Some? ==> Good(sum.value) && sum.value.attrs.Keys == VarsAll(ctx.rels) * lim + vs
    ensures Resolved(ctx, vs, o) && o != Pending
  {
    match sum
    case None => Raised
    case Some(r) => Collapsed(ctx, r)
  }

  /** The difference of the joined context and a resolved negation. */
  function Negated(ctx: Ctx, lim: Option<set<Var>>, o: Outcome): (r: Outcome)
    requires WellFormed(ctx.rels) && ctx.rels != []
    requires o.Ok? ==> WellFormed(o.ctx.rels)
    ensures Resolved(ctx, {}, r) && r != Pending
  {
    if !o.Ok? || Limited(o.ctx.rels, lim) == [] then Raised else
      var neg := SubtractRel(JoinAll(ctx.rels), JoinAll(Limited(o.ctx.rels, lim)));
      Single(neg, map[]);
      Ok(ctx.(rels := [neg]))
  }

  function ResolveLeaf(w: World, ctx: Ctx, c: Clause): (o: Outcome)
    requires WellFormed(ctx.rels) && (c.Pattern? || c.Pred? || c.Bind?)
    ensures Resolved(ctx, Binds(c), o)
    ensures o == Pending ==> c.Bind?
  {
    match c
    case Pattern(terms) => ResolvePattern(w, ctx, terms)
    case Pred(f, args) => ResolvePred(w, ctx, f, args)
    case Bind(f, args, out) => ResolveBind(w, ctx, f, args, out)
  }

  function ResolveClause(w: World, ctx: Ctx, c: Clause): (o: Outcome)
    requires WellFormed(ctx.rels)
    ensures Resolved(ctx, Binds(c), o)
    ensures o == Pending ==> c.Bind?
    decreases Height(c), 1, 0
  {
    match c
    case Pattern(_) => ResolveLeaf(w, ctx, c)
    case Pred(_, _) => ResolveLeaf(w, ctx, c)
    case Bind(_, _, _) => ResolveLeaf(w, ctx, c)
    case And(cs) => assert Binds(c) == BindsAll(cs); ResolveClauses(w, ctx, cs)
    case Or(cs) => assert Binds(c) == FirstBinds(cs); ResolveOr(w, ctx, cs)
    case OrJoin(req, vars, cs) =>
      assert Binds(c) == FirstBinds(cs) * (VarSet(req) + VarSet(vars)); ResolveOrJoin(w, ctx, req, vars, cs)
    case Not(cs) => assert Binds(c) == {}; ResolveNot(w, ctx, cs)
    case NotJoin(vars, cs) => assert Binds(c) == {}; ResolveNotJoin(w, ctx, vars, cs)
  }

  function ResolveOr(w: World, ctx: Ctx, cs: seq<Clause>): (o: Outcome)
    requires WellFormed(ctx.rels)
    ensures Resolved(ctx, FirstBinds(cs), o) && o != Pending
    decreases 1 + HeightAll(cs), 0, 0
  {
    Replaced(ctx, FirstBinds(cs), ResolveBranches(w, ctx, None, cs))
  }

  lemma {:induction false} LimitTwice(a: set<Var>, b: set<Var>, lim: set<Var>)
    ensures (a * lim + b) * lim == a * lim + b * lim
  {}

  function ResolveOrJoin(w: World, ctx: Ctx, req: seq<Var>, vars: seq<Var>, cs: seq<Clause>): (o: Outcome)
    requires WellFormed(ctx.rels)
    ensures Resolved(ctx, FirstBinds(cs) * (VarSet(req) + VarSet(vars)), o) && o != Pending
    decreases 1 + HeightAll(cs), 0, 0
  {
    if !AllBound(ctx, req) then Raised else
      var vs := VarSet(req) + VarSet(vars);
      LimitTwice(VarsAll(ctx.rels), FirstBinds(cs), vs);
      Combined(ctx, FirstBinds(cs) * vs, vs, ResolveBranches(w, LimitCtx(ctx, vs), Some(vs), cs))
  }

  function ResolveNot(w: World, ctx: Ctx, cs: seq<Clause>): (o: Outcome)
    requires WellFormed(ctx.rels)
    ensures Resolved(ctx, {}, o) && o != Pending
    decreases 1 + HeightAll(cs), 0, 0
  {
    if ClausesVars(cs) * Bound(ctx) == {} || ctx.rels == [] then Raised else
      Negated(ctx, None, ResolveClauses(w, JoinCtx(ctx), cs))
  }

  function ResolveNotJoin(w: World, ctx: Ctx, vars: seq<Var>, cs: seq<Clause>): (o: Outcome)
    requires WellFormed(ctx.rels)
    ensures Resolved(ctx, {}, o) && o != Pending
    decreases 1 + HeightAll(cs), 0, 0
  {
    if !AllBound(ctx, vars) || ctx.rels == [] then Raised else
      Negated(ctx, Some(VarSet(vars)), ResolveClauses(w, LimitCtx(JoinCtx(ctx), VarSet(vars)), cs))
  }

  /** The sum of the joined relations of each branch. */
  function ResolveBranches(w: World, ctx: Ctx, lim: Option<set<Var>>, cs: seq<Clause>): (r: Option<Rel>)
    requires WellFormed(ctx.rels)
    ensures r.Some? ==>
        cs != [] && Good(r.value) && r.value.attrs.Keys == Within'(VarsAll(ctx.rels) + FirstBinds(cs), lim)
    decreases HeightAll(cs), 2, |cs|
  {
    if cs == [] then None
    else
      HeightSnoc(cs);
      var last := cs[|cs| - 1];
      var b := BranchRel(ctx, Binds(last), lim, ResolveClause(w, ctx, last));
      if |cs| == 1 then b else SumOf(ResolveBranches(w, ctx, lim, cs[..|cs| - 1]), b)
  }

  lemma {:induction false} HeightSnoc(cs: seq<Clause>)
    requires cs != []
    ensures Height(cs[|cs| - 1]) <= HeightAll(cs) && HeightAll(cs[..|cs| - 1]) <= HeightAll(cs)
  {
    if |cs| > 1 {
      assert cs[1..][..|cs| - 2] == cs[..|cs| - 1][1..];
      HeightSnoc(cs[1..]);
    }
  }

  /** `reduce-clauses`: one pass; clauses that are still pending are collected. */
  function ReduceClauses(w: World, ctx: Ctx, cs: seq<Clause>): (r: (Outcome, seq<Clause>))
    requires WellFormed(ctx.rels)
    ensures r.0.Ok? ==> WellFormed(r.0.ctx.rels) && r.0.ctx.consts == ctx.consts && r.0 != Pending
    ensures r.0.Ok? ==> VarsAll(r.0.ctx.rels) + BindsAll(r.1) == VarsAll(ctx.rels) + BindsAll(cs)
    ensures |r.1| <= |cs| && HeightAll(r.1) <= HeightAll(cs)
    decreases HeightAll(cs), 2, |cs|
  {
    if cs == [] then (Ok(ctx), [])
    else match ResolveClause(w, ctx, cs[0])
      case Raised => (Raised, [])
      case Pending =>
        var r := ReduceClauses(w, ctx, cs[1..]);
        assert ([cs[0]] + r.1)[1..] == r.1;
        (r.0, [cs[0]] + r.1)
      case Ok(next) => ReduceClauses(w, next, cs[1..])
  }

  /** `resolve-clauses`: passes until no clause is left, or none makes progress. */
  function ResolveClauses(w: World, ctx: Ctx, cs: seq<Clause>): (o: Outcome)
    requires WellFormed(ctx.rels)
    ensures Resolved(ctx, BindsAll(cs), o) && o != Pending
    decreases HeightAll(cs), 3, |cs|
  {
    if cs == [] then Ok(ctx) else
      var (o, failed) := ReduceClauses(w, ctx, cs);
      if !o.Ok? || |failed| == |cs| then Raised else ResolveClauses(w, o.ctx, failed)
  }
}
