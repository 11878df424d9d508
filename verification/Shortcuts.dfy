/** Where the engine gives up exactness: each shortcut with an input that shows it, and,
    where there is one, the exact condition under which it does no harm. */
module Shortcuts {
  import opened Options
  import opened Relations
  import opened Sequences
  import opened RelationOps
  import opened Contexts
  import opened Search
  import opened Clauses
  import opened Collecting
  import opened Semantics
  import opened Schedule
  import opened Evaluator
  import opened Flat
  import opened Rules
  import opened RuleSemantics
  import opened RuleFrames
  import opened RuleTrees
  import opened RuleSoundness
  import opened RuleCompleteness
  import opened RuleTermination
  import opened RuleStatic

  // ------------------------------------------------------------- a scanning index

  predicate Selects(strat: seq<Strategy>, probe: seq<Value>, d: Tuple) {
    |strat| == 4 && |probe| == 5 ==> forall i :: 0 <= i < 4 && strat[i] == Substitute && probe[i] != Nil ==>
      Get(d, At(i)) == probe[i]
  }

  function Scan(datoms: seq<Tuple>, strat: seq<Strategy>, probe: seq<Value>): (r: seq<Tuple>)
    ensures forall d :: d in r <==> d in datoms && Selects(strat, probe, d)
  {
    if datoms == [] then [] else
      (if Selects(strat, probe, datoms[0]) then [datoms[0]] else []) + Scan(datoms[1..], strat, probe)
  }

  function Scanning(datoms: seq<Tuple>): Source {
    Source(datoms, (strat, probe) => Scan(datoms, strat, probe))
  }

  /** A plain scan keeps what is asked of an index lookup. */
  lemma {:induction false} ScanOk(datoms: seq<Tuple>)
    ensures LookupOk(Scanning(datoms))
  {
    var src := Scanning(datoms);
    forall strat: seq<Strategy>, probe: seq<Value>, d: Tuple | |strat| == 4 && |probe| == 5
      ensures d in src.lookup(strat, probe) <==> d in datoms && Selects(strat, probe, d)
      ensures Equals(strat, probe, d) ==> Selects(strat, probe, d)
    {}
  }

  function ScanWorld(datoms: seq<Tuple>): World {
    World(Scanning(datoms), {}, (f, xs) => false, (f, xs) => Option.None)
  }

  // ------------------------------------------------ a variable twice in a pattern

  /** The relation of a pattern, on its own, is what the pattern means. */
  ghost predicate Faithful(w: World, terms: seq<Term>, b: Asg) {
    Holds(PatternRel(w, Ctx([], map[]), terms), b) <==> PatternSat(w, map[], terms, b)
  }

  /** A datom with a different value at each position that is not a constant. */
  function Witness(terms: seq<Term>): Tuple {
    Arr(seq(5, i requires 0 <= i < 5 => if i < |terms| && terms[i].Constant?
      && terms[i].c != Nil then terms[i].c else Int(i)))
  }

  lemma {:induction false} WitnessFound(terms: seq<Term>)
    requires |terms| <= 5
    ensures var d := Witness(terms); d in PatternRel(ScanWorld([d]), Ctx([], map[]), terms).tuples
  {
    var d := Witness(terms);
    var w, ctx := ScanWorld([d]), Ctx([], map[]);
    var slots := SlotsOf(ctx, terms);
    ScanOk([d]);
    StrategyFits(w, slots);
    forall i | 0 <= i < 5 ensures !slots[i].Known? && (slots[i].Const? ==> Get(d, At(i)) == slots[i].c) {}
    assert HoldsAll(ctx.rels, map[]) && Joins(slots, map[], d);
    BatchSearchExact(w.src, slots, StrategyOf(w, slots), ctx.rels, d);
  }

  /** A variable keeps only its last position: a pattern is faithful in every database if
      and only if it does not repeat a variable. */
  lemma {:induction false} RepeatedVariable(terms: seq<Term>)
    requires |terms| <= 5
    ensures (forall w: World, b: Asg :: LookupOk(w.src) ==> Faithful(w, terms, b)) <==> DistinctVars(terms)
  {
    if DistinctVars(terms) {
      forall w: World, b: Asg | LookupOk(w.src) ensures Faithful(w, terms, b) {
        PatternRelHolds(w, Ctx([], map[]), terms, b);
      }
    } else {
      var d := Witness(terms);
      var w := ScanWorld([d]);
      var b := Row(VarCols(terms), d);
      ScanOk([d]);
      WitnessFound(terms);
      assert Meets(VarCols(terms), d, b);
      assert Holds(PatternRel(w, Ctx([], map[]), terms), b);
      NoMatch(terms, b);
      assert !Faithful(w, terms, b);
    }
  }

  lemma {:induction false} NoMatch(terms: seq<Term>, b: Asg)
    requires |terms| <= 5 && !DistinctVars(terms)
    ensures !PatternSat(ScanWorld([Witness(terms)]), map[], terms, b)
  {
    var d := Witness(terms);
    var i, j :| 0 <= i < j < |terms| && terms[i].Variable? && terms[j].Variable? && terms[i] == terms[j];
    assert Get(d, At(i)) == Int(i) && Get(d, At(j)) == Int(j);
    assert !(MatchTerm(terms[i], b, Get(d, At(i))) && MatchTerm(terms[j], b, Get(d, At(j))));
  }

  // ---------------------------------------- a function whose output is already there

  /** At `b`, the function clause denotes what it means. */
  ghost predicate BindFaithful(w: World, ctx: Ctx, f: string, args: seq<Term>, out: Var, b: Asg)
    requires WellFormed(ctx.rels) && TermVars(args) <= Bound(ctx)
  {
    HoldsAll(ResolveBind(w, ctx, f, args, out).ctx.rels, b)
    <==> HoldsAll(ctx.rels, b) && BindSat(w, ctx.consts, f, args, out, Cut(b, VarsAll(ctx.rels)), b)
  }

  /** What the relations after a function clause are made of. */
  lemma {:induction false} BindParts(w: World, ctx: Ctx, f: string, args: seq<Term>, out: Var, b: Asg)
    requires WellFormed(ctx.rels) && TermVars(args) <= Bound(ctx) && ConstsTruthy(ctx.consts)
    ensures var prod := Product(ctx, TermVars(args));
            HoldsAll(ResolveBind(w, ctx, f, args, out).ctx.rels, b)
            <==> HoldsAll(Others(ctx, TermVars(args)), b) && AgreesConsts(ctx.consts, b, prod.attrs.Keys + {out})
                 && AnyBinds(w, f, ctx.consts, prod.attrs, args, out, prod.tuples, b)
  {
    var prod := Product(ctx, TermVars(args));
    HavingSplit(ctx.rels, TermVars(args), b);
    BindRelGood(w, ctx.consts, prod, f, args, out);
    BindRelHolds(w, ctx.consts, prod, f, args, out, b);
    CollapseHolds(Others(ctx, TermVars(args)), BindRel(w, ctx.consts, prod, f, args, out), [], b);
  }

  /** The arguments of a product's tuple are those of the assignment it meets. */
  lemma {:induction false} ProductArgs(ctx: Ctx, args: seq<Term>, t: Tuple, b: Asg)
    requires WellFormed(ctx.rels) && TermVars(args) <= Bound(ctx) && ConstsTruthy(ctx.consts)
    requires Meets(Product(ctx, TermVars(args)).attrs, t, b)
    ensures ArgsOf(ctx.consts, Product(ctx, TermVars(args)).attrs, t, args)
        == ValsOf(ctx.consts, Cut(b, VarsAll(ctx.rels)), args)
  {
    var attrs, vars := Product(ctx, TermVars(args)).attrs, VarsAll(ctx.rels);
    HavingSplit(ctx.rels, TermVars(args), b);
    assert vars + attrs.Keys == vars;
    ArgsAre(ctx.consts, attrs, vars, t, args, b);
  }

  /** An assignment of the context is one of the product and of the other relations. */
  lemma {:induction false} ProductSplit(ctx: Ctx, vs: set<Var>, b: Asg)
    requires WellFormed(ctx.rels)
    ensures HoldsAll(ctx.rels, b) <==> Holds(Product(ctx, vs), b) && HoldsAll(Others(ctx, vs), b)
    ensures Product(ctx, vs).attrs.Keys !! VarsAll(Others(ctx, vs))
    ensures Product(ctx, vs).attrs.Keys + VarsAll(Others(ctx, vs)) == VarsAll(ctx.rels)
  {
    HavingSplit(ctx.rels, vs, b);
    ProdAllHolds(Having(ctx.rels, vs, true), b);
  }

  /** No assignment is lost. */
  lemma {:induction false} BindFinds(w: World, ctx: Ctx, f: string, args: seq<Term>, out: Var, b: Asg)
    requires WellFormed(ctx.rels) && TermVars(args) <= Bound(ctx) && ConstsTruthy(ctx.consts) && ConstOk(ctx)
    requires HoldsAll(ctx.rels, b) && BindSat(w, ctx.consts, f, args, out, Cut(b, VarsAll(ctx.rels)), b)
    ensures var prod := Product(ctx, TermVars(args));
            && HoldsAll(Others(ctx, TermVars(args)), b) && AgreesConsts(ctx.consts, b, prod.attrs.Keys + {out})
            && AnyBinds(w, f, ctx.consts, prod.attrs, args, out, prod.tuples, b)
  {
    var prod := Product(ctx, TermVars(args));
    ProductSplit(ctx, TermVars(args), b);
    var t :| t in prod.tuples && Meets(prod.attrs, t, b);
    ProductArgs(ctx, args, t, b);
    assert BindsTo(w, f, ctx.consts, prod.attrs, args, out, t, b);
    assert AgreesConsts(ctx.consts, b, VarsAll(ctx.rels)) && prod.attrs.Keys <= VarsAll(ctx.rels);
    AgreesUnion(ctx.consts, b, prod.attrs.Keys, {out});
    assert AnyBinds(w, f, ctx.consts, prod.attrs, args, out, prod.tuples, b);
  }

  lemma {:induction false} BindKeeps(w: World, ctx: Ctx, f: string, args: seq<Term>, out: Var, b: Asg)
    requires WellFormed(ctx.rels) && TermVars(args) <= Bound(ctx) && ConstsTruthy(ctx.consts) && ConstOk(ctx)
    requires HoldsAll(ctx.rels, b) && BindSat(w, ctx.consts, f, args, out, Cut(b, VarsAll(ctx.rels)), b)
    ensures HoldsAll(ResolveBind(w, ctx, f, args, out).ctx.rels, b)
  {
    BindFinds(w, ctx, f, args, out, b);
    BindParts(w, ctx, f, args, out, b);
  }

  /** An assignment that comes out of the clause is one of the context, up to the output. */
  lemma {:induction false} BindFrom(w: World, ctx: Ctx, f: string, args: seq<Term>, out: Var, b: Asg)
    returns (t: Tuple, c: Asg)
    requires WellFormed(ctx.rels) && TermVars(args) <= Bound(ctx) && ConstsTruthy(ctx.consts)
    requires HoldsAll(ResolveBind(w, ctx, f, args, out).ctx.rels, b)
    ensures var prod := Product(ctx, TermVars(args));
            BindsTo(w, f, ctx.consts, prod.attrs, args, out, t, b) && Meets(prod.attrs, t, c)
              && AgreesConsts(ctx.consts, b, {out})
    ensures HoldsAll(ctx.rels, c) && out in b && out in c && c == b[out := c[out]]
  {
    var prod := Product(ctx, TermVars(args));
    BindParts(w, ctx, f, args, out, b);
    t :| t in prod.tuples && BindsTo(w, f, ctx.consts, prod.attrs, args, out, t, b);
    c := Restored(prod, out, t, b);
    assert Holds(prod, c);
    ProductSplit(ctx, TermVars(args), c);
    HoldsAgree(Others(ctx, TermVars(args)), b, c);
  }

  lemma {:induction false} Restored(prod: Rel, out: Var, t: Tuple, b: Asg) returns (c: Asg)
    requires Meets(prod.attrs - {out}, t, b) && out in b
    ensures Meets(prod.attrs, t, c) && out in c && c == b[out := c[out]] && (out !in prod.attrs ==> c == b)
  {
    c := if out in prod.attrs then b[out := Get(t, prod.attrs[out])] else b;
    forall v | v in prod.attrs ensures v in c && c[v] == Get(t, prod.attrs[v]) {
      if v != out { assert v in prod.attrs - {out}; }
    }
    assert b[out := b[out]] == b;
  }

  /** A constant output is compared with the constant, and so with the column. */
  lemma {:induction false} ConstantOutput(w: World, ctx: Ctx, f: string, args: seq<Term>, out: Var, b: Asg)
    requires WellFormed(ctx.rels) && TermVars(args) <= Bound(ctx) && ConstsTruthy(ctx.consts) && ConstOk(ctx)
    requires out in ctx.consts && out in VarsAll(ctx.rels) && HoldsAll(ResolveBind(w, ctx, f, args, out).ctx.rels, b)
    ensures HoldsAll(ctx.rels, b) && BindSat(w, ctx.consts, f, args, out, Cut(b, VarsAll(ctx.rels)), b)
  {
    var t, c := BindFrom(w, ctx, f, args, out, b);
    assert AgreesConsts(ctx.consts, c, VarsAll(ctx.rels));
    assert c[out] == ctx.consts[out] == b[out];
    assert c == b;
    ProductArgs(ctx, args, t, b);
  }

  /** For a function whose value the output's column does not hold, the column is overwritten. */
  lemma {:induction false} OutputOverwritten(ctx: Ctx, f: string, args: seq<Term>, out: Var) returns (w: World, b: Asg)
    requires WellFormed(ctx.rels) && TermVars(args) <= Bound(ctx) && ConstsTruthy(ctx.consts) && ConstOk(ctx)
    requires out in VarsAll(Having(ctx.rels, TermVars(args), true)) && out !in ctx.consts && !HasEmpty(ctx.rels)
    ensures !BindFaithful(w, ctx, f, args, out, b)
  {
    var vs, prod := TermVars(args), Product(ctx, TermVars(args));
    var a := Inhabited(ctx.rels);
    var u := NewValue(RelValues(ctx.rels));
    w := World(Scanning([]), {}, (g, xs) => false, (g, xs) => Option.Some(u));
    b := a[out := u];
    ProductSplit(ctx, vs, a);
    HoldsAgree(Others(ctx, vs), a, b);
    var t :| t in prod.tuples && Meets(prod.attrs, t, a);
    assert BindsTo(w, f, ctx.consts, prod.attrs, args, out, t, b);
    assert AgreesConsts(ctx.consts, a, VarsAll(ctx.rels));
    assert AgreesConsts(ctx.consts, b, prod.attrs.Keys + {out});
    BindParts(w, ctx, f, args, out, b);
    if HoldsAll(ctx.rels, b) { RelsIn(ctx.rels, b); }
  }

  lemma {:induction false} NewValue(vals: set<Value>) returns (u: Value)
    ensures u !in vals
  {
    var n := Highest(vals);
    u := Int(n + 1);
  }

  lemma {:induction false} Highest(vals: set<Value>) returns (n: int)
    ensures forall v :: v in vals && v.Int? ==> v.n <= n
  {
    if vals == {} {
      n := 0;
    } else {
      var v :| v in vals;
      n := Highest(vals - {v});
      if v.Int? && v.n > n { n := v.n; }
      assert forall x :: x in vals ==> x == v || x in vals - {v};
    }
  }

  /** A function clause denotes what it means, for every function, if and only if its output
      is not already a column of the relations with its arguments, or is a constant, or some
      relation is empty anyway. */
  lemma {:induction false} OutputExact(ctx: Ctx, f: string, args: seq<Term>, out: Var)
    requires WellFormed(ctx.rels) && TermVars(args) <= Bound(ctx) && ConstsTruthy(ctx.consts) && ConstOk(ctx)
    ensures (forall w: World, b: Asg :: BindFaithful(w, ctx, f, args, out, b))
       <==> out !in VarsAll(Having(ctx.rels, TermVars(args), true)) || out in ctx.consts || HasEmpty(ctx.rels)
  {
    if out !in VarsAll(Having(ctx.rels, TermVars(args), true)) {
      forall w: World, b: Asg ensures BindFaithful(w, ctx, f, args, out, b) { BindExact(w, ctx, f, args, out, b); }
    } else if out in ctx.consts || HasEmpty(ctx.rels) {
      HavingSplit(ctx.rels, TermVars(args), map[]);
      forall w: World, b: Asg ensures BindFaithful(w, ctx, f, args, out, b) {
        if HoldsAll(ctx.rels, b) && BindSat(w, ctx.consts, f, args, out, Cut(b, VarsAll(ctx.rels)), b) {
          BindKeeps(w, ctx, f, args, out, b);
        }
        if HoldsAll(ResolveBind(w, ctx, f, args, out).ctx.rels, b) {
          var t, c := BindFrom(w, ctx, f, args, out, b);
          HoldsHasNoEmpty(ctx.rels, c);
          ConstantOutput(w, ctx, f, args, out, b);
        }
      }
    } else {
      var w, b := OutputOverwritten(ctx, f, args, out);
    }
  }

  // ---------------------------------------------------- counting bound variables

  /** With all arguments bound, the check still fails exactly if they are listed more often
      than there are bound variables. */
  lemma {:induction false} BoundButRefused(w: World, ctx: Ctx, f: string, args: seq<Term>)
    requires WellFormed(ctx.rels) && TermVars(args) <= Bound(ctx)
    ensures ResolvePred(w, ctx, f, args) == Raised <==> |TermVarSeq(args)| > |Bound(ctx)|
  {
    TermVarSeqSet(args);
  }

  /** `[(= ?x ?x)]` is refused when ?x is all that is bound. */
  lemma {:induction false} SelfComparisonRefused(w: World, r: Rel, x: Var)
    requires Good(r) && r.attrs.Keys == {x}
    ensures ResolvePred(w, Ctx([r], map[]), "=", [Variable(x), Variable(x)]) == Raised
  {
    var ctx, args := Ctx([r], map[]), [Variable(x), Variable(x)];
    Single(r, map[]);
    assert args[1..] == [Variable(x)] && args[1..][1..] == [];
    assert TermVarSeq(args[1..]) == [x] + [];
    assert TermVarSeq(args) == [x] + [x];
    assert TermVars(args[1..]) == {x} + {};
    assert TermVars(args) == {x} + TermVars(args[1..]);
    assert Bound(ctx) == {x};
    BoundButRefused(w, ctx, "=", args);
  }

  // ------------------------------------------------------------- constants in calls

  /** The predicate clause on a constant keeps the context if the predicate is true of it. */
  ghost predicate ConstantFaithful(w: World, f: string, v: Var, c: Value, b: Asg) {
    var o := ResolvePred(w, Ctx([], map[v := c]), f, [Variable(v)]);
    o.Ok? && (HoldsAll(o.ctx.rels, b) <==> w.pred(f, [c]))
  }

  lemma {:induction false} PassingOne(w: World, f: string, consts: map<Var, Value>, attrs: map<Var, Col>,
                                      args: seq<Term>, t: Tuple)
    ensures Passing(w, f, consts, attrs, args, [t]) == if w.pred(f, ArgsOf(consts, attrs, t, args)) then [t] else []
  {
    assert [t][1..] == [] && Passing(w, f, consts, attrs, args, []) == [];
  }

  lemma {:induction false} ConstantBound(ctx: Ctx, v: Var, c: Value)
    requires ctx == Ctx([], map[v := c])
    ensures AllBound(ctx, TermVarSeq([Variable(v)])) && TermVars([Variable(v)]) == {v}
  {
    var ts := [Variable(v)];
    assert ts[1..] == [] && TermVars(ts) == {v} + {} && TermVarSeq(ts) == [v] + [];
    assert Bound(ctx) == {v} && VarSet([v]) == {v} by { assert [v][1..] == []; }
  }

  lemma {:induction false} ConstantResolved(w: World, ctx: Ctx, f: string, v: Var, c: Value, t: Tuple, x: Value)
    requires ctx == Ctx([], map[v := c]) && t == Arr([]) && x == (if c == Bool(false) then Nil else c)
    ensures ResolvePred(w, ctx, f, [Variable(v)]) ==
            Ok(ctx.(rels := [Rel([], map[], if w.pred(f, [x]) then [t] else [])]))
  {
    var ts := [Variable(v)];
    ConstantBound(ctx, v, c);
    assert Product(ctx, TermVars(ts)) == PROD_UNIT;
    PassingOne(w, f, ctx.consts, map[], ts, t);
    assert ArgsOf(ctx.consts, map[], t, ts) == [x];
  }

  lemma {:induction false} ConstantPassed(w: World, f: string, v: Var, c: Value, b: Asg)
    ensures var o := ResolvePred(w, Ctx([], map[v := c]), f, [Variable(v)]);
            o.Ok? && (HoldsAll(o.ctx.rels, b) <==> w.pred(f, [if c == Bool(false) then Nil else c]))
  {
    var x := if c == Bool(false) then Nil else c;
    ConstantResolved(w, Ctx([], map[v := c]), f, v, c, Arr([]), x);
    var kept := Rel([], map[], if w.pred(f, [x]) then [Arr([])] else []);
    Single(kept, b);
    if w.pred(f, [x]) { assert Arr([]) in kept.tuples && Meets(map[], Arr([]), b); }
  }

  /** A constant reaches the predicates of the query if and only if it is not false. */
  lemma {:induction false} FalseConstant(f: string, v: Var, c: Value)
    ensures (forall w: World, b: Asg :: ConstantFaithful(w, f, v, c, b)) <==> c != Bool(false)
  {
    if c != Bool(false) {
      forall w: World, b: Asg ensures ConstantFaithful(w, f, v, c, b) { ConstantPassed(w, f, v, c, b); }
    } else {
      var w := World(Scanning([]), {}, (g, xs: seq<Value>) => xs == [Bool(false)], (g, xs) => Option.None);
      ConstantPassed(w, f, v, c, map[]);
      assert [Nil] != [Bool(false)] by { assert [Nil][0] != [Bool(false)][0]; }
      assert !ConstantFaithful(w, f, v, c, map[]);
    }
  }

  // ------------------------------------------------------------ rules that are not linear

  /** A rule that calls another one twice: `[(t ?x) (s ?x) (s ?x)]`. */
  function Twice(): Program {
    var x := Named("?x");
    map["s" := [Branch([x], [Match([Variable(x)])])],
        "t" := [Branch([x], [Call("s", [Variable(x)]), Call("s", [Variable(x)])])]]
  }

  /** The second call is taken for a repetition of the first, and the branch is dropped:
      nothing is found, although every entity is derivable. */
  lemma {:induction false} SiblingCallsLost(w: World, ctx: Ctx, e: int)
    requires WellFormed(ctx.rels) && !HasEmpty(ctx.rels) && Arr([Int(e)]) in w.src.datoms
    ensures var goal := Call("t", [Variable(Named("?x"))]);
            && Runnable(Initial(ctx, goal))
            && Run(Twice(), w, Initial(ctx, goal), 3) == State([], Initial(ctx, goal).rel, 2)
            && Initial(ctx, goal).rel.tuples == []
            && Derivable(Twice(), w, "t", [Int(e)])
  {
    var p, x := Twice(), Named("?x");
    var goal := Call("t", [Variable(x)]);
    SiblingRun(w, ctx);
    SiblingDerivable(w, e);
  }

  lemma {:induction false} SiblingDerivable(w: World, e: int)
    requires Arr([Int(e)]) in w.src.datoms
    ensures Derivable(Twice(), w, "t", [Int(e)])
  {
    var p: Program, x := Twice(), Named("?x");
    var b: Asg := map[x := Int(e)];
    var ts := [Variable(x)];
    assert MatchDatom(ts, b, Arr([Int(e)]));
    assert PatternSat(w, map[], ts, b);
    var sBody, tBody := p["s"][0].body, p["t"][0].body;
    assert sBody == [Match(ts)] && sBody[1..] == [];
    assert BodyTrue(p, w, 0, sBody, b);
    assert HeadIs([x], [Int(e)], b);
    assert BranchAt(p, w, 1, "s", 0, [Int(e)], b);
    assert Derives(p, w, 1, "s", [Int(e)]);
    assert ValsOf(map[], b, ts) == [Int(e)];
    assert tBody == [Call("s", ts), Call("s", ts)] && tBody[1..] == [Call("s", ts)] && tBody[1..][1..] == [];
    assert AtomTrue(p, w, 1, Call("s", ts), b);
    assert BodyTrue(p, w, 1, tBody[1..], b);
    assert BodyTrue(p, w, 1, tBody, b);
    assert BranchAt(p, w, 2, "t", 0, [Int(e)], b);
    assert Derives(p, w, 2, "t", [Int(e)]);
  }

  /** No derivation of `t` makes its calls of `s` only once. */
  lemma {:induction false} TwiceRepeats(w: World, vals: seq<Value>)
    ensures !Unrepeated(Twice(), w, "t", vals)
  {
    var p: Program, x := Twice(), Named("?x");
    var call := Call("s", [Variable(x)]);
    assert p["t"] == [Branch([x], [call, call])] && [call, call][1..] == [call];
    forall t | Derivation(p, w, t) && t.name == "t" && t.vals == vals ensures !NoDups(CallsMade([t])) {
      var s := t.subs;
      assert Proves(p, w, [call, call], t.b, s) && Proves(p, w, [call], t.b, s[1..]);
      CallsRepeat(t, s[0], s[1]);
    }
  }

  lemma {:induction false} CallsRepeat(t: Tree, s: Tree, u: Tree)
    requires |t.subs| >= 2 && t.subs[0] == s && t.subs[1] == u && s.name == u.name && s.vals == u.vals
    ensures !NoDups(CallsMade([t]))
  {
    var ts, rest := t.subs, CallsMade(t.subs[1..]);
    var own, all := CallsMade(s.subs), CallsMade([t]);
    CallsMadeOne(t);
    assert ts[1..][0] == u && rest[0] == (u.name, u.vals);
    assert CallsMade(ts) == [(s.name, s.vals)] + own + rest;
    assert all[1] == (s.name, s.vals) && all[2 + |own|] == rest[0];
    if NoDups(all) { NoDupsAt(all, 1, 2 + |own|); }
  }

  /** A variable passed to a parameter of the same name keeps its name. */
  lemma {:induction false} RenSelf(x: Var, id: nat)
    ensures RenTerms([x], NewArgs([Variable(x)]), id, [Variable(x)]) == [Variable(x)]
  {
    assert NewArgs([Variable(x)]) == [x];
    assert [x][1..] == [];
    assert Replacement([x], [x], x) == Option.Some(x);
  }

  function CallS(): Atom {
    Call("s", [Variable(Named("?x"))])
  }

  /** The frame of the branch of `t`, and the one of `s` within it. */
  function FrameT(ctx: Ctx): Frame {
    Frame([], ctx, [CallS(), CallS()], map["t" := [[Variable(Named("?x"))]]], [])
  }

  function FrameS(ctx: Ctx): Frame {
    var ts := [Variable(Named("?x"))];
    Frame([], ctx, [Match(ts), CallS()], map["t" := [ts], "s" := [ts]], [])
  }

  lemma {:induction false} NoConsts(ctx: Ctx)
    ensures ctx.(consts := ctx.consts + ArgConsts([Variable(Named("?x"))])) == ctx
  {
    assert ctx.consts + map[] == ctx.consts;
    assert ArgConsts([Variable(Named("?x"))]) == map[];
  }

  lemma {:induction false} ExpandGoal(w: World, ctx: Ctx)
    requires WellFormed(ctx.rels) && !HasEmpty(ctx.rels)
    ensures Expand(Twice(), w, Frame([], ctx, [Call("t", [Variable(Named("?x"))])], map[], []), 0)
        == Expanded([FrameT(ctx)])
  {
    var p: Program, x := Twice(), Named("?x");
    var ts := [Variable(x)];
    var f := Frame([], ctx, [Call("t", ts)], map[], []);
    assert GuardsOf(f) == [] && PrefixOf(f) == [];
    assert ResolveClauses(w, ctx, []) == Outcome.Ok(ctx);
    RenSelf(x, 0);
    NoConsts(ctx);
    var body := p["t"][0].body;
    assert body[1..] == [CallS()] && body[1..][1..] == [];
    assert RenAtoms([x], NewArgs(ts), 0, body[1..]) == [CallS()] + [];
    assert RenAtoms([x], NewArgs(ts), 0, body) == [CallS()] + [CallS()];
    assert f.atoms[1..] == [];
    assert UsedAfter(f) == map["t" := [ts]] by { assert [] + [ts] == [ts]; }
    assert Child(f, ctx, p["t"][0], 0) == FrameT(ctx);
    assert p["t"][1..] == [];
    assert Children(f, ctx, p["t"], 0) == [FrameT(ctx)] + [];
  }

  lemma {:induction false} ExpandT(w: World, ctx: Ctx)
    requires WellFormed(ctx.rels) && !HasEmpty(ctx.rels)
    ensures Expand(Twice(), w, FrameT(ctx), 1) == Expanded([FrameS(ctx)])
  {
    var p: Program, x := Twice(), Named("?x");
    var ts := [Variable(x)];
    var f := FrameT(ctx);
    assert GuardsOf(f) == [] && PrefixOf(f) == [];
    assert ResolveClauses(w, ctx, []) == Outcome.Ok(ctx);
    RenSelf(x, 1);
    NoConsts(ctx);
    var body := p["s"][0].body;
    assert body[1..] == [];
    assert RenAtoms([x], NewArgs(ts), 1, body) == [Match(ts)] + [];
    assert f.atoms[1..] == [CallS()];
    assert UsedAfter(f) == map["t" := [ts], "s" := [ts]] by { assert [] + [ts] == [ts]; }
    assert Child(f, ctx, p["s"][0], 1) == FrameS(ctx);
    assert p["s"][1..] == [];
    assert Children(f, ctx, p["s"], 1) == [FrameS(ctx)] + [];
  }

  lemma {:induction false} DropS(w: World, ctx: Ctx)
    requires WellFormed(ctx.rels)
    ensures FromCall(FrameS(ctx).atoms) == [CallS()] && Expand(Twice(), w, FrameS(ctx), 2) == Dropped
  {
    var ts := [Variable(Named("?x"))];
    var f := FrameS(ctx);
    assert f.atoms[1..] == [CallS()];
    assert ts[1..] == [] && DifferingArgs(ts, ts) == ([], []);
    assert Guard(ts, ts) == Pred(DIFFER, []);
    var earlier: seq<seq<Term>> := [ts];
    assert EarlierCalls(f.used, "s") == earlier && earlier[1..] == [];
    assert GuardsOf(f) == [Pred(DIFFER, [])] by { assert [Guard(ts, ts)] + [] + [] == [Pred(DIFFER, [])]; }
    var guards, vars := [Pred(DIFFER, [])], ClausesVars(f.prefix + Lits(f.atoms));
    assert guards[1..] == [] && Covered(vars, []);
    assert Checkable(vars, guards, true) == [guards[0]] + Checkable(vars, guards[1..], true);
    assert guards[0] in GuardsNow(f, true);
  }

  lemma {:induction false} SiblingRun(w: World, ctx: Ctx)
    requires WellFormed(ctx.rels) && !HasEmpty(ctx.rels)
    ensures var goal := Call("t", [Variable(Named("?x"))]);
            && Runnable(Initial(ctx, goal))
            && Run(Twice(), w, Initial(ctx, goal), 3) == State([], Initial(ctx, goal).rel, 2)
  {
    var p: Program, x := Twice(), Named("?x");
    var ts := [Variable(x)];
    var goal := Call("t", ts);
    assert ts[1..] == [] && Finals(ts) == [x] + [];
    assert [x][..0] == [];
    InitialRunnable(ctx, goal);
    var s0 := Initial(ctx, goal);
    var s1, s2, s3 := State([FrameT(ctx)], s0.rel, 1), State([FrameS(ctx)], s0.rel, 2), State([], s0.rel, 2);
    ExpandGoal(w, ctx);
    StepCases(p, w, s0);
    assert s0.stack[1..] == [] && Step(p, w, s0) == s1;
    ExpandT(w, ctx);
    StepCases(p, w, s1);
    assert s1.stack[1..] == [] && Step(p, w, s1) == s2;
    DropS(w, ctx);
    StepCases(p, w, s2);
    assert s2.stack[1..] == [] && Step(p, w, s2) == s3;
    assert Run(p, w, s2, 1) == Run(p, w, s3, 0) == s3;
    assert Run(p, w, s1, 2) == Run(p, w, s2, 1);
    assert Run(p, w, s0, 3) == Run(p, w, s1, 2);
  }

  // ------------------------------------------------------- empty relations at a leaf

  /** `[(u ?x) [?x] [?y :none]]`: the two patterns share no variable. */
  function Loose(): Program {
    var x := Named("?x");
    map["u" := [Branch([x], [Match([Variable(x)]), Match([Variable(Named("?y")), Constant(Kw(":none"))])])]]
  }

  /** In every other respect the rule is one the solver is sound and complete for. */
  lemma {:induction false} LooseOk()
    ensures ProgramOk(Loose()) && Linear(Loose())
  {
    var p: Program, x, y := Loose(), Named("?x"), Named("?y");
    var body := p["u"][0].body;
    var ts, us := body[0].terms, body[1].terms;
    assert "?x"[1] != "?y"[1] && ts[1..] == [] && TermVars(ts) == {x} + {};
    assert us[1..] == [us[1]] && us[1..][1..] == [] && TermVars(us[1..]) == {} && TermVars(us) == {y} + {};
    assert [body[1]] + [] == [body[1]] && body == [body[0]] + [body[1]];
    BodyFrom(p, body[1], []);
    BodyFrom(p, body[0], [body[1]]);
    assert [x][..0] == [] && Elems([x]) == {x};
    assert SafeVars(body) == {x, y} && AtomsVars(body) == {x, y};
    assert BranchOk(p, p["u"][0]);
  }

  ghost predicate NoneHas(w: World) {
    forall d :: d in w.src.datoms ==> Get(d, At(1)) != Kw(":none")
  }

  /** The second pattern has no match, so nothing is derivable; but its empty relation has no
      variable of the call, is skipped, and every entity is an answer. */
  lemma {:induction false} EmptyLeafSkipped(w: World, d: Tuple)
    requires LookupOk(w.src) && NoneHas(w) && d in w.src.datoms
    ensures var x, ctx := Named("?x"), Ctx([], map[]);
            var s := Initial(ctx, Call("u", [Variable(x)]));
            && Runnable(s) && Run(Loose(), w, s, 2).State? && Run(Loose(), w, s, 2).stack == []
            && Holds(Run(Loose(), w, s, 2).rel, map[x := Get(d, At(0))])
            && !Derivable(Loose(), w, "u", [Get(d, At(0))])
  {
    LooseRun(w, d);
    forall n: nat ensures !Derives(Loose(), w, n, "u", [Get(d, At(0))]) { NoneDerives(w, n, [Get(d, At(0))]); }
  }

  lemma {:induction false} NoneDerives(w: World, n: nat, vals: seq<Value>)
    requires NoneHas(w)
    ensures !Derives(Loose(), w, n, "u", vals)
  {
    var p: Program := Loose();
    var none := Match([Variable(Named("?y")), Constant(Kw(":none"))]);
    if n > 0 {
      forall i, e | 0 <= i < |p["u"]| ensures !BranchAt(p, w, n, "u", i, vals, e) {
        var body, m: nat := p["u"][i].body, n - 1;
        assert body[1..] == [none];
        forall d | d in w.src.datoms ensures !MatchDatom(none.terms, e, d) {
          assert !MatchTerm(none.terms[1], e, Get(d, At(1)));
        }
        assert !AtomTrue(p, w, m, none, e) && !BodyTrue(p, w, m, body[1..], e);
        assert !BodyTrue(p, w, m, body, e);
      }
    }
  }

  function LooseAtoms(): seq<Atom> {
    [Match([Variable(Named("?x"))]), Match([Variable(Renamed(Named("?y"), 0)), Constant(Kw(":none"))])]
  }

  lemma {:induction false} ExpandLoose(w: World)
    ensures var ctx := Ctx([], map[]);
            var ts := [Variable(Named("?x"))];
            Expand(Loose(), w, Frame([], ctx, [Call("u", ts)], map[], []), 0)
              == Expanded([Frame([], ctx, LooseAtoms(), map["u" := [ts]], [])])
  {
    var p: Program, x, y, ctx := Loose(), Named("?x"), Named("?y"), Ctx([], map[]);
    var ts := [Variable(x)];
    var f := Frame([], ctx, [Call("u", ts)], map[], []);
    assert GuardsOf(f) == [] && PrefixOf(f) == [];
    assert ResolveClauses(w, ctx, []) == Outcome.Ok(ctx);
    RenSelf(x, 0);
    NoConsts(ctx);
    var body := p["u"][0].body;
    assert "?x"[1] != "?y"[1] && Replacement([x], [x], y) == Option.None;
    assert NewArgs(ts) == [x] by { assert ts[1..] == []; }
    assert RenTerms([x], [x], 0, body[1].terms) == LooseAtoms()[1].terms;
    assert RenAtom([x], [x], 0, body[1]) == LooseAtoms()[1] && RenAtom([x], [x], 0, body[0]) == LooseAtoms()[0];
    assert body[1..] == [body[1]] && body[1..][1..] == [];
    assert RenAtoms([x], NewArgs(ts), 0, body[1..]) == [LooseAtoms()[1]] + [];
    assert RenAtoms([x], NewArgs(ts), 0, body) == [LooseAtoms()[0]] + [LooseAtoms()[1]];
    assert f.atoms[1..] == [];
    assert UsedAfter(f) == map["u" := [ts]] by { assert [] + [ts] == [ts]; }
    assert LooseAtoms() + [] == LooseAtoms();
    assert Child(f, ctx, p["u"][0], 0) == Frame([], ctx, LooseAtoms(), map["u" := [ts]], []);
    assert p["u"][1..] == [];
    assert Children(f, ctx, p["u"], 0) == [Child(f, ctx, p["u"][0], 0)] + [];
  }

  /** The leaf's context: the entities, and nothing. */
  lemma {:induction false} ReduceCons(w: World, ctx: Ctx, c: Clause, rest: seq<Clause>, next: Ctx)
    requires WellFormed(ctx.rels) && WellFormed(next.rels) && ResolveClause(w, ctx, c) == Outcome.Ok(next)
    ensures ReduceClauses(w, ctx, [c] + rest) == ReduceClauses(w, next, rest)
  {
    assert ([c] + rest)[1..] == rest && ([c] + rest)[0] == c;
  }

  /** Two clauses that are solved one after the other. */
  lemma {:induction false} ResolveTwo(w: World, ctx: Ctx, c1: Clause, c2: Clause, next: Ctx, last: Ctx)
    requires WellFormed(ctx.rels) && WellFormed(next.rels) && WellFormed(last.rels)
    requires ResolveClause(w, ctx, c1) == Outcome.Ok(next) && ResolveClause(w, next, c2) == Outcome.Ok(last)
    ensures ResolveClauses(w, ctx, [c1, c2]) == Outcome.Ok(last)
  {
    var cs, rest, none: seq<Clause> := [c1, c2], [c2], [];
    assert rest == [c2] + none && cs == [c1] + rest;
    ReduceCons(w, next, c2, none, last);
    ReduceCons(w, ctx, c1, rest, next);
    assert ReduceClauses(w, last, none) == (Outcome.Ok(last), none);
    assert ReduceClauses(w, ctx, cs) == (Outcome.Ok(last), none);
    assert ResolveClauses(w, last, none) == Outcome.Ok(last);
  }

  lemma {:induction false} LooseLits()
    ensures Lits(LooseAtoms()) == [Pattern(LooseAtoms()[0].terms), Pattern(LooseAtoms()[1].terms)]
  {
    var c1, c2 := Pattern(LooseAtoms()[0].terms), Pattern(LooseAtoms()[1].terms);
    assert LooseAtoms()[1..] == [LooseAtoms()[1]] && LooseAtoms()[1..][1..] == [];
    assert Lits(LooseAtoms()[1..]) == [c2] + [];
    assert Lits(LooseAtoms()) == [c1] + [c2];
  }

  lemma {:induction false} LooseRels(w: World, d: Tuple) returns (all: Rel, none: Rel)
    requires LookupOk(w.src) && NoneHas(w) && d in w.src.datoms
    ensures ResolveClauses(w, Ctx([], map[]), Lits(LooseAtoms())) == Outcome.Ok(Ctx([all, none], map[]))
    ensures all.attrs == map[Named("?x") := At(0)] && d in all.tuples
    ensures none.attrs.Keys == {Renamed(Named("?y"), 0)} && none.tuples == []
  {
    all := AllFound(w, d);
    none := NoneAdded(w, all);
    LooseLits();
    ResolveTwo(w, Ctx([], map[]), Pattern(LooseAtoms()[0].terms), Pattern(LooseAtoms()[1].terms), Ctx([all], map[]),
        Ctx([all, none], map[]));
  }

  lemma {:induction false} DatomFound(w: World, d: Tuple)
    requires LookupOk(w.src) && d in w.src.datoms
    ensures d in PatternRel(w, Ctx([], map[]), LooseAtoms()[0].terms).tuples
  {
    var slots := SlotsOf(Ctx([], map[]), LooseAtoms()[0].terms);
    StrategyFits(w, slots);
    assert forall i :: 0 <= i < 5 ==> slots[i] == Wild;
    assert HoldsAll([], map[]) && Joins(slots, map[], d);
    BatchSearchExact(w.src, slots, StrategyOf(w, slots), [], d);
  }

  lemma {:induction false} AllFound(w: World, d: Tuple) returns (all: Rel)
    requires LookupOk(w.src) && d in w.src.datoms
    ensures Good(all) && all.attrs == map[Named("?x") := At(0)] && d in all.tuples
    ensures ResolveClause(w, Ctx([], map[]), Pattern(LooseAtoms()[0].terms)) == Outcome.Ok(Ctx([all], map[]))
  {
    var ctx, ts, x := Ctx([], map[]), LooseAtoms()[0].terms, Named("?x");
    assert ts[..|ts| - 1] == [] && VarCols(ts) == map[][x := At(0)];
    all := PatternRel(w, ctx, ts);
    DatomFound(w, d);
    VarColsGood(ts);
    var slots := SlotsOf(ctx, ts);
    assert forall i :: 0 <= i < 5 ==> slots[i] == Wild;
    assert ResolvePattern(w, ctx, ts) == Collapsed(ctx, all);
    assert Collapse([], all, []) == [] + [all] == [all];
  }

  lemma {:induction false} NonePattern(w: World, ctx: Ctx, us: seq<Term>, y: Var) returns (none: Rel)
    requires LookupOk(w.src) && NoneHas(w) && WellFormed(ctx.rels) && ctx.consts == map[] && y !in VarsAll(ctx.rels)
    requires us == LooseAtoms()[1].terms && y == Renamed(Named("?y"), 0)
    ensures Good(none) && none.attrs.Keys == {y} && none.tuples == []
            && ResolvePattern(w, ctx, us) == Collapsed(ctx, none)
  {
    assert us[..1] == [us[0]] && us[..1][..0] == [];
    assert VarCols(us) == VarCols([us[0]]) == map[][y := At(0)];
    none := PatternRel(w, ctx, us);
    NoneFound(w, ctx);
    var slots := SlotsOf(ctx, us);
    assert slots[1] == Const(Kw(":none")) && forall i :: 0 <= i < 5 && i != 1 ==> slots[i] == Wild;
    VarColsGood(us);
  }

  lemma {:induction false} NoneAdded(w: World, all: Rel) returns (none: Rel)
    requires LookupOk(w.src) && NoneHas(w) && Good(all) && all.attrs == map[Named("?x") := At(0)]
    ensures none.attrs.Keys == {Renamed(Named("?y"), 0)} && none.tuples == []
    ensures WellFormed([all])
    ensures ResolveClause(w, Ctx([all], map[]), Pattern(LooseAtoms()[1].terms)) == Outcome.Ok(Ctx([all, none], map[]))
  {
    var ctx := Ctx([all], map[]);
    Single(all, map[]);
    none := NonePattern(w, ctx, LooseAtoms()[1].terms, Renamed(Named("?y"), 0));
    assert [all][1..] == [] && all.attrs.Keys * none.attrs.Keys == {};
    assert Collapse([all], none, []) == Collapse([], none, [] + [all]) == [all] + [none] == [all, none];
  }

  lemma {:induction false} NoneFound(w: World, ctx: Ctx)
    requires LookupOk(w.src) && NoneHas(w) && ctx.consts == map[] && Renamed(Named("?y"), 0) !in VarsAll(ctx.rels)
    ensures PatternRel(w, ctx, LooseAtoms()[1].terms).tuples == []
  {
    var us := LooseAtoms()[1].terms;
    var slots := SlotsOf(ctx, us);
    StrategyFits(w, slots);
    assert slots[1] == Const(Kw(":none"));
    if PatternRel(w, ctx, us).tuples != [] {
      var d := PatternRel(w, ctx, us).tuples[0];
      BatchSearchExact(w.src, slots, StrategyOf(w, slots), ctx.rels, d);
    }
  }

  lemma {:induction false} LooseRow(all: Rel, none: Rel, d: Tuple)
    requires all.attrs == map[Named("?x") := At(0)] && d in all.tuples
    requires none.attrs.Keys == {Renamed(Named("?y"), 0)} && none.tuples == []
    ensures Holds(CollectedRel(Ctx([all, none], map[]), [Named("?x")]), map[Named("?x") := Get(d, At(0))])
  {
    var x := Named("?x");
    var ctx := Ctx([all, none], map[]);
    var start := StartRow(map[], [x]);
    var row := Copied(start, [x], all.attrs, d);
    SkippedIff(all, [x]);
    SkippedIff(none, [x]);
    assert [x][..0] == [] && VarSet([x]) == {x};
    assert ctx.rels[1..] == [none] && [none][1..] == [];
    assert Collected(row, [none], [x], row);
    assert Collected(start, ctx.rels, [x], row);
    PairwiseNoDups([x]);
    CollectedHolds(ctx, [x], map[x := Get(d, At(0))]);
    assert RowIs([x], row, map[x := Get(d, At(0))]);
  }

  lemma {:induction false} LooseRun(w: World, d: Tuple)
    requires LookupOk(w.src) && NoneHas(w) && d in w.src.datoms
    ensures var x, ctx := Named("?x"), Ctx([], map[]);
            var s := Initial(ctx, Call("u", [Variable(x)]));
            && Runnable(s) && Run(Loose(), w, s, 2).State? && Run(Loose(), w, s, 2).stack == []
            && Holds(Run(Loose(), w, s, 2).rel, map[x := Get(d, At(0))])
  {
    var p: Program, x, ctx := Loose(), Named("?x"), Ctx([], map[]);
    var ts := [Variable(x)];
    var goal := Call("u", ts);
    assert ts[1..] == [] && Finals(ts) == [x] + [] && [x][..0] == [];
    InitialRunnable(ctx, goal);
    var s0 := Initial(ctx, goal);
    var leaf := Frame([], ctx, LooseAtoms(), map["u" := [ts]], []);
    var s1 := State([leaf], s0.rel, 1);
    ExpandLoose(w);
    StepCases(p, w, s0);
    assert s0.stack[1..] == [] && Step(p, w, s0) == s1;
    LeafStepped(p, w, d, s1, leaf);
    assert Run(p, w, s1, 1) == Run(p, w, Step(p, w, s1), 0) == Step(p, w, s1);
    assert Run(p, w, s0, 2) == Run(p, w, s1, 1);
  }

  /** A leaf whose sum succeeds leaves the stack; its rows are in the result. */
  lemma {:induction false} LeafStepped(p: Program, w: World, d: Tuple, s: State, leaf: Frame)
    requires LookupOk(w.src) && NoneHas(w) && d in w.src.datoms
    requires Runnable(s) && s.State? && s.stack == [leaf] && leaf.ctx == Ctx([], map[]) && leaf.atoms == LooseAtoms()
    requires s.rel.keys == [Named("?x")]
    ensures Step(p, w, s).State? && Step(p, w, s).stack == []
    ensures Holds(Step(p, w, s).rel, map[Named("?x") := Get(d, At(0))])
  {
    assert LooseAtoms()[1..][1..] == [] && FromCall(leaf.atoms) == [];
    LeafFinished(w, d, s.rel, leaf);
    StepCases(p, w, s);
    assert s.stack[1..] == [];
  }

  lemma {:induction false} LeafFinished(w: World, d: Tuple, rel: Rel, leaf: Frame)
    requires LookupOk(w.src) && NoneHas(w) && d in w.src.datoms
    requires Good(rel) && rel.keys == [Named("?x")] && leaf.ctx == Ctx([], map[]) && leaf.atoms == LooseAtoms()
    ensures Finish(w, leaf, rel).Some? && Holds(Finish(w, leaf, rel).value, map[Named("?x") := Get(d, At(0))])
  {
    var all, none := LooseRels(w, d);
    LooseRow(all, none, d);
    CollectedGood(Ctx([all, none], map[]), rel.keys);
    assert rel.attrs.Keys == CollectedRel(Ctx([all, none], map[]), rel.keys).attrs.Keys;
  }
}
