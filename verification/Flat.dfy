/** Lists of patterns, predicates and function clauses: what they denote together,
    and that their order does not matter. */
module Flat {
  import opened Relations
  import opened Sequences
  import opened RelationOps
  import opened Contexts
  import opened Search
  import opened Clauses
  import opened Semantics
  import opened Schedule
  import opened Evaluator

  predicate IsFlat(c: Clause) {
    c.Pattern? || c.Pred? || c.Bind?
  }

  predicate AllFlat(cs: seq<Clause>) {
    cs == [] || (IsFlat(cs[0]) && AllFlat(cs[1..]))
  }

  /** The clause is true under an assignment of all its variables. */
  ghost predicate Sat(w: World, consts: map<Var, Value>, c: Clause, b: Asg)
    requires IsFlat(c)
  {
    match c
    case Pattern(terms) => PatternSat(w, consts, terms, b)
    case Pred(f, args) => w.pred(f, ValsOf(consts, b, args))
    case Bind(f, args, out) => BindSat(w, consts, f, args, out, b, b)
  }

  ghost predicate SatAll(w: World, consts: map<Var, Value>, cs: seq<Clause>, b: Asg)
    requires AllFlat(cs)
  {
    cs == [] || (Sat(w, consts, cs[0], b) && SatAll(w, consts, cs[1..], b))
  }

  /** Arguments have the same values under two assignments that agree on them. */
  lemma {:induction false} ValsAgree(consts: map<Var, Value>, args: seq<Term>, a: Asg, b: Asg)
    requires forall v :: v in TermVars(args) && v !in consts ==> v in a && v in b && a[v] == b[v]
    ensures ValsOf(consts, a, args) == ValsOf(consts, b, args)
  {
    forall i | 0 <= i < |args| ensures ValOf(consts, a, args[i]) == ValOf(consts, b, args[i]) {
      if args[i].Variable? { TermVarsAt(args, args[i].v); }
    }
  }

  /** For a flat clause whose arguments are bound, extending is being true. */
  lemma {:induction false} ExtIsSat(w: World, consts: map<Var, Value>, c: Clause, vs: set<Var>, b: Asg)
    requires IsFlat(c) && (!c.Pattern? ==> TermVars(c.args) <= vs + consts.Keys)
    requires b.Keys == vs + Binds(c)
    ensures Ext(w, consts, c, Cut(b, vs), b) <==> Sat(w, consts, c, b)
  {
    if !c.Pattern? { ValsAgree(consts, c.args, Cut(b, vs), b); }
  }

  lemma {:induction false} ArgsBound(w: World, ctx: Ctx, c: Clause)
    requires WellFormed(ctx.rels) && IsFlat(c) && ResolveClause(w, ctx, c).Ok?
    ensures !c.Pattern? ==> TermVars(c.args) <= VarsAll(ctx.rels) + ctx.consts.Keys
  {
    if c.Pred? { TermVarSeqSet(c.args); }
  }

  lemma {:induction false} SatCut(w: World, consts: map<Var, Value>, c: Clause, vars: set<Var>, b: Asg)
    requires IsFlat(c) && vars <= b.Keys && ClauseVars(c) <= vars + consts.Keys
    requires c.Pattern? ==> ClauseVars(c) <= vars
    requires c.Bind? ==> c.out in vars
    ensures Sat(w, consts, c, Cut(b, vars)) <==> Sat(w, consts, c, b)
  {
    var a := Cut(b, vars);
    match c
    case Pattern(terms) =>
      forall d ensures MatchDatom(terms, a, d) <==> MatchDatom(terms, b, d) {
        forall i | 0 <= i < |terms|
          ensures MatchTerm(terms[i], a, Get(d, At(i))) <==> MatchTerm(terms[i], b, Get(d, At(i)))
        {
          if terms[i].Variable? { TermVarsAt(terms, terms[i].v); }
        }
      }
    case Pred(f, args) => ValsAgree(consts, args, a, b);
    case Bind(f, args, out) => ValsAgree(consts, args, a, b);
  }

  /** A sequential run over flat clauses denotes the assignments of the start that make
      all of them true. */
  lemma {:induction false} FlatExact(w: World, ctx: Ctx, cs: seq<Clause>, b: Asg)
    requires Sane(w, ctx) && AllFlat(cs) && RegularAll(w, ctx, cs) && FoldClauses(w, ctx, cs).Ok?
    requires b.Keys == VarsAll(ctx.rels) + BindsAll(cs)
    ensures HoldsAll(FoldClauses(w, ctx, cs).ctx.rels, b) <==> HoldsAll(ctx.rels, b) && SatAll(w, ctx.consts, cs, b)
    decreases |cs|
  {
    if cs != [] {
      var vs := VarsAll(ctx.rels) + Binds(cs[0]);
      var next := ResolveClause(w, ctx, cs[0]).ctx;
      var m := Cut(b, vs);
      CutCut(b, vs, VarsAll(ctx.rels));
      SaneNext(w, ctx, cs[0]);
      ClauseExact(w, ctx, cs[0], m);
      ArgsBound(w, ctx, cs[0]);
      ExtIsSat(w, ctx.consts, cs[0], VarsAll(ctx.rels), m);
      SatCut(w, ctx.consts, cs[0], vs, b);
      HoldsCut(next.rels, vs, b);
      HoldsCut(ctx.rels, vs, b);
      FlatExact(w, next, cs[1..], b);
    }
  }

  // ------------------------------------------------------------- any clause order

  /** Patterns and function clauses: the clauses that wait instead of failing. */
  predicate AllWaiting(cs: seq<Clause>) {
    cs == [] || ((cs[0].Pattern? || cs[0].Bind?) && AllWaiting(cs[1..]))
  }

  /** Each clause is enabled when its turn comes. */
  ghost predicate ValidSeq(bound: set<Var>, cs: seq<Clause>)
    decreases |cs|
  {
    cs == [] || (Enabled(bound, cs[0]) && ValidSeq(bound + Binds(cs[0]), cs[1..]))
  }

  lemma {:induction false} ValidConcat(bound: set<Var>, s: seq<Clause>, t: seq<Clause>)
    requires ValidSeq(bound, s) && ValidSeq(bound + BindsAll(s), t)
    ensures ValidSeq(bound, s + t)
    decreases |s|
  {
    if s == [] {
      assert s + t == t && bound + BindsAll(s) == bound;
    } else {
      assert (s + t)[1..] == s[1..] + t;
      assert bound + Binds(s[0]) + BindsAll(s[1..]) == bound + BindsAll(s);
      ValidConcat(bound + Binds(s[0]), s[1..], t);
    }
  }

  lemma {:induction false} PassValid(bound: set<Var>, cs: seq<Clause>)
    ensures ValidSeq(bound, Pass(bound, cs).0)
    decreases |cs|
  {
    if cs != [] {
      if Enabled(bound, cs[0]) {
        var r := Pass(bound + Binds(cs[0]), cs[1..]);
        PassValid(bound + Binds(cs[0]), cs[1..]);
        assert ([cs[0]] + r.0)[1..] == r.0;
      } else {
        PassValid(bound, cs[1..]);
      }
    }
  }

  lemma {:induction false} OrderValid(bound: set<Var>, cs: seq<Clause>)
    ensures ValidSeq(bound, Order(bound, cs))
    decreases |cs|
  {
    var p := Pass(bound, cs);
    PassValid(bound, cs);
    if p.0 != [] {
      OrderValid(bound + BindsAll(p.0), p.1);
      ValidConcat(bound, p.0, Order(bound + BindsAll(p.0), p.1));
    }
  }

  lemma {:induction false} PassProgress(bound: set<Var>, cs: seq<Clause>, c: Clause)
    requires c in multiset(cs) && Enabled(bound, c)
    ensures Pass(bound, cs).0 != []
    decreases |cs|
  {
    if !Enabled(bound, cs[0]) {
      assert cs == [cs[0]] + cs[1..];
      PassProgress(bound, cs[1..], c);
    }
  }

  /** `cs` without the clauses of `m`. */
  ghost function Drop(cs: seq<Clause>, m: multiset<Clause>): seq<Clause> {
    if cs == [] then []
    else if cs[0] in m then Drop(cs[1..], m - multiset{cs[0]})
    else [cs[0]] + Drop(cs[1..], m)
  }

  lemma {:induction false} DropSplits(cs: seq<Clause>, m: multiset<Clause>)
    requires m <= multiset(cs)
    ensures multiset(Drop(cs, m)) == multiset(cs) - m
    decreases |cs|
  {
    if cs != [] {
      assert cs == [cs[0]] + cs[1..];
      assert multiset(cs) == multiset{cs[0]} + multiset(cs[1..]);
      if cs[0] in m { DropSplits(cs[1..], m - multiset{cs[0]}); } else { DropSplits(cs[1..], m); }
    }
  }

  /** Enabledness is monotone: clauses already applied can be left out of a valid order. */
  lemma {:induction false} DropValid(bound: set<Var>, more: set<Var>, cs: seq<Clause>, m: multiset<Clause>)
    requires ValidSeq(bound, cs) && bound <= more && forall c :: c in m ==> Binds(c) <= more
    ensures ValidSeq(more, Drop(cs, m))
    decreases |cs|
  {
    if cs != [] {
      if cs[0] in m {
        DropValid(bound + Binds(cs[0]), more, cs[1..], m - multiset{cs[0]});
      } else {
        var rest := Drop(cs[1..], m);
        assert ([cs[0]] + rest)[1..] == rest;
        DropValid(bound + Binds(cs[0]), more + Binds(cs[0]), cs[1..], m);
      }
    }
  }

  lemma {:induction false} BindsIn(cs: seq<Clause>, c: Clause)
    requires c in multiset(cs)
    ensures Binds(c) <= BindsAll(cs)
    decreases |cs|
  {
    assert cs == [cs[0]] + cs[1..];
    if c != cs[0] { BindsIn(cs[1..], c); }
  }

  /** If the clauses can be applied in some order, the scheduler applies them all. */
  lemma {:induction false} ScheduleComplete(bound: set<Var>, cs: seq<Clause>, valid: seq<Clause>)
    requires ValidSeq(bound, valid) && multiset(valid) == multiset(cs)
    ensures Schedulable(bound, cs)
    decreases |cs|
  {
    var p := Pass(bound, cs);
    PassSplits(bound, cs);
    if valid == [] {
      assert |cs| == |multiset(cs)| == 0;
    } else {
      assert valid[0] in multiset(valid);
      PassProgress(bound, cs, valid[0]);
      forall c | c in multiset(p.0) ensures Binds(c) <= bound + BindsAll(p.0) { BindsIn(p.0, c); }
      DropValid(bound, bound + BindsAll(p.0), valid, multiset(p.0));
      DropSplits(valid, multiset(p.0));
      ScheduleComplete(bound + BindsAll(p.0), p.1, Drop(valid, multiset(p.0)));
    }
  }

  /** Whether all clauses can be applied does not depend on their order. */
  lemma {:induction false} SchedulePermutes(bound: set<Var>, cs: seq<Clause>, other: seq<Clause>)
    requires multiset(cs) == multiset(other)
    ensures Schedulable(bound, cs) <==> Schedulable(bound, other)
  {
    if Schedulable(bound, cs) {
      OrderIsPermutation(bound, cs);
      OrderValid(bound, cs);
      ScheduleComplete(bound, other, Order(bound, cs));
    }
    if Schedulable(bound, other) {
      OrderIsPermutation(bound, other);
      OrderValid(bound, other);
      ScheduleComplete(bound, cs, Order(bound, other));
    }
  }

  /** The pattern passes `validate-pattern`, whatever relations the context has. */
  predicate PatternOk(consts: map<Var, Value>, c: Clause) {
    c.Pattern? ==> |c.terms| <= 5 && ValidSlots(SlotsOf(Ctx([], consts), c.terms))
  }

  lemma {:induction false} PatternOkAnywhere(w: World, ctx: Ctx, c: Clause)
    requires WellFormed(ctx.rels) && (c.Pattern? || c.Bind?) && Enabled(Bound(ctx), c)
    ensures ResolveClause(w, ctx, c).Ok? <==> PatternOk(ctx.consts, c)
  {
    if c.Pattern? {
      var here, bare := SlotsOf(ctx, c.terms), SlotsOf(Ctx([], ctx.consts), c.terms);
      forall i | 0 <= i < 5
        ensures here[i].Const? <==> bare[i].Const?
        ensures here[i].Const? ==> here[i] == bare[i]
      {}
      assert ValidSlots(here) <==> ValidSlots(bare);
    }
  }

  lemma {:induction false} ReduceSucceeds(w: World, ctx: Ctx, cs: seq<Clause>)
    requires WellFormed(ctx.rels) && AllWaiting(cs) && forall c :: c in multiset(cs) ==> PatternOk(ctx.consts, c)
    ensures ReduceClauses(w, ctx, cs).0.Ok?
    decreases |cs|
  {
    if cs != [] {
      assert cs == [cs[0]] + cs[1..];
      assert cs[0] in multiset(cs);
      PendingIff(w, ctx, cs[0]);
      if Enabled(Bound(ctx), cs[0]) {
        PatternOkAnywhere(w, ctx, cs[0]);
        ReduceSucceeds(w, ResolveClause(w, ctx, cs[0]).ctx, cs[1..]);
      } else {
        ReduceSucceeds(w, ctx, cs[1..]);
      }
    }
  }

  lemma {:induction false} WaitingIn(cs: seq<Clause>)
    ensures AllWaiting(cs) <==> forall c :: c in multiset(cs) ==> c.Pattern? || c.Bind?
    decreases |cs|
  {
    if cs != [] {
      assert cs == [cs[0]] + cs[1..];
      assert cs[0] in multiset(cs);
      WaitingIn(cs[1..]);
    }
  }

  lemma {:induction false} ResolveSucceeds(w: World, ctx: Ctx, cs: seq<Clause>)
    requires WellFormed(ctx.rels) && AllWaiting(cs) && Schedulable(Bound(ctx), cs)
    requires forall c :: c in multiset(cs) ==> PatternOk(ctx.consts, c)
    ensures ResolveClauses(w, ctx, cs).Ok?
    decreases |cs|
  {
    if cs != [] {
      ReduceSucceeds(w, ctx, cs);
      ReduceIsFold(w, ctx, cs);
      var p := Pass(Bound(ctx), cs);
      var next := ReduceClauses(w, ctx, cs).0.ctx;
      PassSplits(Bound(ctx), cs);
      WaitingIn(cs);
      WaitingIn(p.1);
      assert Bound(next) == Bound(ctx) + BindsAll(p.0);
      OrderLength(Bound(next), p.1);
      ResolveSucceeds(w, next, p.1);
    }
  }

  lemma {:induction false} FoldPatternsOk(w: World, ctx: Ctx, cs: seq<Clause>, c: Clause)
    requires WellFormed(ctx.rels) && AllWaiting(cs) && FoldClauses(w, ctx, cs).Ok? && c in multiset(cs)
    ensures PatternOk(ctx.consts, c)
    decreases |cs|
  {
    assert cs == [cs[0]] + cs[1..];
    PendingIff(w, ctx, cs[0]);
    PatternOkAnywhere(w, ctx, cs[0]);
    if c != cs[0] { FoldPatternsOk(w, ResolveClause(w, ctx, cs[0]).ctx, cs[1..], c); }
  }

  lemma {:induction false} ResolveNeeds(w: World, ctx: Ctx, cs: seq<Clause>)
    requires WellFormed(ctx.rels) && AllWaiting(cs) && ResolveClauses(w, ctx, cs).Ok?
    ensures Schedulable(Bound(ctx), cs) && forall c :: c in multiset(cs) ==> PatternOk(ctx.consts, c)
  {
    var order := Order(Bound(ctx), cs);
    ResolveIsFold(w, ctx, cs);
    OrderIsPermutation(Bound(ctx), cs);
    WaitingIn(cs);
    WaitingIn(order);
    forall c | c in multiset(cs) ensures PatternOk(ctx.consts, c) { FoldPatternsOk(w, ctx, order, c); }
  }

  lemma {:induction false} SatIn(w: World, consts: map<Var, Value>, cs: seq<Clause>, b: Asg)
    requires AllFlat(cs)
    ensures SatAll(w, consts, cs, b) <==> forall c :: c in multiset(cs) && IsFlat(c) ==> Sat(w, consts, c, b)
    decreases |cs|
  {
    if cs != [] {
      assert cs == [cs[0]] + cs[1..];
      assert cs[0] in multiset(cs);
      SatIn(w, consts, cs[1..], b);
    }
  }

  lemma {:induction false} FlatIn(cs: seq<Clause>)
    ensures AllFlat(cs) <==> forall c :: c in multiset(cs) ==> IsFlat(c)
    decreases |cs|
  {
    if cs != [] {
      assert cs == [cs[0]] + cs[1..];
      assert cs[0] in multiset(cs);
      FlatIn(cs[1..]);
    }
  }

  /** Any order of patterns and function clauses resolves exactly when another does. */
  lemma {:induction false} ReorderSucceeds(w: World, ctx: Ctx, cs: seq<Clause>, other: seq<Clause>)
    requires WellFormed(ctx.rels) && AllWaiting(cs) && multiset(cs) == multiset(other)
    ensures ResolveClauses(w, ctx, cs).Ok? <==> ResolveClauses(w, ctx, other).Ok?
  {
    WaitingIn(cs);
    WaitingIn(other);
    SchedulePermutes(Bound(ctx), cs, other);
    if ResolveClauses(w, ctx, cs).Ok? {
      ResolveNeeds(w, ctx, cs);
      ResolveSucceeds(w, ctx, other);
    }
    if ResolveClauses(w, ctx, other).Ok? {
      ResolveNeeds(w, ctx, other);
      ResolveSucceeds(w, ctx, cs);
    }
  }

  /** What a run of the scheduler over flat clauses denotes. */
  lemma {:induction false} ResolveFlat(w: World, ctx: Ctx, cs: seq<Clause>, b: Asg)
    requires Sane(w, ctx) && AllFlat(cs) && ResolveClauses(w, ctx, cs).Ok? && Regular(w, ctx, And(cs))
    requires b.Keys == VarsAll(ctx.rels) + BindsAll(cs)
    ensures HoldsAll(ResolveClauses(w, ctx, cs).ctx.rels, b) <==> HoldsAll(ctx.rels, b) && SatAll(w, ctx.consts, cs, b)
  {
    var order := Order(Bound(ctx), cs);
    ResolveIsFold(w, ctx, cs);
    OrderIsPermutation(Bound(ctx), cs);
    FlatIn(cs);
    FlatIn(order);
    FlatExact(w, ctx, order, b);
    SatIn(w, ctx.consts, cs, b);
    SatIn(w, ctx.consts, order, b);
  }

  /** Two orders of the same clauses denote the same assignments. Predicates raise instead
      of waiting, so a list with predicates may resolve in one order and raise in another. */
  lemma {:induction false} ReorderExact(w: World, ctx: Ctx, cs: seq<Clause>, other: seq<Clause>, b: Asg)
    requires Sane(w, ctx) && AllFlat(cs) && multiset(cs) == multiset(other)
    requires ResolveClauses(w, ctx, cs).Ok? && (AllWaiting(cs) || ResolveClauses(w, ctx, other).Ok?)
    requires Regular(w, ctx, And(cs)) && Regular(w, ctx, And(other))
    requires b.Keys == VarsAll(ctx.rels) + BindsAll(cs)
    ensures ResolveClauses(w, ctx, other).Ok?
    ensures HoldsAll(ResolveClauses(w, ctx, cs).ctx.rels, b) <==> HoldsAll(ResolveClauses(w, ctx, other).ctx.rels, b)
  {
    if AllWaiting(cs) { ReorderSucceeds(w, ctx, cs, other); }
    FlatIn(cs);
    FlatIn(other);
    BindsPermute(cs, other);
    ResolveFlat(w, ctx, cs, b);
    ResolveFlat(w, ctx, other, b);
    SatIn(w, ctx.consts, cs, b);
    SatIn(w, ctx.consts, other, b);
  }

  lemma {:induction false} BindsPermute(cs: seq<Clause>, other: seq<Clause>)
    requires multiset(cs) == multiset(other)
    ensures BindsAll(cs) == BindsAll(other)
  {
    forall v ensures v in BindsAll(cs) <==> v in BindsAll(other) {
      BindsFrom(cs, v);
      BindsFrom(other, v);
    }
  }

  lemma {:induction false} BindsFrom(cs: seq<Clause>, v: Var)
    ensures v in BindsAll(cs) <==> exists c :: c in multiset(cs) && v in Binds(c)
    decreases |cs|
  {
    if cs != [] {
      assert cs == [cs[0]] + cs[1..];
      assert cs[0] in multiset(cs);
      BindsFrom(cs[1..], v);
    }
  }
}
