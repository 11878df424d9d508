/** The clause scheduler: which clauses a run of `resolve-clauses` applies, in which order. */
module Schedule {
  import opened Relations
  import opened Sequences
  import opened RelationOps
  import opened Contexts
  import opened Clauses

  /** Only function clauses wait for their arguments. */
  predicate Enabled(bound: set<Var>, c: Clause) {
    c.Bind? ==> TermVars(c.args) <= bound
  }

  /** One pass over the clauses: those applied and those left, in order. */
  function Pass(bound: set<Var>, cs: seq<Clause>): (r: (seq<Clause>, seq<Clause>))
    ensures |r.0| + |r.1| == |cs|
    ensures HeightAll(r.0) <= HeightAll(cs) && HeightAll(r.1) <= HeightAll(cs)
    decreases |cs|
  {
    if cs == [] then ([], [])
    else if Enabled(bound, cs[0]) then
      var r := Pass(bound + Binds(cs[0]), cs[1..]);
      assert ([cs[0]] + r.0)[1..] == r.0;
      ([cs[0]] + r.0, r.1)
    else
      var r := Pass(bound, cs[1..]);
      assert ([cs[0]] + r.1)[1..] == r.1;
      (r.0, [cs[0]] + r.1)
  }

  /** The order in which the clauses are applied when each pass makes progress. */
  function Order(bound: set<Var>, cs: seq<Clause>): (r: seq<Clause>)
    ensures HeightAll(r) <= HeightAll(cs)
    decreases |cs|
  {
    var p := Pass(bound, cs);
    if p.0 == [] then [] else
      HeightConcat(p.0, Order(bound + BindsAll(p.0), p.1));
      p.0 + Order(bound + BindsAll(p.0), p.1)
  }

  /** Every clause gets applied. */
  predicate Schedulable(bound: set<Var>, cs: seq<Clause>) {
    |Order(bound, cs)| == |cs|
  }

  lemma {:induction false} HeightConcat(s: seq<Clause>, t: seq<Clause>)
    ensures HeightAll(s + t) == if HeightAll(s) > HeightAll(t) then HeightAll(s) else HeightAll(t)
  {
    if s == [] {
      assert s + t == t;
    } else {
      assert (s + t)[1..] == s[1..] + t;
      HeightConcat(s[1..], t);
    }
  }

  lemma {:induction false} BindsConcat(s: seq<Clause>, t: seq<Clause>)
    ensures BindsAll(s + t) == BindsAll(s) + BindsAll(t)
  {
    if s == [] {
      assert s + t == t;
    } else {
      assert (s + t)[1..] == s[1..] + t;
      BindsConcat(s[1..], t);
    }
  }

  lemma {:induction false} PassSplits(bound: set<Var>, cs: seq<Clause>)
    ensures multiset(Pass(bound, cs).0) + multiset(Pass(bound, cs).1) == multiset(cs)
    ensures BindsAll(Pass(bound, cs).0) + BindsAll(Pass(bound, cs).1) == BindsAll(cs)
    decreases |cs|
  {
    if cs != [] {
      assert cs == [cs[0]] + cs[1..];
      if Enabled(bound, cs[0]) {
        var r := Pass(bound + Binds(cs[0]), cs[1..]);
        PassSplits(bound + Binds(cs[0]), cs[1..]);
        assert ([cs[0]] + r.0)[1..] == r.0;
      } else {
        var r := Pass(bound, cs[1..]);
        PassSplits(bound, cs[1..]);
        assert ([cs[0]] + r.1)[1..] == r.1;
      }
    }
  }

  /** A complete schedule applies each clause exactly once. */
  lemma {:induction false} OrderIsPermutation(bound: set<Var>, cs: seq<Clause>)
    requires Schedulable(bound, cs)
    ensures multiset(Order(bound, cs)) == multiset(cs)
    ensures BindsAll(Order(bound, cs)) == BindsAll(cs)
    decreases |cs|
  {
    var p := Pass(bound, cs);
    PassSplits(bound, cs);
    if p.0 == [] {
      assert cs == [];
    } else {
      OrderLength(bound + BindsAll(p.0), p.1);
      OrderIsPermutation(bound + BindsAll(p.0), p.1);
      BindsConcat(p.0, Order(bound + BindsAll(p.0), p.1));
    }
  }

  lemma {:induction false} OrderLength(bound: set<Var>, cs: seq<Clause>)
    ensures |Order(bound, cs)| <= |cs|
    decreases |cs|
  {
    var p := Pass(bound, cs);
    if p.0 != [] { OrderLength(bound + BindsAll(p.0), p.1); }
  }

  /** The clauses resolved one after the other. */
  function FoldClauses(w: World, ctx: Ctx, cs: seq<Clause>): (o: Outcome)
    requires WellFormed(ctx.rels)
    ensures Resolved(ctx, BindsAll(cs), o)
    decreases |cs|
  {
    if cs == [] then Ok(ctx)
    else
      var o := ResolveClause(w, ctx, cs[0]);
      if o.Ok? then FoldClauses(w, o.ctx, cs[1..]) else Raised
  }

  lemma {:induction false} PendingIff(w: World, ctx: Ctx, c: Clause)
    requires WellFormed(ctx.rels)
    ensures ResolveClause(w, ctx, c) == Pending <==> !Enabled(Bound(ctx), c)
  {}

  lemma {:induction false} FoldConcat(w: World, ctx: Ctx, s: seq<Clause>, t: seq<Clause>)
    requires WellFormed(ctx.rels)
    ensures FoldClauses(w, ctx, s).Ok? ==>
              FoldClauses(w, ctx, s + t) == FoldClauses(w, FoldClauses(w, ctx, s).ctx, t)
    decreases |s|
  {
    if s == [] {
      assert s + t == t;
    } else {
      assert (s + t)[1..] == s[1..] + t;
      var o := ResolveClause(w, ctx, s[0]);
      if o.Ok? { FoldConcat(w, o.ctx, s[1..], t); }
    }
  }

  lemma {:induction false} ReduceIsFold(w: World, ctx: Ctx, cs: seq<Clause>)
    requires WellFormed(ctx.rels) && ReduceClauses(w, ctx, cs).0.Ok?
    ensures Pass(Bound(ctx), cs).1 == ReduceClauses(w, ctx, cs).1
    ensures FoldClauses(w, ctx, Pass(Bound(ctx), cs).0) == ReduceClauses(w, ctx, cs).0
    decreases |cs|
  {
    if cs != [] {
      PendingIff(w, ctx, cs[0]);
      var o := ResolveClause(w, ctx, cs[0]);
      if o.Ok? {
        assert Bound(o.ctx) == Bound(ctx) + Binds(cs[0]);
        ReduceIsFold(w, o.ctx, cs[1..]);
        var r := Pass(Bound(ctx) + Binds(cs[0]), cs[1..]);
        assert ([cs[0]] + r.0)[1..] == r.0;
      } else {
        ReduceIsFold(w, ctx, cs[1..]);
      }
    }
  }

  /** A successful run of the scheduler is a sequential run over a permutation of the
      clauses that depends only on the variables bound at the start. */
  lemma {:induction false} ResolveIsFold(w: World, ctx: Ctx, cs: seq<Clause>)
    requires WellFormed(ctx.rels) && ResolveClauses(w, ctx, cs).Ok?
    ensures Schedulable(Bound(ctx), cs)
    ensures FoldClauses(w, ctx, Order(Bound(ctx), cs)) == ResolveClauses(w, ctx, cs)
    decreases |cs|
  {
    if cs != [] {
      var (o, failed) := ReduceClauses(w, ctx, cs);
      var p := Pass(Bound(ctx), cs);
      ReduceIsFold(w, ctx, cs);
      assert Bound(o.ctx) == Bound(ctx) + BindsAll(p.0);
      ResolveIsFold(w, o.ctx, failed);
      FoldConcat(w, ctx, p.0, Order(Bound(o.ctx), failed));
    }
  }
}
