/** The loops of the query engine, each against the function that specifies it. */
module Loops {
  import opened Relations
  import opened Sequences
  import opened RelationOps
  import opened Contexts
  import opened Search
  import opened Clauses
  import opened Collecting

  /** `reduce-clauses`. */
  method ReduceLoop(w: World, start: Ctx, clauses: seq<Clause>) returns (result: Outcome, failed: seq<Clause>)
    requires WellFormed(start.rels)
    ensures (result, failed) == ReduceClauses(w, start, clauses)
  {
    var context, rest := start, clauses;
    failed := [];
    while rest != []
      invariant WellFormed(context.rels)
      invariant ReduceClauses(w, start, clauses).0 == ReduceClauses(w, context, rest).0
      invariant ReduceClauses(w, start, clauses).1 == failed + ReduceClauses(w, context, rest).1
      decreases |rest|
    {
      var next := ResolveClause(w, context, rest[0]);
      match next {
        case Ok(ctx) =>
          context := ctx;
        case Pending =>
          assert failed + ([rest[0]] + ReduceClauses(w, context, rest[1..]).1) == failed + [rest[0]]
              + ReduceClauses(w, context, rest[1..]).1;
          failed := failed + [rest[0]];
        case Raised =>
          result := Raised;
          assert failed + [] == failed;
          return;
      }
      rest := rest[1..];
    }
    assert failed + [] == failed;
    result := Ok(context);
  }

  /** `resolve-clauses`: passes until nothing is left, or none makes progress. */
  method ResolveLoop(w: World, start: Ctx, clauses: seq<Clause>) returns (result: Outcome)
    requires WellFormed(start.rels)
    ensures result == ResolveClauses(w, start, clauses)
  {
    var context, rest := start, clauses;
    while rest != []
      invariant WellFormed(context.rels)
      invariant ResolveClauses(w, start, clauses) == ResolveClauses(w, context, rest)
      decreases |rest|
    {
      var next, failed := ReduceLoop(w, context, rest);
      if !next.Ok? || |failed| == |rest| { return Raised; }
      context, rest := next.ctx, failed;
    }
    result := Ok(context);
  }

  /** `-call-fn`: the arguments of a call, literals and constants first, columns over them. */
  method CallArgs(consts: map<Var, Value>, attrs: map<Var, Col>, t: Tuple, args: seq<Term>)
    returns (values: array<Value>)
    ensures fresh(values) && values[..] == ArgsOf(consts, attrs, t, args)
  {
    values := new Value[|args|](i => Nil);
    for i := 0 to |args|
      invariant forall k :: 0 <= k < i ==> values[k] == StaticArg(consts, args[k])
      invariant forall k :: i <= k < |args| ==> values[k] == Nil
    {
      values[i] := StaticArg(consts, args[i]);
    }
    for i := 0 to |args|
      invariant forall k :: 0 <= k < i ==> values[k] == ArgOf(consts, attrs, t, args[k])
      invariant forall k :: i <= k < |args| ==> values[k] == StaticArg(consts, args[k])
    {
      if IsColumn(consts, attrs, args[i]) { values[i] := Get(t, attrs[args[i].v]); }
    }
  }

  function StaticArg(consts: map<Var, Value>, arg: Term): Value {
    match arg
    case Constant(c) => c
    case Blank => Nil
    case Variable(v) => if v in consts && Truthy(consts[v]) then consts[v] else Nil
  }

  predicate IsColumn(consts: map<Var, Value>, attrs: map<Var, Col>, arg: Term) {
    arg.Variable? && !(arg.v in consts && Truthy(consts[arg.v])) && arg.v in attrs
  }

  /** The inner loop of `-collect`: a copy of the row with the tuple's columns. */
  method CopyRow(row: array<Value>, symbols: seq<Var>, attrs: map<Var, Col>, t: Tuple) returns (res: array<Value>)
    requires row.Length == |symbols|
    ensures fresh(res) && res[..] == Copied(row[..], symbols, attrs, t)
  {
    res := new Value[row.Length](i requires 0 <= i < row.Length reads row => row[i]);
    for i := 0 to row.Length
      invariant forall k :: 0 <= k < i ==> res[k] == if symbols[k] in attrs then Get(t, attrs[symbols[k]]) else row[k]
      invariant forall k :: i <= k < row.Length ==> res[k] == row[k]
    {
      if symbols[i] in attrs { res[i] := Get(t, attrs[symbols[i]]); }
    }
  }

  /** The inner reduction of `prod-rel`, for one tuple of the first relation. */
  method ProdRowTuples(r1: Rel, r2: Rel, o: Tuple) returns (tuples: seq<Tuple>)
    requires Valid(r1) && Valid(r2)
    ensures tuples == ProdRow(r1, r2, o, r2.tuples)
  {
    var cols1, cols2 := Idxs(r1.keys, r1.attrs), Idxs(r2.keys, r2.attrs);
    var idxs1 := new Col[|cols1|](i requires 0 <= i < |cols1| => cols1[i]);
    var idxs2 := new Col[|cols2|](i requires 0 <= i < |cols2| => cols2[i]);
    assert idxs1[..] == cols1 && idxs2[..] == cols2;
    tuples := [];
    for j := 0 to |r2.tuples|
      invariant idxs1[..] == cols1 && idxs2[..] == cols2
      invariant tuples == ProdRow(r1, r2, o, r2.tuples[..j])
    {
      var more := r2.tuples[..j + 1];
      assert more[..|more| - 1] == r2.tuples[..j] && more[|more| - 1] == r2.tuples[j];
      var res := JoinTuples(o, idxs1, r2.tuples[j], idxs2);
      assert idxs1[..] == cols1 && idxs2[..] == cols2;
      tuples := tuples + [Arr(res[..])];
    }
    assert r2.tuples[..|r2.tuples|] == r2.tuples;
  }

  /** The outer reduction. */
  method ProdTuples(r1: Rel, r2: Rel) returns (tuples: seq<Tuple>)
    requires Valid(r1) && Valid(r2)
    ensures tuples == ProdRel(r1, r2).tuples
  {
    tuples := [];
    for i := 0 to |r1.tuples|
      invariant tuples == ProdLoop(r1, r2, r1.tuples[..i], r2.tuples)
    {
      assert r1.tuples[..i + 1][..i] == r1.tuples[..i];
      var row := ProdRowTuples(r1, r2, r1.tuples[i]);
      tuples := tuples + row;
    }
    assert r1.tuples[..|r1.tuples|] == r1.tuples;
  }
}
