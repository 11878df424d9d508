/** `-collect`: reading the rows of some variables off the relations of a context. */
module Collecting {
  import opened Relations
  import opened Sequences
  import opened RelationOps
  import opened Contexts
  import opened Search
  import opened Clauses

  function StartRow(consts: map<Var, Value>, symbols: seq<Var>): (r: seq<Value>)
    ensures |r| == |symbols|
    ensures forall i :: 0 <= i < |r| ==> r[i] == if symbols[i] in consts then consts[symbols[i]] else Nil
  {
    seq(|symbols|, i requires 0 <= i < |symbols| => if symbols[i] in consts then consts[symbols[i]] else Nil)
  }

  /** `row` with the columns of `attrs` copied in from `t`. */
  function Copied(row: seq<Value>, symbols: seq<Var>, attrs: map<Var, Col>, t: Tuple): (r: seq<Value>)
    requires |row| == |symbols|
    ensures |r| == |row|
    ensures forall i :: 0 <= i < |r| ==> r[i] == if symbols[i] in attrs then Get(t, attrs[symbols[i]]) else row[i]
  {
    seq(|row|, i requires 0 <= i < |row| => if symbols[i] in attrs then Get(t, attrs[symbols[i]]) else row[i])
  }

  /** The relation has none of the symbols, and is skipped. */
  predicate Skipped(r: Rel, symbols: seq<Var>) {
    LimitAttrs(r, VarSet(symbols)) == map[]
  }

  function CollectRows(rows: seq<seq<Value>>, rels: seq<Rel>, symbols: seq<Var>): (r: seq<seq<Value>>)
    requires forall row :: row in rows ==> |row| == |symbols|
    ensures forall row :: row in r ==> |row| == |symbols|
    decreases |rels|
  {
    if rels == [] then rows
    else if Skipped(rels[0], symbols) then CollectRows(rows, rels[1..], symbols)
    else CollectRows(CrossRows(rows, rels[0].attrs, rels[0].tuples, symbols), rels[1..], symbols)
  }

  function CrossRows(rows: seq<seq<Value>>, attrs: map<Var, Col>, ts: seq<Tuple>,
                     symbols: seq<Var>): (r: seq<seq<Value>>)
    requires forall row :: row in rows ==> |row| == |symbols|
    ensures forall row :: row in r ==> |row| == |symbols|
  {
    if rows == [] then [] else
      CopyAll(rows[0], attrs, ts, symbols) + CrossRows(rows[1..], attrs, ts, symbols)
  }

  function CopyAll(row: seq<Value>, attrs: map<Var, Col>, ts: seq<Tuple>, symbols: seq<Var>): (r: seq<seq<Value>>)
    requires |row| == |symbols|
    ensures forall x :: x in r ==> |x| == |symbols|
  {
    if ts == [] then [] else [Copied(row, symbols, attrs, ts[0])] + CopyAll(row, attrs, ts[1..], symbols)
  }

  function AsTuples(rows: seq<seq<Value>>): (r: seq<Tuple>)
    ensures forall t :: t in r <==> t.Arr? && t.vals in rows
  {
    if rows == [] then [] else [Arr(rows[0])] + AsTuples(rows[1..])
  }

  /** The relation of the rows collected from a context. */
  function CollectedRel(ctx: Ctx, symbols: seq<Var>): Rel {
    Rel(symbols, ZipRange(symbols), AsTuples(CollectRows([StartRow(ctx.consts, symbols)], ctx.rels, symbols)))
  }

  lemma {:induction false} CollectedGood(ctx: Ctx, symbols: seq<Var>)
    requires NoDups(symbols)
    ensures Good(CollectedRel(ctx, symbols)) && CollectedRel(ctx, symbols).attrs.Keys == Elems(symbols)
  {
    ZipInjective(symbols);
  }

  // ------------------------------------------------------------ row by row

  /** `result` is reached from `row` by copying from one tuple of each relation that has
      one of the symbols; the other relations are skipped, even when they are empty. */
  ghost predicate Collected(row: seq<Value>, rels: seq<Rel>, symbols: seq<Var>, result: seq<Value>)
    requires |row| == |symbols|
    decreases |rels|
  {
    if rels == [] then result == row
    else if Skipped(rels[0], symbols) then Collected(row, rels[1..], symbols, result)
    else exists t ::
        t in rels[0].tuples && Collected(Copied(row, symbols, rels[0].attrs, t), rels[1..], symbols, result)
  }

  lemma {:induction false} CopyAllIs(row: seq<Value>, attrs: map<Var, Col>, ts: seq<Tuple>, symbols: seq<Var>,
                                     x: seq<Value>)
    requires |row| == |symbols|
    ensures x in CopyAll(row, attrs, ts, symbols) <==> exists t :: t in ts && x == Copied(row, symbols, attrs, t)
  {
    if ts != [] {
      CopyAllIs(row, attrs, ts[1..], symbols, x);
      assert forall t :: t in ts <==> t == ts[0] || t in ts[1..];
    }
  }

  lemma {:induction false} CrossRowsIs(rows: seq<seq<Value>>, attrs: map<Var, Col>, ts: seq<Tuple>, symbols: seq<Var>,
                                       x: seq<Value>)
    requires forall row :: row in rows ==> |row| == |symbols|
    ensures x in CrossRows(rows, attrs, ts, symbols)
       <==> exists row, t :: row in rows && t in ts && x == Copied(row, symbols, attrs, t)
  {
    if rows != [] {
      CopyAllIs(rows[0], attrs, ts, symbols, x);
      CrossRowsIs(rows[1..], attrs, ts, symbols, x);
      assert forall row :: row in rows <==> row == rows[0] || row in rows[1..];
    }
  }

  /** The rows `-collect` builds, breadth first, are those reached one tuple at a time. */
  lemma {:induction false} CollectRowsIs(rows: seq<seq<Value>>, rels: seq<Rel>, symbols: seq<Var>, x: seq<Value>)
    requires forall row :: row in rows ==> |row| == |symbols|
    ensures x in CollectRows(rows, rels, symbols) <==> exists row :: row in rows && Collected(row, rels, symbols, x)
    decreases |rels|
  {
    if rels != [] {
      if Skipped(rels[0], symbols) {
        CollectRowsIs(rows, rels[1..], symbols, x);
      } else {
        var more := CrossRows(rows, rels[0].attrs, rels[0].tuples, symbols);
        CollectRowsIs(more, rels[1..], symbols, x);
        if row :| row in more && Collected(row, rels[1..], symbols, x) {
          CrossRowsIs(rows, rels[0].attrs, rels[0].tuples, symbols, row);
        }
        if row :| row in rows && Collected(row, rels, symbols, x) {
          var t :| t in rels[0].tuples && Collected(Copied(row, symbols, rels[0].attrs, t), rels[1..], symbols, x);
          CrossRowsIs(rows, rels[0].attrs, rels[0].tuples, symbols, Copied(row, symbols, rels[0].attrs, t));
        }
      }
    }
  }

  // ---------------------------------------------------------- what is collected

  /** The values of the symbols: from `b`, else what `row` had. */
  ghost predicate Reads(row: seq<Value>, symbols: seq<Var>, vars: set<Var>, b: Asg, result: seq<Value>)
    requires |row| == |symbols|
  {
    && |result| == |row|
    && (forall i :: 0 <= i < |row| ==>
      if symbols[i] in vars then symbols[i] in b && result[i] == b[symbols[i]] else result[i] == row[i])
  }

  lemma {:induction false} SkippedIff(r: Rel, symbols: seq<Var>)
    ensures Skipped(r, symbols) <==> r.attrs.Keys * VarSet(symbols) == {}
    ensures Skipped(r, symbols) <==> forall i :: 0 <= i < |symbols| ==> symbols[i] !in r.attrs
  {
    assert LimitAttrs(r, VarSet(symbols)).Keys == r.attrs.Keys * VarSet(symbols);
    forall v
      ensures v in VarSet(symbols) <==> exists i :: 0 <= i < |symbols| && symbols[i] == v
    {
      VarSetAt(symbols, v);
    }
    if forall i :: 0 <= i < |symbols| ==> symbols[i] !in r.attrs {
      assert r.attrs.Keys * VarSet(symbols) == {};
    }
    if r.attrs.Keys * VarSet(symbols) == {} {
      forall i | 0 <= i < |symbols| ensures symbols[i] !in r.attrs {
        assert symbols[i] in VarSet(symbols);
        assert symbols[i] !in r.attrs.Keys * VarSet(symbols);
      }
    }
  }

  lemma {:induction false} VarSetAt(vs: seq<Var>, v: Var)
    ensures v in VarSet(vs) <==> exists i :: 0 <= i < |vs| && vs[i] == v
  {
    if vs != [] {
      VarSetAt(vs[1..], v);
      if i :| 0 <= i < |vs| && vs[i] == v {
        if i > 0 { assert vs[1..][i - 1] == v; }
      }
    }
  }

  /** Every collected row reads an assignment of the relations, if no skipped relation is empty. */
  lemma {:induction false} CollectedSound(row: seq<Value>, rels: seq<Rel>, symbols: seq<Var>, result: seq<Value>)
    returns (b: Asg)
    requires |row| == |symbols| && WellFormed(rels) && !DropsEmpty(rels, VarSet(symbols))
    requires Collected(row, rels, symbols, result)
    ensures HoldsAll(rels, b) && b.Keys == VarsAll(rels) && Reads(row, symbols, VarsAll(rels), b, result)
    decreases |rels|
  {
    if rels == [] {
      b := map[];
    } else {
      var r := rels[0];
      SkippedIff(r, symbols);
      if Skipped(r, symbols) {
        var rest := CollectedSound(row, rels[1..], symbols, result);
        b := AddTuple(rels, r.tuples[0], rest);
        SkipReads(row, symbols, r, VarsAll(rels[1..]), rest, b, result);
      } else {
        var t :| t in r.tuples && Collected(Copied(row, symbols, r.attrs, t), rels[1..], symbols, result);
        var rest := CollectedSound(Copied(row, symbols, r.attrs, t), rels[1..], symbols, result);
        b := AddTuple(rels, t, rest);
        CopyReads(row, symbols, r, t, VarsAll(rels[1..]), rest, b, result);
      }
    }
  }

  lemma {:induction false} AddTuple(rels: seq<Rel>, t: Tuple, rest: Asg) returns (b: Asg)
    requires rels != [] && WellFormed(rels) && t in rels[0].tuples && HoldsAll(rels[1..], rest)
             && rest.Keys == VarsAll(rels[1..])
    ensures HoldsAll(rels, b) && b.Keys == VarsAll(rels) && b == rest + Row(rels[0].attrs, t)
  {
    b := rest + Row(rels[0].attrs, t);
    assert Meets(rels[0].attrs, t, b);
    HoldsAgree(rels[1..], rest, b);
  }

  lemma {:induction false} SkipReads(row: seq<Value>, symbols: seq<Var>, r: Rel, vars: set<Var>, rest: Asg, b: Asg,
                                     result: seq<Value>)
    requires |row| == |symbols| && rest.Keys == vars && Reads(row, symbols, vars, rest, result)
    requires (forall i :: 0 <= i < |symbols| ==> symbols[i] !in r.attrs) && b.Keys == vars + r.attrs.Keys
    requires forall v :: v in vars && v !in r.attrs ==> b[v] == rest[v]
    ensures Reads(row, symbols, r.attrs.Keys + vars, b, result)
  {}

  lemma {:induction false} CopyReads(row: seq<Value>, symbols: seq<Var>, r: Rel, t: Tuple, vars: set<Var>, rest: Asg,
                                     b: Asg, result: seq<Value>)
    requires |row| == |symbols| && rest.Keys == vars
             && Reads(Copied(row, symbols, r.attrs, t), symbols, vars, rest, result)
    requires r.attrs.Keys !! vars && b == rest + Row(r.attrs, t)
    ensures Reads(row, symbols, r.attrs.Keys + vars, b, result)
  {}

  lemma {:induction false} ReadsCopy(row: seq<Value>, symbols: seq<Var>, r: Rel, t: Tuple, vars: set<Var>, b: Asg,
                                     result: seq<Value>)
    requires |row| == |symbols| && Reads(row, symbols, r.attrs.Keys + vars, b, result)
    requires Meets(r.attrs, t, b)
    ensures Reads(Copied(row, symbols, r.attrs, t), symbols, vars, b, result)
  {}

  /** Every assignment of the relations is collected. */
  lemma {:induction false} CollectedComplete(row: seq<Value>, rels: seq<Rel>, symbols: seq<Var>, b: Asg,
                                             result: seq<Value>)
    requires |row| == |symbols| && HoldsAll(rels, b) && Reads(row, symbols, VarsAll(rels), b, result)
    ensures Collected(row, rels, symbols, result)
    decreases |rels|
  {
    if rels == [] {
      assert result == row;
    } else {
      var r := rels[0];
      var t :| t in r.tuples && Meets(r.attrs, t, b);
      SkippedIff(r, symbols);
      if Skipped(r, symbols) {
        CollectedComplete(row, rels[1..], symbols, b, result);
      } else {
        ReadsCopy(row, symbols, r, t, VarsAll(rels[1..]), b, result);
        CollectedComplete(Copied(row, symbols, r.attrs, t), rels[1..], symbols, b, result);
      }
    }
  }

  lemma {:induction false} CollectedKeeps(row: seq<Value>, rels: seq<Rel>, symbols: seq<Var>, result: seq<Value>)
    requires |row| == |symbols| && Collected(row, rels, symbols, result)
    ensures !KeepsEmpty(rels, VarSet(symbols))
    decreases |rels|
  {
    if rels != [] {
      SkippedIff(rels[0], symbols);
      if Skipped(rels[0], symbols) {
        CollectedKeeps(row, rels[1..], symbols, result);
      } else {
        var t :| t in rels[0].tuples && Collected(Copied(row, symbols, rels[0].attrs, t), rels[1..], symbols, result);
        CollectedKeeps(Copied(row, symbols, rels[0].attrs, t), rels[1..], symbols, result);
      }
    }
  }

  /** `x` gives the symbols the values of an assignment of the context: of its relations,
      else of its constants. */
  ghost predicate ReadsCtx(ctx: Ctx, symbols: seq<Var>, b: Asg, x: Asg) {
    HoldsAll(ctx.rels, b) && forall i :: 0 <= i < |symbols| ==>
      symbols[i] in x && x[symbols[i]] == SymbolValue(ctx, b, symbols[i])
  }

  ghost function SymbolValue(ctx: Ctx, b: Asg, v: Var): Value {
    if v in VarsAll(ctx.rels) then (if v in b then b[v] else Nil)
    else if v in ctx.consts then ctx.consts[v] else Nil
  }

  lemma {:induction false} CollectedHolds(ctx: Ctx, symbols: seq<Var>, x: Asg)
    requires NoDups(symbols)
    ensures Holds(CollectedRel(ctx, symbols), x)
       <==> exists row :: Collected(StartRow(ctx.consts, symbols), ctx.rels, symbols, row) && RowIs(symbols, row, x)
  {
    var start := StartRow(ctx.consts, symbols);
    var rows := CollectRows([start], ctx.rels, symbols);
    var r := CollectedRel(ctx, symbols);
    forall row | |row| == |symbols|
      ensures Meets(r.attrs, Arr(row), x) <==> RowIs(symbols, row, x)
    {
      RowMeets(symbols, row, x);
    }
    if Holds(r, x) {
      var t :| t in r.tuples && Meets(r.attrs, t, x);
      CollectRowsIs([start], ctx.rels, symbols, t.vals);
    }
    if row :| Collected(start, ctx.rels, symbols, row) && RowIs(symbols, row, x) {
      CollectRowsIs([start], ctx.rels, symbols, row);
      assert start in [start];
      assert Arr(row) in r.tuples;
    }
  }

  ghost predicate RowIs(symbols: seq<Var>, row: seq<Value>, x: Asg) {
    |row| == |symbols| && forall i :: 0 <= i < |symbols| ==> symbols[i] in x && x[symbols[i]] == row[i]
  }

  lemma {:induction false} RowMeets(symbols: seq<Var>, row: seq<Value>, x: Asg)
    requires NoDups(symbols) && |row| == |symbols|
    ensures Meets(ZipRange(symbols), Arr(row), x) <==> RowIs(symbols, row, x)
  {
    forall i | 0 <= i < |symbols|
      ensures symbols[i] in ZipRange(symbols) && Get(Arr(row), ZipRange(symbols)[symbols[i]]) == row[i]
    {
      ZipRangeAt(symbols, i);
    }
    forall v | v in ZipRange(symbols) ensures exists i :: 0 <= i < |symbols| && symbols[i] == v {
      var i := IndexOf(symbols, v);
    }
  }

  /** At `x`, collecting is reading off an assignment of the context. */
  ghost predicate CollectsAt(ctx: Ctx, symbols: seq<Var>, x: Asg) {
    Holds(CollectedRel(ctx, symbols), x) <==> exists b :: ReadsCtx(ctx, symbols, b, x)
  }

  lemma {:induction false} CollectAll(ctx: Ctx, symbols: seq<Var>, b: Asg, x: Asg)
    requires NoDups(symbols) && ReadsCtx(ctx, symbols, b, x)
    ensures Holds(CollectedRel(ctx, symbols), x)
  {
    var row := seq(|symbols|, i requires 0 <= i < |symbols| => SymbolValue(ctx, b, symbols[i]));
    HoldsCovers(ctx.rels, b);
    CollectedComplete(StartRow(ctx.consts, symbols), ctx.rels, symbols, b, row);
    CollectedHolds(ctx, symbols, x);
    assert RowIs(symbols, row, x);
  }

  lemma {:induction false} CollectOnly(ctx: Ctx, symbols: seq<Var>, x: Asg) returns (b: Asg)
    requires NoDups(symbols) && WellFormed(ctx.rels) && Holds(CollectedRel(ctx, symbols), x)
    requires !DropsEmpty(ctx.rels, VarSet(symbols)) || KeepsEmpty(ctx.rels, VarSet(symbols))
    ensures ReadsCtx(ctx, symbols, b, x) && b.Keys == VarsAll(ctx.rels)
  {
    CollectedHolds(ctx, symbols, x);
    var start := StartRow(ctx.consts, symbols);
    var row :| Collected(start, ctx.rels, symbols, row) && RowIs(symbols, row, x);
    CollectedKeeps(start, ctx.rels, symbols, row);
    b := CollectedSound(start, ctx.rels, symbols, row);
  }

  lemma {:induction false} CollectSome(row: seq<Value>, rels: seq<Rel>, symbols: seq<Var>) returns (result: seq<Value>)
    requires |row| == |symbols| && !KeepsEmpty(rels, VarSet(symbols))
    ensures Collected(row, rels, symbols, result) && |result| == |symbols|
    decreases |rels|
  {
    if rels == [] {
      result := row;
    } else {
      SkippedIff(rels[0], symbols);
      if Skipped(rels[0], symbols) {
        result := CollectSome(row, rels[1..], symbols);
      } else {
        var t := rels[0].tuples[0];
        result := CollectSome(Copied(row, symbols, rels[0].attrs, t), rels[1..], symbols);
      }
    }
  }

  /** `-collect` reads off exactly the assignments of the context if and only if it skips
      no empty relation, or visits an empty one. */
  lemma {:induction false} CollectExact(ctx: Ctx, symbols: seq<Var>)
    requires NoDups(symbols) && WellFormed(ctx.rels)
    ensures (forall x :: CollectsAt(ctx, symbols, x))
       <==> !DropsEmpty(ctx.rels, VarSet(symbols)) || KeepsEmpty(ctx.rels, VarSet(symbols))
  {
    if !DropsEmpty(ctx.rels, VarSet(symbols)) || KeepsEmpty(ctx.rels, VarSet(symbols)) {
      forall x ensures CollectsAt(ctx, symbols, x) {
        if Holds(CollectedRel(ctx, symbols), x) { var b := CollectOnly(ctx, symbols, x); }
        if b :| ReadsCtx(ctx, symbols, b, x) { CollectAll(ctx, symbols, b, x); }
      }
    } else {
      var row := CollectSome(StartRow(ctx.consts, symbols), ctx.rels, symbols);
      var x := AsgOf(symbols, row);
      CollectedHolds(ctx, symbols, x);
      forall b ensures !ReadsCtx(ctx, symbols, b, x) {
        if HoldsAll(ctx.rels, b) { HoldsNonEmpty(ctx.rels, VarSet(symbols), b); }
      }
      assert !CollectsAt(ctx, symbols, x);
    }
  }

  lemma {:induction false} AsgOf(symbols: seq<Var>, row: seq<Value>) returns (x: Asg)
    requires NoDups(symbols) && |row| == |symbols|
    ensures RowIs(symbols, row, x)
  {
    x := Row(ZipRange(symbols), Arr(row));
    RowMeets(symbols, row, x);
  }
}
