/** The table that picks an index and a strategy for a search pattern, compiled. */
module StrategyTable {
  import opened Search
  import opened Clauses
  import opened D = DecisionTrees

  datatype IndexKey = EAVT | AEVT | AVET

  datatype Lookup = Lookup(index: IndexKey, strategies: seq<Strategy>)

  function P(e: Class, a: Class, v: Class, t: Class, i: Class, index: IndexKey, s: seq<Strategy>): Row<Lookup> {
    Row([e, a, v, t, i], Lookup(index, s))
  }

  /** The eighteen rows: entity, attribute, value, transaction, and whether it is indexed. */
  function TableRow(i: nat): Row<Lookup> {
    match i
    case 0 => P(Positive, Positive, Positive, Positive, Any, EAVT, [Substitute, Substitute, Substitute, Substitute])
    case 1 => P(Positive, Positive, Positive, Negative, Any, EAVT, [Substitute, Substitute, Substitute, Skip])
    case 2 => P(Positive, Positive, Negative, Positive, Any, EAVT, [Substitute, Substitute, Skip, Filter])
    case 3 => P(Positive, Positive, Negative, Negative, Any, EAVT, [Substitute, Substitute, Skip, Skip])
    case 4 => P(Positive, Negative, Positive, Positive, Any, EAVT, [Substitute, Skip, Filter, Filter])
    case 5 => P(Positive, Negative, Positive, Negative, Any, EAVT, [Substitute, Skip, Filter, Skip])
    case 6 => P(Positive, Negative, Negative, Positive, Any, EAVT, [Substitute, Skip, Skip, Filter])
    case 7 => P(Positive, Negative, Negative, Negative, Any, EAVT, [Substitute, Skip, Skip, Skip])
    case 8 => P(Negative, Positive, Positive, Positive, Positive, AVET, [Skip, Substitute, Substitute, Filter])
    case 9 => P(Negative, Positive, Positive, Positive, Negative, AEVT, [Skip, Substitute, Filter, Filter])
    case 10 => P(Negative, Positive, Positive, Negative, Positive, AVET, [Skip, Substitute, Substitute, Skip])
    case 11 => P(Negative, Positive, Positive, Negative, Negative, AEVT, [Skip, Substitute, Filter, Skip])
    case 12 => P(Negative, Positive, Negative, Positive, Any, AEVT, [Skip, Substitute, Skip, Filter])
    case 13 => P(Negative, Positive, Negative, Negative, Any, AEVT, [Skip, Substitute, Skip, Skip])
    case 14 => P(Negative, Negative, Positive, Positive, Any, EAVT, [Skip, Skip, Filter, Filter])
    case 15 => P(Negative, Negative, Positive, Negative, Any, EAVT, [Skip, Skip, Filter, Skip])
    case 16 => P(Negative, Negative, Negative, Positive, Any, EAVT, [Skip, Skip, Skip, Filter])
    case _ => P(Negative, Negative, Negative, Negative, Any, EAVT, [Skip, Skip, Skip, Skip])
  }

  /** The rows from `i` on. */
  function Rows(i: nat): (r: seq<Row<Lookup>>)
    requires i <= 18
    ensures Sized(r, 5)
    decreases 18 - i
  {
    if i == 18 then [] else
      var rest := Rows(i + 1);
      assert ([TableRow(i)] + rest)[1..] == rest;
      [TableRow(i)] + rest
  }

  /** The row for a pattern. */
  function RowOf(e: bool, a: bool, v: bool, t: bool, indexed: bool): nat {
    if e then (if a then 0 else 4) + (if v then 0 else 2) + (if t then 0 else 1)
    else if a && v then 8 + (if t then 0 else 2) + (if indexed then 0 else 1)
    else if a then 12 + (if t then 0 else 1)
    else 14 + (if v then 0 else 2) + (if t then 0 else 1)
  }

  /** The index the table picks. */
  function IndexOfPattern(e: bool, a: bool, v: bool, indexed: bool): IndexKey {
    if e || !a then EAVT else if v && indexed then AVET else AEVT
  }

  lemma {:induction false} MatchFive(p: seq<Class>, x: seq<bool>)
    requires |p| == |x| == 5
    ensures Matches(p, x, 0) <==>
        D.Fits(p[0], x[0]) && D.Fits(p[1], x[1]) && D.Fits(p[2], x[2]) && D.Fits(p[3], x[3]) && D.Fits(p[4], x[4])
  {
    assert Matches(p, x, 4) <==> D.Fits(p[4], x[4]);
    assert Matches(p, x, 2) <==> D.Fits(p[2], x[2]) && D.Fits(p[3], x[3]) && D.Fits(p[4], x[4]);
  }

  lemma {:induction false} RowMatches(i: nat, e: bool, a: bool, v: bool, t: bool, indexed: bool)
    requires i < 18
    ensures |TableRow(i).pattern| == 5 && (Matches(TableRow(i).pattern, [e, a, v, t, indexed], 0) <==>
        RowOf(e, a, v, t, indexed) == i)
  {
    MatchFive(TableRow(i).pattern, [e, a, v, t, indexed]);
  }

  lemma {:induction false} RowsHit(i: nat, next: nat, e: bool, a: bool, v: bool, t: bool, indexed: bool)
    requires i <= 18 && next == i + 1
    ensures Hits(Rows(i), [e, a, v, t, indexed], 0)
         == if RowOf(e, a, v, t, indexed) >= i then [TableRow(RowOf(e, a, v, t, indexed)).expr] else []
    decreases 18 - i
  {
    if i < 18 {
      var x, r := [e, a, v, t, indexed], TableRow(i);
      RowMatches(i, e, a, v, t, indexed);
      RowsHit(next, next + 1, e, a, v, t, indexed);
      assert Rows(i) == [r] + Rows(next) && ([r] + Rows(next))[1..] == Rows(next);
      assert [] + Hits(Rows(next), x, 0) == Hits(Rows(next), x, 0) && [r.expr] + [] == [r.expr];
    }
  }

  lemma {:induction false} RowExpr(e: bool, a: bool, v: bool, t: bool, indexed: bool)
    ensures TableRow(RowOf(e, a, v, t, indexed)).expr
        == Lookup(IndexOfPattern(e, a, v, indexed), StrategyVec(e, a, v, t, indexed))
  {}

  lemma {:induction false} OneHit(x: seq<bool>)
    requires |x| == 5
    ensures |Hits(Rows(0), x, 0)| == 1
  {
    assert x == [x[0], x[1], x[2], x[3], x[4]];
    RowsHit(0, 1, x[0], x[1], x[2], x[3], x[4]);
  }

  lemma {:induction false} TableAccepted()
    ensures Compile(Rows(0), 0, 5).Ok?
  {
    forall x: seq<bool> | |x| == 5 ensures |Hits(Rows(0), x, 0)| == 1 { OneHit(x); }
    CompilesExactly(Rows(0), 5);
  }

  /** The table is complete and free of overlaps, and its tree yields the strategies the
      search uses: each bound element is substituted or filtered, unbound ones skipped. */
  lemma {:induction false} TableCompiles(e: bool, a: bool, v: bool, t: bool, indexed: bool)
    ensures Compile(Rows(0), 0, 5).Ok?
    ensures Eval(Compile(Rows(0), 0, 5).tree, [e, a, v, t, indexed])
        == Lookup(IndexOfPattern(e, a, v, indexed), StrategyVec(e, a, v, t, indexed))
  {
    TableAccepted();
    RowsHit(0, 1, e, a, v, t, indexed);
    RowExpr(e, a, v, t, indexed);
    OnlyHit(Rows(0), [e, a, v, t, indexed], TableRow(RowOf(e, a, v, t, indexed)).expr);
  }

  /** The components of an index, in the order in which it is sorted. */
  function Components(i: IndexKey): seq<nat> {
    match i
    case EAVT => [0, 1, 2, 3]
    case AEVT => [1, 0, 2, 3]
    case AVET => [1, 2, 0, 3]
  }

  /** The first `n` components of the index are substituted, and no others. */
  ghost predicate Leads(l: Lookup, n: nat) {
    |l.strategies| == 4 && n <= 4
    && forall j :: 0 <= j < 4 ==> (l.strategies[Components(l.index)[j]] == Substitute <==> j < n)
  }

  /** What the compiled table picks. */
  ghost function Picked(e: bool, a: bool, v: bool, t: bool, indexed: bool): Lookup {
    TableAccepted();
    Eval(Compile(Rows(0), 0, 5).tree, [e, a, v, t, indexed])
  }

  /** Bound components are used and the others are not. */
  ghost predicate Used(strategies: seq<Strategy>, bound: seq<bool>) {
    |strategies| == |bound| && forall i :: 0 <= i < |bound| ==> (strategies[i] == Skip <==> !bound[i])
  }

  /** What is substituted leads the index that is picked, so each lookup is one range of it;
      other bound elements are filtered, and unbound ones skipped. */
  lemma {:induction false} LookupIsRange(e: bool, a: bool, v: bool, t: bool, indexed: bool) returns (n: nat)
    ensures var l := Picked(e, a, v, t, indexed); Leads(l, n) && Used(l.strategies, [e, a, v, t])
  {
    TableCompiles(e, a, v, t, indexed);
    n := if e then (if !a then 1 else if !v then 2 else if !t then 3 else 4)
    else if !a then 0 else if v && indexed then 2 else 1;
    RangeOf(e, a, v, t, indexed, n);
  }

  lemma {:induction false} RangeOf(e: bool, a: bool, v: bool, t: bool, indexed: bool, n: nat)
    requires n == if e then (if !a then 1 else if !v then 2 else if !t then 3 else 4)
                  else if !a then 0 else if v && indexed then 2 else 1
    ensures var l := Lookup(IndexOfPattern(e, a, v, indexed), StrategyVec(e, a, v, t, indexed));
            Leads(l, n) && Used(l.strategies, [e, a, v, t])
  {}
}
