/** As-of and since views: history filtered by a time point and replayed by entity and
    attribute. */
module TimeTravel {
  import opened Datoms
  import opened Sequences

  type HistDatom = Datom<string, int>

  /** Either a transaction or a date. */
  datatype TimePoint = AtTx(n: int) | AtDate(date: int)

  const TX_INSTANT := ":db/txInstant"

  // ------------------------------------------------------------------- filtering

  /** `as-of-pred`, including the time point; on the datom that carries a date. */
  predicate AsOfPred(p: TimePoint, d: HistDatom) {
    match p
    case AtTx(n) => d.tx <= n
    case AtDate(date) => d.v <= date
  }

  /** `since-pred` is the complement. */
  predicate TimePred(p: TimePoint, since: bool, d: HistDatom) {
    if since then !AsOfPred(p, d) else AsOfPred(p, d)
  }

  /** The transactions that have an instant datom for which the predicate is true. */
  function InstantTxs(all: seq<HistDatom>, p: TimePoint, since: bool): (r: set<int>)
    ensures forall t :: t in r <==>
        exists m :: m in Elems(all) && m.e == t && m.a == TX_INSTANT && TimePred(p, since, m)
  {
    if all == [] then {} else
      var (r, m) := (InstantTxs(all[..|all| - 1], p, since), all[|all| - 1]);
      if m.a == TX_INSTANT && TimePred(p, since, m) then r + {m.e} else r
  }

  function TxsOf(datoms: seq<HistDatom>): (r: set<int>)
    ensures forall d :: d in Elems(datoms) ==> d.tx in r
  {
    if datoms == [] then {} else TxsOf(datoms[..|datoms| - 1]) + {datoms[|datoms| - 1].tx}
  }

  /** `filter-txInstant`: the transactions of the datoms whose instant passes. */
  function FilterTxInstant(datoms: seq<HistDatom>, p: TimePoint, since: bool, all: seq<HistDatom>): set<int> {
    TxsOf(datoms) * InstantTxs(all, p, since)
  }

  function KeepTxs(datoms: seq<HistDatom>, txs: set<int>): (r: seq<HistDatom>)
    ensures forall d :: d in Elems(r) <==> d in Elems(datoms) && d.tx in txs
  {
    if datoms == [] then [] else
      var (r, d) := (KeepTxs(datoms[..|datoms| - 1], txs), datoms[|datoms| - 1]);
      if d.tx in txs then r + [d] else r
  }

  /** `temporal-datom-filter`. */
  function TimeFilter(datoms: seq<HistDatom>, p: TimePoint, since: bool, all: seq<HistDatom>): seq<HistDatom> {
    KeepTxs(datoms, FilterTxInstant(datoms, p, since, all))
  }

  // -------------------------------------------------------------------- grouping

  type Groups = map<(int, string), seq<HistDatom>>

  /** The datoms of one entity and attribute, in order. */
  function GroupOf(datoms: seq<HistDatom>, e: int, a: string): (r: seq<HistDatom>)
    ensures forall d :: d in Elems(r) <==> d in Elems(datoms) && d.e == e && d.a == a
  {
    if datoms == [] then [] else
      var (r, d) := (GroupOf(datoms[..|datoms| - 1], e, a), datoms[|datoms| - 1]);
      if d.e == e && d.a == a then r + [d] else r
  }

  ghost predicate Grouped(datoms: seq<HistDatom>, groups: Groups) {
    && (forall k :: k in groups <==> GroupOf(datoms, k.0, k.1) != [])
    && (forall k :: k in groups ==> groups[k] == GroupOf(datoms, k.0, k.1))
  }

  /** `group-by-step`, as a reduction over the datoms. */
  method GroupByStep(datoms: seq<HistDatom>) returns (groups: Groups)
    ensures Grouped(datoms, groups)
  {
    groups := map[];
    for i := 0 to |datoms|
      invariant Grouped(datoms[..i], groups)
    {
      var d := datoms[i];
      var k := (d.e, d.a);
      assert datoms[..i + 1][..i] == datoms[..i];
      groups := groups[k := (if k in groups then groups[k] else []) + [d]];
    }
    assert datoms[..|datoms|] == datoms;
  }

  // ------------------------------------------------------------------- replaying

  /** `(sort-by datom-tx)`, a stable sort. */
  function SortByTx(g: seq<HistDatom>): (r: seq<HistDatom>)
    ensures Elems(r) == Elems(g)
  {
    if g == [] then [] else InsertByTx(SortByTx(g[..|g| - 1]), g[|g| - 1])
  }

  function InsertByTx(s: seq<HistDatom>, d: HistDatom): (r: seq<HistDatom>)
    ensures Elems(r) == Elems(s) + {d}
  {
    if s == [] || s[|s| - 1].tx <= d.tx then s + [d] else InsertByTx(s[..|s| - 1], d) + [s[|s| - 1]]
  }

  ghost predicate SortedByTx(s: seq<HistDatom>) {
    s == [] || ((forall x :: x in Elems(s) ==> x.tx <= s[|s| - 1].tx) && SortedByTx(s[..|s| - 1]))
  }

  lemma {:induction false} InsertSorts(s: seq<HistDatom>, d: HistDatom)
    requires SortedByTx(s)
    ensures SortedByTx(InsertByTx(s, d))
  {
    if s == [] || s[|s| - 1].tx <= d.tx {
      assert (s + [d])[..|s|] == s;
    } else {
      var r := InsertByTx(s[..|s| - 1], d);
      InsertSorts(s[..|s| - 1], d);
      assert (r + [s[|s| - 1]])[..|r|] == r;
    }
  }

  lemma {:induction false} SortSorts(g: seq<HistDatom>)
    ensures SortedByTx(SortByTx(g))
  {
    if g != [] {
      SortSorts(g[..|g| - 1]);
      InsertSorts(SortByTx(g[..|g| - 1]), g[|g| - 1]);
    }
  }

  /** The reduction for many-valued attributes: `assoc` on added, `dissoc` on retracted. */
  function Replay(s: seq<HistDatom>): (r: map<int, HistDatom>)
    ensures forall v :: v in r ==> r[v].v == v
  {
    if s == [] then map[] else
      var (m, d) := (Replay(s[..|s| - 1]), s[|s| - 1]);
      if d.added then m[d.v := d] else m - {d.v}
  }

  function MaxTx(g: seq<HistDatom>): (t: int)
    requires g != []
    ensures (exists d :: d in Elems(g) && d.tx == t) && forall d :: d in Elems(g) ==> d.tx <= t
  {
    var (init, d) := (g[..|g| - 1], g[|g| - 1]);
    if init == [] then assert Elems(g) == {d}; d.tx
    else if MaxTx(init) < d.tx then assert d in Elems(g); d.tx else MaxTx(init)
  }

  /** The first datom added in the transaction, if any. */
  function FirstAdded(g: seq<HistDatom>, tx: int): set<HistDatom> {
    if g == [] then {}
    else if FirstAdded(g[..|g| - 1], tx) != {} then FirstAdded(g[..|g| - 1], tx)
    else if g[|g| - 1].added && g[|g| - 1].tx == tx then {g[|g| - 1]} else {}
  }

  /** `assemble-datoms-xform`, for one group. */
  function Assemble(many: bool, g: seq<HistDatom>): set<HistDatom>
    requires g != []
  {
    if many then Replay(SortByTx(g)).Values else FirstAdded(g, MaxTx(g))
  }

  /** The rebuilt view: what is assembled from the group of each datom. */
  ghost predicate InView(many: set<string>, datoms: seq<HistDatom>, d: HistDatom) {
    GroupOf(datoms, d.e, d.a) != [] && d in Assemble(d.a in many, GroupOf(datoms, d.e, d.a))
  }

  method AssembleView(many: set<string>, datoms: seq<HistDatom>) returns (r: set<HistDatom>)
    ensures forall d :: d in r <==> InView(many, datoms, d)
  {
    var groups := GroupByStep(datoms);
    r := {};
    var keys := groups.Keys;
    while keys != {}
      invariant keys <= groups.Keys
      invariant forall d :: d in r <==> InView(many, datoms, d) && (d.e, d.a) !in keys
      decreases keys
    {
      var k :| k in keys;
      r := r + Assemble(k.1 in many, groups[k]);
      forall d | d in Assemble(k.1 in many, groups[k]) ensures (d.e, d.a) == k {
        AssembleFrom(k.1 in many, groups[k], d);
      }
      keys := keys - {k};
    }
  }

  lemma {:induction false} AssembleFrom(many: bool, g: seq<HistDatom>, d: HistDatom)
    requires g != [] && d in Assemble(many, g)
    ensures d in Elems(g)
  {
    if many { ReplayFrom(SortByTx(g), d); } else { FirstAddedFrom(g, MaxTx(g), d); }
  }

  lemma {:induction false} ReplayFrom(s: seq<HistDatom>, d: HistDatom)
    requires d in Replay(s).Values
    ensures d in Elems(s)
  {
    var (m, l) := (Replay(s[..|s| - 1]), s[|s| - 1]);
    if d != l {
      assert d in m.Values;
      ReplayFrom(s[..|s| - 1], d);
    }
  }

  lemma {:induction false} FirstAddedFrom(g: seq<HistDatom>, tx: int, d: HistDatom)
    requires d in FirstAdded(g, tx)
    ensures d in Elems(g)
  {
    if FirstAdded(g[..|g| - 1], tx) != {} { FirstAddedFrom(g[..|g| - 1], tx, d); }
  }

  // ------------------------------------------------ what the view says, datom by datom

  predicate SameGroup(x: HistDatom, y: HistDatom) {
    x.e == y.e && x.a == y.a
  }

  predicate SameValue(x: HistDatom, y: HistDatom) {
    SameGroup(x, y) && x.v == y.v
  }

  /** A transaction has one datom for a value, and adds one value to a single-valued attribute. */
  ghost predicate NoClash(many: set<string>, ds: set<HistDatom>) {
    forall x, y {:trigger SameGroup(x, y)} :: x in ds && y in ds && SameGroup(x, y) && x.tx == y.tx ==>
      (x.v == y.v || (x.a !in many && x.added && y.added)) ==> x == y
  }

  /** `x` can override `d`: it has the same value, or the attribute holds only one. */
  predicate Rivals(many: set<string>, x: HistDatom, d: HistDatom) {
    SameGroup(x, d) && (d.a in many ==> x.v == d.v)
  }

  /** An added datom that nothing later overrides. */
  ghost predicate Stands(many: set<string>, ds: set<HistDatom>, d: HistDatom) {
    d in ds && d.added && forall x :: x in ds && Rivals(many, x, d) ==> x.tx <= d.tx
  }

  ghost predicate LastOfValue(s: seq<HistDatom>, d: HistDatom) {
    d in Elems(s) && d.added && forall x :: x in Elems(s) && x.v == d.v ==> x.tx <= d.tx
  }

  ghost predicate OnePerValue(s: seq<HistDatom>) {
    forall x, y :: x in Elems(s) && y in Elems(s) && x.v == y.v && x.tx == y.tx ==> x == y
  }

  /** Replayed in order of transactions, the last datom of each value decides. */
  lemma {:induction false} ReplayExact(s: seq<HistDatom>, d: HistDatom)
    requires SortedByTx(s) && OnePerValue(s)
    ensures (d.v in Replay(s) && Replay(s)[d.v] == d) <==> LastOfValue(s, d)
  {
    if s != [] { ReplayExact(s[..|s| - 1], d); }
  }

  lemma {:induction false} FirstAddedIs(g: seq<HistDatom>, tx: int, d: HistDatom)
    requires forall x, y :: x in Elems(g) && y in Elems(g) && x.tx == tx && y.tx == tx && x.added && y.added ==> x == y
    ensures d in FirstAdded(g, tx) <==> d in Elems(g) && d.added && d.tx == tx
  {
    if g != [] {
      FirstAddedIs(g[..|g| - 1], tx, d);
      var before := FirstAdded(g[..|g| - 1], tx);
      if before != {} {
        var x :| x in before;
        FirstAddedIs(g[..|g| - 1], tx, x);
      }
    }
  }

  lemma {:induction false} ManyExact(g: seq<HistDatom>, d: HistDatom)
    requires g != [] && OnePerValue(g)
    ensures d in Assemble(true, g) <==> LastOfValue(g, d)
  {
    SortSorts(g);
    ReplayExact(SortByTx(g), d);
  }

  lemma {:induction false} OneExact(g: seq<HistDatom>, d: HistDatom)
    requires g != [] && forall x, y :: x in Elems(g) && y in Elems(g) && x.tx == y.tx && x.added && y.added ==> x == y
    ensures d in Assemble(false, g) <==> d in Elems(g) && d.added && forall x :: x in Elems(g) ==> x.tx <= d.tx
  {
    FirstAddedIs(g, MaxTx(g), d);
  }

  /** The view, whatever the order of the datoms: those that nothing later overrides. */
  lemma {:induction false} ViewExact(many: set<string>, datoms: seq<HistDatom>, d: HistDatom)
    requires NoClash(many, Elems(datoms))
    ensures InView(many, datoms, d) <==> Stands(many, Elems(datoms), d)
  {
    var g := GroupOf(datoms, d.e, d.a);
    assert forall x, y :: x in Elems(g) && y in Elems(g) ==> SameGroup(x, y);
    if g == [] {
      assert Elems(g) == {};
    } else if d.a in many {
      ManyExact(g, d);
      assert forall x :: x in Elems(g) && x.v == d.v <==> x in Elems(datoms) && Rivals(many, x, d);
    } else {
      OneExact(g, d);
      assert forall x :: x in Elems(g) <==> x in Elems(datoms) && Rivals(many, x, d);
    }
  }
}
