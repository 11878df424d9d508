/** Runs of transactions: every as-of view of the history is the snapshot that was
    current at that time, and as-of and since split the history. */
module Snapshots {
  import opened Datoms
  import opened Sequences
  import opened TimeTravel

  /** A transaction and the datoms it leaves in the history. */
  datatype Tx = Tx(id: int, instant: int, changes: set<HistDatom>)

  function InstantOf(tx: Tx): HistDatom {
    Datom(tx.id, TX_INSTANT, tx.instant, tx.id, true)
  }

  predicate Retracts(changes: set<HistDatom>, d: HistDatom) {
    exists c :: c in changes && !c.added && SameValue(c, d)
  }

  /** The current datoms after a transaction. */
  function Commit(cur: set<HistDatom>, changes: set<HistDatom>): set<HistDatom> {
    (set d | d in cur && !Retracts(changes, d)) + (set c | c in changes && c.added)
  }

  function Current(log: seq<Tx>): set<HistDatom> {
    if log == [] then {} else Commit(Current(log[..|log| - 1]), log[|log| - 1].changes)
  }

  function History(log: seq<Tx>): set<HistDatom> {
    if log == [] then {} else History(log[..|log| - 1]) + log[|log| - 1].changes
  }

  /** The recorded datoms are the net effect on each value: only current values are
      retracted, only new ones added, and a single-valued attribute gives up its value
      when it gets another. */
  ghost predicate NetEffect(many: set<string>, cur: set<HistDatom>, tx: Tx) {
    && NoClash(many, tx.changes)
    && (forall c :: c in tx.changes ==> c.tx == tx.id && (c.a == TX_INSTANT ==> c == InstantOf(tx)))
    && InstantOf(tx) in tx.changes
    && (forall c, d {:trigger SameGroup(c, d)} :: c in tx.changes && c.added && d in cur && SameGroup(c, d) ==>
          c.v != d.v && (c.a !in many ==> Retracts(tx.changes, d)))
    && (forall c :: c in tx.changes && !c.added ==> Holds(cur, c))
  }

  /** The value is current. */
  predicate Holds(cur: set<HistDatom>, c: HistDatom) {
    exists d :: d in cur && SameValue(c, d)
  }

  ghost predicate ValidLog(many: set<string>, log: seq<Tx>) {
    log == [] ||
    var (init, last) := (log[..|log| - 1], log[|log| - 1]);
    ValidLog(many, init) && NetEffect(many, Current(init), last) && Before(init, last.id)
  }

  /** All transactions have a smaller id. */
  ghost predicate Before(log: seq<Tx>, id: int) {
    log == [] || (log[|log| - 1].id < id && Before(log[..|log| - 1], id))
  }

  // ------------------------------------------------------------- what runs keep

  lemma {:induction false} HistoryBefore(many: set<string>, log: seq<Tx>, id: int)
    requires ValidLog(many, log) && Before(log, id)
    ensures forall h :: h in History(log) ==> h.tx < id
  {
    if log != [] { HistoryBefore(many, log[..|log| - 1], id); }
  }

  /** A single-valued attribute has one current value. */
  ghost predicate OneValue(many: set<string>, cur: set<HistDatom>) {
    forall x, y {:trigger SameGroup(x, y)} :: x in cur && y in cur && SameGroup(x, y) && (x.a in many ==>
      x.v == y.v) ==> x == y
  }

  /** Current datoms are recorded, and nothing recorded is later for them. */
  ghost predicate Latest(many: set<string>, hist: set<HistDatom>, cur: set<HistDatom>) {
    && (forall d :: d in cur ==> d in hist && d.added)
    && (forall h, d {:trigger Rivals(many, h, d)} :: h in hist && d in cur && Rivals(many, h, d) ==> h.tx <= d.tx)
  }

  /** What was added and is no longer current has a later datom for the same value. */
  ghost predicate Superseded(hist: set<HistDatom>, cur: set<HistDatom>) {
    forall h :: h in hist && h.added && h !in cur ==> exists x :: x in hist && SameValue(x, h) && x.tx > h.tx
  }

  lemma {:induction false} OneValueKept(many: set<string>, cur: set<HistDatom>, tx: Tx)
    requires OneValue(many, cur) && NetEffect(many, cur, tx)
    ensures OneValue(many, Commit(cur, tx.changes))
  {
    forall x, y | x in Commit(cur, tx.changes) && y in Commit(cur, tx.changes) && SameGroup(x, y)
      && (x.a in many ==> x.v == y.v)
      ensures x == y
    {
      assert SameGroup(y, x);
    }
  }

  lemma {:induction false} LatestKept(many: set<string>, hist: set<HistDatom>, cur: set<HistDatom>, tx: Tx)
    requires OneValue(many, cur) && Latest(many, hist, cur) && NetEffect(many, cur, tx)
    requires forall h :: h in hist ==> h.tx < tx.id
    ensures Latest(many, hist + tx.changes, Commit(cur, tx.changes))
  {
    forall h, d | h in tx.changes && d in cur && Rivals(many, h, d) ensures Retracts(tx.changes, d) {
      Touched(many, cur, tx, h, d);
    }
  }

  /** A change that concerns a current datom comes with its retraction. */
  lemma {:induction false} Touched(many: set<string>, cur: set<HistDatom>, tx: Tx, h: HistDatom, d: HistDatom)
    requires OneValue(many, cur) && NetEffect(many, cur, tx) && d in cur && Rivals(many, h, d) && h in tx.changes
    ensures Retracts(tx.changes, d)
  {
    assert SameGroup(h, d);
    if !h.added {
      var x :| x in cur && SameValue(h, x);
      assert SameGroup(x, d);
      assert SameValue(h, d);
    }
  }

  lemma {:induction false} SupersededKept(many: set<string>, hist: set<HistDatom>, cur: set<HistDatom>, tx: Tx)
    requires Superseded(hist, cur) && NetEffect(many, cur, tx) && forall h :: h in hist ==> h.tx < tx.id
    ensures Superseded(hist + tx.changes, Commit(cur, tx.changes))
  {
    forall h | h in hist + tx.changes && h.added && h !in Commit(cur, tx.changes)
      ensures exists x :: x in hist + tx.changes && SameValue(x, h) && x.tx > h.tx
    {
      assert h in hist;
      if h in cur {
        var c :| c in tx.changes && !c.added && SameValue(c, h);
        assert c in hist + tx.changes;
      } else {
        var x :| x in hist && SameValue(x, h) && x.tx > h.tx;
        assert x in hist + tx.changes;
      }
    }
  }

  lemma {:induction false} NoClashKept(many: set<string>, hist: set<HistDatom>, changes: set<HistDatom>, id: int)
    requires NoClash(many, hist) && NoClash(many, changes)
    requires (forall h :: h in hist ==> h.tx < id) && forall c :: c in changes ==> c.tx == id
    ensures NoClash(many, hist + changes)
  {}

  /** Over every run: the history never clashes, and the current datoms are exactly those
      that nothing recorded overrides. */
  lemma {:induction false} RunKeeps(many: set<string>, log: seq<Tx>)
    requires ValidLog(many, log)
    ensures NoClash(many, History(log)) && OneValue(many, Current(log))
    ensures Latest(many, History(log), Current(log)) && Superseded(History(log), Current(log))
  {
    if log != [] {
      var init, last := log[..|log| - 1], log[|log| - 1];
      RunKeeps(many, init);
      HistoryBefore(many, init, last.id);
      NoClashKept(many, History(init), last.changes, last.id);
      OneValueKept(many, Current(init), last);
      LatestKept(many, History(init), Current(init), last);
      SupersededKept(many, History(init), Current(init), last);
    }
  }

  // ------------------------------------------------------------------ as of and since

  /** The run up to a transaction. */
  function Upto(log: seq<Tx>, n: int): seq<Tx> {
    if log == [] || log[|log| - 1].id <= n then log else Upto(log[..|log| - 1], n)
  }

  lemma {:induction false} UptoValid(many: set<string>, log: seq<Tx>, n: int)
    requires ValidLog(many, log)
    ensures ValidLog(many, Upto(log, n))
  {
    if log != [] && log[|log| - 1].id > n { UptoValid(many, log[..|log| - 1], n); }
  }

  lemma {:induction false} UptoHistory(many: set<string>, log: seq<Tx>, n: int, d: HistDatom)
    requires ValidLog(many, log)
    ensures d in History(Upto(log, n)) <==> d in History(log) && d.tx <= n
  {
    if log != [] {
      var init, last := log[..|log| - 1], log[|log| - 1];
      HistoryBefore(many, init, last.id);
      if last.id > n { UptoHistory(many, init, n, d); }
    }
  }

  /** `all` lists the whole history. */
  ghost predicate Lists(all: seq<HistDatom>, log: seq<Tx>) {
    forall d :: d in Elems(all) <==> d in History(log)
  }

  /** `datoms` lists the part of the history a search pattern selects: by entity,
      attribute or value, in any combination. */
  ghost predicate ListsSlice(datoms: seq<HistDatom>, log: seq<Tx>, slice: iset<(int, string, int)>) {
    forall d :: d in Elems(datoms) <==> d in History(log) && (d.e, d.a, d.v) in slice
  }

  /** Each datom's transaction has its instant, and no other. */
  lemma {:induction false} OwnInstant(many: set<string>, log: seq<Tx>, d: HistDatom) returns (tx: Tx)
    requires ValidLog(many, log) && d in History(log)
    ensures d.tx == tx.id && InstantOf(tx) in History(log)
    ensures forall m :: m in History(log) && m.a == TX_INSTANT && m.e == d.tx ==> m == InstantOf(tx)
    ensures d.a == TX_INSTANT ==> d == InstantOf(tx)
  {
    var init, last := log[..|log| - 1], log[|log| - 1];
    HistoryBefore(many, init, last.id);
    if d in last.changes {
      tx := last;
      forall m | m in History(init) && m.a == TX_INSTANT ensures m.e != d.tx {
        var t := OwnInstant(many, init, m);
      }
    } else {
      tx := OwnInstant(many, init, d);
    }
  }

  /** A datom passes the filter exactly when its transaction's instant datom does. */
  lemma {:induction false} FilterExact(many: set<string>, log: seq<Tx>, datoms: seq<HistDatom>, p: TimePoint,
                                       since: bool, all: seq<HistDatom>, d: HistDatom)
    returns (tx: Tx)
    requires ValidLog(many, log) && Lists(all, log) && d in Elems(datoms) && d in History(log)
    ensures d.tx == tx.id && InstantOf(tx) in History(log)
    ensures d in Elems(TimeFilter(datoms, p, since, all)) <==> TimePred(p, since, InstantOf(tx))
  {
    tx := OwnInstant(many, log, d);
    assert InstantOf(tx) in Elems(all);
  }

  /** For every run, the as-of view of any search at a past transaction is the same search
      on the snapshot that was current right after it. */
  lemma {:induction false} AsOfIsSnapshot(many: set<string>, log: seq<Tx>, n: int, datoms: seq<HistDatom>,
                                          all: seq<HistDatom>, slice: iset<(int, string, int)>, d: HistDatom)
    requires ValidLog(many, log) && Lists(all, log) && ListsSlice(datoms, log, slice)
    ensures InView(many, TimeFilter(datoms, AtTx(n), false, all), d)
       <==> d in Current(Upto(log, n)) && (d.e, d.a, d.v) in slice
  {
    var past, kept := Upto(log, n), TimeFilter(datoms, AtTx(n), false, all);
    UptoValid(many, log, n);
    RunKeeps(many, past);
    forall h ensures h in Elems(kept) <==> h in History(past) && (h.e, h.a, h.v) in slice {
      UptoHistory(many, log, n, h);
      if h in Elems(datoms) { var tx := FilterExact(many, log, datoms, AtTx(n), false, all, h); }
    }
    SliceStands(many, past, Elems(kept), slice, d);
    ViewExact(many, kept, d);
  }

  lemma {:induction false} SliceStands(many: set<string>, log: seq<Tx>, ds: set<HistDatom>,
                                       slice: iset<(int, string, int)>, d: HistDatom)
    requires NoClash(many, History(log)) && Latest(many, History(log), Current(log))
             && Superseded(History(log), Current(log))
    requires forall h :: h in ds <==> h in History(log) && (h.e, h.a, h.v) in slice
    ensures NoClash(many, ds)
    ensures Stands(many, ds, d) <==> d in Current(log) && (d.e, d.a, d.v) in slice
  {
    if d in ds && d.added && d !in Current(log) {
      var x :| x in History(log) && SameValue(x, d) && x.tx > d.tx;
      assert x in ds && Rivals(many, x, d);
    }
    if d in Current(log) && (d.e, d.a, d.v) in slice {
      forall x | x in ds && Rivals(many, x, d) ensures x.tx <= d.tx {}
    }
  }

  lemma {:induction false} RecentStands(many: set<string>, log: seq<Tx>, n: int, ds: set<HistDatom>,
                                        slice: iset<(int, string, int)>, d: HistDatom)
    requires NoClash(many, History(log)) && Latest(many, History(log), Current(log))
             && Superseded(History(log), Current(log))
    requires forall h :: h in ds <==> h in History(log) && h.tx > n && (h.e, h.a, h.v) in slice
    ensures NoClash(many, ds)
    ensures Stands(many, ds, d) <==> d in Current(log) && d.tx > n && (d.e, d.a, d.v) in slice
  {
    if d in ds && d.added && d !in Current(log) {
      var x :| x in History(log) && SameValue(x, d) && x.tx > d.tx;
      assert x in ds && Rivals(many, x, d);
    }
    if d in Current(log) && d.tx > n && (d.e, d.a, d.v) in slice {
      forall x | x in ds && Rivals(many, x, d) ensures x.tx <= d.tx {}
    }
  }

  /** The since view of any search has exactly the current datoms of that search that are newer
      than the time point. */
  lemma {:induction false} SinceIsRecent(many: set<string>, log: seq<Tx>, n: int, datoms: seq<HistDatom>,
                                         all: seq<HistDatom>, slice: iset<(int, string, int)>, d: HistDatom)
    requires ValidLog(many, log) && Lists(all, log) && ListsSlice(datoms, log, slice)
    ensures InView(many, TimeFilter(datoms, AtTx(n), true, all), d)
       <==> d in Current(log) && d.tx > n && (d.e, d.a, d.v) in slice
  {
    var kept := TimeFilter(datoms, AtTx(n), true, all);
    RunKeeps(many, log);
    forall h ensures h in Elems(kept) <==> h in History(log) && h.tx > n && (h.e, h.a, h.v) in slice {
      if h in Elems(datoms) { var tx := FilterExact(many, log, datoms, AtTx(n), true, all, h); }
    }
    RecentStands(many, log, n, Elems(kept), slice, d);
    ViewExact(many, kept, d);
  }

  /** As-of and since split the history at any time point, date or transaction. */
  lemma {:induction false} AsOfSincePartition(many: set<string>, log: seq<Tx>, p: TimePoint, datoms: seq<HistDatom>,
                                              all: seq<HistDatom>, d: HistDatom)
    requires ValidLog(many, log) && Lists(all, log) && (forall h :: h in Elems(datoms) ==> h in History(log))
             && d in Elems(datoms)
    ensures d in Elems(TimeFilter(datoms, p, false, all)) <==> d !in Elems(TimeFilter(datoms, p, true, all))
  {
    var t := FilterExact(many, log, datoms, p, false, all, d);
    var u := FilterExact(many, log, datoms, p, true, all, d);
    var own := OwnInstant(many, log, d);
  }

  // ----------------------------------------------------------------------- dates

  ghost predicate Monotone(log: seq<Tx>) {
    forall i, j :: 0 <= i < j < |log| ==> log[i].instant <= log[j].instant
  }

  /** The date and the transaction select the same part of the run. */
  ghost predicate DateIsTx(log: seq<Tx>, date: int, n: int) {
    forall i :: 0 <= i < |log| ==> (log[i].instant <= date <==> log[i].id <= n)
  }

  ghost predicate StandsForTx(log: seq<Tx>, date: int) {
    exists n :: DateIsTx(log, date, n)
  }

  lemma {:induction false} IdsGrow(many: set<string>, log: seq<Tx>, i: nat, j: nat)
    requires ValidLog(many, log) && i < j < |log|
    ensures log[i].id < log[j].id
  {
    if j == |log| - 1 {
      BeforeAt(log[..|log| - 1], log[j].id, i);
    } else {
      IdsGrow(many, log[..|log| - 1], i, j);
    }
  }

  lemma {:induction false} BeforeAt(log: seq<Tx>, id: int, i: nat)
    requires Before(log, id) && i < |log|
    ensures log[i].id < id
  {
    if i < |log| - 1 { BeforeAt(log[..|log| - 1], id, i); }
  }

  /** The last transaction not after the date. */
  lemma {:induction false} LastAt(many: set<string>, log: seq<Tx>, date: int) returns (n: int)
    requires ValidLog(many, log) && Monotone(log)
    ensures DateIsTx(log, date, n)
  {
    if log == [] {
      n := 0;
    } else {
      var init, last := log[..|log| - 1], log[|log| - 1];
      forall i | 0 <= i < |init| ensures log[i].id < last.id { IdsGrow(many, log, i, |log| - 1); }
      if last.instant <= date {
        n := last.id;
      } else {
        n := LastAt(many, init, date);
        if n >= last.id {
          n := last.id - 1;
        }
        assert forall i :: 0 <= i < |init| ==> init[i] == log[i];
      }
    }
  }

  /** Every date stands for a transaction if and only if instants never decrease. */
  lemma {:induction false} DatesAreTxs(many: set<string>, log: seq<Tx>)
    requires ValidLog(many, log)
    ensures (forall date :: StandsForTx(log, date)) <==> Monotone(log)
  {
    if Monotone(log) {
      forall date ensures StandsForTx(log, date) { var n := LastAt(many, log, date); }
    } else {
      var i, j :| 0 <= i < j < |log| && log[i].instant > log[j].instant;
      IdsGrow(many, log, i, j);
      forall n ensures !DateIsTx(log, log[j].instant, n) {
        if log[j].id <= n { assert log[i].id <= n; }
      }
      assert !StandsForTx(log, log[j].instant);
    }
  }

  lemma {:induction false} HistoryTx(many: set<string>, log: seq<Tx>, d: HistDatom) returns (i: nat)
    requires ValidLog(many, log) && d in History(log)
    ensures i < |log| && d in log[i].changes && d.tx == log[i].id && InstantOf(log[i]) in History(log)
  {
    if d in log[|log| - 1].changes {
      i := |log| - 1;
    } else {
      i := HistoryTx(many, log[..|log| - 1], d);
    }
  }

  /** With a date that stands for a transaction, the as-of view is that snapshot. */
  lemma {:induction false} AsOfDateIsSnapshot(many: set<string>, log: seq<Tx>, date: int, n: int,
                                              datoms: seq<HistDatom>, all: seq<HistDatom>,
                                              slice: iset<(int, string, int)>, d: HistDatom)
    requires ValidLog(many, log) && Lists(all, log) && ListsSlice(datoms, log, slice) && DateIsTx(log, date, n)
    ensures InView(many, TimeFilter(datoms, AtDate(date), false, all), d)
       <==> d in Current(Upto(log, n)) && (d.e, d.a, d.v) in slice
  {
    var past, kept := Upto(log, n), TimeFilter(datoms, AtDate(date), false, all);
    UptoValid(many, log, n);
    RunKeeps(many, past);
    forall h ensures h in Elems(kept) <==> h in History(past) && (h.e, h.a, h.v) in slice {
      UptoHistory(many, log, n, h);
      if h in Elems(datoms) {
        var tx := FilterExact(many, log, datoms, AtDate(date), false, all, h);
        var i := HistoryTx(many, log, h);
        var own := OwnInstant(many, log, h);
        assert InstantOf(log[i]) == InstantOf(own) == InstantOf(tx);
      }
    }
    SliceStands(many, past, Elems(kept), slice, d);
    ViewExact(many, kept, d);
  }

  /** ... and the since view has the current datoms of later transactions. */
  lemma {:induction false} SinceDateIsRecent(many: set<string>, log: seq<Tx>, date: int, n: int,
                                             datoms: seq<HistDatom>, all: seq<HistDatom>,
                                             slice: iset<(int, string, int)>, d: HistDatom)
    requires ValidLog(many, log) && Lists(all, log) && ListsSlice(datoms, log, slice) && DateIsTx(log, date, n)
    ensures InView(many, TimeFilter(datoms, AtDate(date), true, all), d)
       <==> d in Current(log) && d.tx > n && (d.e, d.a, d.v) in slice
  {
    var kept := TimeFilter(datoms, AtDate(date), true, all);
    RunKeeps(many, log);
    forall h ensures h in Elems(kept) <==> h in History(log) && h.tx > n && (h.e, h.a, h.v) in slice {
      if h in Elems(datoms) {
        var tx := FilterExact(many, log, datoms, AtDate(date), true, all, h);
        var i := HistoryTx(many, log, h);
        var own := OwnInstant(many, log, h);
        assert InstantOf(log[i]) == InstantOf(own) == InstantOf(tx);
      }
    }
    RecentStands(many, log, n, Elems(kept), slice, d);
    ViewExact(many, kept, d);
  }
}
