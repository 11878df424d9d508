/** Batch search: bound variables of a pattern are substituted before the index
    lookup or used to filter its result, as a strategy vector says. */
module Search {
  import opened Relations
  import opened Sequences
  import opened RelationOps
  import opened Contexts

  /** An element of a cleaned pattern: nil, a constant, or a variable bound in the context. */
  datatype Slot = Wild | Const(c: Value) | Known(v: Var)

  datatype Strategy = Substitute | Filter | Skip

  /** The datoms of the database as arrays of e, a, v, tx and added, and the index
      lookup chosen by a strategy vector. */
  datatype Source = Source(datoms: seq<Tuple>, lookup: (seq<Strategy>, seq<Value>) -> seq<Tuple>)

  /** What an index lookup promises: datoms of the database, among them all that have
      the substituted values, and no others where a substituted value is not nil. */
  ghost predicate LookupOk(src: Source) {
    forall strat: seq<Strategy>, probe: seq<Value>, d: Tuple {:trigger d in src.lookup(strat, probe)} ::
      |strat| == 4 && |probe| == 5 ==>
        && (d in src.lookup(strat, probe) ==> d in src.datoms)
        && (d in src.datoms && Equals(strat, probe, d) ==> d in src.lookup(strat, probe))
        && (d in src.lookup(strat, probe) ==>
              forall i :: 0 <= i < 4 && strat[i] == Substitute && probe[i] != Nil ==> Get(d, At(i)) == probe[i])
  }

  /** The datom has the probe's values at the substituted positions. */
  ghost predicate Equals(strat: seq<Strategy>, probe: seq<Value>, d: Tuple)
    requires |strat| == 4 && |probe| == 5
  {
    forall i :: 0 <= i < 4 && strat[i] == Substitute ==> Get(d, At(i)) == probe[i]
  }

  /** The position is a variable of this relation and is used as `s` says. */
  predicate Uses(slots: seq<Slot>, strat: seq<Strategy>, s: Strategy, attrs: map<Var, Col>, i: nat)
    requires |slots| == 5 && |strat| == 4
  {
    i < 4 && strat[i] == s && slots[i].Known? && slots[i].v in attrs
  }

  predicate UsesAny(slots: seq<Slot>, strat: seq<Strategy>, s: Strategy, attrs: map<Var, Col>)
    requires |slots| == 5 && |strat| == 4
  {
    exists i :: 0 <= i < 4 && Uses(slots, strat, s, attrs, i)
  }

  /** A pattern with values substituted, and the tuples whose filtered columns a datom must equal. */
  datatype Probe = Probe(pattern: seq<Value>, checks: seq<(Rel, Tuple)>)

  /** `clean-pattern-before-substitution`: variables are nil until a value is put in. */
  function InitialPattern(slots: seq<Slot>): seq<Value>
    requires |slots| == 5
  {
    seq(5, i requires 0 <= i < 5 => if slots[i].Const? then slots[i].c else Nil)
  }

  function Substituted(slots: seq<Slot>, strat: seq<Strategy>, attrs: map<Var, Col>, t: Tuple,
                       pattern: seq<Value>): seq<Value>
    requires |slots| == 5 && |strat| == 4 && |pattern| == 5
  {
    seq(5, i requires 0 <= i < 5 =>
      if Uses(slots, strat, Substitute, attrs, i) then Get(t, attrs[slots[i].v]) else pattern[i])
  }

  /** The datom has the tuple's values at the positions that are filtered. */
  predicate Passes(slots: seq<Slot>, strat: seq<Strategy>, attrs: map<Var, Col>, t: Tuple, d: Tuple)
    requires |slots| == 5 && |strat| == 4
  {
    forall i :: 0 <= i < 4 && Uses(slots, strat, Filter, attrs, i) ==> Get(d, At(i)) == Get(t, attrs[slots[i].v])
  }

  predicate PassesAll(slots: seq<Slot>, strat: seq<Strategy>, checks: seq<(Rel, Tuple)>, d: Tuple)
    requires |slots| == 5 && |strat| == 4
  {
    checks == [] || (Passes(slots, strat, checks[0].0.attrs, checks[0].1, d) && PassesAll(slots, strat, checks[1..], d))
  }

  function Kept(slots: seq<Slot>, strat: seq<Strategy>, checks: seq<(Rel, Tuple)>, ds: seq<Tuple>): (r: seq<Tuple>)
    requires |slots| == 5 && |strat| == 4
    ensures forall d :: d in r <==> d in ds && PassesAll(slots, strat, checks, d)
  {
    if ds == [] then [] else
      (if PassesAll(slots, strat, checks, ds[0]) then [ds[0]] else []) + Kept(slots, strat, checks, ds[1..])
  }

  /** Substitution of every tuple of every substituted relation, then the lookup: the
      chain of transducers, one stage for each relation. */
  function Probed(src: Source, slots: seq<Slot>, strat: seq<Strategy>, rels: seq<Rel>, probe: Probe): seq<Tuple>
    requires |slots| == 5 && |strat| == 4 && |probe.pattern| == 5
    decreases |rels|, 1, 0
  {
    if rels == [] then Kept(slots, strat, probe.checks, src.lookup(strat, probe.pattern))
    else if UsesAny(slots, strat, Substitute, rels[0].attrs) then
      ProbedTuples(src, slots, strat, rels, rels[0].tuples, probe)
    else Probed(src, slots, strat, rels[1..], probe)
  }

  function ProbedTuples(src: Source, slots: seq<Slot>, strat: seq<Strategy>, rels: seq<Rel>, ts: seq<Tuple>,
                        probe: Probe): seq<Tuple>
    requires |slots| == 5 && |strat| == 4 && |probe.pattern| == 5 && rels != []
    decreases |rels|, 0, |ts|
  {
    if ts == [] then [] else
      Probed(src, slots, strat, rels[1..],
             Probe(Substituted(slots, strat, rels[0].attrs, ts[0], probe.pattern), probe.checks + [(rels[0], ts[0])]))
      + ProbedTuples(src, slots, strat, rels, ts[1..], probe)
  }

  /** A relation that is only filtered has a tuple for which the datom passes. */
  predicate PassesRel(slots: seq<Slot>, strat: seq<Strategy>, r: Rel, d: Tuple)
    requires |slots| == 5 && |strat| == 4
  {
    UsesAny(slots, strat, Substitute, r.attrs) || !UsesAny(slots, strat, Filter, r.attrs)
    || exists t :: t in r.tuples && Passes(slots, strat, r.attrs, t, d)
  }

  /** The datom passes for every relation that is only filtered. */
  predicate PassesRels(slots: seq<Slot>, strat: seq<Strategy>, rels: seq<Rel>, d: Tuple)
    requires |slots| == 5 && |strat| == 4
  {
    rels == [] ||
    (PassesRel(slots, strat, rels[0], d) && PassesRels(slots, strat, rels[1..], d))
  }

  /** Filtered constants, and the added flag, which the caller's transducer checks. */
  predicate PassesConsts(slots: seq<Slot>, strat: seq<Strategy>, d: Tuple)
    requires |slots| == 5 && |strat| == 4
  {
    && (forall i :: 0 <= i < 4 && strat[i] == Filter && slots[i].Const? ==> Get(d, At(i)) == slots[i].c)
    && (slots[4].Const? ==> Get(d, At(4)) == slots[4].c)
  }

  function Filtered(slots: seq<Slot>, strat: seq<Strategy>, rels: seq<Rel>, ds: seq<Tuple>): (r: seq<Tuple>)
    requires |slots| == 5 && |strat| == 4
    ensures forall d :: d in r <==> d in ds && PassesRels(slots, strat, rels, d) && PassesConsts(slots, strat, d)
  {
    if ds == [] then [] else
      (if PassesRels(slots, strat, rels, ds[0]) && PassesConsts(slots, strat, ds[0]) then [ds[0]] else [])
      + Filtered(slots, strat, rels, ds[1..])
  }

  /** `search-batch-fn`. */
  function BatchSearch(src: Source, slots: seq<Slot>, strat: seq<Strategy>, rels: seq<Rel>): seq<Tuple>
    requires |slots| == 5 && |strat| == 4
  {
    Filtered(slots, strat, rels, Probed(src, slots, strat, rels, Probe(InitialPattern(slots), [])))
  }

  // ------------------------------------------------------------------- theorems

  /** The datom matches the pattern's constants and gives its bound variables the values of `a`. */
  ghost predicate Joins(slots: seq<Slot>, a: Asg, d: Tuple)
    requires |slots| == 5
  {
    forall i :: 0 <= i < 5 ==>
      && (slots[i].Const? ==> Get(d, At(i)) == slots[i].c)
      && (slots[i].Known? ==> slots[i].v in a && Get(d, At(i)) == a[slots[i].v])
  }

  /** Every constant is substituted or filtered and is not nil; nothing else is
      substituted but constants and bound variables. */
  ghost predicate Fits(slots: seq<Slot>, strat: seq<Strategy>)
    requires |slots| == 5 && |strat| == 4
  {
    && (forall i :: 0 <= i < 5 && slots[i].Const? ==> slots[i].c != Nil && (i < 4 ==> strat[i] != Skip))
    && (forall i :: 0 <= i < 4 && strat[i] == Substitute ==> slots[i] != Wild)
  }

  lemma {:induction false} PassesConcat(slots: seq<Slot>, strat: seq<Strategy>, s: seq<(Rel, Tuple)>, r: Rel, t: Tuple,
                                        d: Tuple)
    requires |slots| == 5 && |strat| == 4
    ensures PassesAll(slots, strat, s + [(r, t)], d) <==>
        PassesAll(slots, strat, s, d) && Passes(slots, strat, r.attrs, t, d)
  {
    if s != [] {
      assert (s + [(r, t)])[1..] == s[1..] + [(r, t)];
      PassesConcat(slots, strat, s[1..], r, t, d);
    } else {
      assert s + [(r, t)] == [(r, t)] && [(r, t)][1..] == [];
    }
  }

  /** The tuple has the datom's values at all positions it is used for. A substituted nil
      leaves its position open to the lookup, which `loose` allows for. */
  ghost predicate Selects(slots: seq<Slot>, strat: seq<Strategy>, attrs: map<Var, Col>, t: Tuple, d: Tuple, loose: bool)
    requires |slots| == 5 && |strat| == 4
  {
    forall i :: 0 <= i < 4 && (Uses(slots, strat, Substitute, attrs, i) || Uses(slots, strat, Filter, attrs, i)) ==>
      var x := Get(t, attrs[slots[i].v]);
      Get(d, At(i)) == x || (loose && strat[i] == Substitute && x == Nil)
  }

  /** Every relation that is used has a tuple that selects the datom. */
  ghost predicate SelectsAll(slots: seq<Slot>, strat: seq<Strategy>, rels: seq<Rel>, d: Tuple, loose: bool)
    requires |slots| == 5 && |strat| == 4
  {
    rels == [] || (
      && (UsesAny(slots, strat, Substitute, rels[0].attrs) || UsesAny(slots, strat, Filter, rels[0].attrs) ==>
            exists t :: t in rels[0].tuples && Selects(slots, strat, rels[0].attrs, t, d, loose))
      && SelectsAll(slots, strat, rels[1..], d, loose))
  }

  lemma {:induction false} JoinsSelects(slots: seq<Slot>, strat: seq<Strategy>, rels: seq<Rel>, a: Asg, d: Tuple)
    requires |slots| == 5 && |strat| == 4 && HoldsAll(rels, a) && Joins(slots, a, d)
    ensures SelectsAll(slots, strat, rels, d, false)
  {
    if rels != [] {
      var t :| t in rels[0].tuples && Meets(rels[0].attrs, t, a);
      assert Selects(slots, strat, rels[0].attrs, t, d, false);
      JoinsSelects(slots, strat, rels[1..], a, d);
    }
  }

  lemma {:induction false} SelectedPasses(slots: seq<Slot>, strat: seq<Strategy>, rels: seq<Rel>, d: Tuple)
    requires |slots| == 5 && |strat| == 4 && SelectsAll(slots, strat, rels, d, false)
    ensures PassesRels(slots, strat, rels, d)
  {
    if rels != [] {
      var r := rels[0];
      if UsesAny(slots, strat, Filter, r.attrs) {
        var t :| t in r.tuples && Selects(slots, strat, r.attrs, t, d, false);
        assert Passes(slots, strat, r.attrs, t, d);
      }
      SelectedPasses(slots, strat, rels[1..], d);
    }
  }

  /** At every substituted position the probe has the datom's value, or will get it
      from one of the remaining relations. */
  ghost predicate OnTrack(slots: seq<Slot>, strat: seq<Strategy>, rels: seq<Rel>, pattern: seq<Value>, d: Tuple)
    requires |slots| == 5 && |strat| == 4 && |pattern| == 5
  {
    forall i :: 0 <= i < 4 && strat[i] == Substitute ==>
      (slots[i].Known? && slots[i].v in VarsAll(rels)) || pattern[i] == Get(d, At(i))
  }

  /** A datom that every relation selects is found. */
  lemma {:induction false} ProbedComplete(src: Source, slots: seq<Slot>, strat: seq<Strategy>, rels: seq<Rel>,
                                          probe: Probe, d: Tuple)
    requires |slots| == 5 && |strat| == 4 && |probe.pattern| == 5 && LookupOk(src)
    requires d in src.datoms && SelectsAll(slots, strat, rels, d, false)
    requires OnTrack(slots, strat, rels, probe.pattern, d) && PassesAll(slots, strat, probe.checks, d)
    ensures d in Probed(src, slots, strat, rels, probe)
    decreases |rels|
  {
    if rels == [] {
      assert Equals(strat, probe.pattern, d);
    } else if UsesAny(slots, strat, Substitute, rels[0].attrs) {
      var r := rels[0];
      var t :| t in r.tuples && Selects(slots, strat, r.attrs, t, d, false);
      var next := Probe(Substituted(slots, strat, r.attrs, t, probe.pattern), probe.checks + [(r, t)]);
      PassesConcat(slots, strat, probe.checks, r, t, d);
      ProbedComplete(src, slots, strat, rels[1..], next, d);
      ProbedTuplesIn(src, slots, strat, rels, r.tuples, probe, t, d);
    } else {
      forall i | 0 <= i < 4 && strat[i] == Substitute && slots[i].Known? && slots[i].v in rels[0].attrs
        ensures false
      {
        assert Uses(slots, strat, Substitute, rels[0].attrs, i);
      }
      ProbedComplete(src, slots, strat, rels[1..], probe, d);
    }
  }

  lemma {:induction false} ProbedTuplesIn(src: Source, slots: seq<Slot>, strat: seq<Strategy>, rels: seq<Rel>,
                                          ts: seq<Tuple>, probe: Probe, t: Tuple, d: Tuple)
    requires |slots| == 5 && |strat| == 4 && |probe.pattern| == 5 && rels != [] && t in ts
    requires d in Probed(src, slots, strat, rels[1..],
                         Probe(Substituted(slots, strat, rels[0].attrs, t, probe.pattern),
                             probe.checks + [(rels[0], t)]))
    ensures d in ProbedTuples(src, slots, strat, rels, ts, probe)
  {
    if t != ts[0] {
      ProbedTuplesIn(src, slots, strat, rels, ts[1..], probe, t, d);
    }
  }

  lemma {:induction false} ProbedSound(src: Source, slots: seq<Slot>, strat: seq<Strategy>, rels: seq<Rel>,
                                       probe: Probe, d: Tuple)
    requires |slots| == 5 && |strat| == 4 && |probe.pattern| == 5 && LookupOk(src) && Fits(slots, strat)
    requires forall i :: 0 <= i < 4 && slots[i].Const? ==> probe.pattern[i] == slots[i].c
    requires d in Probed(src, slots, strat, rels, probe)
    ensures d in src.datoms
    ensures forall i :: 0 <= i < 4 && strat[i] == Substitute && slots[i].Const? ==> Get(d, At(i)) == slots[i].c
    decreases |rels|, 1, 0
  {
    if rels == [] {
    } else if UsesAny(slots, strat, Substitute, rels[0].attrs) {
      ProbedTuplesSound(src, slots, strat, rels, rels[0].tuples, probe, d);
    } else {
      ProbedSound(src, slots, strat, rels[1..], probe, d);
    }
  }

  lemma {:induction false} ProbedTuplesSound(src: Source, slots: seq<Slot>, strat: seq<Strategy>, rels: seq<Rel>,
                                             ts: seq<Tuple>, probe: Probe, d: Tuple)
    requires |slots| == 5 && |strat| == 4 && |probe.pattern| == 5 && LookupOk(src) && Fits(slots, strat) && rels != []
    requires forall i :: 0 <= i < 4 && slots[i].Const? ==> probe.pattern[i] == slots[i].c
    requires d in ProbedTuples(src, slots, strat, rels, ts, probe)
    ensures d in src.datoms
    ensures forall i :: 0 <= i < 4 && strat[i] == Substitute && slots[i].Const? ==> Get(d, At(i)) == slots[i].c
    decreases |rels|, 0, |ts|
  {
    var next := Probe(Substituted(slots, strat, rels[0].attrs, ts[0], probe.pattern),
        probe.checks + [(rels[0], ts[0])]);
    if d in Probed(src, slots, strat, rels[1..], next) {
      ProbedSound(src, slots, strat, rels[1..], next, d);
    } else {
      ProbedTuplesSound(src, slots, strat, rels, ts[1..], probe, d);
    }
  }

  /** The values that no relation will put in again are those of the datom, or nil. */
  ghost predicate Settled(slots: seq<Slot>, strat: seq<Strategy>, rels: seq<Rel>, pattern: seq<Value>, d: Tuple)
    requires |slots| == 5 && |strat| == 4 && |pattern| == 5
  {
    forall i :: 0 <= i < 4 && strat[i] == Substitute && slots[i].Known? && slots[i].v !in VarsAll(rels) ==>
      pattern[i] == Nil || pattern[i] == Get(d, At(i))
  }

  /** A found datom has been found with a tuple of every relation that is substituted. */
  lemma {:induction false} ProbedOnly(src: Source, slots: seq<Slot>, strat: seq<Strategy>, rels: seq<Rel>,
                                      probe: Probe, d: Tuple)
    requires |slots| == 5 && |strat| == 4 && |probe.pattern| == 5 && LookupOk(src) && Disjoint(rels)
    requires d in Probed(src, slots, strat, rels, probe) && PassesRels(slots, strat, rels, d)
    ensures SelectsAll(slots, strat, rels, d, true)
    ensures PassesAll(slots, strat, probe.checks, d) && Settled(slots, strat, rels, probe.pattern, d)
    decreases |rels|
  {
    if rels == [] {
    } else if UsesAny(slots, strat, Substitute, rels[0].attrs) {
      var r := rels[0];
      var t := ProbedTuplesFrom(src, slots, strat, rels, r.tuples, probe, d);
      var next := Probe(Substituted(slots, strat, r.attrs, t, probe.pattern), probe.checks + [(r, t)]);
      ProbedOnly(src, slots, strat, rels[1..], next, d);
      PassesConcat(slots, strat, probe.checks, r, t, d);
      assert Selects(slots, strat, r.attrs, t, d, true);
    } else {
      ProbedOnly(src, slots, strat, rels[1..], probe, d);
      if UsesAny(slots, strat, Filter, rels[0].attrs) { FilteredSelects(slots, strat, rels[0], d); }
      SettledMore(slots, strat, rels, probe.pattern, d);
    }
  }

  lemma {:induction false} SettledMore(slots: seq<Slot>, strat: seq<Strategy>, rels: seq<Rel>, pattern: seq<Value>,
                                       d: Tuple)
    requires |slots| == 5 && |strat| == 4 && |pattern| == 5 && rels != []
    requires Settled(slots, strat, rels[1..], pattern, d)
    ensures Settled(slots, strat, rels, pattern, d)
  {}

  lemma {:induction false} FilteredSelects(slots: seq<Slot>, strat: seq<Strategy>, r: Rel, d: Tuple)
    requires |slots| == 5 && |strat| == 4 && PassesRel(slots, strat, r, d)
    requires !UsesAny(slots, strat, Substitute, r.attrs) && UsesAny(slots, strat, Filter, r.attrs)
    ensures exists t :: t in r.tuples && Selects(slots, strat, r.attrs, t, d, true)
  {
    var t :| t in r.tuples && Passes(slots, strat, r.attrs, t, d);
    forall i | 0 <= i < 4 && Uses(slots, strat, Substitute, r.attrs, i) ensures false {}
    assert Selects(slots, strat, r.attrs, t, d, true);
  }

  lemma {:induction false} ProbedTuplesFrom(src: Source, slots: seq<Slot>, strat: seq<Strategy>, rels: seq<Rel>,
                                            ts: seq<Tuple>, probe: Probe, d: Tuple)
    returns (t: Tuple)
    requires |slots| == 5 && |strat| == 4 && |probe.pattern| == 5 && rels != []
    requires d in ProbedTuples(src, slots, strat, rels, ts, probe)
    ensures t in ts && d in Probed(src, slots, strat, rels[1..],
                                   Probe(Substituted(slots, strat, rels[0].attrs, t, probe.pattern),
                                         probe.checks + [(rels[0], t)]))
  {
    t := ts[0];
    if d !in Probed(src, slots, strat, rels[1..],
                    Probe(Substituted(slots, strat, rels[0].attrs, t, probe.pattern), probe.checks + [(rels[0], t)]))
    {
      t := ProbedTuplesFrom(src, slots, strat, rels, ts[1..], probe, d);
    }
  }

  /** The datom has the pattern's constants. */
  ghost predicate HasConsts(slots: seq<Slot>, d: Tuple)
    requires |slots| == 5
  {
    forall i :: 0 <= i < 5 && slots[i].Const? ==> Get(d, At(i)) == slots[i].c
  }

  lemma {:induction false} SearchSound(src: Source, slots: seq<Slot>, strat: seq<Strategy>, rels: seq<Rel>, d: Tuple)
    requires |slots| == 5 && |strat| == 4 && LookupOk(src) && Fits(slots, strat)
    requires d in BatchSearch(src, slots, strat, rels)
    ensures d in src.datoms && HasConsts(slots, d)
  {
    ProbedSound(src, slots, strat, rels, Probe(InitialPattern(slots), []), d);
    forall i | 0 <= i < 5 && slots[i].Const? ensures Get(d, At(i)) == slots[i].c {
      if i < 4 { assert strat[i] == Substitute || strat[i] == Filter; }
    }
  }

  lemma {:induction false} SearchComplete(src: Source, slots: seq<Slot>, strat: seq<Strategy>, rels: seq<Rel>, d: Tuple)
    requires |slots| == 5 && |strat| == 4 && LookupOk(src) && Fits(slots, strat)
    requires forall i :: 0 <= i < 5 && slots[i].Known? ==> slots[i].v in VarsAll(rels)
    requires d in src.datoms && HasConsts(slots, d) && SelectsAll(slots, strat, rels, d, false)
    ensures d in BatchSearch(src, slots, strat, rels)
  {
    ProbedComplete(src, slots, strat, rels, Probe(InitialPattern(slots), []), d);
    SelectedPasses(slots, strat, rels, d);
  }

  /** Whatever the strategy, the batch search finds only datoms with the pattern's
      constants, and every such datom that joins with the context's relations. */
  lemma {:induction false} BatchSearchExact(src: Source, slots: seq<Slot>, strat: seq<Strategy>, rels: seq<Rel>,
                                            d: Tuple)
    requires |slots| == 5 && |strat| == 4 && LookupOk(src) && Fits(slots, strat)
    requires forall i :: 0 <= i < 5 && slots[i].Known? ==> slots[i].v in VarsAll(rels)
    ensures d in BatchSearch(src, slots, strat, rels) ==>
              d in src.datoms && forall i :: 0 <= i < 5 && slots[i].Const? ==> Get(d, At(i)) == slots[i].c
    ensures d in src.datoms && (exists a :: HoldsAll(rels, a) && Joins(slots, a, d)) ==>
        d in BatchSearch(src, slots, strat, rels)
  {
    if d in BatchSearch(src, slots, strat, rels) { SearchSound(src, slots, strat, rels, d); }
    if a :| d in src.datoms && HoldsAll(rels, a) && Joins(slots, a, d) {
      JoinsSelects(slots, strat, rels, a, d);
      SearchComplete(src, slots, strat, rels, d);
    }
  }

  /** It finds no more than the strategy lets through: exactly the datoms with the constants
      that each relation used by the strategy selects with one of its tuples. */
  lemma {:induction false} FoundExactly(src: Source, slots: seq<Slot>, strat: seq<Strategy>, rels: seq<Rel>, d: Tuple)
    requires |slots| == 5 && |strat| == 4 && LookupOk(src) && Fits(slots, strat) && Disjoint(rels)
    requires forall i :: 0 <= i < 5 && slots[i].Known? ==> slots[i].v in VarsAll(rels)
    ensures d in BatchSearch(src, slots, strat, rels) ==>
        d in src.datoms && HasConsts(slots, d) && SelectsAll(slots, strat, rels, d, true)
    ensures d in src.datoms && HasConsts(slots, d) && SelectsAll(slots, strat, rels, d, false) ==>
        d in BatchSearch(src, slots, strat, rels)
  {
    if d in BatchSearch(src, slots, strat, rels) {
      SearchSound(src, slots, strat, rels, d);
      ProbedOnly(src, slots, strat, rels, Probe(InitialPattern(slots), []), d);
    }
    if d in src.datoms && HasConsts(slots, d) && SelectsAll(slots, strat, rels, d, false) {
      SearchComplete(src, slots, strat, rels, d);
    }
  }
}
