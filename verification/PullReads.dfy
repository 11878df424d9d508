/** What a pull reads: results in terms of the facts of the database. */
module PullReads {
  import opened Options
  import opened Pull
  import opened PullEval
  import opened PullProps
  import opened PullLimits

  // --------------------------------------------------------------------- lookups

  /** Either the facts of an entity and attribute, or those of an attribute and value. */
  datatype Lookup = Of(e: int, a: Key) | To(a: Key, v: int)

  predicate Hits(q: Lookup, f: Fact) {
    match q
    case Of(e, a) => f.e == e && f.a == a
    case To(a, v) => f.a == a && f.v == v
  }

  /** What the lookup yields for a fact: its value, or its entity. */
  function Yield(q: Lookup, f: Fact): int {
    if q.Of? then f.v else f.e
  }

  /** `ps` are the positions from `at` on of all facts that are hit, in order. */
  ghost predicate PositionsFrom(facts: seq<Fact>, q: Lookup, at: nat, ps: seq<nat>) {
    && (forall p :: p in ps ==> at <= p < |facts| && Hits(q, facts[p]))
    && (forall i, j :: 0 <= i < j < |ps| ==> ps[i] < ps[j])
    && (forall k :: at <= k < |facts| && Hits(q, facts[k]) ==> k in ps)
  }

  ghost predicate Positions(facts: seq<Fact>, q: Lookup, ps: seq<nat>) {
    PositionsFrom(facts, q, 0, ps)
  }

  /** `vals` are what the facts at these positions yield. */
  ghost predicate Yields(facts: seq<Fact>, q: Lookup, ps: seq<nat>, vals: seq<int>) {
    |vals| == |ps| && forall i :: 0 <= i < |ps| ==> ps[i] < |facts| && vals[i] == Yield(q, facts[ps[i]])
  }

  function Read(facts: seq<Fact>, q: Lookup): seq<int> {
    if q.Of? then Forward(facts, q.e, q.a) else Reverse(facts, q.a, q.v)
  }

  lemma {:induction false} ReadFrom(facts: seq<Fact>, q: Lookup, at: nat, next: nat) returns (ps: seq<nat>)
    requires at <= |facts| && next == at + 1
    ensures PositionsFrom(facts, q, at, ps) && Yields(facts, q, ps, Read(facts[at..], q))
    decreases |facts| - at
  {
    if at == |facts| {
      ps := [];
    } else {
      var rest := ReadFrom(facts, q, next, next + 1);
      ps := if Hits(q, facts[at]) then [at] + rest else rest;
      ReadStep(facts, q, at, next);
      PositionsStep(facts, q, at, next, rest, ps);
      YieldsStep(facts, q, at, rest, ps, Read(facts[next..], q), Read(facts[at..], q));
    }
  }

  lemma {:induction false} YieldsStep(facts: seq<Fact>, q: Lookup, at: nat, rest: seq<nat>, ps: seq<nat>,
                                      more: seq<int>, all: seq<int>)
    requires at < |facts| && Yields(facts, q, rest, more) && ps == if Hits(q, facts[at]) then [at] + rest else rest
    requires all == if Hits(q, facts[at]) then [Yield(q, facts[at])] + more else more
    ensures Yields(facts, q, ps, all)
  {}

  lemma {:induction false} ReadStep(facts: seq<Fact>, q: Lookup, at: nat, next: nat)
    requires at < |facts| && next == at + 1
    ensures Read(facts[at..], q) ==
        if Hits(q, facts[at]) then [Yield(q, facts[at])] + Read(facts[next..], q) else Read(facts[next..], q)
  {
    var some := facts[at..];
    assert some[0] == facts[at] && some[1..] == facts[next..];
    assert [] + Read(facts[next..], q) == Read(facts[next..], q);
  }

  lemma {:induction false} PositionsStep(facts: seq<Fact>, q: Lookup, at: nat, next: nat, rest: seq<nat>, ps: seq<nat>)
    requires at < |facts| && next == at + 1 && PositionsFrom(facts, q, next, rest)
    requires ps == if Hits(q, facts[at]) then [at] + rest else rest
    ensures PositionsFrom(facts, q, at, ps)
  {
    if Hits(q, facts[at]) {
      forall i, j | 0 <= i < j < |ps| ensures ps[i] < ps[j] {
        assert ps[j] == rest[j - 1] && rest[j - 1] in rest;
      }
    }
  }

  /** A lookup lists what each fact that is hit yields, once for each such fact, in order. */
  lemma {:induction false} ReadAll(facts: seq<Fact>, q: Lookup) returns (ps: seq<nat>)
    ensures Positions(facts, q, ps) && Yields(facts, q, ps, Read(facts, q))
  {
    ps := ReadFrom(facts, q, 0, 1);
    assert facts[0..] == facts;
  }

  /** An entity has facts exactly if there is one. */
  lemma {:induction false} HasFactsIff(facts: seq<Fact>, e: int)
    ensures HasFacts(facts, e) <==> exists k :: 0 <= k < |facts| && facts[k].e == e
  {
    if facts != [] {
      HasFactsIff(facts[1..], e);
      if k :| 0 <= k < |facts| && facts[k].e == e {
        if k > 0 { assert facts[1..][k - 1].e == e; }
      }
      if HasFacts(facts[1..], e) {
        var k :| 0 <= k < |facts[1..]| && facts[1..][k].e == e;
        assert facts[k + 1].e == e;
      }
    }
  }

  /** The first `n` values, or all of them if there are fewer. */
  lemma {:induction false} TakenFirst(limit: Limit, vals: seq<int>)
    ensures |Taken(limit, vals)| == (match limit
              case Unlimited => |vals|
              case Default => if |vals| < 1000 then |vals| else 1000
              case AtMost(n) => if |vals| < n then |vals| else n)
    ensures Taken(limit, vals) == vals[..|Taken(limit, vals)|]
  {}

  // ---------------------------------------------------------------- the wildcard

  ghost predicate HasAttr(facts: seq<Fact>, e: int, a: Key) {
    exists k :: 0 <= k < |facts| && facts[k].e == e && facts[k].a == a
  }

  /** Each attribute of the entity once, except those done before. */
  lemma {:induction false} AttrsAre(facts: seq<Fact>, e: int, done: set<Key>)
    ensures var r := AttrsOf(facts, e, done);
            && (forall i, j :: 0 <= i < j < |r| ==> r[i] != r[j])
            && (forall a :: a in r <==> a !in done && HasAttr(facts, e, a))
    decreases |facts|
  {
    if facts != [] {
      var f, rest := facts[0], facts[1..];
      var more := if f.e == e && f.a !in done then done + {f.a} else done;
      AttrsAre(rest, e, more);
      forall a ensures HasAttr(facts, e, a) <==> (f.e == e && f.a == a) || HasAttr(rest, e, a) {
        if k :| 0 <= k < |facts| && facts[k].e == e && facts[k].a == a {
          if k > 0 { assert rest[k - 1] == facts[k]; }
        }
        if k :| 0 <= k < |rest| && rest[k].e == e && rest[k].a == a { assert facts[k + 1] == rest[k]; }
      }
      var r, tail := AttrsOf(facts, e, done), AttrsOf(rest, e, more);
      if f.e == e && f.a !in done {
        assert r == [f.a] + tail;
        forall i, j | 0 <= i < j < |r| ensures r[i] != r[j] { assert r[j] == tail[j - 1] && r[j] in tail; }
      } else {
        assert r == tail;
      }
    }
  }

  lemma {:induction false} GroupAt(facts: seq<Fact>, e: int, keys: seq<Key>)
    ensures |GroupAll(facts, e, keys)| == |keys|
    ensures forall i :: 0 <= i < |keys| ==> GroupAll(facts, e, keys)[i] == (keys[i], Forward(facts, e, keys[i]))
  {
    if keys != [] { GroupAt(facts, e, keys[1..]); }
  }

  /** A wildcard visits each attribute of the entity once, with all its values. */
  lemma {:induction false} GroupsOnce(db: Db, e: int)
    ensures var gs := Groups(db, e);
            && (forall i, j :: 0 <= i < j < |gs| ==> gs[i].0 != gs[j].0)
            && (forall i :: 0 <= i < |gs| ==>
              HasAttr(db.facts, e, gs[i].0) && gs[i].1 == Read(db.facts, Of(e, gs[i].0)))
            && (forall a :: HasAttr(db.facts, e, a) ==> exists i :: 0 <= i < |gs| && gs[i].0 == a)
  {
    var keys := AttrsOf(db.facts, e, {});
    AttrsAre(db.facts, e, {});
    GroupAt(db.facts, e, keys);
    var gs := Groups(db, e);
    forall i | 0 <= i < |gs| ensures HasAttr(db.facts, e, gs[i].0) { assert keys[i] in keys; }
    forall a | HasAttr(db.facts, e, a) ensures exists i :: 0 <= i < |gs| && gs[i].0 == a {
      assert a in keys;
      var i :| 0 <= i < |keys| && keys[i] == a;
      assert gs[i].0 == a;
    }
  }

  // ------------------------------------------------------------------------ specs

  /** The spec looked up is the first with the key. */
  lemma {:induction false} LookupFirst(attrs: seq<Spec>, key: Key)
    ensures LookupSpec(attrs, key).None? <==> forall i :: 0 <= i < |attrs| ==> attrs[i].key != key
    ensures LookupSpec(attrs, key).Some? ==>
        exists i :: 0 <= i < |attrs| && attrs[i].key == key && LookupSpec(attrs, key) == Some(attrs[i].opts)
          && forall j :: 0 <= j < i ==> attrs[j].key != key
  {
    if attrs != [] {
      if attrs[0].key != key {
        LookupFirst(attrs[1..], key);
        assert forall j :: 1 <= j < |attrs| ==> attrs[j] == attrs[1..][j - 1];
        if LookupSpec(attrs, key).Some? {
          var i :| 0 <= i < |attrs[1..]| && attrs[1..][i].key == key && LookupSpec(attrs[1..], key)
              == Some(attrs[1..][i].opts)
            && forall j :: 0 <= j < i ==> attrs[1..][j].key != key;
          assert attrs[i + 1].key == key;
          forall j | 0 <= j < i + 1 ensures attrs[j].key != key { if j > 0 { assert attrs[j] == attrs[1..][j - 1]; } }
        }
      } else {
        assert attrs[0].key == key;
      }
    }
  }

  /** The reverse specs of a pattern, in order. */
  lemma {:induction false} ReversedAre(attrs: seq<Spec>, s: Spec)
    ensures multiset(Reversed(attrs))[s] == if s.key != s.opts.attr then multiset(attrs)[s] else 0
  {
    if attrs != [] {
      ReversedAre(attrs[1..], s);
      assert attrs == [attrs[0]] + attrs[1..];
      var rest := Reversed(attrs[1..]);
      assert [] + rest == rest;
    }
  }

  // ---------------------------------------------------------------- plain attributes

  /** Attributes with one value: forward those of cardinality one, reverse the components. */
  predicate Single(db: Db, attr: Key, forward: bool) {
    if forward then attr !in db.many else attr in db.refs && attr in db.components
  }

  /** References are shown as maps with an id. */
  function Shown(db: Db, attr: Key, x: int): Val {
    if attr in db.refs then MapVal(map[DbId := Scalar(x)]) else Scalar(x)
  }

  function UpTo(limit: Limit, n: nat): nat {
    match limit
    case Unlimited => n
    case Default => if n < 1000 then n else 1000
    case AtMost(most) => if n < most then n else most
  }

  /** The value of a plain attribute: the first of the values looked up, or the first `n`. */
  ghost predicate PlainVal(db: Db, attr: Key, forward: bool, n: nat, vals: seq<int>, v: Val)
    requires n <= |vals|
  {
    if Single(db, attr, forward) then n > 0 && v == Shown(db, attr, vals[0])
    else v.ListVal? && |v.vals| == n && forall i :: 0 <= i < n ==> v.vals[i] == Shown(db, attr, vals[i])
  }

  lemma {:induction false} ShownAll(db: Db, attr: Key, vs: seq<int>)
    ensures forall i :: 0 <= i < |vs| ==> AsValues(db, attr, vs)[i] == Shown(db, attr, vs[i])
  {
    if vs != [] {
      ShownAll(db, attr, vs[1..]);
      assert AsValues(db, attr, vs) == [AsValue(db, attr, vs[0])] + AsValues(db, attr, vs[1..]);
    }
  }

  lemma {:induction false} PlainValueIs(db: Db, attr: Key, forward: bool, limit: Limit, vals: seq<int>)
    requires Taken(limit, vals) != []
    ensures |Taken(limit, vals)| == UpTo(limit, |vals|)
    ensures PlainVal(db, attr, forward, UpTo(limit, |vals|), vals, PlainValue(db, attr, forward, Taken(limit, vals)))
  {
    ShownAll(db, attr, Taken(limit, vals));
  }

  /** The key results are stored under: the new name, if there is one. */
  function StoredKey(s: Spec): Key {
    if s.opts.rename.Some? then s.opts.rename.value else s.key
  }

  ghost predicate StoredOnly(specs: seq<Spec>, i: nat, k: Key) {
    i < |specs| && StoredKey(specs[i]) == k && forall j :: 0 <= j < |specs| && j != i ==> StoredKey(specs[j]) != k
  }

  /** Neither pulled further nor expanded. */
  predicate PlainSpec(db: Db, s: Spec) {
    && s.key != DbId && s.opts.sub.None? && s.opts.recursion.None?
    && !(s.key == s.opts.attr && s.opts.attr in db.refs && s.opts.attr in db.components)
  }

  function LookupOf(s: Spec, eid: int): Lookup {
    if s.key == s.opts.attr then Of(eid, s.opts.attr) else To(s.opts.attr, eid)
  }

  /** The entry under a key comes from the only spec that is stored there. */
  lemma {:induction false} SpecsAre(db: Db, ids: set<int>, pat: Pattern, specs: seq<Spec>, i: nat, eid: int, rec: Rec,
                                    kvps: map<Key, Val>, k: Key)
    requires Covers(db, ids) && eid in ids && AllBelow(specs, Height(pat)) && Height(pat) > 0 && k != DbId
    requires StoredOnly(specs, i, k) && k !in kvps
    ensures HeightBelow(specs[i].opts, Height(pat))
    ensures var (r, one) :=
        (EvalSpecs(db, ids, pat, specs, eid, rec, kvps), EvalSpec(db, ids, pat, specs[i], eid, rec));
            (k in r <==> k in one) && (k in r ==> r[k] == one[k])
    decreases |specs|
  {
    var more := kvps + EvalSpec(db, ids, pat, specs[0], eid, rec);
    if i == 0 {
      forall s | s in specs[1..] ensures ResultKey(s.key, s.opts) != k {
        var j :| 0 <= j < |specs[1..]| && specs[1..][j] == s;
        assert s == specs[j + 1];
      }
      SpecsKeep(db, ids, pat, specs[1..], eid, rec, more, k);
    } else {
      SpecKeys(db, ids, pat, specs[0], eid, rec, k);
      assert forall j :: 0 <= j < |specs[1..]| ==> specs[1..][j] == specs[j + 1];
      SpecsAre(db, ids, pat, specs[1..], i - 1, eid, rec, more, k);
    }
  }

  /** The map that a pull of an entity yields; no result stands for an empty one. */
  ghost function Pulled(db: Db, specs: seq<Spec>, eid: int): map<Key, Val> {
    var r := Expected(db, Pattern(false, specs), [eid]);
    if |r| == 1 && r[0].MapVal? then r[0].kvs else map[]
  }

  lemma {:induction false} PulledIs(db: Db, specs: seq<Spec>, eid: int, ids: set<int>)
    requires ids == Ids(db, [eid])
    ensures var pat := Pattern(false, specs);
            && Covers(db, ids) && eid in ids && AllBelow(specs, Height(pat))
            && Pulled(db, specs, eid) == EvalSpecs(db, ids, pat, specs, eid, NO_REC, map[])
            && Expected(db, pat, [eid])
                == (if Pulled(db, specs, eid) == map[] then [] else [MapVal(Pulled(db, specs, eid))])
  {
    var pat := Pattern(false, specs);
    IdsIn(db, [eid], [eid]);
    SpecsFit(pat);
    assert [eid][1..] == [] && [eid][0] in ids;
    var m := EvalSpecs(db, ids, pat, specs, eid, NO_REC, map[]);
    assert EvalEids(db, ids, pat, [], None, NO_REC) == [];
    assert EvalEids(db, ids, pat, [eid], None, NO_REC) == Collect([], m) + [];
    assert Collect([], m) + [] == Collect([], m) && [] + [MapVal(m)] == [MapVal(m)];
  }

  /** What a pull has under the key of a plain attribute: by cardinality and direction the one
      value or the list of values, up to the limit, of the facts there are; the default, if
      there are none; and else nothing. */
  lemma {:induction false} PlainPull(db: Db, specs: seq<Spec>, i: nat, k: Key, eid: int)
    returns (ps: seq<nat>, vals: seq<int>)
    requires StoredOnly(specs, i, k) && k != DbId && PlainSpec(db, specs[i])
    ensures Positions(db.facts, LookupOf(specs[i], eid), ps) && Yields(db.facts, LookupOf(specs[i], eid), ps, vals)
    ensures var (s, m) := (specs[i], Pulled(db, specs, eid));
            var n := UpTo(s.opts.limit, |vals|);
            && (k in m <==> n > 0 || s.opts.dflt.Some?)
            && (n > 0 ==> PlainVal(db, s.opts.attr, s.key == s.opts.attr, n, vals, m[k]))
            && (n == 0 && s.opts.dflt.Some? ==> m[k] == s.opts.dflt.value)
  {
    var (s, pat, ids) := (specs[i], Pattern(false, specs), Ids(db, [eid]));
    ps := ReadAll(db.facts, LookupOf(s, eid));
    vals := Read(db.facts, LookupOf(s, eid));
    TakenFirst(s.opts.limit, vals);
    PulledIs(db, specs, eid, ids);
    SpecsAre(db, ids, pat, specs, i, eid, NO_REC, map[], k);
    if Taken(s.opts.limit, vals) != [] { PlainValueIs(db, s.opts.attr, s.key == s.opts.attr, s.opts.limit, vals); }
    PlainSpecIs(db, ids, pat, s, eid, NO_REC, vals);
  }

  lemma {:induction false} PlainSpecIs(db: Db, ids: set<int>, pat: Pattern, s: Spec, eid: int, rec: Rec, vals: seq<int>)
    requires Covers(db, ids) && eid in ids && HeightBelow(s.opts, Height(pat)) && Height(pat) > 0 && PlainSpec(db, s)
    requires vals == Read(db.facts, LookupOf(s, eid))
    ensures EvalSpec(db, ids, pat, s, eid, rec) ==
        if Taken(s.opts.limit, vals) != [] then
          map[StoredKey(s) := PlainValue(db, s.opts.attr, s.key == s.opts.attr, Taken(s.opts.limit, vals))]
        else if s.opts.dflt.Some? then map[StoredKey(s) := s.opts.dflt.value] else map[]
  {}

  /** The id of an entity is pulled exactly if it has facts. */
  lemma {:induction false} IdPull(db: Db, s: Spec, eid: int)
    requires s.key == DbId
    ensures Pulled(db, [s], eid) == if exists j ::
        0 <= j < |db.facts| && db.facts[j].e == eid then map[DbId := Scalar(eid)] else map[]
  {
    var (pat, ids) := (Pattern(false, [s]), Ids(db, [eid]));
    PulledIs(db, [s], eid, ids);
    HasFactsIff(db.facts, eid);
    var one := EvalSpec(db, ids, pat, s, eid, NO_REC);
    assert [s][1..] == [] && map[] + one == one;
    assert EvalSpecs(db, ids, pat, [], eid, NO_REC, one) == one;
  }

  /** Under the key of an attribute with a sub-pattern there are the results of the sub-pattern
      for the values up to the limit: all of them, or the first, by cardinality. */
  lemma {:induction false} SubPull(db: Db, specs: seq<Spec>, i: nat, k: Key, eid: int, ids: set<int>)
    returns (ps: seq<nat>, vals: seq<int>, results: seq<Val>)
    requires StoredOnly(specs, i, k) && k != DbId && specs[i].key != DbId && specs[i].opts.sub.Some?
             && ids == Ids(db, [eid])
    ensures Positions(db.facts, LookupOf(specs[i], eid), ps) && Yields(db.facts, LookupOf(specs[i], eid), ps, vals)
    ensures var (o, m, n) := (specs[i].opts, Pulled(db, specs, eid), UpTo(specs[i].opts.limit, |vals|));
            && Covers(db, ids) && AllIn(ids, vals[..n])
            && results == EvalEids(db, ids, o.sub.value, vals[..n], Some(k), NO_REC)
            && (n > 0 && Single(db, o.attr, specs[i].key == o.attr) ==>
                  (k in m <==> results != []) && (results != [] ==> m[k] == results[0]))
            && (n > 0 && !Single(db, o.attr, specs[i].key == o.attr) ==> k in m && m[k] == ListVal(results))
  {
    var (s, pat) := (specs[i], Pattern(false, specs));
    ps := ReadAll(db.facts, LookupOf(s, eid));
    vals := Read(db.facts, LookupOf(s, eid));
    TakenFirst(s.opts.limit, vals);
    var n := UpTo(s.opts.limit, |vals|);
    PulledIs(db, specs, eid, ids);
    ForwardIn(db.facts, ids, eid, s.opts.attr);
    ReverseIn(db.facts, ids, s.opts.attr, eid);
    PrefixIn(ids, vals, n);
    results := EvalEids(db, ids, s.opts.sub.value, vals[..n], Some(k), NO_REC);
    SpecsAre(db, ids, pat, specs, i, eid, NO_REC, map[], k);
    if n > 0 {
      assert vals[..n] == Taken(s.opts.limit, vals);
      SubSpecIs(db, ids, pat, s, eid, NO_REC, vals);
    }
  }

  lemma {:induction false} SubSpecIs(db: Db, ids: set<int>, pat: Pattern, s: Spec, eid: int, rec: Rec, vals: seq<int>)
    requires Covers(db, ids) && eid in ids && HeightBelow(s.opts, Height(pat)) && Height(pat) > 0 && s.key != DbId
             && s.opts.sub.Some?
    requires vals == Read(db.facts, LookupOf(s, eid)) && AllIn(ids, Taken(s.opts.limit, vals))
             && Taken(s.opts.limit, vals) != []
    ensures EvalSpec(db, ids, pat, s, eid, rec) ==
        var results := EvalEids(db, ids, s.opts.sub.value, Taken(s.opts.limit, vals), Some(StoredKey(s)), NO_REC);
        if !Single(db, s.opts.attr, s.key == s.opts.attr) then map[StoredKey(s) := ListVal(results)]
        else if results == [] then map[] else map[StoredKey(s) := results[0]]
  {}

  // -------------------------------------------------------------------- wildcards

  /** One attribute of a wildcard adds an entry under its own name, if any. */
  lemma {:induction false} GroupAdds(db: Db, ids: set<int>, eid: int, rec: Rec, g: (Key, seq<int>), k: Key)
    requires Covers(db, ids) && eid in ids && AllIn(ids, g.1)
    ensures var one := EvalAttr(db, ids, EVERYTHING, g.0, g.0, eid, true, g.1, NO_OPTS, rec);
            && (k != g.0 ==> k !in one)
            && (!(g.0 in db.refs && g.0 in db.components) && g.1 != [] ==>
                  g.0 in one && one[g.0] == PlainValue(db, g.0, true, Taken(Default, g.1)))
  {}

  /** What the expansion of an entity has under an attribute. */
  lemma {:induction false} ExpandHas(db: Db, ids: set<int>, eid: int, rec: Rec, groups: seq<(Key, seq<int>)>,
                                     kvps: map<Key, Val>, k: Key)
    requires Covers(db, ids) && eid in ids && GroupsIn(ids, groups)
    requires forall i, j :: 0 <= i < j < |groups| ==> groups[i].0 != groups[j].0
    ensures var r := EvalExpand(db, ids, EVERYTHING, eid, rec, groups, kvps);
            && ((forall i :: 0 <= i < |groups| ==> groups[i].0 != k) ==>
              (k in r <==> k in kvps) && (k in r ==> r[k] == kvps[k]))
            && (forall i ::
                0 <= i < |groups| && groups[i].0 == k && !(k in db.refs && k in db.components) && groups[i].1 != [] ==>
                  k in r && r[k] == PlainValue(db, k, true, Taken(Default, groups[i].1)))
    decreases |groups|
  {
    if groups != [] {
      var g, rest := groups[0], groups[1..];
      var one := EvalAttr(db, ids, EVERYTHING, g.0, g.0, eid, true, g.1, NO_OPTS, rec);
      assert forall i :: 0 <= i < |rest| ==> rest[i] == groups[i + 1];
      GroupAdds(db, ids, eid, rec, g, k);
      ExpandHas(db, ids, eid, rec, rest, kvps + one, k);
    }
  }

  /** What a wildcard pulls for an entity: its id, and each of its attributes that is not
      expanded further, by cardinality and up to the default limit. */
  lemma {:induction false} WildPull(db: Db, eid: int, a: Key) returns (m: map<Key, Val>, ps: seq<nat>, vals: seq<int>)
    requires a != DbId && !(a in db.refs && a in db.components) && !HasAttr(db.facts, eid, DbId)
    ensures Expected(db, Pattern(true, []), [eid]) == [MapVal(m)] && DbId in m && m[DbId] == Scalar(eid)
    ensures Positions(db.facts, Of(eid, a), ps) && Yields(db.facts, Of(eid, a), ps, vals)
    ensures a in m <==> vals != []
    ensures vals != [] ==> PlainVal(db, a, true, UpTo(Default, |vals|), vals, m[a])
  {
    var (ids, groups) := (Ids(db, [eid]), Groups(db, eid));
    ps := ReadAll(db.facts, Of(eid, a));
    vals := Read(db.facts, Of(eid, a));
    IdsIn(db, [eid], [eid]);
    assert [eid][1..] == [] && [eid][0] in ids;
    GroupsOnce(db, eid);
    GroupAllIn(db.facts, ids, eid, AttrsOf(db.facts, eid, {}));
    var start := map[DbId := Scalar(eid)];
    m := EvalExpand(db, ids, EVERYTHING, eid, NO_REC, groups, start);
    ExpandHas(db, ids, eid, NO_REC, groups, start, a);
    ExpandHas(db, ids, eid, NO_REC, groups, start, DbId);
    AttrRead(db.facts, eid, a, ps, vals);
    if vals != [] {
      TakenFirst(Default, vals);
      PlainValueIs(db, a, true, Default, vals);
    }
    assert EvalEids(db, ids, EVERYTHING, [], None, NO_REC) == [];
    assert EvalEids(db, ids, EVERYTHING, [eid], None, NO_REC) == Collect([], m) + [];
    assert Collect([], m) == [] + [MapVal(m)] == [MapVal(m)] && [MapVal(m)] + [] == [MapVal(m)];
  }

  lemma {:induction false} AttrRead(facts: seq<Fact>, e: int, a: Key, ps: seq<nat>, vals: seq<int>)
    requires Positions(facts, Of(e, a), ps) && Yields(facts, Of(e, a), ps, vals)
    ensures HasAttr(facts, e, a) <==> vals != []
  {
    if vals != [] { assert ps[0] in ps && Hits(Of(e, a), facts[ps[0]]); }
    if k :| 0 <= k < |facts| && facts[k].e == e && facts[k].a == a { assert Hits(Of(e, a), facts[k]) && k in ps; }
  }
}
