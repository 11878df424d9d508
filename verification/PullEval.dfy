/** A direct recursive reading of pull patterns, and the proof that the frame machine
    computes it on every database, cyclic ones included. */
module PullEval {
  import opened Options
  import Sequences
  import opened Pull

  // ------------------------------------------------------------------- measures

  ghost function Height(p: Pattern): nat
    decreases p, 1
  {
    if p.attrs == [] then 0 else 1 + AttrsHeight(p.attrs) + (if p.wildcard then 1 else 0)
  }

  ghost function AttrsHeight(attrs: seq<Spec>): nat
    decreases attrs, 0
  {
    if attrs == [] then 0 else
      var (h, k) := (SubHeight(attrs[0]), AttrsHeight(attrs[1..]));
      if h > k then h else k
  }

  ghost function SubHeight(s: Spec): nat
    decreases s, 0
  {
    if s.opts.sub.Some? then Height(s.opts.sub.value) else 0
  }

  /** `ids` has every entity and value of the database. */
  ghost predicate Covers(db: Db, ids: set<int>) {
    forall f :: f in db.facts ==> f.e in ids && f.v in ids
  }

  ghost predicate AllIn(ids: set<int>, eids: seq<int>) {
    eids == [] || (eids[0] in ids && AllIn(ids, eids[1..]))
  }

  ghost predicate GroupsIn(ids: set<int>, groups: seq<(Key, seq<int>)>) {
    groups == [] || (AllIn(ids, groups[0].1) && GroupsIn(ids, groups[1..]))
  }

  ghost function Unseen(ids: set<int>, rec: Rec): nat {
    |ids - rec.seen|
  }

  ghost function Work(ids: set<int>, key: Option<Key>, rec: Rec): nat {
    Unseen(ids, rec) + (if key.None? then 1 else 0)
  }

  lemma {:induction false} UnseenShrinks(ids: set<int>, rec: Rec, key: Key, eid: int)
    ensures Unseen(ids, PushRec(rec, key, eid)) <= Unseen(ids, rec)
    ensures eid in ids && eid !in rec.seen ==> Unseen(ids, PushRec(rec, key, eid)) < Unseen(ids, rec)
  {
    Sequences.Smaller(ids - PushRec(rec, key, eid).seen, ids - rec.seen);
    if eid in ids && eid !in rec.seen {
      assert ids - PushRec(rec, key, eid).seen == ids - rec.seen - {eid};
    }
  }

  // ------------------------------------------------------------ values stay inside

  lemma {:induction false} ForwardIn(facts: seq<Fact>, ids: set<int>, e: int, a: Key)
    requires forall f :: f in facts ==> f.e in ids && f.v in ids
    ensures AllIn(ids, Forward(facts, e, a))
  {
    if facts != [] {
      ForwardIn(facts[1..], ids, e, a);
      var rest := Forward(facts[1..], e, a);
      assert ([facts[0].v] + rest)[1..] == rest && [] + rest == rest;
    }
  }

  lemma {:induction false} ReverseIn(facts: seq<Fact>, ids: set<int>, a: Key, v: int)
    requires forall f :: f in facts ==> f.e in ids && f.v in ids
    ensures AllIn(ids, Reverse(facts, a, v))
  {
    if facts != [] {
      ReverseIn(facts[1..], ids, a, v);
      var rest := Reverse(facts[1..], a, v);
      assert ([facts[0].e] + rest)[1..] == rest && [] + rest == rest;
    }
  }

  lemma {:induction false} GroupAllIn(facts: seq<Fact>, ids: set<int>, e: int, keys: seq<Key>)
    requires forall f :: f in facts ==> f.e in ids && f.v in ids
    ensures GroupsIn(ids, GroupAll(facts, e, keys))
  {
    if keys != [] {
      GroupAllIn(facts, ids, e, keys[1..]);
      ForwardIn(facts, ids, e, keys[0]);
      var rest := GroupAll(facts, e, keys[1..]);
      assert ([(keys[0], Forward(facts, e, keys[0]))] + rest)[1..] == rest;
    }
  }

  lemma {:induction false} PrefixIn(ids: set<int>, vals: seq<int>, n: nat)
    requires AllIn(ids, vals) && n <= |vals|
    ensures AllIn(ids, vals[..n])
  {
    if n > 0 {
      PrefixIn(ids, vals[1..], n - 1);
      assert vals[..n][1..] == vals[1..][..n - 1];
    }
  }

  // ------------------------------------------------------------------ evaluation

  /** The options come from a pattern of this height. */
  ghost predicate HeightBelow(opts: Opts, h: nat) {
    opts.sub.Some? ==> Height(opts.sub.value) < h
  }

  ghost predicate AllBelow(specs: seq<Spec>, h: nat) {
    specs == [] || (HeightBelow(specs[0].opts, h) && AllBelow(specs[1..], h))
  }

  lemma {:induction false} AttrsBelow(attrs: seq<Spec>, h: nat)
    requires AttrsHeight(attrs) < h
    ensures AllBelow(attrs, h)
  {
    if attrs != [] { AttrsBelow(attrs[1..], h); }
  }

  lemma {:induction false} LookupBelow(attrs: seq<Spec>, h: nat, key: Key)
    requires AllBelow(attrs, h)
    ensures LookupSpec(attrs, key).Some? ==> HeightBelow(LookupSpec(attrs, key).value, h)
  {
    if attrs != [] { LookupBelow(attrs[1..], h, key); }
  }

  lemma {:induction false} OptsBelow(p: Pattern, key: Key)
    ensures HeightBelow(OptsFor(p, key), Height(p))
  {
    if p.attrs != [] {
      AttrsBelow(p.attrs, Height(p));
      LookupBelow(p.attrs, Height(p), key);
    }
  }

  lemma {:induction false} ReversedHeight(attrs: seq<Spec>)
    ensures AttrsHeight(Reversed(attrs)) <= AttrsHeight(attrs)
  {
    if attrs != [] {
      ReversedHeight(attrs[1..]);
      var rest := Reversed(attrs[1..]);
      assert ([attrs[0]] + rest)[1..] == rest && [] + rest == rest;
    }
  }

  /** The entries of a result that is kept. */
  ghost function Entry(key: Key, v: Option<Val>): map<Key, Val> {
    if v.Some? then map[key := v.value] else map[]
  }

  ghost function First(results: seq<Val>): map<Key, Val> {
    if results != [] && results[0].MapVal? then results[0].kvs else map[]
  }

  /** One result for each entity that has something the pattern asks for. */
  ghost function EvalEids(db: Db, ids: set<int>, pat: Pattern, eids: seq<int>, key: Option<Key>, rec: Rec): seq<Val>
    requires Covers(db, ids) && AllIn(ids, eids)
    decreases Height(pat), Work(ids, key, rec), 5, |eids|
  {
    if eids == [] then []
    else EvalEntity(db, ids, pat, eids[0], key, rec) + EvalEids(db, ids, pat, eids[1..], key, rec)
  }

  ghost function EvalEntity(db: Db, ids: set<int>, pat: Pattern, eid: int, key: Option<Key>, rec: Rec): seq<Val>
    requires Covers(db, ids) && eid in ids
    decreases Height(pat), Work(ids, key, rec), 4, 0
  {
    if !pat.wildcard then
      AttrsBelow(pat.attrs, Height(pat) + 1);
      SpecsFit(pat);
      Collect([], EvalSpecs(db, ids, pat, pat.attrs, eid, rec, map[]))
    else if eid in rec.seen then [IdMap(eid)]
    else
      GroupAllIn(db.facts, ids, eid, AttrsOf(db.facts, eid, {}));
      var rec2 := if key.Some? then PushRec(rec, key.value, eid) else rec;
      assert Unseen(ids, rec2) < Work(ids, key, rec) by { if key.Some? { UnseenShrinks(ids, rec, key.value, eid); } }
      Collect([], EvalExpand(db, ids, pat, eid, rec2, Groups(db, eid), map[DbId := Scalar(eid)]))
  }

  lemma {:induction false} SpecsFit(p: Pattern)
    ensures AllBelow(p.attrs, Height(p))
  {
    if p.attrs != [] { AttrsBelow(p.attrs, Height(p)); }
  }

  ghost function EvalSpecs(db: Db, ids: set<int>, pat: Pattern, specs: seq<Spec>, eid: int, rec: Rec,
                           kvps: map<Key, Val>): map<Key, Val>
    requires Covers(db, ids) && eid in ids && AllBelow(specs, Height(pat))
    requires specs != [] ==> Height(pat) > 0
    decreases Height(pat), Unseen(ids, rec), 3, |specs|
  {
    if specs == [] then kvps
    else EvalSpecs(db, ids, pat, specs[1..], eid, rec, kvps + EvalSpec(db, ids, pat, specs[0], eid, rec))
  }

  ghost function EvalSpec(db: Db, ids: set<int>, pat: Pattern, spec: Spec, eid: int, rec: Rec): map<Key, Val>
    requires Covers(db, ids) && eid in ids && HeightBelow(spec.opts, Height(pat)) && Height(pat) > 0
    decreases Height(pat), Unseen(ids, rec), 2, 1
  {
    if spec.key == DbId then (if HasFacts(db.facts, eid) then map[DbId := Scalar(eid)] else map[])
    else
      var attr := spec.opts.attr;
      ForwardIn(db.facts, ids, eid, attr);
      ReverseIn(db.facts, ids, attr, eid);
      EvalAttr(db, ids, pat, spec.key, attr, eid, spec.key == attr,
               if spec.key == attr then Forward(db.facts, eid, attr) else Reverse(db.facts, attr, eid), spec.opts, rec)
  }

  /** What one attribute adds to its entity's map. */
  ghost function EvalAttr(db: Db, ids: set<int>, pat: Pattern, attrKey: Key, attr: Key, eid: int, forward: bool,
                          datoms: seq<int>, opts: Opts, rec: Rec): map<Key, Val>
    requires Covers(db, ids) && eid in ids && AllIn(ids, datoms) && HeightBelow(opts, Height(pat))
    decreases Height(pat), Unseen(ids, rec), if Height(pat) == 0 then 9 else 2, 0
  {
    var found := Taken(opts.limit, datoms);
    var key := ResultKey(attrKey, opts);
    var multi := Multi(db, attr, forward);
    PrefixIn(ids, datoms, |found|);
    if found == [] then Entry(key, opts.dflt)
    else if opts.sub.Some? then Entry(key, ResultOf(EvalEids(db, ids, opts.sub.value, found, Some(key), NO_REC), multi))
    else if opts.recursion.Some? then
      if LimitHit(pat, key, rec) then map[]
      else Entry(key, ResultOf(EvalRec(db, ids, pat, key, found, rec), multi))
    else if attr in db.refs && attr in db.components && forward then
      UnseenShrinks(ids, rec, key, eid);
      Entry(key, ResultOf(EvalEids(db, ids, EVERYTHING, found, Some(key), PushRec(rec, key, eid)), multi))
    else map[key := PlainValue(db, attr, forward, found)]
  }

  /** The pattern again for each entity, its id only where it was met before on the way. */
  ghost function EvalRec(db: Db, ids: set<int>, pat: Pattern, attr: Key, eids: seq<int>, rec: Rec): seq<Val>
    requires Covers(db, ids) && AllIn(ids, eids)
    decreases Height(pat), Unseen(ids, rec), if Height(pat) == 0 then 8 else 1, |eids|
  {
    if eids == [] then []
    else
      UnseenShrinks(ids, rec, attr, eids[0]);
      (if eids[0] in rec.seen then [IdMap(eids[0])]
       else Collect([], First(EvalEids(db, ids, pat, [eids[0]], Some(RecursionKey), PushRec(rec, attr, eids[0])))))
      + EvalRec(db, ids, pat, attr, eids[1..], rec)
  }

  /** All attributes of an entity, then the reverse attributes of the pattern. */
  ghost function EvalExpand(db: Db, ids: set<int>, pat: Pattern, eid: int, rec: Rec, groups: seq<(Key, seq<int>)>,
                            kvps: map<Key, Val>): map<Key, Val>
    requires Covers(db, ids) && eid in ids && GroupsIn(ids, groups) && pat.wildcard
    decreases Height(pat), Unseen(ids, rec), 10, |groups|
  {
    if groups != [] then
      OptsBelow(pat, groups[0].0);
      EvalExpand(db, ids, pat, eid, rec, groups[1..],
        kvps + EvalAttr(db, ids, pat, groups[0].0, groups[0].0, eid, true, groups[0].1, OptsFor(pat, groups[0].0), rec))
    else if Reversed(pat.attrs) == [] then kvps
    else
      ReversedHeight(pat.attrs);
      kvps + First(EvalEids(db, ids, Pattern(false, Reversed(pat.attrs)), [eid], Some(ExpandRevKey), NO_REC))
  }

  // ---------------------------------------------------------------- machine runs

  ghost predicate Reaches(db: Db, s: Stack, t: Stack) {
    exists n: nat :: Run(db, s, n) == t
  }

  lemma {:induction false} Here(db: Db, s: Stack)
    ensures Reaches(db, s, s)
  {
    assert Run(db, s, 0) == s;
  }

  lemma {:induction false} StepThen(db: Db, s: Stack, u: Stack)
    requires Reaches(db, Step(db, s), u)
    ensures Reaches(db, s, u)
  {
    var n: nat :| Run(db, Step(db, s), n) == u;
    assert Run(db, s, n + 1) == u;
  }

  lemma {:induction false} One(db: Db, s: Stack, t: Stack)
    requires Step(db, s) == t
    ensures Reaches(db, s, t)
  {
    Here(db, t);
    StepThen(db, s, t);
  }

  lemma {:induction false} RunThen(db: Db, s: Stack, n: nat, u: Stack)
    requires Reaches(db, Run(db, s, n), u)
    ensures Reaches(db, s, u)
    decreases n
  {
    if n > 0 {
      RunThen(db, Step(db, s), n - 1, u);
      StepThen(db, s, u);
    }
  }

  lemma {:induction false} Then(db: Db, s: Stack, t: Stack, u: Stack)
    requires Reaches(db, s, t) && Reaches(db, t, u)
    ensures Reaches(db, s, u)
  {
    var n: nat :| Run(db, s, n) == t;
    RunThen(db, s, n, u);
  }

  ghost predicate Live(rest: Stack) {
    rest == [] || !rest[0].DoneF?
  }

  /** A frame on top of others steps by its own kind. */
  lemma {:induction false} StepTop(db: Db, f: Frame, rest: Stack)
    requires f.DoneF? ==> rest != []
    ensures Step(db, [f] + rest) ==
      match f
      case PatternF(_, _, _, _, _, _, _, _, _) => PullPatternFrame(db, f, rest)
      case RecursionF(_, _, _, _, _, _, _) => PullRecursion(f, rest)
      case ExpandF(_, _, _, _, _) => PullExpand(db, f, rest)
      case ExpandRevF(_, _, _, _, _) => PullExpandRev(f, rest)
      case DoneF(_, _, _) => PullDone(f, rest)
  {
    assert ([f] + rest)[0] == f && ([f] + rest)[1..] == rest;
  }

  /** The parent of a finished child takes over its result. */
  lemma {:induction false} DoneReturns(db: Db, results: seq<Val>, multi: bool, key: Key, parent: Frame, rest: Stack)
    requires !parent.DoneF?
    ensures Reaches(db, [DoneF(results, multi, Some(key))] + ([parent] + rest),
                    [WithKvps(parent, parent.kvps + Entry(key, ResultOf(results, multi)))] + rest)
  {
    var f := DoneF(results, multi, Some(key));
    StepTop(db, f, [parent] + rest);
    assert ([parent] + rest)[0] == parent && ([parent] + rest)[1..] == rest;
    KvpsSame(parent);
    match ResultOf(results, multi) {
      case None => assert parent.kvps + map[] == parent.kvps;
      case Some(v) => assert parent.kvps + map[key := v] == parent.kvps[key := v];
    }
    One(db, [f] + ([parent] + rest), [WithKvps(parent, parent.kvps + Entry(key, ResultOf(results, multi)))] + rest);
  }

  lemma {:induction false} KvpsSame(f: Frame)
    requires !f.DoneF?
    ensures WithKvps(f, f.kvps) == f
  {}

  // --------------------------------------------------- the machine evaluates

  /** A pattern frame works off all its entities. */
  lemma {:induction false} EidsRun(db: Db, ids: set<int>, f: Frame, rest: Stack)
    requires f.PatternF? && f.wild == f.pat.wildcard && f.specs == f.pat.attrs && f.kvps == map[]
    requires Covers(db, ids) && AllIn(ids, f.eids) && Live(rest)
    ensures Reaches(db, [f] + rest, [DoneF(f.results + EvalEids(db, ids, f.pat, f.eids, f.key, f.rec), f.multi, f.key)]
        + rest)
    decreases Height(f.pat), Work(ids, f.key, f.rec), 5, |f.eids|
  {
    if f.eids == [] {
      StepTop(db, f, rest);
      assert f.results + [] == f.results;
      One(db, [f] + rest, [DoneF(f.results, f.multi, f.key)] + rest);
    } else {
      var one := EvalEntity(db, ids, f.pat, f.eids[0], f.key, f.rec);
      var more := EvalEids(db, ids, f.pat, f.eids[1..], f.key, f.rec);
      var g := Advance(f, f.results + one);
      EntityRun(db, ids, f, rest);
      EidsRun(db, ids, g, rest);
      Assoc(f.results, one, more);
      Then(db, [f] + rest, [g] + rest, [DoneF(f.results + one + more, f.multi, f.key)] + rest);
    }
  }

  lemma {:induction false} Assoc<T>(a: seq<T>, b: seq<T>, c: seq<T>)
    ensures a + b + c == a + (b + c)
  {}

  /** ... one entity at a time. */
  lemma {:induction false} EntityRun(db: Db, ids: set<int>, f: Frame, rest: Stack)
    requires f.PatternF? && f.wild == f.pat.wildcard && f.specs == f.pat.attrs && f.kvps == map[]
    requires Covers(db, ids) && f.eids != [] && AllIn(ids, f.eids) && Live(rest)
    ensures Reaches(db, [f] + rest, [Advance(f, f.results + EvalEntity(db, ids, f.pat, f.eids[0], f.key, f.rec))]
        + rest)
    decreases Height(f.pat), Work(ids, f.key, f.rec), 4, 0
  {
    var eid := f.eids[0];
    StepTop(db, f, rest);
    if !f.pat.wildcard {
      SpecsFit(f.pat);
      SpecsRun(db, ids, f, rest);
      var g := Midway(f, [], f.results, EvalSpecs(db, ids, f.pat, f.specs, eid, f.rec, map[]));
      ResetRun(db, g, rest);
      Then(db, [f] + rest, [g] + rest, [Advance(f, f.results + EvalEntity(db, ids, f.pat, eid, f.key, f.rec))] + rest);
    } else if eid in f.rec.seen {
      var g := Midway(f, [], f.results + [IdMap(eid)], map[]);
      One(db, [f] + rest, [g] + rest);
      ResetRun(db, g, rest);
      assert g.results + [] == g.results;
      Then(db, [f] + rest, [g] + rest, [Advance(f, f.results + [IdMap(eid)])] + rest);
    } else {
      WildRun(db, ids, f, rest);
    }
  }

  /** A frame without specs left moves on to its next entity. */
  lemma {:induction false} ResetRun(db: Db, g: Frame, rest: Stack)
    requires g.PatternF? && !g.wild && g.specs == [] && g.eids != []
    ensures Reaches(db, [g] + rest, [Advance(g, g.results + Collect([], g.kvps))] + rest)
  {
    StepTop(db, g, rest);
    assert Collect(g.results, g.kvps) == g.results + Collect([], g.kvps);
    One(db, [g] + rest, PullPatternFrame(db, g, rest));
  }

  lemma {:induction false} WildRun(db: Db, ids: set<int>, f: Frame, rest: Stack)
    requires f.PatternF? && f.wild && f.pat.wildcard && f.specs == f.pat.attrs && f.kvps == map[]
    requires Covers(db, ids) && f.eids != [] && AllIn(ids, f.eids) && Live(rest) && f.eids[0] !in f.rec.seen
    ensures Reaches(db, [f] + rest, [Advance(f, f.results + EvalEntity(db, ids, f.pat, f.eids[0], f.key, f.rec))]
        + rest)
    decreases Height(f.pat), Work(ids, f.key, f.rec), 3, 0
  {
    var eid := f.eids[0];
    var g, x := Midway(f, [], f.results, map[]), Expansion(db, f, eid);
    if f.key.Some? { UnseenShrinks(ids, f.rec, f.key.value, eid); }
    GroupAllIn(db.facts, ids, eid, AttrsOf(db.facts, eid, {}));
    StepTop(db, f, rest);
    ExpandRun(db, ids, x, [g] + rest);
    var all := EvalExpand(db, ids, x.pat, eid, x.rec, x.groups, x.kvps);
    var h := WithKvps(g, map[] + all);
    assert ([g] + rest)[0] == g && ([g] + rest)[1..] == rest;
    assert map[] + all == all;
    StepThen(db, [f] + rest, [h] + rest);
    ResetRun(db, h, rest);
    Then(db, [f] + rest, [h] + rest, [Advance(f, f.results + EvalEntity(db, ids, f.pat, eid, f.key, f.rec))] + rest);
  }

  lemma {:induction false} SpecsRun(db: Db, ids: set<int>, f: Frame, rest: Stack)
    requires f.PatternF? && !f.wild && Covers(db, ids) && f.eids != [] && f.eids[0] in ids && Live(rest)
    requires AllBelow(f.specs, Height(f.pat)) && (f.specs != [] ==> Height(f.pat) > 0)
    ensures Reaches(db, [f] + rest,
        [Midway(f, [], f.results, EvalSpecs(db, ids, f.pat, f.specs, f.eids[0], f.rec, f.kvps))] + rest)
    decreases Height(f.pat), Unseen(ids, f.rec), 3, |f.specs|
  {
    if f.specs == [] {
      Here(db, [f] + rest);
    } else {
      var eid, spec := f.eids[0], f.specs[0];
      var g := Midway(f, f.specs[1..], f.results, f.kvps);
      var h := WithKvps(g, f.kvps + EvalSpec(db, ids, f.pat, spec, eid, f.rec));
      StepTop(db, f, rest);
      SpecRun(db, ids, spec, g, rest);
      StepThen(db, [f] + rest, [h] + rest);
      SpecsRun(db, ids, h, rest);
      Then(db, [f] + rest, [h] + rest,
          [Midway(f, [], f.results, EvalSpecs(db, ids, f.pat, f.specs, eid, f.rec, f.kvps))] + rest);
    }
  }

  lemma {:induction false} SpecRun(db: Db, ids: set<int>, spec: Spec, g: Frame, rest: Stack)
    requires g.PatternF? && Covers(db, ids) && g.eids != [] && g.eids[0] in ids && Live(rest)
    requires HeightBelow(spec.opts, Height(g.pat)) && Height(g.pat) > 0
    ensures Reaches(db, PullAttr(db, spec, g.eids[0], g, rest),
        [WithKvps(g, g.kvps + EvalSpec(db, ids, g.pat, spec, g.eids[0], g.rec))] + rest)
    decreases Height(g.pat), Unseen(ids, g.rec), 2, 1
  {
    var eid := g.eids[0];
    if spec.key == DbId {
      KvpsSame(g);
      assert g.kvps + map[] == g.kvps;
      assert g.kvps + map[DbId := Scalar(eid)] == g.kvps[DbId := Scalar(eid)];
      Here(db, PullAttr(db, spec, eid, g, rest));
    } else {
      ForwardIn(db.facts, ids, eid, spec.opts.attr);
      ReverseIn(db.facts, ids, spec.opts.attr, eid);
      AttrRun(db, ids, spec.key, spec.opts.attr, eid, spec.key == spec.opts.attr,
              if spec.key == spec.opts.attr then Forward(db.facts, eid, spec.opts.attr)
                  else Reverse(db.facts, spec.opts.attr, eid),
              spec.opts, g, rest);
    }
  }

  /** Processing one attribute ends with its entry in the parent. */
  lemma {:induction false} AttrRun(db: Db, ids: set<int>, attrKey: Key, attr: Key, eid: int, forward: bool,
                                   datoms: seq<int>, opts: Opts, parent: Frame, rest: Stack)
    requires !parent.DoneF? && Covers(db, ids) && eid in ids && AllIn(ids, datoms) && Live(rest)
             && HeightBelow(opts, Height(parent.pat))
    ensures Reaches(db, PullAttrDatoms(db, attrKey, attr, eid, forward, datoms, opts, parent, rest),
                    [WithKvps(parent,
                        parent.kvps
                            + EvalAttr(db, ids, parent.pat, attrKey, attr, eid, forward, datoms, opts, parent.rec))]
                                + rest)
    decreases Height(parent.pat), Unseen(ids, parent.rec), if Height(parent.pat) == 0 then 9 else 2, 0
  {
    var found := Taken(opts.limit, datoms);
    var key, multi := ResultKey(attrKey, opts), Multi(db, attr, forward);
    var start := PullAttrDatoms(db, attrKey, attr, eid, forward, datoms, opts, parent, rest);
    PrefixIn(ids, datoms, |found|);
    KvpsSame(parent);
    assert parent.kvps + map[] == parent.kvps;
    if found == [] {
      if opts.dflt.Some? { assert parent.kvps + map[key := opts.dflt.value] == parent.kvps[key := opts.dflt.value]; }
      Here(db, start);
    } else if opts.sub.Some? {
      ChildRun(db, ids, Fresh(opts.sub.value, found, multi, Some(key), NO_REC), key, parent, rest);
    } else if opts.recursion.Some? {
      if LimitHit(parent.pat, key, parent.rec) {
        Here(db, start);
      } else {
        RecRun(db, ids, RecursionF(parent.pat, key, multi, found, parent.rec, [], map[]), parent, rest);
        var results := EvalRec(db, ids, parent.pat, key, found, parent.rec);
        assert [] + results == results;
      }
    } else if attr in db.refs && attr in db.components && forward {
      UnseenShrinks(ids, parent.rec, key, eid);
      ChildRun(db, ids, Fresh(EVERYTHING, found, multi, Some(key), PushRec(parent.rec, key, eid)), key, parent, rest);
    } else {
      var v := PlainValue(db, attr, forward, found);
      assert parent.kvps + map[key := v] == parent.kvps[key := v];
      Here(db, start);
    }
  }

  /** A child pattern frame runs to its end and hands its result over. */
  lemma {:induction false} ChildRun(db: Db, ids: set<int>, f: Frame, key: Key, parent: Frame, rest: Stack)
    requires f.PatternF? && f.wild == f.pat.wildcard && f.specs == f.pat.attrs && f.kvps == map[] && f.results == []
             && f.key == Some(key)
    requires Covers(db, ids) && AllIn(ids, f.eids) && !parent.DoneF?
    ensures Reaches(db, [f, parent] + rest,
                    [WithKvps(parent,
                        parent.kvps + Entry(key, ResultOf(EvalEids(db, ids, f.pat, f.eids, f.key, f.rec), f.multi)))]
                            + rest)
    decreases Height(f.pat), Work(ids, f.key, f.rec), 6, 0
  {
    var results := EvalEids(db, ids, f.pat, f.eids, f.key, f.rec);
    assert [f, parent] + rest == [f] + ([parent] + rest);
    assert [] + results == results;
    EidsRun(db, ids, f, [parent] + rest);
    DoneReturns(db, results, f.multi, key, parent, rest);
    Then(db, [f, parent] + rest, [DoneF(results, f.multi, Some(key))] + ([parent] + rest),
         [WithKvps(parent, parent.kvps + Entry(key, ResultOf(results, f.multi)))] + rest);
  }

  lemma {:induction false} FirstIs(results: seq<Val>, key: Key)
    ensures (map[] + Entry(key, ResultOf(results, false))) == Entry(key, ResultOf(results, false))
    ensures var m := Entry(key, ResultOf(results, false));
            First(results) == if key in m && m[key].MapVal? then m[key].kvs else map[]
  {}

  lemma {:induction false} CollectParts(a: seq<Val>, kvps: map<Key, Val>, b: seq<Val>)
    ensures Collect(a, kvps) + b == a + (Collect([], kvps) + b)
  {}

  /** An entity that was seen yields its id. */
  lemma {:induction false} SeenFirst(db: Db, ids: set<int>, pat: Pattern, attr: Key, eids: seq<int>, rec: Rec,
                                     results: seq<Val>)
    requires Covers(db, ids) && AllIn(ids, eids) && eids != [] && eids[0] in rec.seen
    ensures (results + [IdMap(eids[0])]) + EvalRec(db, ids, pat, attr, eids[1..], rec)
        == results + EvalRec(db, ids, pat, attr, eids, rec)
  {}

  /** A recursion frame works off its entities and hands its result over. */
  lemma {:induction false} RecRun(db: Db, ids: set<int>, f: Frame, parent: Frame, rest: Stack)
    requires f.RecursionF? && Covers(db, ids) && AllIn(ids, f.eids) && !parent.DoneF?
    ensures Reaches(db, PullRecursion(f, [parent] + rest),
                    [WithKvps(parent, parent.kvps + Entry(f.attr,
                       ResultOf(Collect(f.results, RecursionResult(f)) + EvalRec(db, ids, f.pat, f.attr, f.eids, f.rec),
                           f.multi)))] + rest)
    decreases Height(f.pat), Unseen(ids, f.rec), if Height(f.pat) == 0 then 8 else 1, |f.eids|, 1
  {
    var results, below := Collect(f.results, RecursionResult(f)), [parent] + rest;
    if f.eids == [] {
      assert results + [] == results;
      DoneReturns(db, results, f.multi, f.attr, parent, rest);
    } else if f.eids[0] in f.rec.seen {
      var g := RecursionF(f.pat, f.attr, f.multi, f.eids[1..], f.rec, results + [IdMap(f.eids[0])], map[]);
      StepTop(db, g, below);
      RecRun(db, ids, g, parent, rest);
      SeenFirst(db, ids, f.pat, f.attr, f.eids, f.rec, results);
      StepThen(db, [g] + below, [WithKvps(parent, parent.kvps + Entry(f.attr,
                 ResultOf(results + EvalRec(db, ids, f.pat, f.attr, f.eids, f.rec), f.multi)))] + rest);
    } else {
      RecDescends(db, ids, f, parent, rest);
    }
  }

  lemma {:induction false} RecDescends(db: Db, ids: set<int>, f: Frame, parent: Frame, rest: Stack)
    requires f.RecursionF? && Covers(db, ids) && AllIn(ids, f.eids) && !parent.DoneF? && f.eids != []
             && f.eids[0] !in f.rec.seen
    ensures Reaches(db, PullRecursion(f, [parent] + rest),
                    [WithKvps(parent, parent.kvps + Entry(f.attr,
                       ResultOf(Collect(f.results, RecursionResult(f)) + EvalRec(db, ids, f.pat, f.attr, f.eids, f.rec),
                           f.multi)))] + rest)
    decreases Height(f.pat), Unseen(ids, f.rec), if Height(f.pat) == 0 then 8 else 1, |f.eids|, 0
  {
    var results, below, eid := Collect(f.results, RecursionResult(f)), [parent] + rest, f.eids[0];
    var rec := PushRec(f.rec, f.attr, eid);
    UnseenShrinks(ids, f.rec, f.attr, eid);
    var c := Fresh(f.pat, [eid], false, Some(RecursionKey), rec);
    var g := RecursionF(f.pat, f.attr, f.multi, f.eids[1..], f.rec, results, map[]);
    var r := EvalEids(db, ids, f.pat, [eid], Some(RecursionKey), rec);
    ChildRun(db, ids, c, RecursionKey, g, below);
    FirstIs(r, RecursionKey);
    var h := WithKvps(g, g.kvps + Entry(RecursionKey, ResultOf(r, false)));
    StepTop(db, h, below);
    RecRun(db, ids, h, parent, rest);
    CollectParts(results, First(r), EvalRec(db, ids, f.pat, f.attr, f.eids[1..], f.rec));
    var end := [WithKvps(parent,
        parent.kvps + Entry(f.attr, ResultOf(results + EvalRec(db, ids, f.pat, f.attr, f.eids, f.rec), f.multi)))]
            + rest;
    StepThen(db, [h] + below, end);
    Then(db, [c, g] + below, [h] + below, end);
  }

  /** An expansion works off the entity's attributes and merges into the frame below. */
  lemma {:induction false} ExpandRun(db: Db, ids: set<int>, x: Frame, rest: Stack)
    requires x.ExpandF? && Covers(db, ids) && x.eid in ids && GroupsIn(ids, x.groups) && x.pat.wildcard && rest != []
             && Live(rest)
    ensures Reaches(db, PullExpand(db, x, rest),
        ExpandResult(EvalExpand(db, ids, x.pat, x.eid, x.rec, x.groups, x.kvps), rest))
    decreases Height(x.pat), Unseen(ids, x.rec), 10, |x.groups|
  {
    if x.groups != [] {
      var (attr, datoms) := x.groups[0];
      var opts, y := OptsFor(x.pat, attr), ExpandF(x.pat, x.eid, x.groups[1..], x.kvps, x.rec);
      OptsBelow(x.pat, attr);
      AttrRun(db, ids, attr, attr, x.eid, true, datoms, opts, y, rest);
      var z := WithKvps(y, x.kvps + EvalAttr(db, ids, x.pat, attr, attr, x.eid, true, datoms, opts, x.rec));
      StepTop(db, z, rest);
      ExpandRun(db, ids, z, rest);
      var end := ExpandResult(EvalExpand(db, ids, x.pat, x.eid, x.rec, x.groups, x.kvps), rest);
      StepThen(db, [z] + rest, end);
      Then(db, PullExpand(db, x, rest), [z] + rest, end);
    } else if Reversed(x.pat.attrs) == [] {
      Here(db, PullExpand(db, x, rest));
    } else {
      ExpandReverse(db, ids, x, rest);
    }
  }

  lemma {:induction false} ExpandReverse(db: Db, ids: set<int>, x: Frame, rest: Stack)
    requires x.ExpandF? && Covers(db, ids) && x.eid in ids && x.groups == [] && x.pat.wildcard && rest != []
             && Live(rest)
    requires Reversed(x.pat.attrs) != []
    ensures Reaches(db, PullExpand(db, x, rest),
        ExpandResult(EvalExpand(db, ids, x.pat, x.eid, x.rec, x.groups, x.kvps), rest))
    decreases Height(x.pat), Unseen(ids, x.rec), 9, 0
  {
    var pat := Pattern(false, Reversed(x.pat.attrs));
    var c, v := Fresh(pat, [x.eid], false, Some(ExpandRevKey), NO_REC), ExpandRevF(x.pat, x.eid, map[], x.kvps, x.rec);
    var r := EvalEids(db, ids, pat, [x.eid], Some(ExpandRevKey), NO_REC);
    ReversedHeight(x.pat.attrs);
    ChildRun(db, ids, c, ExpandRevKey, v, rest);
    FirstIs(r, ExpandRevKey);
    var h := WithKvps(v, v.kvps + Entry(ExpandRevKey, ResultOf(r, false)));
    StepTop(db, h, rest);
    One(db, [h] + rest, ExpandResult(x.kvps + First(r), rest));
    Then(db, [c, v] + rest, [h] + rest, ExpandResult(x.kvps + First(r), rest));
  }
}
