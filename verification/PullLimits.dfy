/** How deep a recursion nests its results: a limit bounds it, if it is found. */
module PullLimits {
  import opened Options
  import opened Pull
  import opened PullEval
  import opened PullProps

  // ----------------------------------------------------------------------- nesting

  /** No path into the value passes more than `n` entries for the attribute. */
  ghost predicate NestsAtMost(v: Val, k: Key, n: nat)
    decreases v
  {
    match v
    case Scalar(_) => true
    case ListVal(vs) => forall i :: 0 <= i < |vs| ==> NestsAtMost(vs[i], k, n)
    case MapVal(m) =>
      forall j :: j in m ==> if j == k then n > 0 && NestsAtMost(m[j], k, n - 1) else NestsAtMost(m[j], k, n)
  }

  ghost predicate AllNest(vs: seq<Val>, k: Key, n: nat) {
    forall i :: 0 <= i < |vs| ==> NestsAtMost(vs[i], k, n)
  }

  ghost predicate EntriesNest(m: map<Key, Val>, k: Key, n: nat) {
    NestsAtMost(MapVal(m), k, n)
  }

  lemma {:induction false} NestsMore(v: Val, k: Key, m: nat, n: nat)
    requires NestsAtMost(v, k, m) && m <= n
    ensures NestsAtMost(v, k, n)
    decreases v
  {
    match v
    case Scalar(_) =>
    case ListVal(vs) =>
      forall i | 0 <= i < |vs| ensures NestsAtMost(vs[i], k, n) { NestsMore(vs[i], k, m, n); }
    case MapVal(kvs) =>
      forall j | j in kvs ensures if j == k then n > 0 && NestsAtMost(kvs[j], k, n - 1) else NestsAtMost(kvs[j], k, n) {
        if j == k { NestsMore(kvs[j], k, m - 1, n - 1); } else { NestsMore(kvs[j], k, m, n); }
      }
  }

  lemma {:induction false} AllNestMore(vs: seq<Val>, k: Key, m: nat, n: nat)
    requires AllNest(vs, k, m) && m <= n
    ensures AllNest(vs, k, n)
  {
    forall i | 0 <= i < |vs| ensures NestsAtMost(vs[i], k, n) { NestsMore(vs[i], k, m, n); }
  }

  lemma {:induction false} IdNests(eid: int, k: Key, n: nat)
    requires k != DbId
    ensures NestsAtMost(IdMap(eid), k, n)
  {}

  lemma {:induction false} PlainNests(db: Db, attr: Key, vs: seq<int>, k: Key, n: nat)
    requires k != DbId
    ensures AllNest(AsValues(db, attr, vs), k, n)
  {
    if vs != [] {
      PlainNests(db, attr, vs[1..], k, n);
      IdNests(vs[0], k, n);
    }
  }

  lemma {:induction false} EntryNests(key: Key, results: seq<Val>, multi: bool, k: Key, inner: nat, d: nat)
    requires AllNest(results, k, inner) && (if key == k then inner < d else inner <= d)
    ensures EntriesNest(Entry(key, ResultOf(results, multi)), k, d)
  {
    var outer := if key == k then d - 1 else d;
    AllNestMore(results, k, inner, outer);
    if results != [] { assert NestsAtMost(results[0], k, outer); }
    assert NestsAtMost(ListVal(results), k, outer);
  }

  lemma {:induction false} OtherNests(key: Key, v: Val, k: Key, d: nat)
    requires key != k && NestsAtMost(v, k, d)
    ensures EntriesNest(map[key := v], k, d)
  {}

  // ------------------------------------------------------- patterns with a limit

  /** Entities without the attribute, closed under components. */
  ghost predicate Sealed(db: Db, k: Key, safe: set<int>) {
    forall f :: f in db.facts && f.e in safe ==> f.a != k && (f.a in db.refs && f.a in db.components ==> f.v in safe)
  }

  /** All values of the attribute, or for the reverse direction all its entities. */
  ghost predicate Reaching(db: Db, attr: Key, forward: bool, safe: set<int>) {
    forall f :: f in db.facts && f.a == attr ==> (if forward then f.v else f.e) in safe
  }

  /** EVERYTHING is pulled of the values of the attribute. */
  predicate PullsAll(db: Db, attr: Key, forward: bool, opts: Opts) {
    if opts.sub.Some? then opts.sub.value.wildcard
    else opts.recursion.None? && forward && attr in db.refs && attr in db.components
  }

  /** Nothing but a recursion is stored under `k`, and nothing at all if `quiet`; neither do
      defaults and sub-patterns store anything there. */
  ghost predicate FitShape(db: Db, key: Key, opts: Opts, quiet: bool, k: Key, safe: set<int>)
    decreases opts, 0
  {
    && (ResultKey(key, opts) == k ==> !quiet && opts.sub.None? && opts.recursion.Some? && opts.dflt.None?)
    && (opts.dflt.Some? ==> NestsAtMost(opts.dflt.value, k, 0))
    && (opts.sub.Some? ==> FitPattern(db, opts.sub.value, true, k, safe))
  }

  /** ... and everything is pulled only of entities without `k`. */
  ghost predicate FitSpec(db: Db, s: Spec, attr: Key, forward: bool, quiet: bool, k: Key, safe: set<int>)
    decreases s, 0
  {
    FitShape(db, s.key, s.opts, quiet, k, safe)
      && (PullsAll(db, attr, forward, s.opts) ==> Reaching(db, attr, forward, safe))
  }

  ghost predicate FitSpecs(db: Db, specs: seq<Spec>, quiet: bool, k: Key, safe: set<int>)
    decreases specs, 0
  {
    specs == [] ||
    (FitSpec(db, specs[0], specs[0].opts.attr, specs[0].key == specs[0].opts.attr, quiet, k, safe)
     && FitSpecs(db, specs[1..], quiet, k, safe))
  }

  /** In a wildcard, each spec also serves the attribute of its key. */
  ghost predicate FitKeys(db: Db, specs: seq<Spec>, quiet: bool, k: Key, safe: set<int>)
    decreases specs, 0
  {
    specs == []
      || (FitSpec(db, specs[0], specs[0].key, true, quiet, k, safe) && FitKeys(db, specs[1..], quiet, k, safe))
  }

  ghost predicate FitPattern(db: Db, pat: Pattern, quiet: bool, k: Key, safe: set<int>)
    decreases pat, 0
  {
    FitSpecs(db, pat.attrs, quiet, k, safe) && (pat.wildcard ==> FitKeys(db, pat.attrs, quiet, k, safe))
  }

  /** The limit is found under `k`. */
  predicate Limits(specs: seq<Spec>, k: Key, n: nat) {
    LookupSpec(specs, k).Some? && LookupSpec(specs, k).value.recursion == Some(Some(n))
  }

  /** Components without a spec are safe, and reverse specs keep the limit or off `k`. */
  ghost predicate WildOk(db: Db, pat: Pattern, k: Key, n: nat, safe: set<int>) {
    && (forall f :: f in db.facts && LookupSpec(pat.attrs, f.a).None? && f.a in db.refs && f.a in db.components ==>
      f.v in safe)
    && (Limits(Reversed(pat.attrs), k, n) || FitSpecs(db, Reversed(pat.attrs), true, k, safe))
  }

  ghost predicate Tame(db: Db, pat: Pattern, quiet: bool, k: Key, n: nat, safe: set<int>) {
    && k.Attr? && Sealed(db, k, safe) && FitPattern(db, pat, quiet, k, safe)
    && (!quiet ==> Limits(pat.attrs, k, n) && (pat.wildcard ==> WildOk(db, pat, k, n, safe)))
  }

  /** How often `k` may still occur below. */
  ghost function Left(quiet: bool, k: Key, n: nat, rec: Rec): nat
    requires quiet || Depth(rec, k) <= n
  {
    if quiet then 0 else n - Depth(rec, k)
  }

  lemma {:induction false} ForwardSafe(facts: seq<Fact>, e: int, a: Key, safe: set<int>)
    requires forall f :: f in facts && f.e == e && f.a == a ==> f.v in safe
    ensures AllIn(safe, Forward(facts, e, a))
  {
    if facts != [] {
      ForwardSafe(facts[1..], e, a, safe);
      var rest := Forward(facts[1..], e, a);
      assert ([facts[0].v] + rest)[1..] == rest && [] + rest == rest;
    }
  }

  lemma {:induction false} ReverseSafe(facts: seq<Fact>, a: Key, v: int, safe: set<int>)
    requires forall f :: f in facts && f.a == a && f.v == v ==> f.e in safe
    ensures AllIn(safe, Reverse(facts, a, v))
  {
    if facts != [] {
      ReverseSafe(facts[1..], a, v, safe);
      var rest := Reverse(facts[1..], a, v);
      assert ([facts[0].e] + rest)[1..] == rest && [] + rest == rest;
    }
  }

  /** The groups of an entity, each with a fact. */
  ghost predicate GroupsOf(db: Db, e: int, groups: seq<(Key, seq<int>)>) {
    groups == [] ||
    (groups[0].1 == Forward(db.facts, e, groups[0].0) && (exists f :: f in db.facts && f.e == e && f.a == groups[0].0)
     && GroupsOf(db, e, groups[1..]))
  }

  lemma {:induction false} KeysHaveFacts(facts: seq<Fact>, e: int, done: set<Key>, a: Key)
    requires a in AttrsOf(facts, e, done)
    ensures exists f :: f in facts && f.e == e && f.a == a
  {
    if facts[0].e == e && facts[0].a !in done {
      if facts[0].a != a {
        var rest := AttrsOf(facts[1..], e, done + {facts[0].a});
        assert AttrsOf(facts, e, done) == [facts[0].a] + rest;
        KeysHaveFacts(facts[1..], e, done + {facts[0].a}, a);
      }
    } else {
      KeysHaveFacts(facts[1..], e, done, a);
    }
  }

  lemma {:induction false} GroupsAre(db: Db, e: int, keys: seq<Key>)
    requires forall a :: a in keys ==> exists f :: f in db.facts && f.e == e && f.a == a
    ensures GroupsOf(db, e, GroupAll(db.facts, e, keys))
  {
    if keys != [] {
      assert keys[0] in keys;
      forall a | a in keys[1..] ensures exists f :: f in db.facts && f.e == e && f.a == a { assert a in keys; }
      GroupsAre(db, e, keys[1..]);
      var rest := GroupAll(db.facts, e, keys[1..]);
      assert GroupAll(db.facts, e, keys)[1..] == rest;
    }
  }

  lemma {:induction false} LookupFits(db: Db, specs: seq<Spec>, key: Key, quiet: bool, k: Key, safe: set<int>)
    requires FitKeys(db, specs, quiet, k, safe) && LookupSpec(specs, key).Some?
    ensures var o := LookupSpec(specs, key).value;
            FitShape(db, key, o, quiet, k, safe) && (PullsAll(db, key, true, o) ==> Reaching(db, key, true, safe))
  {
    if specs[0].key != key { LookupFits(db, specs[1..], key, quiet, k, safe); }
  }

  lemma {:induction false} ReversedFits(db: Db, specs: seq<Spec>, quiet: bool, k: Key, safe: set<int>)
    requires FitSpecs(db, specs, quiet, k, safe)
    ensures FitSpecs(db, Reversed(specs), quiet, k, safe)
  {
    if specs != [] {
      ReversedFits(db, specs[1..], quiet, k, safe);
      var rest := Reversed(specs[1..]);
      assert ([specs[0]] + rest)[1..] == rest && ([specs[0]] + rest)[0] == specs[0] && [] + rest == rest;
    }
  }

  lemma {:induction false} EverythingTame(db: Db, k: Key, safe: set<int>)
    requires k.Attr? && Sealed(db, k, safe)
    ensures Tame(db, EVERYTHING, true, k, 0, safe)
  {}

  // ----------------------------------------------------------- what is evaluated

  lemma {:induction false} EidsNest(db: Db, ids: set<int>, pat: Pattern, eids: seq<int>, key: Option<Key>, rec: Rec,
                                    quiet: bool, k: Key, n: nat, safe: set<int>)
    requires Covers(db, ids) && AllIn(ids, eids) && Tame(db, pat, quiet, k, n, safe) && (quiet || Depth(rec, k) <= n)
    requires pat.wildcard ==>
        AllIn(if quiet then rec.seen + safe else rec.seen, eids) || (!quiet && rec == NO_REC && key.None?)
    ensures AllNest(EvalEids(db, ids, pat, eids, key, rec), k, Left(quiet, k, n, rec))
    decreases Height(pat), Work(ids, key, rec), 5, |eids|
  {
    if eids != [] {
      EntityNests(db, ids, pat, eids[0], key, rec, quiet, k, n, safe);
      EidsNest(db, ids, pat, eids[1..], key, rec, quiet, k, n, safe);
    }
  }

  lemma {:induction false} EntityNests(db: Db, ids: set<int>, pat: Pattern, eid: int, key: Option<Key>, rec: Rec,
                                       quiet: bool, k: Key, n: nat, safe: set<int>)
    requires Covers(db, ids) && eid in ids && Tame(db, pat, quiet, k, n, safe) && (quiet || Depth(rec, k) <= n)
    requires pat.wildcard ==> eid in rec.seen || (quiet && eid in safe) || (!quiet && rec == NO_REC && key.None?)
    ensures AllNest(EvalEntity(db, ids, pat, eid, key, rec), k, Left(quiet, k, n, rec))
    decreases Height(pat), Work(ids, key, rec), 4, 0
  {
    var left := Left(quiet, k, n, rec);
    IdNests(eid, k, left);
    if !pat.wildcard {
      SpecsFit(pat);
      SpecsNest(db, ids, pat, pat.attrs, eid, rec, map[], quiet, k, n, safe);
    } else if eid !in rec.seen {
      GroupAllIn(db.facts, ids, eid, AttrsOf(db.facts, eid, {}));
      forall a | a in AttrsOf(db.facts, eid, {}) ensures exists f :: f in db.facts && f.e == eid && f.a == a {
        KeysHaveFacts(db.facts, eid, {}, a);
      }
      GroupsAre(db, eid, AttrsOf(db.facts, eid, {}));
      var rec2 := if key.Some? then PushRec(rec, key.value, eid) else rec;
      if key.Some? { UnseenShrinks(ids, rec, key.value, eid); }
      ExpandNests(db, ids, pat, eid, rec2, Groups(db, eid), map[DbId := Scalar(eid)], quiet, k, n, safe);
    }
  }

  lemma {:induction false} SpecsNest(db: Db, ids: set<int>, pat: Pattern, specs: seq<Spec>, eid: int, rec: Rec,
                                     kvps: map<Key, Val>, quiet: bool, k: Key, n: nat, safe: set<int>)
    requires Covers(db, ids) && eid in ids && AllBelow(specs, Height(pat)) && (specs != [] ==> Height(pat) > 0)
             && !pat.wildcard
    requires Tame(db, pat, quiet, k, n, safe) && (quiet || Depth(rec, k) <= n) && FitSpecs(db, specs, quiet, k, safe)
    requires EntriesNest(kvps, k, Left(quiet, k, n, rec))
    ensures EntriesNest(EvalSpecs(db, ids, pat, specs, eid, rec, kvps), k, Left(quiet, k, n, rec))
    decreases Height(pat), Unseen(ids, rec), 3, |specs|
  {
    if specs != [] {
      var more := EvalSpec(db, ids, pat, specs[0], eid, rec);
      SpecNests(db, ids, pat, specs[0], eid, rec, quiet, k, n, safe);
      SpecsNest(db, ids, pat, specs[1..], eid, rec, kvps + more, quiet, k, n, safe);
    }
  }

  lemma {:induction false} SpecNests(db: Db, ids: set<int>, pat: Pattern, spec: Spec, eid: int, rec: Rec,
                                     quiet: bool, k: Key, n: nat, safe: set<int>)
    requires Covers(db, ids) && eid in ids && HeightBelow(spec.opts, Height(pat)) && Height(pat) > 0 && !pat.wildcard
    requires Tame(db, pat, quiet, k, n, safe) && (quiet || Depth(rec, k) <= n)
    requires FitSpec(db, spec, spec.opts.attr, spec.key == spec.opts.attr, quiet, k, safe)
    ensures EntriesNest(EvalSpec(db, ids, pat, spec, eid, rec), k, Left(quiet, k, n, rec))
    decreases Height(pat), Unseen(ids, rec), 2, 1
  {
    if spec.key != DbId {
      var attr, forward := spec.opts.attr, spec.key == spec.opts.attr;
      ForwardIn(db.facts, ids, eid, attr);
      ReverseIn(db.facts, ids, attr, eid);
      if PullsAll(db, attr, forward, spec.opts) {
        if forward { ForwardSafe(db.facts, eid, attr, safe); } else { ReverseSafe(db.facts, attr, eid, safe); }
      }
      AttrNests(db, ids, pat, spec.key, attr, eid, forward, if forward then Forward(db.facts, eid, attr)
          else Reverse(db.facts, attr, eid),
                spec.opts, rec, quiet, k, n, safe);
    }
  }

  lemma {:induction false} AttrNests(db: Db, ids: set<int>, pat: Pattern, attrKey: Key, attr: Key, eid: int,
                                     forward: bool, datoms: seq<int>,
                                     opts: Opts, rec: Rec, quiet: bool, k: Key, n: nat, safe: set<int>)
    requires Covers(db, ids) && eid in ids && AllIn(ids, datoms) && HeightBelow(opts, Height(pat))
    requires Tame(db, pat, quiet, k, n, safe) && (quiet || Depth(rec, k) <= n)
             && FitShape(db, attrKey, opts, quiet, k, safe)
    requires PullsAll(db, attr, forward, opts) ==> AllIn(safe, datoms)
    ensures EntriesNest(EvalAttr(db, ids, pat, attrKey, attr, eid, forward, datoms, opts, rec), k,
        Left(quiet, k, n, rec))
    decreases Height(pat), Unseen(ids, rec), if Height(pat) == 0 then 9 else 2, 0
  {
    var found, key, multi := Taken(opts.limit, datoms), ResultKey(attrKey, opts), Multi(db, attr, forward);
    var left := Left(quiet, k, n, rec);
    PrefixIn(ids, datoms, |found|);
    if PullsAll(db, attr, forward, opts) { PrefixIn(safe, datoms, |found|); }
    if found == [] {
      if opts.dflt.Some? { NestsMore(opts.dflt.value, k, 0, left); }
    } else if opts.sub.Some? {
      if opts.sub.value.wildcard { AllInMore(safe, NO_REC.seen + safe, found); }
      EidsNest(db, ids, opts.sub.value, found, Some(key), NO_REC, true, k, 0, safe);
      EntryNests(key, EvalEids(db, ids, opts.sub.value, found, Some(key), NO_REC), multi, k, 0, left);
    } else if opts.recursion.Some? {
      if !LimitHit(pat, key, rec) {
        RecNests(db, ids, pat, key, found, rec, quiet, k, n, safe);
        EntryNests(key, EvalRec(db, ids, pat, key, found, rec), multi, k, if key == k then left - 1 else left, left);
      }
    } else if attr in db.refs && attr in db.components && forward {
      UnseenShrinks(ids, rec, key, eid);
      var rec2 := PushRec(rec, key, eid);
      EverythingTame(db, k, safe);
      AllInMore(safe, rec2.seen + safe, found);
      EidsNest(db, ids, EVERYTHING, found, Some(key), rec2, true, k, 0, safe);
      EntryNests(key, EvalEids(db, ids, EVERYTHING, found, Some(key), rec2), multi, k, 0, left);
    } else {
      PlainNests(db, attr, found, k, left);
      OtherNests(key, PlainValue(db, attr, forward, found), k, left);
    }
  }

  lemma {:induction false} AllInMore(a: set<int>, b: set<int>, eids: seq<int>)
    requires AllIn(a, eids) && a <= b
    ensures AllIn(b, eids)
  {
    if eids != [] { AllInMore(a, b, eids[1..]); }
  }

  /** Each recursion through `k` uses up one level; through another attribute, none. */
  lemma {:induction false} RecNests(db: Db, ids: set<int>, pat: Pattern, attr: Key, eids: seq<int>, rec: Rec,
                                    quiet: bool, k: Key, n: nat, safe: set<int>)
    requires Covers(db, ids) && AllIn(ids, eids) && Tame(db, pat, quiet, k, n, safe) && (quiet || Depth(rec, k) <= n)
    requires attr == k ==> !quiet && Depth(rec, k) < n
    ensures AllNest(EvalRec(db, ids, pat, attr, eids, rec), k, if attr == k then Left(quiet, k, n, rec) - 1
        else Left(quiet, k, n, rec))
    decreases Height(pat), Unseen(ids, rec), if Height(pat) == 0 then 8 else 1, |eids|
  {
    if eids != [] {
      var d := if attr == k then Left(quiet, k, n, rec) - 1 else Left(quiet, k, n, rec);
      UnseenShrinks(ids, rec, attr, eids[0]);
      IdNests(eids[0], k, d);
      RecNests(db, ids, pat, attr, eids[1..], rec, quiet, k, n, safe);
      if eids[0] !in rec.seen {
        var rec2 := PushRec(rec, attr, eids[0]);
        EidsNest(db, ids, pat, [eids[0]], Some(RecursionKey), rec2, quiet, k, n, safe);
        assert Left(quiet, k, n, rec2) == d;
        var inner := EvalEids(db, ids, pat, [eids[0]], Some(RecursionKey), rec2);
        assert inner != [] ==> NestsAtMost(inner[0], k, d);
      }
    }
  }

  lemma {:induction false} ExpandNests(db: Db, ids: set<int>, pat: Pattern, eid: int, rec: Rec,
                                       groups: seq<(Key, seq<int>)>, kvps: map<Key, Val>,
                                       quiet: bool, k: Key, n: nat, safe: set<int>)
    requires Covers(db, ids) && eid in ids && GroupsIn(ids, groups) && pat.wildcard && GroupsOf(db, eid, groups)
    requires Tame(db, pat, quiet, k, n, safe) && (if quiet then eid in safe else rec == NO_REC)
    requires EntriesNest(kvps, k, Left(quiet, k, n, rec))
    ensures EntriesNest(EvalExpand(db, ids, pat, eid, rec, groups, kvps), k, Left(quiet, k, n, rec))
    decreases Height(pat), Unseen(ids, rec), 10, |groups|
  {
    if groups != [] {
      var (a, datoms) := groups[0];
      GroupFits(db, pat, eid, a, quiet, k, n, safe);
      OptsBelow(pat, a);
      AttrNests(db, ids, pat, a, a, eid, true, datoms, OptsFor(pat, a), rec, quiet, k, n, safe);
      var more := EvalAttr(db, ids, pat, a, a, eid, true, datoms, OptsFor(pat, a), rec);
      ExpandNests(db, ids, pat, eid, rec, groups[1..], kvps + more, quiet, k, n, safe);
    } else if Reversed(pat.attrs) != [] {
      ReversedHeight(pat.attrs);
      var rev := Pattern(false, Reversed(pat.attrs));
      var calm := ReverseTame(db, pat, quiet, k, n, safe);
      EidsNest(db, ids, rev, [eid], Some(ExpandRevKey), NO_REC, calm, k, n, safe);
      var inner := EvalEids(db, ids, rev, [eid], Some(ExpandRevKey), NO_REC);
      AllNestMore(inner, k, Left(calm, k, n, NO_REC), Left(quiet, k, n, rec));
      assert inner != [] ==> NestsAtMost(inner[0], k, Left(quiet, k, n, rec));
    }
  }

  lemma {:induction false} ReverseTame(db: Db, pat: Pattern, quiet: bool, k: Key, n: nat, safe: set<int>)
    returns (calm: bool)
    requires pat.wildcard && Tame(db, pat, quiet, k, n, safe)
    ensures Tame(db, Pattern(false, Reversed(pat.attrs)), calm, k, n, safe) && (quiet ==> calm)
  {
    ReversedFits(db, pat.attrs, quiet, k, safe);
    calm := quiet || !Limits(Reversed(pat.attrs), k, n);
  }

  /** What a wildcard pulls of one attribute. */
  lemma {:induction false} GroupFits(db: Db, pat: Pattern, eid: int, a: Key, quiet: bool, k: Key, n: nat,
                                     safe: set<int>)
    requires pat.wildcard && Tame(db, pat, quiet, k, n, safe) && (quiet ==> eid in safe)
    requires exists f :: f in db.facts && f.e == eid && f.a == a
    ensures FitShape(db, a, OptsFor(pat, a), quiet, k, safe)
    ensures PullsAll(db, a, true, OptsFor(pat, a)) ==> AllIn(safe, Forward(db.facts, eid, a))
  {
    if LookupSpec(pat.attrs, a).Some? { LookupFits(db, pat.attrs, a, quiet, k, safe); }
    if PullsAll(db, a, true, OptsFor(pat, a)) { ForwardSafe(db.facts, eid, a, safe); }
  }

  /** A recursion limit of `n` that is found under `k` never nests `k` deeper than `n`. */
  lemma {:induction false} RecursionBounded(db: Db, pat: Pattern, eids: seq<int>, k: Key, n: nat, safe: set<int>)
    requires Tame(db, pat, false, k, n, safe)
    ensures AllNest(Expected(db, pat, eids), k, n)
  {
    IdsIn(db, eids, eids);
    EidsNest(db, Ids(db, eids), pat, eids, None, NO_REC, false, k, n, safe);
  }

  // ---------------------------------------------------- when the limit is found

  /** FitShape for databases without components: sub-patterns are no wildcards. */
  ghost predicate PlainOpts(key: Key, opts: Opts, quiet: bool, k: Key)
    decreases opts, 0
  {
    && (ResultKey(key, opts) == k ==> !quiet && opts.sub.None? && opts.recursion.Some? && opts.dflt.None?)
    && (opts.dflt.Some? ==> NestsAtMost(opts.dflt.value, k, 0))
    && (opts.sub.Some? ==> PlainPattern(opts.sub.value, k))
  }

  ghost predicate PlainSpec(s: Spec, quiet: bool, k: Key)
    decreases s, 0
  {
    PlainOpts(s.key, s.opts, quiet, k)
  }

  ghost predicate PlainSpecs(specs: seq<Spec>, quiet: bool, k: Key)
    decreases specs, 0
  {
    specs == [] || (PlainSpec(specs[0], quiet, k) && PlainSpecs(specs[1..], quiet, k))
  }

  ghost predicate PlainPattern(pat: Pattern, k: Key)
    decreases pat, 0
  {
    !pat.wildcard && PlainSpecs(pat.attrs, true, k)
  }

  lemma {:induction false} PlainSpecFits(db: Db, s: Spec, quiet: bool, k: Key)
    requires PlainSpec(s, quiet, k) && db.components == {}
    ensures FitSpec(db, s, s.opts.attr, s.key == s.opts.attr, quiet, k, {})
    decreases s, 1
  {
    if s.opts.sub.Some? { PlainPatternFits(db, s.opts.sub.value, k); }
  }

  lemma {:induction false} PlainPatternFits(db: Db, pat: Pattern, k: Key)
    requires PlainPattern(pat, k) && db.components == {}
    ensures FitPattern(db, pat, true, k, {})
    decreases pat, 1
  {
    PlainFits(db, pat.attrs, true, k);
  }

  lemma {:induction false} PlainFits(db: Db, specs: seq<Spec>, quiet: bool, k: Key)
    requires PlainSpecs(specs, quiet, k) && db.components == {}
    ensures FitSpecs(db, specs, quiet, k, {})
    decreases specs, 1
  {
    if specs != [] {
      PlainSpecFits(db, specs[0], quiet, k);
      PlainFits(db, specs[1..], quiet, k);
    }
  }

  /** In no database do the specs nest `k` deeper than `n`. */
  ghost predicate Bounds(specs: seq<Spec>, k: Key, n: nat) {
    forall db, eids, safe :: Sealed(db, k, safe) && FitSpecs(db, specs, false, k, safe) ==>
      AllNest(Expected(db, Pattern(false, specs), eids), k, n)
  }

  /** Under `k` there is a spec with a limit of at most `n`. */
  predicate Caps(specs: seq<Spec>, k: Key, n: nat) {
    match LookupSpec(specs, k)
    case None => false
    case Some(o) => o.recursion.Some? && o.recursion.value.Some? && o.recursion.value.value <= n
  }

  /** `n + 1` entities after the first, each one step of the recursion from the one before. */
  function ChainFrom(a: Key, forward: bool, j: nat, n: nat): seq<Fact>
    decreases n + 1 - j
  {
    if j > n then [] else [if forward then Fact(j, a, j + 1) else Fact(j + 1, a, j)] + ChainFrom(a, forward, j + 1, n)
  }

  function Chain(a: Key, forward: bool, n: nat): Db {
    Db(ChainFrom(a, forward, 0, n), {a}, {}, {a})
  }

  /** The step of the recursion from an entity. */
  function NextOf(db: Db, s: Spec, eid: int): seq<int> {
    if s.key == s.opts.attr then Forward(db.facts, eid, s.opts.attr) else Reverse(db.facts, s.opts.attr, eid)
  }

  lemma {:induction false} ChainStep(a: Key, forward: bool, j: nat, next: nat, n: nat, at: int)
    requires next == j + 1 && j <= n + 1
    ensures (if forward then Forward(ChainFrom(a, forward, j, n), at, a)
        else Reverse(ChainFrom(a, forward, j, n), a, at))
         == if j <= at <= n then [at + 1] else []
    decreases n + 1 - j
  {
    if j <= n {
      ChainStep(a, forward, next, next + 1, n, at);
      var first, rest := if forward then Fact(j, a, next) else Fact(next, a, j), ChainFrom(a, forward, next, n);
      assert ChainFrom(a, forward, j, n) == [first] + rest && ([first] + rest)[1..] == rest;
    }
  }

  lemma {:induction false} ChainIds(a: Key, forward: bool, j: nat, next: nat, n: nat, at: nat)
    requires next == j + 1 && j <= at <= n
    ensures exists f :: f in ChainFrom(a, forward, j, n) && (f.e == at + 1 || f.v == at + 1)
    decreases n - j
  {
    var first, rest := if forward then Fact(j, a, next) else Fact(next, a, j), ChainFrom(a, forward, next, n);
    assert ChainFrom(a, forward, j, n) == [first] + rest;
    if j == at {
      assert first in ChainFrom(a, forward, j, n);
    } else {
      ChainIds(a, forward, next, next + 1, n, at);
      var f :| f in rest && (f.e == at + 1 || f.v == at + 1);
      assert f in ChainFrom(a, forward, j, n);
    }
  }

  /** A spec only writes its result key. */
  lemma {:induction false} SpecKeys(db: Db, ids: set<int>, pat: Pattern, spec: Spec, eid: int, rec: Rec, k: Key)
    requires Covers(db, ids) && eid in ids && HeightBelow(spec.opts, Height(pat)) && Height(pat) > 0
    requires k != DbId && k != ResultKey(spec.key, spec.opts)
    ensures k !in EvalSpec(db, ids, pat, spec, eid, rec)
  {}

  lemma {:induction false} SpecsKeep(db: Db, ids: set<int>, pat: Pattern, specs: seq<Spec>, eid: int, rec: Rec,
                                     kvps: map<Key, Val>, k: Key)
    requires Covers(db, ids) && eid in ids && AllBelow(specs, Height(pat)) && (specs != [] ==> Height(pat) > 0)
             && k != DbId
    requires forall s :: s in specs ==> ResultKey(s.key, s.opts) != k
    ensures var r := EvalSpecs(db, ids, pat, specs, eid, rec, kvps);
            (k in r <==> k in kvps) && (k in kvps ==> r[k] == kvps[k])
    decreases |specs|
  {
    if specs != [] {
      assert specs[0] in specs;
      forall s | s in specs[1..] ensures ResultKey(s.key, s.opts) != k { assert s in specs; }
      SpecKeys(db, ids, pat, specs[0], eid, rec, k);
      SpecsKeep(db, ids, pat, specs[1..], eid, rec, kvps + EvalSpec(db, ids, pat, specs[0], eid, rec), k);
    }
  }

  /** Only the spec at `i` is stored under `k`. */
  ghost predicate OnlyAt(specs: seq<Spec>, i: nat, k: Key) {
    i < |specs| && ResultKey(specs[i].key, specs[i].opts) == k
    && forall j :: 0 <= j < |specs| && j != i ==> ResultKey(specs[j].key, specs[j].opts) != k
  }

  lemma {:induction false} SpecsGive(db: Db, ids: set<int>, pat: Pattern, specs: seq<Spec>, i: nat, eid: int, rec: Rec,
                                     kvps: map<Key, Val>, k: Key)
    requires Covers(db, ids) && eid in ids && AllBelow(specs, Height(pat)) && Height(pat) > 0 && k != DbId
             && OnlyAt(specs, i, k)
    ensures HeightBelow(specs[i].opts, Height(pat))
    ensures var (r, one) :=
        (EvalSpecs(db, ids, pat, specs, eid, rec, kvps), EvalSpec(db, ids, pat, specs[i], eid, rec));
            k in one ==> k in r && r[k] == one[k]
    decreases |specs|
  {
    var more := kvps + EvalSpec(db, ids, pat, specs[0], eid, rec);
    if i == 0 {
      forall s | s in specs[1..] ensures ResultKey(s.key, s.opts) != k {
        var j :| 0 <= j < |specs[1..]| && specs[1..][j] == s;
        assert s == specs[j + 1];
      }
      SpecsKeep(db, ids, pat, specs[1..], eid, rec, more, k);
    } else {
      SpecsGive(db, ids, pat, specs[1..], i - 1, eid, rec, more, k);
    }
  }

  lemma {:induction false} NotCapped(specs: seq<Spec>, k: Key, n: nat, rec: Rec)
    requires !Caps(specs, k, n) && Depth(rec, k) <= n
    ensures !LimitHit(Pattern(false, specs), k, rec)
  {}

  /** The recursion at `j`: what the next entity gives is stored under `k`. */
  lemma {:induction false} LinkGives(db: Db, ids: set<int>, pat: Pattern, s: Spec, j: nat, next: nat, n: nat, rec: Rec,
                                     k: Key)
    requires Covers(db, ids) && j in ids && next in ids && HeightBelow(s.opts, Height(pat)) && Height(pat) > 0
    requires db == Chain(s.opts.attr, s.key == s.opts.attr, n) && next == j + 1 && j <= n
    requires s.key != DbId && s.opts.sub.None? && s.opts.recursion.Some? && s.opts.limit != AtMost(0)
             && k == ResultKey(s.key, s.opts)
    requires !LimitHit(pat, k, rec)
    ensures EvalSpec(db, ids, pat, s, j, rec) == map[k := ListVal(EvalRec(db, ids, pat, k, [next], rec))]
  {
    var attr, forward := s.opts.attr, s.key == s.opts.attr;
    ForwardIn(db.facts, ids, j, attr);
    ReverseIn(db.facts, ids, attr, j);
    ChainStep(attr, forward, 0, 1, n, j);
    assert NextOf(db, s, j) == [next] && Taken(s.opts.limit, [next]) == [next];
    assert Multi(db, attr, forward);
  }

  /** The next entity is pulled with the whole pattern. */
  lemma {:induction false} RecGives(db: Db, ids: set<int>, pat: Pattern, k: Key, next: int, rec: Rec, m: map<Key, Val>)
    requires Covers(db, ids) && next in ids && next !in rec.seen && m != map[]
    requires EvalEids(db, ids, pat, [next], Some(RecursionKey), PushRec(rec, k, next)) == [MapVal(m)]
    ensures EvalRec(db, ids, pat, k, [next], rec) == [MapVal(m)]
  {
    UnseenShrinks(ids, rec, k, next);
    assert [next][1..] == [] && First([MapVal(m)]) == m && [MapVal(m)] + [] == [MapVal(m)];
    assert Collect([], m) == [] + [MapVal(m)];
  }

  lemma {:induction false} OneEntity(db: Db, ids: set<int>, pat: Pattern, eid: int, key: Option<Key>, rec: Rec,
                                     m: map<Key, Val>)
    requires Covers(db, ids) && eid in ids && !pat.wildcard && m != map[] && AllBelow(pat.attrs, Height(pat))
    requires m == EvalSpecs(db, ids, pat, pat.attrs, eid, rec, map[])
    ensures EvalEids(db, ids, pat, [eid], key, rec) == [MapVal(m)]
  {
    assert [eid][1..] == [] && Collect([], m) == [] + [MapVal(m)] == [MapVal(m)] && [MapVal(m)] + [] == [MapVal(m)];
  }

  /** One link: the entity yields a map with the next entity under the key. */
  lemma {:induction false} ChainLink(db: Db, ids: set<int>, specs: seq<Spec>, i: nat, j: nat, next: nat, n: nat,
                                     key: Option<Key>, rec: Rec, k: Key)
    returns (m: map<Key, Val>)
    requires OnlyAt(specs, i, k) && k != DbId && !Caps(specs, k, n)
    requires var s := specs[i];
             s.key != DbId && s.opts.sub.None? && s.opts.recursion.Some? && s.opts.limit != AtMost(0)
             && db == Chain(s.opts.attr, s.key == s.opts.attr, n)
    requires Covers(db, ids) && (forall x :: 0 <= x <= n + 1 ==> x in ids) && next == j + 1 && j <= n
    requires Depth(rec, k) == j && forall x :: x in rec.seen ==> x <= j
    ensures EvalEids(db, ids, Pattern(false, specs), [j], key, rec) == [MapVal(m)] && m != map[]
    ensures k in m && m[k] == ListVal(EvalRec(db, ids, Pattern(false, specs), k, [next], rec))
  {
    var pat := Pattern(false, specs);
    SpecsFit(pat);
    m := EvalSpecs(db, ids, pat, specs, j, rec, map[]);
    SpecsGive(db, ids, pat, specs, i, j, rec, map[], k);
    NotCapped(specs, k, n, rec);
    LinkGives(db, ids, pat, specs[i], j, next, n, rec, k);
    OneEntity(db, ids, pat, j, key, rec, m);
  }

  /** Along the chain the recursion nests one deeper than the limit. */
  lemma {:induction false} ChainNests(db: Db, ids: set<int>, specs: seq<Spec>, i: nat, j: nat, next: nat, n: nat,
                                      key: Option<Key>, rec: Rec, k: Key)
    returns (m: map<Key, Val>)
    requires OnlyAt(specs, i, k) && k != DbId && !Caps(specs, k, n)
    requires var s := specs[i];
             s.key != DbId && s.opts.sub.None? && s.opts.recursion.Some? && s.opts.limit != AtMost(0)
             && db == Chain(s.opts.attr, s.key == s.opts.attr, n)
    requires Covers(db, ids) && (forall x :: 0 <= x <= n + 1 ==> x in ids) && next == j + 1 && j <= n
    requires Depth(rec, k) == j && forall x :: x in rec.seen ==> x <= j
    ensures EvalEids(db, ids, Pattern(false, specs), [j], key, rec) == [MapVal(m)] && m != map[]
    ensures !NestsAtMost(MapVal(m), k, n - j)
    decreases n - j
  {
    m := ChainLink(db, ids, specs, i, j, next, n, key, rec, k);
    if j < n {
      var inner := ChainNests(db, ids, specs, i, next, next + 1, n, Some(RecursionKey), PushRec(rec, k, next), k);
      RecGives(db, ids, Pattern(false, specs), k, next, rec, inner);
      assert m[k].vals[0] == MapVal(inner);
    }
  }

  lemma {:induction false} LimitHolds(db: Db, specs: seq<Spec>, eids: seq<int>, k: Key, n: nat, safe: set<int>)
    requires k.Attr? && Caps(specs, k, n) && Sealed(db, k, safe) && FitSpecs(db, specs, false, k, safe)
    ensures AllNest(Expected(db, Pattern(false, specs), eids), k, n)
  {
    var m := LookupSpec(specs, k).value.recursion.value.value;
    assert Limits(specs, k, m);
    RecursionBounded(db, Pattern(false, specs), eids, k, m, safe);
    AllNestMore(Expected(db, Pattern(false, specs), eids), k, m, n);
  }

  lemma {:induction false} ChainHas(db: Db, a: Key, forward: bool, n: nat, x: nat)
    requires db == Chain(a, forward, n) && 0 < x <= n + 1
    ensures x in Ids(db, [0])
  {
    ChainIds(a, forward, 0, 1, n, x - 1);
    var f :| f in db.facts && (f.e == x || f.v == x);
  }

  lemma {:induction false} ChainCovers(db: Db, a: Key, forward: bool, n: nat)
    requires db == Chain(a, forward, n)
    ensures Covers(db, Ids(db, [0])) && AllIn(Ids(db, [0]), [0]) && forall x :: 0 <= x <= n + 1 ==> x in Ids(db, [0])
  {
    IdsIn(db, [0], [0]);
    assert [0][0] in Ids(db, [0]);
    forall x | 0 < x <= n + 1 ensures x in Ids(db, [0]) { ChainHas(db, a, forward, n, x); }
  }

  lemma {:induction false} LimitLost(specs: seq<Spec>, i: nat, k: Key, n: nat) returns (db: Db)
    requires OnlyAt(specs, i, k) && k.Attr? && PlainSpecs(specs, false, k) && !Caps(specs, k, n)
    requires specs[i].key != DbId && specs[i].opts.recursion.Some? && specs[i].opts.limit != AtMost(0)
    ensures Sealed(db, k, {}) && FitSpecs(db, specs, false, k, {})
    ensures !AllNest(Expected(db, Pattern(false, specs), [0]), k, n)
  {
    var s := specs[i];
    PlainAt(specs, i, k);
    db := Chain(s.opts.attr, s.key == s.opts.attr, n);
    PlainFits(db, specs, false, k);
    ChainCovers(db, s.opts.attr, s.key == s.opts.attr, n);
    var m := ChainNests(db, Ids(db, [0]), specs, i, 0, 1, n, None, NO_REC, k);
    assert Expected(db, Pattern(false, specs), [0])[0] == MapVal(m);
  }

  /** A recursion limit bounds the nesting in every database if and only if a limit that is at
      most as high is found under the key where the results are stored. */
  lemma {:induction false} LimitHonoured(specs: seq<Spec>, i: nat, k: Key, n: nat)
    requires OnlyAt(specs, i, k) && k.Attr? && PlainSpecs(specs, false, k)
    requires specs[i].key != DbId && specs[i].opts.recursion == Some(Some(n)) && specs[i].opts.limit != AtMost(0)
    ensures Bounds(specs, k, n) <==> Caps(specs, k, n)
  {
    if Caps(specs, k, n) {
      forall db, eids, safe | Sealed(db, k, safe) && FitSpecs(db, specs, false, k, safe)
        ensures AllNest(Expected(db, Pattern(false, specs), eids), k, n)
      {
        LimitHolds(db, specs, eids, k, n, safe);
      }
    } else {
      var db := LimitLost(specs, i, k, n);
    }
  }

  lemma {:induction false} PlainAt(specs: seq<Spec>, i: nat, k: Key)
    requires PlainSpecs(specs, false, k) && i < |specs|
    ensures PlainOpts(specs[i].key, specs[i].opts, false, k)
  {
    if i > 0 { PlainAt(specs[1..], i - 1, k); }
  }

  /** `{(:friend :as :f) 1}`: the limit is looked up under `:f` and not found, and on an entity
      that is its own friend the results nest twice. */
  lemma {:induction false} RenamedLimitIgnored()
    ensures var spec := Spec(Attr("friend"), Opts(Attr("friend"), Default, Some(Attr("f")), None, None, Some(Some(1))));
            var db := Db([Fact(1, Attr("friend"), 1)], {Attr("friend")}, {}, {});
            && Expected(db, Pattern(false, [spec]), [1])
               == [MapVal(map[Attr("f") := MapVal(map[Attr("f") := IdMap(1)])])]
            && !AllNest(Expected(db, Pattern(false, [spec]), [1]), Attr("f"), 1)
  {
    var friend, f := Attr("friend"), Attr("f");
    var opts := Opts(friend, Default, Some(f), None, None, Some(Some(1)));
    var spec := Spec(friend, opts);
    var pat := Pattern(false, [spec]);
    var db := Db([Fact(1, friend, 1)], {friend}, {}, {});
    var ids := Ids(db, [1]);
    IdsIn(db, [1], [1]);
    SpecsFit(pat);
    assert pat.attrs[1..] == [];
    assert db.facts[1..] == [] && Forward(db.facts, 1, friend) == [1];
    var one := PushRec(NO_REC, f, 1);
    assert |"friend"| != |"f"|;
    assert LookupSpec(pat.attrs, f) == LookupSpec(pat.attrs[1..], f) == None;
    assert !LimitHit(pat, f, NO_REC) && !LimitHit(pat, f, one);
    assert [1][1..] == [];
    var inner := map[f := IdMap(1)];
    assert EvalRec(db, ids, pat, f, [1], one) == [IdMap(1)] + [];
    assert EvalAttr(db, ids, pat, friend, friend, 1, true, [1], opts, one) == inner;
    assert EvalSpec(db, ids, pat, spec, 1, one) == inner;
    assert map[] + inner == inner;
    assert EvalSpecs(db, ids, pat, pat.attrs, 1, one, map[]) == EvalSpecs(db, ids, pat, [], 1, one, inner) == inner;
    assert EvalEids(db, ids, pat, [1], Some(RecursionKey), one) == [MapVal(inner)] + [];
    var outer := map[f := MapVal(inner)];
    assert EvalRec(db, ids, pat, f, [1], NO_REC) == [MapVal(inner)] + [];
    assert EvalAttr(db, ids, pat, friend, friend, 1, true, [1], opts, NO_REC) == outer;
    assert EvalSpec(db, ids, pat, spec, 1, NO_REC) == outer;
    assert map[] + outer == outer;
    assert EvalSpecs(db, ids, pat, pat.attrs, 1, NO_REC, map[]) == EvalSpecs(db, ids, pat, [], 1, NO_REC, outer)
        == outer;
    assert EvalEids(db, ids, pat, [1], None, NO_REC) == [MapVal(outer)] + [];
    assert outer[f] == MapVal(inner) && inner[f] == IdMap(1);
    assert !NestsAtMost(MapVal(inner), f, 0) && !NestsAtMost(MapVal(outer), f, 1);
    assert Expected(db, pat, [1])[0] == MapVal(outer);
  }
}
