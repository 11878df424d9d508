/** The pull interpreter: an explicit stack of frames, stepped until one result is left. */
module Pull {
  import opened Options

  /** Result keys: an attribute, `:db/id`, and the two internal keys of child frames. */
  datatype Key = Attr(name: string) | DbId | RecursionKey | ExpandRevKey

  /** A fact of the database, in EAVT order; values are numbers, entity ids among them. */
  datatype Fact = Fact(e: int, a: Key, v: int)

  datatype Db = Db(facts: seq<Fact>, refs: set<Key>, components: set<Key>, many: set<Key>)

  datatype Val = Scalar(v: int) | MapVal(kvs: map<Key, Val>) | ListVal(vals: seq<Val>)

  datatype Limit = Default | Unlimited | AtMost(n: nat)

  /** Options of a spec; `recursion` is Some(None) for unbounded recursion. */
  datatype Opts = Opts(attr: Key, limit: Limit, rename: Option<Key>, dflt: Option<Val>,
                       sub: Option<Pattern>, recursion: Option<Option<nat>>)

  datatype Spec = Spec(key: Key, opts: Opts)

  datatype Pattern = Pattern(wildcard: bool, attrs: seq<Spec>)

  datatype Rec = Rec(depth: map<Key, nat>, seen: set<int>)

  datatype Frame =
    | PatternF(pat: Pattern, wild: bool, specs: seq<Spec>, results: seq<Val>, kvps: map<Key, Val>, eids: seq<int>,
               multi: bool, key: Option<Key>, rec: Rec)
    | RecursionF(pat: Pattern, attr: Key, multi: bool, eids: seq<int>, rec: Rec, results: seq<Val>, kvps: map<Key, Val>)
    | ExpandF(pat: Pattern, eid: int, groups: seq<(Key, seq<int>)>, kvps: map<Key, Val>, rec: Rec)
    | ExpandRevF(pat: Pattern, eid: int, kvps: map<Key, Val>, expanded: map<Key, Val>, rec: Rec)
    | DoneF(results: seq<Val>, multi: bool, key: Option<Key>)

  type Stack = seq<Frame>

  const DEFAULT_LIMIT := 1000

  const NO_REC := Rec(map[], {})

  /** The pattern of expanded components. */
  const EVERYTHING := Pattern(true, [])

  // -------------------------------------------------------------------- database

  function Forward(facts: seq<Fact>, e: int, a: Key): seq<int> {
    if facts == [] then [] else
      (if facts[0].e == e && facts[0].a == a then [facts[0].v] else []) + Forward(facts[1..], e, a)
  }

  function Reverse(facts: seq<Fact>, a: Key, v: int): seq<int> {
    if facts == [] then [] else
      (if facts[0].a == a && facts[0].v == v then [facts[0].e] else []) + Reverse(facts[1..], a, v)
  }

  predicate HasFacts(facts: seq<Fact>, e: int) {
    facts != [] && (facts[0].e == e || HasFacts(facts[1..], e))
  }

  function AttrsOf(facts: seq<Fact>, e: int, done: set<Key>): seq<Key> {
    if facts == [] then []
    else if facts[0].e == e && facts[0].a !in done then [facts[0].a] + AttrsOf(facts[1..], e, done + {facts[0].a})
    else AttrsOf(facts[1..], e, done)
  }

  function GroupAll(facts: seq<Fact>, e: int, keys: seq<Key>): seq<(Key, seq<int>)> {
    if keys == [] then [] else [(keys[0], Forward(facts, e, keys[0]))] + GroupAll(facts, e, keys[1..])
  }

  /** The entity's values, grouped by attribute. */
  function Groups(db: Db, e: int): seq<(Key, seq<int>)> {
    GroupAll(db.facts, e, AttrsOf(db.facts, e, {}))
  }

  // --------------------------------------------------------------------- helpers

  function IdMap(eid: int): Val {
    MapVal(map[DbId := Scalar(eid)])
  }

  function Fresh(pat: Pattern, eids: seq<int>, multi: bool, key: Option<Key>, rec: Rec): Frame {
    PatternF(pat, pat.wildcard, pat.attrs, [], map[], eids, multi, key, rec)
  }

  function PushRec(rec: Rec, attr: Key, eid: int): Rec {
    Rec(rec.depth[attr := Depth(rec, attr) + 1], rec.seen + {eid})
  }

  function Depth(rec: Rec, attr: Key): nat {
    if attr in rec.depth then rec.depth[attr] else 0
  }

  function Collect(results: seq<Val>, kvps: map<Key, Val>): seq<Val> {
    if kvps == map[] then results else results + [MapVal(kvps)]
  }

  /** What a finished frame hands to its parent. */
  function ResultOf(results: seq<Val>, multi: bool): Option<Val> {
    if multi then Some(ListVal(results)) else if results == [] then None else Some(results[0])
  }

  function Taken(limit: Limit, vals: seq<int>): (r: seq<int>)
    ensures |r| <= |vals| && r == vals[..|r|]
  {
    match limit
    case Unlimited => vals
    case Default => if |vals| <= DEFAULT_LIMIT then vals else vals[..DEFAULT_LIMIT]
    case AtMost(n) => if |vals| <= n then vals else vals[..n]
  }

  function LookupSpec(attrs: seq<Spec>, key: Key): Option<Opts> {
    if attrs == [] then None else if attrs[0].key == key then Some(attrs[0].opts) else LookupSpec(attrs[1..], key)
  }

  const NO_OPTS := Opts(DbId, Default, None, None, None, None)

  function OptsFor(pat: Pattern, key: Key): Opts {
    match LookupSpec(pat.attrs, key)
    case Some(o) => o
    case None => NO_OPTS
  }

  /** The recursion limit is looked up under the result key. */
  predicate LimitHit(pat: Pattern, key: Key, rec: Rec) {
    match LookupSpec(pat.attrs, key)
    case None => false
    case Some(o) => o.recursion == Some(Some(Depth(rec, key)))
  }

  function Reversed(attrs: seq<Spec>): seq<Spec> {
    if attrs == [] then [] else
      (if attrs[0].key != attrs[0].opts.attr then [attrs[0]] else []) + Reversed(attrs[1..])
  }

  function ResultKey(key: Key, opts: Opts): Key {
    match opts.rename case Some(k) => k case None => key
  }

  function Multi(db: Db, attr: Key, forward: bool): bool {
    if forward then attr in db.many else !(attr in db.refs && attr in db.components)
  }

  function AsValue(db: Db, attr: Key, v: int): Val {
    if attr in db.refs then IdMap(v) else Scalar(v)
  }

  function AsValues(db: Db, attr: Key, vs: seq<int>): (r: seq<Val>)
    ensures |r| == |vs|
  {
    if vs == [] then [] else [AsValue(db, attr, vs[0])] + AsValues(db, attr, vs[1..])
  }

  /** The value of an attribute that is neither pulled further nor expanded. */
  function PlainValue(db: Db, attr: Key, forward: bool, vs: seq<int>): Val
    requires vs != []
  {
    if Multi(db, attr, forward) then ListVal(AsValues(db, attr, vs)) else AsValue(db, attr, vs[0])
  }

  function WithKvps(f: Frame, kvps: map<Key, Val>): Frame
    requires !f.DoneF?
  {
    match f
    case PatternF(pat, wild, specs, results, _, eids, multi, key, rec) =>
      PatternF(pat, wild, specs, results, kvps, eids, multi, key, rec)
    case RecursionF(pat, attr, multi, eids, rec, results, _) => RecursionF(pat, attr, multi, eids, rec, results, kvps)
    case ExpandF(pat, eid, groups, _, rec) => ExpandF(pat, eid, groups, kvps, rec)
    case ExpandRevF(pat, eid, _, expanded, rec) => ExpandRevF(pat, eid, kvps, expanded, rec)
  }

  // ------------------------------------------------------------------- the machine

  /** `pull-attr-datoms`: the frames after the parent has processed one attribute. */
  function PullAttrDatoms(db: Db, attrKey: Key, attr: Key, eid: int, forward: bool, datoms: seq<int>, opts: Opts,
                          parent: Frame, rest: Stack): Stack
    requires !parent.DoneF?
  {
    var found := Taken(opts.limit, datoms);
    var key := ResultKey(attrKey, opts);
    var multi := Multi(db, attr, forward);
    if found == [] then
      [if opts.dflt.Some? then WithKvps(parent, parent.kvps[key := opts.dflt.value]) else parent] + rest
    else if opts.sub.Some? then
      [Fresh(opts.sub.value, found, multi, Some(key), NO_REC), parent] + rest
    else if opts.recursion.Some? then
      RecurseAttr(key, multi, found, parent, rest)
    else if attr in db.refs && attr in db.components && forward then
      [Fresh(EVERYTHING, found, multi, Some(key), PushRec(RecOf(parent), key, eid)), parent] + rest
    else
      [WithKvps(parent, parent.kvps[key := PlainValue(db, attr, forward, found)])] + rest
  }

  function RecOf(f: Frame): Rec
    requires !f.DoneF?
  {
    f.rec
  }

  function RecurseAttr(key: Key, multi: bool, eids: seq<int>, parent: Frame, rest: Stack): Stack
    requires !parent.DoneF?
  {
    if LimitHit(parent.pat, key, parent.rec) then [parent] + rest
    else PullRecursion(RecursionF(parent.pat, key, multi, eids, parent.rec, [], map[]), [parent] + rest)
  }

  function RecursionResult(f: Frame): map<Key, Val>
    requires f.RecursionF?
  {
    if RecursionKey in f.kvps && f.kvps[RecursionKey].MapVal? then f.kvps[RecursionKey].kvs else map[]
  }

  /** `pull-recursion-frame`. */
  function PullRecursion(f: Frame, rest: Stack): Stack
    requires f.RecursionF?
  {
    var results := Collect(f.results, RecursionResult(f));
    if f.eids == [] then [DoneF(results, f.multi, Some(f.attr))] + rest
    else
      var eid := f.eids[0];
      if eid in f.rec.seen then
        [RecursionF(f.pat, f.attr, f.multi, f.eids[1..], f.rec, results + [IdMap(eid)], map[])] + rest
      else
        [Fresh(f.pat, [eid], false, Some(RecursionKey), PushRec(f.rec, f.attr, eid)),
         RecursionF(f.pat, f.attr, f.multi, f.eids[1..], f.rec, results, map[])] + rest
  }

  /** `pull-attr`. */
  function PullAttr(db: Db, spec: Spec, eid: int, parent: Frame, rest: Stack): Stack
    requires !parent.DoneF?
  {
    if spec.key == DbId then
      [if HasFacts(db.facts, eid) then WithKvps(parent, parent.kvps[DbId := Scalar(eid)]) else parent] + rest
    else
      var attr := spec.opts.attr;
      var forward := spec.key == attr;
      var datoms := if forward then Forward(db.facts, eid, attr) else Reverse(db.facts, attr, eid);
      PullAttrDatoms(db, spec.key, attr, eid, forward, datoms, spec.opts, parent, rest)
  }

  /** `expand-result`: a finished expansion goes into the frame below. */
  function ExpandResult(kvps: map<Key, Val>, rest: Stack): Stack {
    if rest == [] || rest[0].DoneF? then rest
    else [WithKvps(rest[0], rest[0].kvps + kvps)] + rest[1..]
  }

  /** `pull-expand-frame`. */
  function PullExpand(db: Db, f: Frame, rest: Stack): Stack
    requires f.ExpandF?
  {
    if f.groups != [] then
      var (attr, datoms) := f.groups[0];
      PullAttrDatoms(db, attr, attr, f.eid, true, datoms, OptsFor(f.pat, attr),
                     ExpandF(f.pat, f.eid, f.groups[1..], f.kvps, f.rec), rest)
    else
      var rattrs := Reversed(f.pat.attrs);
      if rattrs == [] then ExpandResult(f.kvps, rest)
      else [Fresh(Pattern(false, rattrs), [f.eid], false, Some(ExpandRevKey), NO_REC),
            ExpandRevF(f.pat, f.eid, map[], f.kvps, f.rec)] + rest
  }

  /** `pull-wildcard` for an entity not seen before. */
  function Expansion(db: Db, f: Frame, eid: int): Frame
    requires f.PatternF?
  {
    ExpandF(f.pat, eid, Groups(db, eid), map[DbId := Scalar(eid)],
            if f.key.Some? then PushRec(f.rec, f.key.value, eid) else f.rec)
  }

  /** `reset-frame`: the frame at its next entity. */
  function Advance(f: Frame, results: seq<Val>): Frame
    requires f.PatternF? && f.eids != []
  {
    PatternF(f.pat, f.pat.wildcard, f.pat.attrs, results, map[], f.eids[1..], f.multi, f.key, f.rec)
  }

  /** The frame within an entity. */
  function Midway(f: Frame, specs: seq<Spec>, results: seq<Val>, kvps: map<Key, Val>): Frame
    requires f.PatternF?
  {
    PatternF(f.pat, false, specs, results, kvps, f.eids, f.multi, f.key, f.rec)
  }

  /** `pull-pattern-frame`. */
  function PullPatternFrame(db: Db, f: Frame, rest: Stack): Stack
    requires f.PatternF?
  {
    if f.eids == [] then [DoneF(f.results, f.multi, f.key)] + rest
    else if f.wild then
      if f.eids[0] in f.rec.seen then [Midway(f, [], f.results + [IdMap(f.eids[0])], f.kvps)] + rest
      else PullExpand(db, Expansion(db, f, f.eids[0]), [Midway(f, [], f.results, f.kvps)] + rest)
    else if f.specs != [] then PullAttr(db, f.specs[0], f.eids[0], Midway(f, f.specs[1..], f.results, f.kvps), rest)
    else [Advance(f, Collect(f.results, f.kvps))] + rest
  }

  function PullExpandRev(f: Frame, rest: Stack): Stack
    requires f.ExpandRevF?
  {
    var more := if ExpandRevKey in f.kvps && f.kvps[ExpandRevKey].MapVal? then f.kvps[ExpandRevKey].kvs else map[];
    ExpandResult(f.expanded + more, rest)
  }

  function PullDone(f: Frame, rest: Stack): Stack
    requires f.DoneF?
  {
    if rest == [] || rest[0].DoneF? then rest
    else match ResultOf(f.results, f.multi)
      case None => rest
      case Some(v) =>
        (if f.key.Some? then [WithKvps(rest[0], rest[0].kvps[f.key.value := v])] else [rest[0]]) + rest[1..]
  }

  predicate Final(s: Stack) {
    |s| == 0 || (|s| == 1 && s[0].DoneF?)
  }

  /** One turn of `pull-pattern`. */
  function Step(db: Db, s: Stack): Stack {
    if Final(s) then s
    else match s[0]
      case PatternF(_, _, _, _, _, _, _, _, _) => PullPatternFrame(db, s[0], s[1..])
      case RecursionF(_, _, _, _, _, _, _) => PullRecursion(s[0], s[1..])
      case ExpandF(_, _, _, _, _) => PullExpand(db, s[0], s[1..])
      case ExpandRevF(_, _, _, _, _) => PullExpandRev(s[0], s[1..])
      case DoneF(_, _, _) => PullDone(s[0], s[1..])
  }

  function Run(db: Db, s: Stack, n: nat): Stack
    decreases n
  {
    if n == 0 then s else Run(db, Step(db, s), n - 1)
  }
}
