/** Relation algebra of the query engine: relations whose tuples are arrays
    addressed through a column map, and their hash join. */
module Relations {
  import opened Sequences

  /** Query variables: as written, renamed for one rule expansion, or standing
      for a constant argument of a rule call. */
  datatype Var = Named(name: string) | Renamed(base: Var, seqid: nat) | Auto(pos: nat)

  datatype Value = Nil | Bool(b: bool) | Int(n: int) | Str(s: string) | Kw(k: string)

  /** A column is an array position or, for JavaScript objects, a field name. */
  datatype Col = At(i: nat) | Field(f: string)

  datatype Tuple = Arr(vals: seq<Value>) | Obj(fields: map<string, Value>)

  type Asg = map<Var, Value>

  /** `keys` is the iteration order of the column map `attrs`. */
  datatype Rel = Rel(keys: seq<Var>, attrs: map<Var, Col>, tuples: seq<Tuple>)

  /** Lookup in a tuple; a missing position or field reads as nil. */
  function Get(t: Tuple, c: Col): Value {
    match t
    case Arr(vals) => if c.At? && c.i < |vals| then vals[c.i] else Nil
    case Obj(fields) => if c.Field? && c.f in fields then fields[c.f] else Nil
  }

  // ------------------------------------------------------------- denotation

  /** The tuple gives every variable of `attrs` the value it has in `a`. */
  ghost predicate Meets(attrs: map<Var, Col>, t: Tuple, a: Asg) {
    forall v :: v in attrs ==> v in a && a[v] == Get(t, attrs[v])
  }

  /** `a`, cut down to the relation's variables, is one of its assignments. */
  ghost predicate Holds(r: Rel, a: Asg) {
    exists t :: t in r.tuples && Meets(r.attrs, t, a)
  }

  /** How often `a` occurs in a relation, read as a bag of assignments. */
  ghost function Mult(attrs: map<Var, Col>, ts: seq<Tuple>, a: Asg): nat {
    if ts == [] then 0 else
      Mult(attrs, ts[..|ts| - 1], a) + (if Meets(attrs, ts[|ts| - 1], a) then 1 else 0)
  }

  lemma {:induction false} MultConcat(attrs: map<Var, Col>, s: seq<Tuple>, t: seq<Tuple>, a: Asg)
    ensures Mult(attrs, s + t, a) == Mult(attrs, s, a) + Mult(attrs, t, a)
  {
    if t == [] {
      assert s + t == s;
    } else {
      assert (s + t)[..|s + t| - 1] == s + t[..|t| - 1];
      MultConcat(attrs, s, t[..|t| - 1], a);
    }
  }

  lemma {:induction false} MultPositive(attrs: map<Var, Col>, s: seq<Tuple>, a: Asg)
    ensures Mult(attrs, s, a) > 0 <==> exists t :: t in s && Meets(attrs, t, a)
  {
    if s != [] {
      MultPositive(attrs, s[..|s| - 1], a);
      assert forall t :: t in s <==> t in s[..|s| - 1] || t == s[|s| - 1];
    }
  }

  lemma {:induction false} HoldsMult(r: Rel, a: Asg)
    ensures Holds(r, a) <==> Mult(r.attrs, r.tuples, a) > 0
  {
    MultPositive(r.attrs, r.tuples, a);
  }

  ghost predicate Valid(r: Rel) {
    NoDups(r.keys) && Elems(r.keys) == r.attrs.Keys
  }

  // --------------------------------------------------------------- column maps

  /** The elements of `s` that are not columns of `m`, in order. */
  function Without(s: seq<Var>, m: map<Var, Col>): (r: seq<Var>)
    ensures Elems(r) == Elems(s) - m.Keys
    ensures NoDups(s) ==> NoDups(r)
  {
    if s == [] then [] else
      var r := Without(s[..|s| - 1], m);
      if s[|s| - 1] in m then r else r + [s[|s| - 1]]
  }

  /** The elements of `s` that are columns of `m`, in order. */
  function Within(s: seq<Var>, m: map<Var, Col>): (r: seq<Var>)
    ensures Elems(r) == Elems(s) * m.Keys
  {
    if s == [] then [] else
      var r := Within(s[..|s| - 1], m);
      if s[|s| - 1] in m then r + [s[|s| - 1]] else r
  }

  /** `(zipmap ks (range))`: each key maps to its position, the last one winning. */
  function ZipRange(ks: seq<Var>): (m: map<Var, Col>)
    ensures m.Keys == Elems(ks)
  {
    if ks == [] then map[] else ZipRange(ks[..|ks| - 1])[ks[|ks| - 1] := At(|ks| - 1)]
  }

  lemma {:induction false} ZipRangeAt(ks: seq<Var>, i: nat)
    requires NoDups(ks) && i < |ks|
    ensures ks[i] in ZipRange(ks) && ZipRange(ks)[ks[i]] == At(i)
  {
    ElemsAt(ks, i);
    if i < |ks| - 1 {
      NoDupsAt(ks, i, |ks| - 1);
      ZipRangeAt(ks[..|ks| - 1], i);
    }
  }

  lemma {:induction false} ZipRangeInjective(ks: seq<Var>, u: Var, v: Var)
    requires u in Elems(ks) && v in Elems(ks) && ZipRange(ks)[u] == ZipRange(ks)[v]
    ensures u == v
  {
    var last := ks[|ks| - 1];
    if u != last && v != last {
      ZipRangeInjective(ks[..|ks| - 1], u, v);
    } else if u != last {
      ZipRangeBound(ks[..|ks| - 1], u);
    } else if v != last {
      ZipRangeBound(ks[..|ks| - 1], v);
    }
  }

  lemma {:induction false} ZipRangeBound(ks: seq<Var>, u: Var)
    requires u in Elems(ks)
    ensures ZipRange(ks)[u].At? && ZipRange(ks)[u].i < |ks|
  {
    if u != ks[|ks| - 1] { ZipRangeBound(ks[..|ks| - 1], u); }
  }

  /** The columns of the given variables. */
  function Idxs(vs: seq<Var>, attrs: map<Var, Col>): (r: seq<Col>)
    requires Elems(vs) <= attrs.Keys
    ensures |r| == |vs|
  {
    if vs == [] then [] else Idxs(vs[..|vs| - 1], attrs) + [attrs[vs[|vs| - 1]]]
  }

  function Select(t: Tuple, idxs: seq<Col>): (r: seq<Value>)
    ensures |r| == |idxs|
  {
    if idxs == [] then [] else Select(t, idxs[..|idxs| - 1]) + [Get(t, idxs[|idxs| - 1])]
  }

  lemma {:induction false} SelectAt(t: Tuple, vs: seq<Var>, attrs: map<Var, Col>, i: nat)
    requires Elems(vs) <= attrs.Keys
    requires i < |vs|
    ensures vs[i] in attrs && Select(t, Idxs(vs, attrs))[i] == Get(t, attrs[vs[i]])
  {
    ElemsAt(vs, i);
    var idxs := Idxs(vs, attrs);
    assert idxs[..|idxs| - 1] == Idxs(vs[..|vs| - 1], attrs);
    if i < |vs| - 1 { SelectAt(t, vs[..|vs| - 1], attrs, i); }
  }

  /** Result of `join-tuples`: the selected columns of `t1`, then those of `t2`. */
  function Joined(t1: Tuple, idxs1: seq<Col>, t2: Tuple, idxs2: seq<Col>): Tuple {
    Arr(Select(t1, idxs1) + Select(t2, idxs2))
  }

  lemma {:induction false} JoinedAt(ks1: seq<Var>, attrs1: map<Var, Col>, ks2: seq<Var>, attrs2: map<Var, Col>,
                 t1: Tuple, t2: Tuple, v: Var)
    requires NoDups(ks1 + ks2) && v in Elems(ks1) + Elems(ks2)
    requires Elems(ks1) <= attrs1.Keys && Elems(ks2) <= attrs2.Keys
    ensures v in ZipRange(ks1 + ks2)
    ensures Get(Joined(t1, Idxs(ks1, attrs1), t2, Idxs(ks2, attrs2)), ZipRange(ks1 + ks2)[v])
         == if v in Elems(ks1) then Get(t1, attrs1[v]) else Get(t2, attrs2[v])
  {
    if v in Elems(ks1) {
      var j := IndexOf(ks1, v);
      ZipRangeAt(ks1 + ks2, j);
      SelectAt(t1, ks1, attrs1, j);
    } else {
      var j := IndexOf(ks2, v);
      ZipRangeAt(ks1 + ks2, |ks1| + j);
      SelectAt(t2, ks2, attrs2, j);
    }
  }

  method JoinTuples(t1: Tuple, idxs1: array<Col>, t2: Tuple, idxs2: array<Col>) returns (res: array<Value>)
    ensures fresh(res)
    ensures Arr(res[..]) == Joined(t1, idxs1[..], t2, idxs2[..])
  {
    var l1, l2 := idxs1.Length, idxs2.Length;
    res := new Value[l1 + l2];
    for i := 0 to l1
      invariant res[..i] == Select(t1, idxs1[..i])
    {
      ghost var done := res[..i];
      res[i] := Get(t1, idxs1[i]);
      assert res[..i] == done && res[..i + 1] == done + [Get(t1, idxs1[i])];
      assert idxs1[..i + 1][..i] == idxs1[..i];
    }
    assert idxs1[..l1] == idxs1[..];
    for i := 0 to l2
      invariant res[..l1] == Select(t1, idxs1[..])
      invariant res[l1..l1 + i] == Select(t2, idxs2[..i])
    {
      ghost var left, done := res[..l1], res[l1..l1 + i];
      res[l1 + i] := Get(t2, idxs2[i]);
      assert res[..l1] == left && res[l1..l1 + i] == done && res[l1..l1 + i + 1] == done + [Get(t2, idxs2[i])];
      assert idxs2[..i + 1][..i] == idxs2[..i];
    }
    assert idxs2[..l2] == idxs2[..];
    assert res[..] == res[..l1] + res[l1..l1 + l2];
  }

  // ---------------------------------------------------------------- hash-join

  function Key(attrs: map<Var, Col>, common: seq<Var>, t: Tuple): (k: seq<Value>)
    requires Elems(common) <= attrs.Keys
    ensures |k| == |common|
  {
    if common == [] then [] else Key(attrs, common[..|common| - 1], t) + [Get(t, attrs[common[|common| - 1]])]
  }

  /** Both tuples give the variables of `common` the same values. */
  ghost predicate Agree(common: seq<Var>, a1: map<Var, Col>, t1: Tuple, a2: map<Var, Col>, t2: Tuple)
    requires Elems(common) <= a1.Keys && Elems(common) <= a2.Keys
  {
    forall v :: v in Elems(common) ==> Get(t1, a1[v]) == Get(t2, a2[v])
  }

  lemma {:induction false} KeyAgree(common: seq<Var>, a1: map<Var, Col>, t1: Tuple, a2: map<Var, Col>, t2: Tuple)
    requires Elems(common) <= a1.Keys && Elems(common) <= a2.Keys
    ensures Key(a1, common, t1) == Key(a2, common, t2) <==> Agree(common, a1, t1, a2, t2)
  {
    if common != [] {
      var p, v := common[..|common| - 1], common[|common| - 1];
      KeyAgree(p, a1, t1, a2, t2);
      SnocEqual(Key(a1, p, t1), Get(t1, a1[v]), Key(a2, p, t2), Get(t2, a2[v]));
    }
  }

  lemma {:induction false} SnocEqual<T>(s: seq<T>, x: T, t: seq<T>, y: T)
    requires |s| == |t|
    ensures s + [x] == t + [y] <==> s == t && x == y
  {
    if s + [x] == t + [y] {
      assert (s + [x])[..|s|] == (t + [y])[..|t|];
      assert (s + [x])[|s|] == (t + [y])[|t|];
    }
  }

  ghost predicate KeysCovered(r: Rel) {
    Elems(r.keys) <= r.attrs.Keys
  }

  function Common(r1: Rel, r2: Rel): seq<Var> {
    Within(r1.keys, r2.attrs)
  }

  /** Columns of the inner relation; `swap` says that the second relation is the outer one. */
  function InnerAttrs(r1: Rel, r2: Rel, swap: bool): map<Var, Col> {
    if swap then r1.attrs else r2.attrs
  }

  predicate Matches(r1: Rel, r2: Rel, swap: bool, o: Tuple, i: Tuple)
    requires KeysCovered(r1)
  {
    Key(InnerAttrs(r1, r2, swap), Common(r1, r2), i) == Key(InnerAttrs(r1, r2, !swap), Common(r1, r2), o)
  }

  /** How the join merges an outer and an inner tuple. */
  function Pair(r1: Rel, r2: Rel, swap: bool, o: Tuple, i: Tuple): Tuple
    requires KeysCovered(r1) && KeysCovered(r2)
  {
    var (t1, t2) := if swap then (i, o) else (o, i);
    Joined(t1, Idxs(r1.keys, r1.attrs), t2, Idxs(Without(r2.keys, r1.attrs), r2.attrs))
  }

  /** The tuples with key `k`, last one first: the order a list built with `conj` has. */
  function Bucket(attrs: map<Var, Col>, common: seq<Var>, ts: seq<Tuple>, k: seq<Value>): seq<Tuple>
    requires Elems(common) <= attrs.Keys
  {
    if ts == [] then [] else
      var t := ts[|ts| - 1];
      (if Key(attrs, common, t) == k then [t] else []) + Bucket(attrs, common, ts[..|ts| - 1], k)
  }

  /** The inner tuples that match `o`. */
  function Partners(r1: Rel, r2: Rel, swap: bool, o: Tuple, inner: seq<Tuple>): seq<Tuple>
    requires KeysCovered(r1)
  {
    Bucket(InnerAttrs(r1, r2, swap), Common(r1, r2), inner, Key(InnerAttrs(r1, r2, !swap), Common(r1, r2), o))
  }

  function Pairs(r1: Rel, r2: Rel, swap: bool, o: Tuple, bucket: seq<Tuple>): seq<Tuple>
    requires KeysCovered(r1) && KeysCovered(r2)
  {
    if bucket == [] then [] else
      Pairs(r1, r2, swap, o, bucket[..|bucket| - 1]) + [Pair(r1, r2, swap, o, bucket[|bucket| - 1])]
  }

  function JoinLoop(r1: Rel, r2: Rel, swap: bool, outer: seq<Tuple>, inner: seq<Tuple>): seq<Tuple>
    requires KeysCovered(r1) && KeysCovered(r2)
  {
    if outer == [] then [] else
      var o := outer[|outer| - 1];
      JoinLoop(r1, r2, swap, outer[..|outer| - 1], inner) + Pairs(r1, r2, swap, o, Partners(r1, r2, swap, o, inner))
  }

  function JoinKeys(r1: Rel, r2: Rel): seq<Var> {
    r1.keys + Without(r2.keys, r1.attrs)
  }

  function JoinAttrs(r1: Rel, r2: Rel): map<Var, Col> {
    ZipRange(JoinKeys(r1, r2))
  }

  /** The join as a nested loop, in the order in which `hash-join` emits tuples:
      the smaller side is hashed, and each bucket is walked last entry first. */
  function JoinRel(r1: Rel, r2: Rel): Rel
    requires KeysCovered(r1) && KeysCovered(r2)
  {
    var swap := |r1.tuples| < |r2.tuples|;
    Rel(JoinKeys(r1, r2), JoinAttrs(r1, r2),
        JoinLoop(r1, r2, swap, if swap then r2.tuples else r1.tuples, if swap then r1.tuples else r2.tuples))
  }

  lemma {:induction false} JoinValid(r1: Rel, r2: Rel)
    requires Valid(r1) && Valid(r2)
    ensures Valid(JoinRel(r1, r2))
    ensures NoDups(JoinKeys(r1, r2))
    ensures JoinAttrs(r1, r2).Keys == r1.attrs.Keys + r2.attrs.Keys
  {
    var keep2 := Without(r2.keys, r1.attrs);
    NoDupsAppend(r1.keys, keep2);
    ElemsConcat(r1.keys, keep2);
  }

  /** A merged tuple meets `a` exactly if the tuples match and both meet `a`. */
  lemma {:induction false} PairHit(r1: Rel, r2: Rel, swap: bool, o: Tuple, i: Tuple, a: Asg)
    requires Valid(r1) && Valid(r2)
    ensures Meets(r1.attrs, if swap then i else o, a) && Meets(r2.attrs, if swap then o else i, a)
       <==> Matches(r1, r2, swap, o, i) && Meets(JoinAttrs(r1, r2), Pair(r1, r2, swap, o, i), a)
  {
    var (t1, t2) := if swap then (i, o) else (o, i);
    var common, keep2 := Within(r1.keys, r2.attrs), Without(r2.keys, r1.attrs);
    JoinValid(r1, r2);
    KeyAgree(common, r1.attrs, t1, r2.attrs, t2);
    forall v | v in r1.attrs.Keys + r2.attrs.Keys
      ensures Get(Pair(r1, r2, swap, o, i), JoinAttrs(r1, r2)[v])
           == if v in r1.attrs then Get(t1, r1.attrs[v]) else Get(t2, r2.attrs[v])
    {
      JoinedAt(r1.keys, r1.attrs, keep2, r2.attrs, t1, t2, v);
    }
    JoinedMeets(r1, r2, t1, t2, JoinAttrs(r1, r2), Pair(r1, r2, swap, o, i), a);
  }

  lemma {:induction false} JoinedMeets(r1: Rel, r2: Rel, t1: Tuple, t2: Tuple, out: map<Var, Col>, j: Tuple, a: Asg)
    requires out.Keys == r1.attrs.Keys + r2.attrs.Keys
    requires forall v :: v in out ==>
        Get(j, out[v]) == if v in r1.attrs then Get(t1, r1.attrs[v]) else Get(t2, r2.attrs[v])
    ensures Meets(r1.attrs, t1, a) && Meets(r2.attrs, t2, a)
       <==> (forall v :: v in r1.attrs && v in r2.attrs ==>
         Get(t1, r1.attrs[v]) == Get(t2, r2.attrs[v])) && Meets(out, j, a)
  {
    if Meets(out, j, a) {
      assert forall v :: v in r1.attrs ==> v in out;
      assert forall v :: v in r2.attrs ==> v in out;
    }
  }

  lemma {:induction false} BucketMult(r1: Rel, r2: Rel, swap: bool, o: Tuple, inner: seq<Tuple>, a: Asg)
    requires Valid(r1) && Valid(r2)
    ensures Mult(JoinAttrs(r1, r2), Pairs(r1, r2, swap, o, Partners(r1, r2, swap, o, inner)), a)
         == if Meets(InnerAttrs(r1, r2, !swap), o, a) then Mult(InnerAttrs(r1, r2, swap), inner, a) else 0
  {
    if inner != [] {
      var i, init := inner[|inner| - 1], inner[..|inner| - 1];
      BucketMult(r1, r2, swap, o, init, a);
      PairHit(r1, r2, swap, o, i, a);
      var rest := Partners(r1, r2, swap, o, init);
      PairsCons(r1, r2, swap, o, i, rest);
      MultCons(JoinAttrs(r1, r2), Pair(r1, r2, swap, o, i), Pairs(r1, r2, swap, o, rest), a);
      PartnersSnoc(r1, r2, swap, o, inner);
    }
  }

  lemma {:induction false} PartnersSnoc(r1: Rel, r2: Rel, swap: bool, o: Tuple, inner: seq<Tuple>)
    requires KeysCovered(r1) && inner != []
    ensures var rest := Partners(r1, r2, swap, o, inner[..|inner| - 1]);
            Partners(r1, r2, swap, o, inner)
            == if Matches(r1, r2, swap, o, inner[|inner| - 1]) then [inner[|inner| - 1]] + rest else rest
  {}

  lemma {:induction false} PairsCons(r1: Rel, r2: Rel, swap: bool, o: Tuple, i: Tuple, rest: seq<Tuple>)
    requires KeysCovered(r1) && KeysCovered(r2)
    ensures Pairs(r1, r2, swap, o, [i] + rest) == [Pair(r1, r2, swap, o, i)] + Pairs(r1, r2, swap, o, rest)
  {
    var b := [i] + rest;
    if rest == [] {
      assert b[..|b| - 1] == [];
    } else {
      assert b[..|b| - 1] == [i] + rest[..|rest| - 1];
      PairsCons(r1, r2, swap, o, i, rest[..|rest| - 1]);
    }
  }

  lemma {:induction false} MultCons(attrs: map<Var, Col>, t: Tuple, ts: seq<Tuple>, a: Asg)
    ensures Mult(attrs, [t] + ts, a) == (if Meets(attrs, t, a) then 1 else 0) + Mult(attrs, ts, a)
  {
    MultConcat(attrs, [t], ts, a);
    assert [t][..0] == [];
  }

  lemma {:induction false} LoopMult(r1: Rel, r2: Rel, swap: bool, outer: seq<Tuple>, inner: seq<Tuple>, a: Asg)
    requires Valid(r1) && Valid(r2)
    ensures Mult(JoinAttrs(r1, r2), JoinLoop(r1, r2, swap, outer, inner), a)
         == Mult(InnerAttrs(r1, r2, !swap), outer, a) * Mult(InnerAttrs(r1, r2, swap), inner, a)
  {
    if outer != [] {
      var o, init := outer[|outer| - 1], outer[..|outer| - 1];
      LoopMult(r1, r2, swap, init, inner, a);
      BucketMult(r1, r2, swap, o, inner, a);
      MultConcat(JoinAttrs(r1, r2), JoinLoop(r1, r2, swap, init, inner),
                 Pairs(r1, r2, swap, o, Partners(r1, r2, swap, o, inner)), a);
      var n, m := Mult(InnerAttrs(r1, r2, !swap), init, a), Mult(InnerAttrs(r1, r2, swap), inner, a);
      assert Mult(InnerAttrs(r1, r2, !swap), outer, a) == if Meets(InnerAttrs(r1, r2, !swap), o, a) then n + 1 else n;
      Distribute(n, m);
    }
  }

  lemma {:induction false} Distribute(n: nat, m: nat)
    ensures (n + 1) * m == n * m + m
    ensures n * m > 0 <==> n > 0 && m > 0
    ensures n * m == m * n
  {}

  /** `hash-join` is the natural join of bags, whichever side is hashed: every
      assignment occurs as often in the join as in the two sides multiplied. */
  lemma {:induction false} JoinMult(r1: Rel, r2: Rel, a: Asg)
    requires Valid(r1) && Valid(r2)
    ensures Mult(JoinAttrs(r1, r2), JoinRel(r1, r2).tuples, a)
         == Mult(r1.attrs, r1.tuples, a) * Mult(r2.attrs, r2.tuples, a)
  {
    var swap := |r1.tuples| < |r2.tuples|;
    LoopMult(r1, r2, swap, if swap then r2.tuples else r1.tuples, if swap then r1.tuples else r2.tuples, a);
    Distribute(Mult(r1.attrs, r1.tuples, a), Mult(r2.attrs, r2.tuples, a));
  }

  /** An assignment is in the join exactly if it is in both sides. */
  lemma {:induction false} JoinHolds(r1: Rel, r2: Rel, a: Asg)
    requires Valid(r1) && Valid(r2)
    ensures Holds(JoinRel(r1, r2), a) <==> Holds(r1, a) && Holds(r2, a)
  {
    HoldsMult(r1, a);
    HoldsMult(r2, a);
    HoldsMult(JoinRel(r1, r2), a);
    JoinMult(r1, r2, a);
    Distribute(Mult(r1.attrs, r1.tuples, a), Mult(r2.attrs, r2.tuples, a));
  }

  /** `group-by` with lists: the tuples of each key, last one first. */
  method HashAttrs(attrs: map<Var, Col>, common: seq<Var>, tuples: seq<Tuple>) returns (h: map<seq<Value>, seq<Tuple>>)
    requires Elems(common) <= attrs.Keys
    ensures forall k :: k in h ==> h[k] == Bucket(attrs, common, tuples, k)
    ensures forall k :: k !in h ==> Bucket(attrs, common, tuples, k) == []
  {
    h := map[];
    for i := 0 to |tuples|
      invariant forall k :: k in h ==> h[k] == Bucket(attrs, common, tuples[..i], k)
      invariant forall k :: k !in h ==> Bucket(attrs, common, tuples[..i], k) == []
    {
      var k := Key(attrs, common, tuples[i]);
      h := h[k := [tuples[i]] + (if k in h then h[k] else [])];
      assert tuples[..i + 1][..i] == tuples[..i];
    }
    assert tuples[..|tuples|] == tuples;
  }

  /** Merges one outer tuple with every tuple of its bucket. */
  method JoinBucket(r1: Rel, r2: Rel, swap: bool, o: Tuple, bucket: seq<Tuple>, idxs1: array<Col>, idxs2: array<Col>)
    returns (acc: seq<Tuple>)
    requires KeysCovered(r1) && KeysCovered(r2)
    requires idxs1[..] == Idxs(r1.keys, r1.attrs) && idxs2[..] == Idxs(Without(r2.keys, r1.attrs), r2.attrs)
    ensures acc == Pairs(r1, r2, swap, o, bucket)
  {
    acc := [];
    for j := 0 to |bucket|
      invariant acc == Pairs(r1, r2, swap, o, bucket[..j])
    {
      var res := JoinTuples(if swap then bucket[j] else o, idxs1, if swap then o else bucket[j], idxs2);
      assert bucket[..j + 1][..j] == bucket[..j];
      acc := acc + [Arr(res[..])];
    }
    assert bucket[..|bucket|] == bucket;
  }

  /** Probes the hash with each outer tuple. */
  method Probe(r1: Rel, r2: Rel, swap: bool, outer: seq<Tuple>, ghost inner: seq<Tuple>,
               hash: map<seq<Value>, seq<Tuple>>, idxs1: array<Col>, idxs2: array<Col>)
    returns (acc: seq<Tuple>)
    requires KeysCovered(r1) && KeysCovered(r2)
    requires forall k :: k in hash ==> hash[k] == Bucket(InnerAttrs(r1, r2, swap), Common(r1, r2), inner, k)
    requires forall k :: k !in hash ==> Bucket(InnerAttrs(r1, r2, swap), Common(r1, r2), inner, k) == []
    requires idxs1[..] == Idxs(r1.keys, r1.attrs) && idxs2[..] == Idxs(Without(r2.keys, r1.attrs), r2.attrs)
    ensures acc == JoinLoop(r1, r2, swap, outer, inner)
  {
    acc := [];
    for i := 0 to |outer|
      invariant acc == JoinLoop(r1, r2, swap, outer[..i], inner)
    {
      var key := Key(InnerAttrs(r1, r2, !swap), Common(r1, r2), outer[i]);
      var joined := [];
      if key in hash { joined := JoinBucket(r1, r2, swap, outer[i], hash[key], idxs1, idxs2); }
      assert joined == Pairs(r1, r2, swap, outer[i], Partners(r1, r2, swap, outer[i], inner));
      assert outer[..i + 1][..i] == outer[..i];
      acc := acc + joined;
    }
    assert outer[..|outer|] == outer;
  }

  /** The hash join returns exactly the nested-loop join. */
  method HashJoin(r1: Rel, r2: Rel) returns (r: Rel)
    requires Valid(r1) && Valid(r2)
    ensures r == JoinRel(r1, r2)
  {
    var keep2 := Without(r2.keys, r1.attrs);
    var idxs1 := ToArray(Idxs(r1.keys, r1.attrs));
    var idxs2 := ToArray(Idxs(keep2, r2.attrs));
    var swap := |r1.tuples| < |r2.tuples|;
    var outer, inner := r1.tuples, r2.tuples;
    if swap { outer, inner := r2.tuples, r1.tuples; }
    var hash := HashAttrs(InnerAttrs(r1, r2, swap), Common(r1, r2), inner);
    var acc := Probe(r1, r2, swap, outer, inner, hash, idxs1, idxs2);
    r := Rel(r1.keys + keep2, ZipRange(r1.keys + keep2), acc);
  }

  method ToArray(s: seq<Col>) returns (a: array<Col>)
    ensures fresh(a) && a[..] == s
  {
    a := new Col[|s|](i requires 0 <= i < |s| => s[i]);
  }
}
