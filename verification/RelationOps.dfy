/** The other relation operations: union under two column layouts, product,
    difference, projection, and the collapsing of a context's relations. */
module RelationOps {
  import opened Options
  import opened Relations
  import opened Sequences

  // ------------------------------------------------------------------ sum-rel

  ghost predicate SameCol(attrs: map<Var, Col>, u: Var, v: Var) {
    u in attrs && v in attrs && attrs[u] == attrs[v]
  }

  ghost predicate Injective(attrs: map<Var, Col>) {
    forall u, v {:trigger SameCol(attrs, u, v)} :: SameCol(attrs, u, v) ==> u == v
  }

  /** Every column is an array position. */
  predicate Numeric(keys: seq<Var>, attrs: map<Var, Col>)
    requires Elems(keys) <= attrs.Keys
    ensures Numeric(keys, attrs) <==> forall v :: v in Elems(keys) ==> attrs[v].At?
  {
    keys == [] || (attrs[keys[|keys| - 1]].At? && Numeric(keys[..|keys| - 1], attrs))
  }

  /** Length of an array that has all columns of `keys`. */
  function Width(keys: seq<Var>, attrs: map<Var, Col>): (n: nat)
    requires Elems(keys) <= attrs.Keys && Numeric(keys, attrs)
    ensures forall v :: v in Elems(keys) ==> attrs[v].i < n
  {
    if keys == [] then 0 else
      var n := Width(keys[..|keys| - 1], attrs);
      var i := attrs[keys[|keys| - 1]].i;
      if i < n then n else i + 1
  }

  /** One array write for each variable, in the order of `keys`. */
  function Written(vals: seq<Value>, keys: seq<Var>, from: map<Var, Col>, to: map<Var, Col>, t: Tuple): (r: seq<Value>)
    requires Elems(keys) <= from.Keys && Elems(keys) <= to.Keys
    requires forall v :: v in Elems(keys) ==> to[v].At? && to[v].i < |vals|
    ensures |r| == |vals|
  {
    if keys == [] then vals else
      var v := keys[|keys| - 1];
      Written(vals, keys[..|keys| - 1], from, to, t)[to[v].i := Get(t, from[v])]
  }

  /** `t`, laid out for the columns `to`. */
  function Relaid(keys: seq<Var>, from: map<Var, Col>, toKeys: seq<Var>, to: map<Var, Col>, t: Tuple): Tuple
    requires Elems(keys) <= from.Keys && Elems(keys) <= Elems(toKeys) <= to.Keys && Numeric(toKeys, to)
  {
    Arr(Written(seq(Width(toKeys, to), _ => Nil), keys, from, to, t))
  }

  function RelaidAll(keys: seq<Var>, from: map<Var, Col>, toKeys: seq<Var>, to: map<Var, Col>,
                     ts: seq<Tuple>): seq<Tuple>
    requires Elems(keys) <= from.Keys && Elems(keys) <= Elems(toKeys) <= to.Keys && Numeric(toKeys, to)
  {
    if ts == [] then [] else
      RelaidAll(keys, from, toKeys, to, ts[..|ts| - 1]) + [Relaid(keys, from, toKeys, to, ts[|ts| - 1])]
  }

  /** The numeric branch: `b`'s tuples are laid out like `a`'s. */
  function SumNumeric(a: Rel, b: Rel): Rel
    requires Valid(a) && Valid(b) && a.attrs.Keys == b.attrs.Keys && Numeric(a.keys, a.attrs)
  {
    Rel(a.keys, a.attrs, a.tuples + RelaidAll(b.keys, b.attrs, a.keys, a.attrs, b.tuples))
  }

  /** `sum-rel`; None stands for the error about different variables. In the last
      branch both relations are re-laid into a fresh numeric layout. */
  function SumRel(a: Rel, b: Rel): (r: Option<Rel>)
    requires Valid(a) && Valid(b)
    ensures r.Some? <==> a.attrs.Keys == b.attrs.Keys
    ensures r.Some? ==> Valid(r.value) && r.value.keys == a.keys
    ensures r.Some? && Numeric(a.keys, a.attrs) ==> r.value.attrs == a.attrs
    decreases if Numeric(a.keys, a.attrs) then 0 else 1
  {
    if a.attrs == b.attrs then Some(Rel(a.keys, a.attrs, a.tuples + b.tuples))
    else if a.attrs.Keys != b.attrs.Keys then None
    else if Numeric(a.keys, a.attrs) then Some(SumNumeric(a, b))
    else
      ZipRangeNumeric(a.keys);
      SumRel(SumRel(Rel(a.keys, ZipRange(a.keys), []), a).value, b)
  }

  lemma {:induction false} ZipRangeNumeric(ks: seq<Var>)
    ensures Numeric(ks, ZipRange(ks))
  {
    forall v | v in Elems(ks) ensures ZipRange(ks)[v].At? {
      ZipRangeBound(ks, v);
    }
  }

  lemma {:induction false} ZipInjective(ks: seq<Var>)
    ensures Injective(ZipRange(ks))
  {
    forall u, v | SameCol(ZipRange(ks), u, v) ensures u == v {
      ZipRangeInjective(ks, u, v);
    }
  }

  /** Writing through distinct columns puts every value in its place. */
  lemma {:induction false} WrittenAt(vals: seq<Value>, keys: seq<Var>, from: map<Var, Col>, to: map<Var, Col>,
                                     t: Tuple, v: Var)
    requires Elems(keys) <= from.Keys && Elems(keys) <= to.Keys && Injective(to) && v in Elems(keys)
    requires forall u :: u in Elems(keys) ==> to[u].At? && to[u].i < |vals|
    ensures Written(vals, keys, from, to, t)[to[v].i] == Get(t, from[v])
  {
    if v != keys[|keys| - 1] {
      assert !SameCol(to, v, keys[|keys| - 1]);
      WrittenAt(vals, keys[..|keys| - 1], from, to, t, v);
    }
  }

  lemma {:induction false} RelaidMeets(b: Rel, toKeys: seq<Var>, to: map<Var, Col>, t: Tuple, a: Asg)
    requires Valid(b) && Elems(toKeys) == to.Keys == b.attrs.Keys && Numeric(toKeys, to) && Injective(to)
    ensures Meets(to, Relaid(b.keys, b.attrs, toKeys, to, t), a) <==> Meets(b.attrs, t, a)
  {
    forall v | v in to ensures Get(Relaid(b.keys, b.attrs, toKeys, to, t), to[v]) == Get(t, b.attrs[v]) {
      WrittenAt(seq(Width(toKeys, to), _ => Nil), b.keys, b.attrs, to, t, v);
    }
  }

  lemma {:induction false} RelaidMult(b: Rel, toKeys: seq<Var>, to: map<Var, Col>, ts: seq<Tuple>, a: Asg)
    requires Valid(b) && Elems(toKeys) == to.Keys == b.attrs.Keys && Numeric(toKeys, to) && Injective(to)
    ensures Mult(to, RelaidAll(b.keys, b.attrs, toKeys, to, ts), a) == Mult(b.attrs, ts, a)
  {
    if ts != [] {
      RelaidMult(b, toKeys, to, ts[..|ts| - 1], a);
      RelaidMeets(b, toKeys, to, ts[|ts| - 1], a);
    }
  }

  lemma {:induction false} SumNumericMult(a: Rel, b: Rel, asg: Asg)
    requires Valid(a) && Valid(b) && a.attrs.Keys == b.attrs.Keys && Numeric(a.keys, a.attrs) && Injective(a.attrs)
    ensures Mult(a.attrs, SumNumeric(a, b).tuples, asg) == Mult(a.attrs, a.tuples, asg) + Mult(b.attrs, b.tuples, asg)
  {
    RelaidMult(b, a.keys, a.attrs, b.tuples, asg);
    MultConcat(a.attrs, a.tuples, RelaidAll(b.keys, b.attrs, a.keys, a.attrs, b.tuples), asg);
  }

  /** `sum-rel` is the union of bags under any two column layouts. */
  lemma {:induction false} SumMult(a: Rel, b: Rel, asg: Asg)
    requires Valid(a) && Valid(b) && a.attrs.Keys == b.attrs.Keys && Injective(a.attrs)
    ensures var s := SumRel(a, b).value;
            Injective(s.attrs) && Mult(s.attrs, s.tuples, asg) == Mult(a.attrs, a.tuples, asg)
                + Mult(b.attrs, b.tuples, asg)
    decreases if Numeric(a.keys, a.attrs) then 0 else 1
  {
    if a.attrs == b.attrs {
      MultConcat(a.attrs, a.tuples, b.tuples, asg);
    } else if Numeric(a.keys, a.attrs) {
      SumNumericMult(a, b, asg);
    } else {
      var e := Rel(a.keys, ZipRange(a.keys), []);
      ZipRangeNumeric(a.keys);
      ZipInjective(a.keys);
      SumMult(e, a, asg);
      SumMult(SumRel(e, a).value, b, asg);
    }
  }

  lemma {:induction false} SumHolds(a: Rel, b: Rel, asg: Asg)
    requires Valid(a) && Valid(b) && a.attrs.Keys == b.attrs.Keys && Injective(a.attrs)
    ensures Injective(SumRel(a, b).value.attrs)
    ensures Holds(SumRel(a, b).value, asg) <==> Holds(a, asg) || Holds(b, asg)
  {
    SumMult(a, b, asg);
    HoldsMult(a, asg);
    HoldsMult(b, asg);
    HoldsMult(SumRel(a, b).value, asg);
  }

  /** The array loop of the numeric branch for one tuple. */
  method RelayTuple(keys: seq<Var>, from: map<Var, Col>, toKeys: seq<Var>, to: map<Var, Col>, t: Tuple)
    returns (res: array<Value>)
    requires Elems(keys) <= from.Keys && Elems(keys) <= Elems(toKeys) <= to.Keys && Numeric(toKeys, to)
    ensures fresh(res) && Arr(res[..]) == Relaid(keys, from, toKeys, to, t)
  {
    res := new Value[Width(toKeys, to)](_ => Nil);
    ghost var blank := seq(Width(toKeys, to), _ => Nil);
    assert res[..] == blank;
    for i := 0 to |keys|
      invariant Elems(keys[..i]) <= Elems(keys)
      invariant res[..] == Written(blank, keys[..i], from, to, t)
    {
      ElemsAt(keys, i);
      assert keys[..i + 1][..i] == keys[..i];
      res[to[keys[i]].i] := Get(t, from[keys[i]]);
    }
    assert keys[..|keys|] == keys;
  }

  // ----------------------------------------------------------------- prod-rel

  /** Every tuple of `inner` appended to `o`. */
  function ProdRow(r1: Rel, r2: Rel, o: Tuple, inner: seq<Tuple>): seq<Tuple>
    requires Valid(r1) && Valid(r2)
  {
    if inner == [] then [] else
      ProdRow(r1, r2, o, inner[..|inner| - 1])
      + [Joined(o, Idxs(r1.keys, r1.attrs), inner[|inner| - 1], Idxs(r2.keys, r2.attrs))]
  }

  function ProdLoop(r1: Rel, r2: Rel, outer: seq<Tuple>, inner: seq<Tuple>): seq<Tuple>
    requires Valid(r1) && Valid(r2)
  {
    if outer == [] then [] else
      ProdLoop(r1, r2, outer[..|outer| - 1], inner) + ProdRow(r1, r2, outer[|outer| - 1], inner)
  }

  function ProdAttrs(r1: Rel, r2: Rel): map<Var, Col> {
    ZipRange(r1.keys + r2.keys)
  }

  /** `prod-rel`: all columns of both relations; a variable of both is read from the second. */
  function ProdRel(r1: Rel, r2: Rel): (r: Rel)
    requires Valid(r1) && Valid(r2)
  {
    Rel(JoinKeys(r1, r2), ProdAttrs(r1, r2), ProdLoop(r1, r2, r1.tuples, r2.tuples))
  }

  const PROD_UNIT: Rel := Rel([], map[], [Arr([])])

  lemma {:induction false} ProdValid(r1: Rel, r2: Rel)
    requires Valid(r1) && Valid(r2)
    ensures Valid(ProdRel(r1, r2)) && Injective(ProdAttrs(r1, r2))
    ensures ProdAttrs(r1, r2).Keys == r1.attrs.Keys + r2.attrs.Keys
  {
    JoinValid(r1, r2);
    ElemsConcat(r1.keys, r2.keys);
    ElemsConcat(r1.keys, Without(r2.keys, r1.attrs));
    ZipInjective(r1.keys + r2.keys);
  }

  lemma {:induction false} ZipRangeAppend(s: seq<Var>, t: seq<Var>, v: Var)
    requires v in Elems(s) && v !in Elems(t)
    ensures v in ZipRange(s + t) && ZipRange(s + t)[v] == ZipRange(s)[v]
  {
    if t == [] {
      assert s + t == s;
    } else {
      assert (s + t)[..|s + t| - 1] == s + t[..|t| - 1];
      ZipRangeAppend(s, t[..|t| - 1], v);
    }
  }

  lemma {:induction false} ZipRangeSecond(s: seq<Var>, t: seq<Var>, j: nat)
    requires NoDups(t) && j < |t|
    ensures t[j] in ZipRange(s + t) && ZipRange(s + t)[t[j]] == At(|s| + j)
  {
    assert (s + t)[..|s + t| - 1] == s + t[..|t| - 1];
    if j < |t| - 1 {
      NoDupsAt(t, j, |t| - 1);
      ZipRangeSecond(s, t[..|t| - 1], j);
    }
  }

  lemma {:induction false} ProdAt(r1: Rel, r2: Rel, t1: Tuple, t2: Tuple, v: Var)
    requires Valid(r1) && Valid(r2) && v in r1.attrs.Keys + r2.attrs.Keys
    ensures v in ProdAttrs(r1, r2)
    ensures Get(Joined(t1, Idxs(r1.keys, r1.attrs), t2, Idxs(r2.keys, r2.attrs)), ProdAttrs(r1, r2)[v])
         == if v in r2.attrs then Get(t2, r2.attrs[v]) else Get(t1, r1.attrs[v])
  {
    if v in r2.attrs {
      var j := IndexOf(r2.keys, v);
      ZipRangeSecond(r1.keys, r2.keys, j);
      SelectAt(t2, r2.keys, r2.attrs, j);
    } else {
      var j := IndexOf(r1.keys, v);
      ZipRangeAppend(r1.keys, r2.keys, v);
      ZipRangeAt(r1.keys, j);
      SelectAt(t1, r1.keys, r1.attrs, j);
    }
  }

  lemma {:induction false} ProdMeets(r1: Rel, r2: Rel, t1: Tuple, t2: Tuple, a: Asg)
    requires Valid(r1) && Valid(r2)
    ensures Meets(ProdAttrs(r1, r2), Joined(t1, Idxs(r1.keys, r1.attrs), t2, Idxs(r2.keys, r2.attrs)), a)
       <==> Meets(r1.attrs - r2.attrs.Keys, t1, a) && Meets(r2.attrs, t2, a)
  {
    var j, out := Joined(t1, Idxs(r1.keys, r1.attrs), t2, Idxs(r2.keys, r2.attrs)), ProdAttrs(r1, r2);
    ProdValid(r1, r2);
    forall v | v in out
      ensures Get(j, out[v]) == if v in r2.attrs then Get(t2, r2.attrs[v]) else Get(t1, r1.attrs[v])
    {
      ProdAt(r1, r2, t1, t2, v);
    }
    OverriddenMeets(r1.attrs, r2.attrs, t1, t2, out, j, a);
  }

  lemma {:induction false} OverriddenMeets(a1: map<Var, Col>, a2: map<Var, Col>, t1: Tuple, t2: Tuple,
                                           out: map<Var, Col>, j: Tuple, a: Asg)
    requires out.Keys == a1.Keys + a2.Keys
    requires forall v :: v in out ==> Get(j, out[v]) == if v in a2 then Get(t2, a2[v]) else Get(t1, a1[v])
    ensures Meets(out, j, a) <==> Meets(a1 - a2.Keys, t1, a) && Meets(a2, t2, a)
  {
    if Meets(out, j, a) {
      assert forall v :: v in a1 - a2.Keys ==> v in out;
      assert forall v :: v in a2 ==> v in out;
    }
    if Meets(a1 - a2.Keys, t1, a) && Meets(a2, t2, a) {
      forall v | v in out ensures v in a && a[v] == Get(j, out[v]) {
        if v !in a2 { assert v in a1 - a2.Keys; }
      }
    }
  }

  lemma {:induction false} ProdRowMult(r1: Rel, r2: Rel, o: Tuple, inner: seq<Tuple>, a: Asg)
    requires Valid(r1) && Valid(r2)
    ensures Mult(ProdAttrs(r1, r2), ProdRow(r1, r2, o, inner), a)
         == if Meets(r1.attrs - r2.attrs.Keys, o, a) then Mult(r2.attrs, inner, a) else 0
  {
    if inner != [] {
      ProdRowMult(r1, r2, o, inner[..|inner| - 1], a);
      ProdMeets(r1, r2, o, inner[|inner| - 1], a);
    }
  }

  /** The product of bags; on shared variables the second relation decides. */
  lemma {:induction false} ProdMult(r1: Rel, r2: Rel, outer: seq<Tuple>, a: Asg)
    requires Valid(r1) && Valid(r2)
    ensures Mult(ProdAttrs(r1, r2), ProdLoop(r1, r2, outer, r2.tuples), a)
         == Mult(r1.attrs - r2.attrs.Keys, outer, a) * Mult(r2.attrs, r2.tuples, a)
  {
    if outer != [] {
      var init, o := outer[..|outer| - 1], outer[|outer| - 1];
      ProdMult(r1, r2, init, a);
      ProdRowMult(r1, r2, o, r2.tuples, a);
      MultConcat(ProdAttrs(r1, r2), ProdLoop(r1, r2, init, r2.tuples), ProdRow(r1, r2, o, r2.tuples), a);
      Distribute(Mult(r1.attrs - r2.attrs.Keys, init, a), Mult(r2.attrs, r2.tuples, a));
    }
  }

  lemma {:induction false} ProdHolds(r1: Rel, r2: Rel, a: Asg)
    requires Valid(r1) && Valid(r2)
    ensures Holds(ProdRel(r1, r2), a)
       <==> Holds(Rel(r1.keys, r1.attrs - r2.attrs.Keys, r1.tuples), a) && Holds(r2, a)
  {
    ProdMult(r1, r2, r1.tuples, a);
    HoldsMult(ProdRel(r1, r2), a);
    HoldsMult(r2, a);
    HoldsMult(Rel(r1.keys, r1.attrs - r2.attrs.Keys, r1.tuples), a);
    Distribute(Mult(r1.attrs - r2.attrs.Keys, r1.tuples, a), Mult(r2.attrs, r2.tuples, a));
  }

  // ------------------------------------------------- projection and difference

  function LimitAttrs(r: Rel, vars: set<Var>): map<Var, Col> {
    map v | v in r.attrs && v in vars :: r.attrs[v]
  }

  /** `limit-rel`: the columns of `vars`; None if there are none. */
  function LimitRel(r: Rel, vars: set<Var>): Option<Rel> {
    var attrs := LimitAttrs(r, vars);
    if attrs == map[] then None else Some(Rel(Within(r.keys, attrs), attrs, r.tuples))
  }

  /** `a` restricted to `vars` comes from some tuple of `r`. */
  ghost predicate HoldsOn(r: Rel, vars: set<Var>, a: Asg) {
    exists t :: t in r.tuples && Meets(LimitAttrs(r, vars), t, a)
  }

  /** The tuples of `ts` for which the hash of `b` has no entry. */
  function Unmatched(a: Rel, b: Rel, ts: seq<Tuple>): seq<Tuple>
    requires KeysCovered(a)
  {
    if ts == [] then [] else
      var t := ts[|ts| - 1];
      Unmatched(a, b, ts[..|ts| - 1])
      + (if Bucket(b.attrs, Common(a, b), b.tuples, Key(a.attrs, Common(a, b), t)) == [] then [t] else [])
  }

  function SubtractRel(a: Rel, b: Rel): Rel
    requires KeysCovered(a)
  {
    Rel(a.keys, a.attrs, Unmatched(a, b, a.tuples))
  }

  lemma {:induction false} BucketEmpty(attrs: map<Var, Col>, common: seq<Var>, ts: seq<Tuple>, k: seq<Value>)
    requires Elems(common) <= attrs.Keys
    ensures Bucket(attrs, common, ts, k) == [] <==> forall t :: t in ts ==> Key(attrs, common, t) != k
  {
    if ts != [] {
      var init, last := ts[..|ts| - 1], ts[|ts| - 1];
      BucketEmpty(attrs, common, init, k);
      assert forall t :: t in ts <==> t in init || t == last;
      if Key(attrs, common, last) == k {
        assert last in ts;
        assert |Bucket(attrs, common, ts, k)| > 0;
      } else {
        assert Bucket(attrs, common, ts, k) == Bucket(attrs, common, init, k);
        if Bucket(attrs, common, init, k) != [] {
          var t :| t in init && Key(attrs, common, t) == k;
          assert t in ts;
        }
      }
    }
  }

  /** For a tuple that meets `asg`, no bucket means that `b` has no tuple that agrees
      with `asg` on the common variables. */
  lemma {:induction false} UnmatchedMeets(a: Rel, b: Rel, t: Tuple, asg: Asg)
    requires Valid(a) && Meets(a.attrs, t, asg)
    ensures Bucket(b.attrs, Common(a, b), b.tuples, Key(a.attrs, Common(a, b), t)) == []
       <==> !HoldsOn(b, a.attrs.Keys, asg)
  {
    var common, lim := Common(a, b), LimitAttrs(b, a.attrs.Keys);
    BucketEmpty(b.attrs, common, b.tuples, Key(a.attrs, common, t));
    forall u ensures Key(b.attrs, common, u) == Key(a.attrs, common, t) <==> Meets(lim, u, asg) {
      KeyAgree(common, b.attrs, u, a.attrs, t);
    }
  }

  lemma {:induction false} UnmatchedIn(a: Rel, b: Rel, ts: seq<Tuple>, t: Tuple)
    requires KeysCovered(a)
    ensures t in Unmatched(a, b, ts)
       <==> t in ts && Bucket(b.attrs, Common(a, b), b.tuples, Key(a.attrs, Common(a, b), t)) == []
  {
    if ts != [] {
      UnmatchedIn(a, b, ts[..|ts| - 1], t);
      assert t in ts <==> t in ts[..|ts| - 1] || t == ts[|ts| - 1];
    }
  }

  /** `subtract-rel` is the anti-join on the common variables. */
  lemma {:induction false} SubtractHolds(a: Rel, b: Rel, asg: Asg)
    requires Valid(a)
    ensures Holds(SubtractRel(a, b), asg) <==> Holds(a, asg) && !HoldsOn(b, a.attrs.Keys, asg)
  {
    forall t | Meets(a.attrs, t, asg)
      ensures t in SubtractRel(a, b).tuples <==> t in a.tuples && !HoldsOn(b, a.attrs.Keys, asg)
    {
      UnmatchedIn(a, b, a.tuples, t);
      UnmatchedMeets(a, b, t, asg);
    }
  }
}
