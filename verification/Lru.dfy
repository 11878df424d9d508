/** The cache of parsed queries: three maps that are kept inverse to each other, against a
    plain list in order of last use. */
module Lru {
  import opened Sequences

  /** `genKey` is sorted by generation; `gen` is the next one. */
  datatype LRU<K, V> = LRU(keyValue: map<K, V>, genKey: map<nat, K>, keyGen: map<K, nat>, gen: nat, limit: nat)

  function Empty<K, V>(limit: nat): LRU<K, V> {
    LRU(map[], map[], map[], 0, limit)
  }

  /** The keys of a non-empty generation map have a least element. */
  function MinGen<K>(m: map<nat, K>, upTo: nat): (g: nat)
    requires exists n :: n in m && n < upTo
    ensures g in m && g < upTo && forall n :: n in m ==> g <= n
  {
    if exists n :: n in m && n < upTo - 1 then MinGen(m, upTo - 1) else upTo - 1
  }

  function AssocLru<K, V>(l: LRU<K, V>, k: K, v: V): LRU<K, V>
    requires Valid(l)
  {
    if k in l.keyGen then
      LRU(l.keyValue, (l.genKey - {l.keyGen[k]})[l.gen := k], l.keyGen[k := l.gen], l.gen + 1, l.limit)
    else
      CleanupLru(LRU(l.keyValue[k := v], l.genKey[l.gen := k], l.keyGen[k := l.gen], l.gen + 1, l.limit))
  }

  function CleanupLru<K, V>(l: LRU<K, V>): LRU<K, V>
    requires Linked(l)
  {
    if |l.keyValue| > l.limit then
      NonEmpty(l);
      var g := MinGen(l.genKey, l.gen);
      var k := l.genKey[g];
      LRU(l.keyValue - {k}, l.genKey - {g}, l.keyGen - {k}, l.gen, l.limit)
    else l
  }

  // -------------------------------------------------------------- what states keep

  /** `genKey` and `keyGen` are inverse, and every key has a value. */
  ghost predicate Linked<K, V>(l: LRU<K, V>) {
    && l.keyValue.Keys == l.keyGen.Keys
    && (forall k :: k in l.keyGen ==> l.keyGen[k] in l.genKey && l.genKey[l.keyGen[k]] == k)
    && (forall g :: g in l.genKey ==> g < l.gen && l.genKey[g] in l.keyGen && l.keyGen[l.genKey[g]] == g)
  }

  ghost predicate Valid<K, V>(l: LRU<K, V>) {
    Linked(l) && |l.keyValue| <= l.limit
  }

  lemma {:induction false} NonEmpty<K, V>(l: LRU<K, V>)
    requires Linked(l) && |l.keyValue| > 0
    ensures exists g :: g in l.genKey && g < l.gen
  {
    var k :| k in l.keyValue.Keys;
    assert l.keyGen[k] in l.genKey;
  }

  lemma {:induction false} CleanupLinked<K, V>(l: LRU<K, V>)
    requires Linked(l)
    ensures Linked(CleanupLru(l))
  {
    if |l.keyValue| > l.limit {
      NonEmpty(l);
      var g := MinGen(l.genKey, l.gen);
      var k := l.genKey[g];
      var r := CleanupLru(l);
      assert l.keyGen[k] == g;
    }
  }

  /** Every state that `assoc` reaches is valid: the maps stay inverse, within the limit. */
  lemma {:induction false} AssocValid<K, V>(l: LRU<K, V>, k: K, v: V)
    requires Valid(l)
    ensures Valid(AssocLru(l, k, v)) && AssocLru(l, k, v).limit == l.limit
  {
    if k !in l.keyGen {
      var grown := LRU(l.keyValue[k := v], l.genKey[l.gen := k], l.keyGen[k := l.gen], l.gen + 1, l.limit);
      CleanupLinked(grown);
      assert grown.keyValue.Keys == l.keyValue.Keys + {k};
      if |grown.keyValue| > l.limit {
        NonEmpty(grown);
        var gone := grown.genKey[MinGen(grown.genKey, grown.gen)];
        assert (grown.keyValue - {gone}).Keys == grown.keyValue.Keys - {gone};
      }
    }
  }

  // ------------------------------------------------------------------ recency lists

  /** The keys from the least to the most recently used. */
  ghost function Order<K>(m: map<nat, K>, upTo: nat): seq<K> {
    if upTo == 0 then [] else Order(m, upTo - 1) + (if upTo - 1 in m then [m[upTo - 1]] else [])
  }

  ghost function Recency<K, V>(l: LRU<K, V>): seq<K> {
    Order(l.genKey, l.gen)
  }

  /** The list without a key. */
  ghost function Except<K>(s: seq<K>, k: K): seq<K> {
    if s == [] then [] else Except(s[..|s| - 1], k) + (if s[|s| - 1] == k then [] else [s[|s| - 1]])
  }

  /** Move to front, or add and drop the last when over the limit; the front is at the end. */
  ghost function Touch<K>(s: seq<K>, k: K, limit: nat): seq<K> {
    if k in Elems(s) then Except(s, k) + [k]
    else if |s| + 1 > limit then (s + [k])[1..] else s + [k]
  }

  lemma {:induction false} OrderFrame<K>(m: map<nat, K>, n: map<nat, K>, upTo: nat)
    requires forall g :: g < upTo ==> (g in m <==> g in n) && (g in m ==> m[g] == n[g])
    ensures Order(m, upTo) == Order(n, upTo)
  {
    if upTo > 0 { OrderFrame(m, n, upTo - 1); }
  }

  lemma {:induction false} OrderElems<K>(m: map<nat, K>, upTo: nat, k: K)
    ensures k in Elems(Order(m, upTo)) <==> exists g :: g < upTo && g in m && m[g] == k
  {
    if upTo > 0 {
      OrderElems(m, upTo - 1, k);
      var init := Order(m, upTo - 1);
      if upTo - 1 in m { assert (init + [m[upTo - 1]])[..|init|] == init; } else { assert init + [] == init; }
    }
  }

  /** Taking out the only generation of a key takes the key out of the list. */
  lemma {:induction false} OrderRemove<K>(m: map<nat, K>, upTo: nat, g: nat, k: K)
    requires g in m && m[g] == k && forall n :: n in m && m[n] == k ==> n == g
    ensures Order(m - {g}, upTo) == Except(Order(m, upTo), k)
  {
    if upTo > 0 {
      OrderRemove(m, upTo - 1, g, k);
      var init := Order(m, upTo - 1);
      if upTo - 1 in m {
        assert (init + [m[upTo - 1]])[..|init|] == init;
      } else {
        assert init + [] == init;
      }
      assert Except(init, k) + [] == Except(init, k);
    }
  }

  /** The least generation is the head of the list. */
  lemma {:induction false} OrderDrop<K>(m: map<nat, K>, upTo: nat, g: nat)
    requires g in m && g < upTo && forall n :: n in m ==> g <= n
    ensures Order(m, upTo) != [] && Order(m - {g}, upTo) == Order(m, upTo)[1..]
  {
    var init := Order(m, upTo - 1);
    if g == upTo - 1 {
      OrderNone(m, upTo - 1);
      OrderNone(m - {g}, upTo - 1);
      assert [] + [m[g]] == [m[g]];
    } else {
      OrderDrop(m, upTo - 1, g);
      if upTo - 1 in m {
        assert (init + [m[upTo - 1]])[1..] == init[1..] + [m[upTo - 1]];
      } else {
        assert init + [] == init && init[1..] + [] == init[1..];
      }
    }
  }

  lemma {:induction false} OrderNone<K>(m: map<nat, K>, upTo: nat)
    requires forall n :: n in m ==> upTo <= n
    ensures Order(m, upTo) == []
  {
    if upTo > 0 { OrderNone(m, upTo - 1); }
  }

  lemma {:induction false} OrderLength<K>(m: map<nat, K>, upTo: nat, gens: set<nat>)
    requires gens == set g | g in m.Keys && g < upTo
    ensures |Order(m, upTo)| == |gens|
  {
    if upTo == 0 {
      assert gens == {};
    } else {
      var top := upTo - 1;
      var fewer := set g | g in m.Keys && g < top;
      OrderLength(m, top, fewer);
      if top in m {
        assert gens == fewer + {top};
      } else {
        assert gens == fewer;
      }
    }
  }

  /** A new generation goes to the end. */
  lemma {:induction false} OrderAppend<K>(m: map<nat, K>, gen: nat, next: nat, k: K)
    requires next == gen + 1
    ensures Order(m[gen := k], next) == Order(m, gen) + [k]
  {
    OrderFrame(m[gen := k], m, gen);
  }

  lemma {:induction false} SameSize<K, V>(l: LRU<K, V>)
    requires Linked(l)
    ensures |l.genKey| == |l.keyValue|
  {
    Injects(l.genKey, l.keyGen.Keys);
    Injects(l.keyGen, l.genKey.Keys);
    assert |l.keyGen| == |l.keyGen.Keys| && |l.genKey| == |l.genKey.Keys| && |l.keyValue| == |l.keyValue.Keys|;
  }

  lemma {:induction false} Injects<A, B>(m: map<A, B>, s: set<B>)
    requires (forall a :: a in m ==> m[a] in s) && forall a, b :: a in m && b in m && m[a] == m[b] ==> a == b
    ensures |m.Keys| <= |s|
  {
    if m.Keys != {} {
      var a :| a in m.Keys;
      var less := m - {a};
      assert less.Keys == m.Keys - {a};
      Injects(less, s - {m[a]});
    }
  }

  lemma {:induction false} PresentRefines<K, V>(l: LRU<K, V>, k: K, next: nat)
    requires Valid(l) && k in l.keyGen && next == l.gen + 1
    ensures Order((l.genKey - {l.keyGen[k]})[l.gen := k], next) == Except(Recency(l), k) + [k]
  {
    OrderRemove(l.genKey, l.gen, l.keyGen[k], k);
    OrderAppend(l.genKey - {l.keyGen[k]}, l.gen, next, k);
  }

  lemma {:induction false} AbsentRefines<K, V>(l: LRU<K, V>, k: K, v: V, next: nat)
    requires Valid(l) && k !in l.keyGen && next == l.gen + 1
    ensures Recency(CleanupLru(LRU(l.keyValue[k := v], l.genKey[l.gen := k], l.keyGen[k := l.gen], next, l.limit)))
         == if |Recency(l)| + 1 > l.limit then (Recency(l) + [k])[1..] else Recency(l) + [k]
  {
    var grown := LRU(l.keyValue[k := v], l.genKey[l.gen := k], l.keyGen[k := l.gen], next, l.limit);
    OrderAppend(l.genKey, l.gen, next, k);
    OrderLength(l.genKey, l.gen, l.genKey.Keys);
    SameSize(l);
    assert grown.keyValue.Keys == l.keyValue.Keys + {k};
    assert |grown.keyValue| == |l.genKey.Keys| + 1;
    if |grown.keyValue| > l.limit {
      NonEmpty(grown);
      OrderDrop(grown.genKey, next, MinGen(grown.genKey, next));
    }
  }

  /** `assoc` on the three maps is move-to-front with drop-last on the recency list. */
  lemma {:induction false} AssocRefines<K, V>(l: LRU<K, V>, k: K, v: V)
    requires Valid(l)
    ensures Recency(AssocLru(l, k, v)) == Touch(Recency(l), k, l.limit)
  {
    var r := AssocLru(l, k, v);
    OrderElems(l.genKey, l.gen, k);
    if k in l.keyGen { PresentRefines(l, k, r.gen); } else { AbsentRefines(l, k, v, r.gen); }
  }

  /** Values: a present key keeps the value it has, a new key gets the new one, and no other
      value changes; only a dropped key loses its value. */
  lemma {:induction false} AssocValues<K, V>(l: LRU<K, V>, k: K, v: V, j: K)
    requires Valid(l)
    ensures j in AssocLru(l, k, v).keyValue ==>
              AssocLru(l, k, v).keyValue[j] == if j in l.keyValue then l.keyValue[j] else v
    ensures j in AssocLru(l, k, v).keyValue <==> j in Elems(Touch(Recency(l), k, l.limit))
  {
    AssocValid(l, k, v);
    AssocRefines(l, k, v);
    var r := AssocLru(l, k, v);
    OrderElems(r.genKey, r.gen, j);
    if j in r.keyValue { assert r.genKey[r.keyGen[j]] == j; }
  }

  // --------------------------------------------------------------- parsed queries

  /** `memoized-parse-query`, around any parser. */
  class QueryCache<Q(==), P> {
    var cache: LRU<Q, P>
    const parse: Q -> P

    ghost predicate Consistent()
      reads this
    {
      Valid(cache) && forall q :: q in cache.keyValue ==> cache.keyValue[q] == parse(q)
    }

    constructor (parse: Q -> P, limit: nat)
      ensures this.parse == parse && cache == Empty(limit) && Consistent()
    {
      this.parse := parse;
      cache := Empty(limit);
    }

    /** A hit does not touch the cache, so keys leave it in the order in which they came. */
    method Parse(q: Q) returns (r: P)
      requires Consistent()
      modifies this
      ensures r == parse(q) && Consistent()
      ensures cache == if q in old(cache).keyValue then old(cache) else AssocLru(old(cache), q, parse(q))
    {
      if q in cache.keyValue {
        r := cache.keyValue[q];
      } else {
        r := parse(q);
        AssocValid(cache, q, r);
        ParseKept(parse, cache, q);
        cache := AssocLru(cache, q, r);
      }
    }
  }

  lemma {:induction false} ParseKept<Q, P>(parse: Q -> P, l: LRU<Q, P>, q: Q)
    requires Valid(l) && forall k :: k in l.keyValue ==> l.keyValue[k] == parse(k)
    ensures forall k :: k in AssocLru(l, q, parse(q)).keyValue ==> AssocLru(l, q, parse(q)).keyValue[k] == parse(k)
  {}
}
