/** `LRUDatomCache`: a cache of query results that counts the datoms it holds. */
module DatomCache {

  /** `lru` gives each key the tick of its last use; its least entry is the front of the queue. */
  datatype Cache<K, D> = Cache(cache: map<K, seq<D>>, lru: map<K, nat>, counts: map<K, nat>, total: int, tick: nat,
                               datomLimit: int)

  function EmptyCache<K, D>(limit: int): Cache<K, D> {
    Cache(map[], map[], map[], 0, 0, limit)
  }

  ghost predicate IsFront<K>(lru: map<K, nat>, k: K) {
    k in lru && forall j :: j in lru ==> lru[k] <= lru[j]
  }

  ghost predicate DistinctTicks<K>(lru: map<K, nat>) {
    forall j, k :: j in lru && k in lru && lru[j] == lru[k] ==> j == k
  }

  lemma {:induction false} FrontExists<K>(lru: map<K, nat>)
    requires lru != map[]
    ensures exists k :: IsFront(lru, k)
  {
    var j :| j in lru;
    var less := lru - {j};
    if less == map[] {
      forall k | k in lru ensures k == j { assert k !in less; }
      assert IsFront(lru, j);
    } else {
      FrontExists(less);
      var k :| IsFront(less, k);
      assert forall i :: i in lru ==> i == j || i in less;
      assert IsFront(lru, if lru[j] <= lru[k] then j else k);
    }
  }

  /** `(first (peek lru))`. */
  ghost function Front<K>(lru: map<K, nat>): (k: K)
    requires lru != map[]
    ensures IsFront(lru, k)
  {
    FrontExists(lru);
    var k :| IsFront(lru, k);
    k
  }

  function Hit<K, D>(c: Cache<K, D>, item: K): Cache<K, D> {
    Cache(c.cache, if item in c.cache then c.lru[item := c.tick + 1] else c.lru, c.counts, c.total, c.tick + 1,
        c.datomLimit)
  }

  function Evict<K, D>(c: Cache<K, D>, item: K): Cache<K, D>
    requires Valid(c)
  {
    if item in c.cache then
      Cache(c.cache - {item}, c.lru - {item}, c.counts - {item}, c.total - c.counts[item], c.tick + 1, c.datomLimit)
    else c
  }

  /** The eviction loop of `miss`: it looks at the front of the queue the miss began with,
      so that it finds no count there a second time. */
  ghost function Shrink<K, D>(c: Cache<K, D>, queue: map<K, nat>): Cache<K, D>
    decreases c.counts.Keys
  {
    if c.total <= c.datomLimit || queue == map[] || Front(queue) !in c.counts then c
    else
      var k := Front(queue);
      Shrink(Cache(c.cache - {k}, c.lru - {k}, c.counts - {k}, c.total - c.counts[k], c.tick, c.datomLimit), queue)
  }

  function Without<K, D>(c: Cache<K, D>, item: K, more: nat): Cache<K, D>
    requires Valid(c)
  {
    if item in c.lru then
      Cache(c.cache - {item}, c.lru - {item}, c.counts - {item}, c.total + more - c.counts[item], c.tick, c.datomLimit)
    else Cache(c.cache, c.lru, c.counts, c.total + more, c.tick, c.datomLimit)
  }

  ghost function Miss<K, D>(c: Cache<K, D>, item: K, result: seq<D>): Cache<K, D>
    requires Valid(c)
  {
    var s := Shrink(Without(c, item, |result|), c.lru);
    Cache(s.cache[item := result], s.lru[item := c.tick + 1], s.counts[item := |result|], s.total, c.tick + 1,
        c.datomLimit)
  }

  // -------------------------------------------------------------- what states keep

  ghost function Sum<K>(m: map<K, nat>): nat {
    if m == map[] then 0 else
      var k :| k in m;
      m[k] + Sum(m - {k})
  }

  /** The total does not depend on the order of addition. */
  lemma {:induction false} SumWithout<K>(m: map<K, nat>, k: K)
    requires k in m
    ensures Sum(m) == m[k] + Sum(m - {k})
  {
    var j :| j in m && Sum(m) == m[j] + Sum(m - {j});
    if j != k {
      SumWithout(m - {j}, k);
      SumWithout(m - {k}, j);
      assert m - {j} - {k} == m - {k} - {j};
    }
  }

  lemma {:induction false} SumWith<K>(m: map<K, nat>, k: K, n: nat)
    requires k !in m
    ensures Sum(m[k := n]) == n + Sum(m)
  {
    SumWithout(m[k := n], k);
    assert m[k := n] - {k} == m;
  }

  /** The three maps have the same keys, and counts are the lengths of the results. */
  ghost predicate Valid<K, D>(c: Cache<K, D>) {
    && c.cache.Keys == c.lru.Keys == c.counts.Keys
    && (forall k :: k in c.cache ==> c.counts[k] == |c.cache[k]|)
    && (forall k :: k in c.lru ==> c.lru[k] <= c.tick)
    && DistinctTicks(c.lru)
  }

  /** The running total is the number of datoms held. */
  ghost predicate Counted<K, D>(c: Cache<K, D>) {
    c.total == Sum(c.counts)
  }

  lemma {:induction false} EmptyCounted<K, D>(limit: int)
    ensures Valid(EmptyCache<K, D>(limit)) && Counted(EmptyCache<K, D>(limit))
  {}

  lemma {:induction false} HitKeeps<K, D>(c: Cache<K, D>, item: K)
    requires Valid(c) && Counted(c)
    ensures Valid(Hit(c, item)) && Counted(Hit(c, item))
  {}

  lemma {:induction false} EvictKeeps<K, D>(c: Cache<K, D>, item: K)
    requires Valid(c) && Counted(c)
    ensures Valid(Evict(c, item)) && Counted(Evict(c, item))
  {
    if item in c.cache { SumWithout(c.counts, item); }
  }

  /** The eviction loop takes out the front of the old queue, or nothing. */
  lemma {:induction false} ShrinkOnce<K, D>(c: Cache<K, D>, queue: map<K, nat>)
    ensures Shrink(c, queue) ==
              if c.total <= c.datomLimit || queue == map[] || Front(queue) !in c.counts then c
              else Cache(c.cache - {Front(queue)}, c.lru - {Front(queue)}, c.counts - {Front(queue)},
                         c.total - c.counts[Front(queue)], c.tick, c.datomLimit)
  {
    if !(c.total <= c.datomLimit || queue == map[] || Front(queue) !in c.counts) {
      var k := Front(queue);
      var d := Cache(c.cache - {k}, c.lru - {k}, c.counts - {k}, c.total - c.counts[k], c.tick, c.datomLimit);
      assert Shrink(d, queue) == d;
    }
  }

  lemma {:induction false} ShrinkKeeps<K, D>(c: Cache<K, D>, queue: map<K, nat>, item: K, more: nat)
    requires Valid(c) && c.total == Sum(c.counts) + more && item !in c.cache
    ensures Valid(Shrink(c, queue)) && Shrink(c, queue).total == Sum(Shrink(c, queue).counts) + more
            && item !in Shrink(c, queue).cache
    ensures Shrink(c, queue).tick == c.tick && Shrink(c, queue).datomLimit == c.datomLimit
  {
    ShrinkOnce(c, queue);
    if !(c.total <= c.datomLimit || queue == map[] || Front(queue) !in c.counts) { SumWithout(c.counts, Front(queue)); }
  }

  lemma {:induction false} WithoutKeeps<K, D>(c: Cache<K, D>, item: K, more: nat)
    requires Valid(c) && Counted(c)
    ensures var w := Without(c, item, more);
            Valid(w) && w.total == Sum(w.counts) + more && item !in w.cache && w.tick == c.tick
              && w.datomLimit == c.datomLimit
  {
    if item in c.lru { SumWithout(c.counts, item); }
  }

  lemma {:induction false} AddKeeps<K, D>(s: Cache<K, D>, item: K, result: seq<D>, next: nat)
    requires Valid(s) && item !in s.cache && s.total == Sum(s.counts) + |result| && next > s.tick
    ensures var r := Cache(s.cache[item := result], s.lru[item := next], s.counts[item := |result|], s.total, next,
        s.datomLimit);
            Valid(r) && Counted(r)
  {
    SumWith(s.counts, item, |result|);
  }

  /** A miss keeps the total equal to the sum of the counts. */
  lemma {:induction false} MissKeeps<K, D>(c: Cache<K, D>, item: K, result: seq<D>)
    requires Valid(c) && Counted(c)
    ensures Valid(Miss(c, item, result)) && Counted(Miss(c, item, result))
  {
    var w := Without(c, item, |result|);
    WithoutKeeps(c, item, |result|);
    ShrinkKeeps(w, c.lru, item, |result|);
    AddKeeps(Shrink(w, c.lru), item, result, Miss(c, item, result).tick);
  }

  datatype Use<K, D> = Looked(item: K) | Missed(item: K, result: seq<D>) | Evicted(item: K)

  ghost function After<K, D>(c: Cache<K, D>, u: Use<K, D>): Cache<K, D>
    requires Valid(c)
  {
    match u
    case Looked(item) => Hit(c, item)
    case Missed(item, result) => Miss(c, item, result)
    case Evicted(item) => Evict(c, item)
  }

  lemma {:induction false} AfterKeeps<K, D>(c: Cache<K, D>, u: Use<K, D>)
    requires Valid(c) && Counted(c)
    ensures Valid(After(c, u)) && Counted(After(c, u))
  {
    match u
    case Looked(item) => HitKeeps(c, item);
    case Missed(item, result) => MissKeeps(c, item, result);
    case Evicted(item) => EvictKeeps(c, item);
  }

  /** The states a cache that starts empty goes through. */
  ghost predicate RunFrom<K(!new), D(!new)>(limit: int, uses: seq<Use<K, D>>, c: Cache<K, D>) {
    if uses == [] then c == EmptyCache(limit)
    else exists b :: RunFrom(limit, uses[..|uses| - 1], b) && Valid(b) && c == After(b, uses[|uses| - 1])
  }

  /** From an empty base, the total always is the sum of the counts. */
  lemma {:induction false} RunCounted<K(!new), D(!new)>(limit: int, uses: seq<Use<K, D>>, c: Cache<K, D>)
    requires RunFrom(limit, uses, c)
    ensures Valid(c) && Counted(c)
  {
    if uses != [] {
      var b :| RunFrom(limit, uses[..|uses| - 1], b) && Valid(b) && c == After(b, uses[|uses| - 1]);
      RunCounted(limit, uses[..|uses| - 1], b);
      AfterKeeps(b, uses[|uses| - 1]);
    } else {
      EmptyCounted<K, D>(limit);
    }
  }

  /** A miss brings the total within the limit if and only if dropping at most the oldest
      other entry is enough. */
  lemma {:induction false} MissWithinLimit<K, D>(c: Cache<K, D>, item: K, result: seq<D>)
    requires Valid(c) && Counted(c)
    ensures var size := c.total + |result| - (if item in c.counts then c.counts[item] else 0);
            Miss(c, item, result).total <= c.datomLimit <==>
              size <= c.datomLimit
              || (c.lru != map[] && Front(c.lru) != item && size - c.counts[Front(c.lru)] <= c.datomLimit)
  {
    ShrinkOnce(Without(c, item, |result|), c.lru);
  }

  // ------------------------------------------------------------- the order of use

  /** Each key of `q` was used before those after it. */
  ghost predicate InOrder<K>(lru: map<K, nat>, q: seq<K>) {
    q == [] || (q[0] in lru && (forall k :: k in q[1..] ==> k in lru && lru[q[0]] < lru[k]) && InOrder(lru, q[1..]))
  }

  /** `q` lists the keys from the one used longest ago to the one used last. */
  ghost predicate Queue<K>(lru: map<K, nat>, q: seq<K>) {
    (forall k :: k in q ==> k in lru) && (forall k :: k in lru ==> k in q) && InOrder(lru, q)
  }

  ghost function Removed<K>(q: seq<K>, k: K): (r: seq<K>)
    ensures forall j :: j in r ==> j in q && j != k
    ensures forall j :: j in q && j != k ==> j in r
  {
    if q == [] then [] else if q[0] == k then Removed(q[1..], k) else [q[0]] + Removed(q[1..], k)
  }

  /** Taking a key out leaves the order of the others, and so does changing other ticks. */
  lemma {:induction false} OrderWithout<K>(lru: map<K, nat>, other: map<K, nat>, q: seq<K>, k: K)
    requires InOrder(lru, q) && forall j :: j in q && j != k ==> j in other && j in lru && other[j] == lru[j]
    ensures InOrder(other, Removed(q, k))
  {
    if q != [] {
      var rest := Removed(q[1..], k);
      OrderWithout(lru, other, q[1..], k);
      if q[0] != k {
        assert q[0] in q && ([q[0]] + rest)[1..] == rest;
        forall j | j in rest ensures j in other && other[q[0]] < other[j] { assert j in q[1..] && j in q; }
      }
    }
  }

  lemma {:induction false} QueueWithout<K>(lru: map<K, nat>, q: seq<K>, k: K)
    requires Queue(lru, q)
    ensures Queue(lru - {k}, Removed(q, k))
  {
    OrderWithout(lru, lru - {k}, q, k);
  }

  lemma {:induction false} OrderSnoc<K>(lru: map<K, nat>, more: map<K, nat>, q: seq<K>, k: K)
    requires InOrder(lru, q) && k in more
    requires forall j :: j in q ==> j in lru && j in more && more[j] == lru[j] && more[j] < more[k]
    ensures InOrder(more, q + [k])
  {
    var all := q + [k];
    if q == [] {
      assert all[1..] == [];
    } else {
      assert q[0] in q && all[1..] == q[1..] + [k];
      OrderSnoc(lru, more, q[1..], k);
      forall j | j in all[1..] ensures j in more && more[q[0]] < more[j] { if j != k { assert j in q[1..] && j in q; } }
    }
  }

  lemma {:induction false} QueueSnoc<K>(lru: map<K, nat>, q: seq<K>, k: K, tick: nat)
    requires Queue(lru, q) && k !in lru && forall j :: j in lru ==> lru[j] < tick
    ensures Queue(lru[k := tick], q + [k])
  {
    OrderSnoc(lru, lru[k := tick], q, k);
  }

  /** The front of the queue is the key used longest ago. */
  lemma {:induction false} FrontIs<K>(lru: map<K, nat>, q: seq<K>)
    requires Queue(lru, q) && lru != map[]
    ensures q != [] && Front(lru) == q[0]
  {
    var f := Front(lru);
    assert f in q;
    forall k | k in q[1..] ensures k != f { assert lru[q[0]] < lru[k]; }
  }

  /** A key that gets a new tick goes to the end. */
  lemma {:induction false} MovedLast<K>(lru: map<K, nat>, q: seq<K>, k: K, tick: nat)
    requires Queue(lru, q) && forall j :: j in lru ==> lru[j] < tick
    ensures Queue(lru[k := tick], Removed(q, k) + [k])
  {
    var less := lru - {k};
    QueueWithout(lru, q, k);
    QueueSnoc(less, Removed(q, k), k, tick);
    assert lru[k := tick] == less[k := tick];
  }

  /** A hit makes its key the one used last, and leaves the order of the others. */
  lemma {:induction false} HitQueue<K, D>(c: Cache<K, D>, q: seq<K>, item: K)
    requires Valid(c) && Queue(c.lru, q)
    ensures Queue(Hit(c, item).lru, if item in c.cache then Removed(q, item) + [item] else q)
    ensures Hit(c, item).cache == c.cache
  {
    if item in c.cache { MovedLast(c.lru, q, item, Hit(c, item).tick); }
  }

  /** An eviction takes its key out and leaves the order and the results of the others. */
  lemma {:induction false} EvictQueue<K, D>(c: Cache<K, D>, q: seq<K>, item: K)
    requires Valid(c) && Queue(c.lru, q)
    ensures Queue(Evict(c, item).lru, Removed(q, item)) && Evict(c, item).cache == c.cache - {item}
  {
    QueueWithout(c.lru, q, item);
    if item !in c.cache { assert c.lru - {item} == c.lru && c.cache - {item} == c.cache; }
  }

  /** What is over the limit when a result is added, before anything is dropped. */
  function SizeWith<K, D>(c: Cache<K, D>, item: K, result: seq<D>): int {
    c.total + |result| - (if item in c.counts then c.counts[item] else 0)
  }

  lemma {:induction false} ShrinkQueue<K, D>(w: Cache<K, D>, queue: map<K, nat>, q: seq<K>, rest: seq<K>)
    requires Queue(queue, q) && Queue(w.lru, rest) && w.counts.Keys == w.lru.Keys == w.cache.Keys
    ensures var drops := w.total > w.datomLimit && q != [] && q[0] in w.counts;
            var m := Shrink(w, queue);
            && Queue(m.lru, if drops then Removed(rest, q[0]) else rest)
              && m.cache == (if drops then w.cache - {q[0]} else w.cache)
            && forall j :: j in m.lru ==> j in w.lru && m.lru[j] == w.lru[j]
  {
    ShrinkOnce(w, queue);
    assert |q| == 0 || q[0] in q;
    if queue != map[] {
      FrontIs(queue, q);
      QueueWithout(w.lru, rest, q[0]);
    }
  }

  lemma {:induction false} PutBack<K, V>(m: map<K, V>, k: K, v: V, first: K)
    ensures (m - {k})[k := v] == m[k := v]
    ensures k != first ==> (m - {k} - {first})[k := v] == (m - {first})[k := v]
  {}

  /** What a miss has when nothing more is dropped, before the result is added. */
  lemma {:induction false} WithoutIs<K, D>(c: Cache<K, D>, item: K, result: seq<D>)
    requires Valid(c)
    ensures var w := Without(c, item, |result|);
            && w.lru == c.lru - {item} && w.cache == c.cache - {item} && w.counts.Keys == c.counts.Keys - {item}
            && w.counts.Keys == w.lru.Keys == w.cache.Keys && w.total == SizeWith(c, item, result)
              && w.datomLimit == c.datomLimit
            && forall j :: j in c.lru ==> c.lru[j] <= c.tick
  {
    if item !in c.lru { assert c.lru - {item} == c.lru && c.cache - {item} == c.cache; }
  }

  lemma {:induction false} MissIs<K, D>(c: Cache<K, D>, item: K, result: seq<D>, s: Cache<K, D>, next: nat)
    requires Valid(c) && s == Shrink(Without(c, item, |result|), c.lru) && next == c.tick + 1
    ensures Miss(c, item, result).lru == s.lru[item := next] && Miss(c, item, result).cache == s.cache[item := result]
  {}

  /** A miss drops the key used longest ago, if the result is too much and the key is another
      one; the new key is the one used last, and the others stay in their order. */
  lemma {:induction false} MissQueue<K, D>(c: Cache<K, D>, q: seq<K>, item: K, result: seq<D>)
    requires Valid(c) && Queue(c.lru, q)
    ensures var drops := SizeWith(c, item, result) > c.datomLimit && q != [] && q[0] != item;
            && Queue(Miss(c, item, result).lru, (if drops then Removed(Removed(q, item), q[0]) else Removed(q, item))
                + [item])
            && Miss(c, item, result).cache == (if drops then c.cache - {q[0]} else c.cache)[item := result]
  {
    var w, next: nat := Without(c, item, |result|), c.tick + 1;
    var s := Shrink(w, c.lru);
    WithoutIs(c, item, result);
    MissIs(c, item, result, s, next);
    MissLast(c.cache, c.lru, c.counts.Keys, q, w, s, item, result, next, SizeWith(c, item, result) > c.datomLimit);
  }

  lemma {:induction false} MissLast<K, D>(cache: map<K, seq<D>>, lru: map<K, nat>, keys: set<K>, q: seq<K>,
                                          w: Cache<K, D>, s: Cache<K, D>,
                                          item: K, result: seq<D>, next: nat, over: bool)
    requires Queue(lru, q) && keys == lru.Keys && (forall j :: j in lru ==> lru[j] < next) && s == Shrink(w, lru)
    requires w.lru == lru - {item} && w.cache == cache - {item} && w.counts.Keys == keys - {item}
    requires w.counts.Keys == w.lru.Keys == w.cache.Keys && over == (w.total > w.datomLimit)
    ensures var drops := over && q != [] && q[0] != item;
            && Queue(s.lru[item := next], (if drops then Removed(Removed(q, item), q[0]) else Removed(q, item))
                + [item])
            && s.cache[item := result] == (if drops then cache - {q[0]} else cache)[item := result]
  {
    QueueWithout(lru, q, item);
    assert |q| == 0 || q[0] in q;
    ShrinkQueue(w, lru, q, Removed(q, item));
    var drops := over && q != [] && q[0] != item;
    QueueSnoc(s.lru, if drops then Removed(Removed(q, item), q[0]) else Removed(q, item), item, next);
    PutBack(cache, item, result, if q == [] then item else q[0]);
  }
}
