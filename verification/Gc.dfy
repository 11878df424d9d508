/** The commit store: commits, merges, branches and garbage collection, as steps on a
    key-value store, and what every run of them keeps. */
module Gc {
  import opened Sequences

  datatype Key = Branch(name: string) | Commit(id: int) | Node(n: int) | Schema(s: int) | Branches

  /** A stored database; `nodes` are the index nodes marked from its index roots, `time`
      its update time, or its creation time if it was never updated. */
  datatype Value = Record(cid: int, parents: seq<Key>, time: int, nodes: set<int>, schema: int)
    | Names(names: set<string>) | Blob

  type Data = map<Key, Value>

  /** `written` are the times of the last writes, `cache` the schemas known to be written;
      `removed` is the latest removal date of a collection, `clock` the latest time. */
  datatype State = State(data: Data, written: map<Key, int>, cache: set<int>, removed: int, clock: int)

  datatype Outcome = Done(state: State) | Refused

  predicate IsRecord(data: Data, k: Key) {
    (k.Branch? || k.Commit?) && k in data && data[k].Record?
  }

  function BranchNames(data: Data): set<string> {
    if Branches in data && data[Branches].Names? then data[Branches].names else {}
  }

  // ----------------------------------------------------------------------- marking

  predicate InRange(data: Data, k: Key, after: int) {
    IsRecord(data, k) && data[k].time > after
  }

  /** `k` is reached from the branch through `n` commits that are in range. */
  ghost predicate ReachedIn(data: Data, branch: string, after: int, k: Key, n: nat)
    decreases n
  {
    if n == 0 then k == Branch(branch)
    else exists j :: InRange(data, j, after) && k in Elems(data[j].parents) && ReachedIn(data, branch, after, j, n - 1)
  }

  ghost predicate Reached(data: Data, branch: string, after: int, k: Key) {
    exists n: nat :: ReachedIn(data, branch, after, k, n)
  }

  /** Parents of in-range members are members. */
  ghost predicate Closed(data: Data, after: int, s: set<Key>) {
    forall j :: j in s && InRange(data, j, after) ==> Elems(data[j].parents) <= s
  }

  /** What is marked is contained in every closed set with the branch head, and so is the
      least such set. */
  lemma {:induction false} ReachedLeast(data: Data, branch: string, after: int, s: set<Key>, k: Key, n: nat)
    requires Branch(branch) in s && Closed(data, after, s) && ReachedIn(data, branch, after, k, n)
    ensures k in s
    decreases n
  {
    if n > 0 {
      var j :| InRange(data, j, after) && k in Elems(data[j].parents) && ReachedIn(data, branch, after, j, n - 1);
      ReachedLeast(data, branch, after, s, j, n - 1);
    }
  }

  lemma {:induction false} ReachedParent(data: Data, branch: string, after: int, j: Key, k: Key)
    requires Reached(data, branch, after, j) && InRange(data, j, after) && k in Elems(data[j].parents)
    ensures Reached(data, branch, after, k)
  {
    var n: nat :| ReachedIn(data, branch, after, j, n);
    assert ReachedIn(data, branch, after, k, n + 1);
  }

  /** A commit out of range is reached only as the direct parent of one in range. */
  lemma {:induction false} OutOfRangeIsParent(data: Data, branch: string, after: int, k: Key)
    requires Reached(data, branch, after, k) && k != Branch(branch)
    ensures exists j :: Reached(data, branch, after, j) && InRange(data, j, after) && k in Elems(data[j].parents)
  {
    var n: nat :| ReachedIn(data, branch, after, k, n);
    var j :| InRange(data, j, after) && k in Elems(data[j].parents) && ReachedIn(data, branch, after, j, n - 1);
    assert Reached(data, branch, after, j);
  }

  function NodeKeys(nodes: set<int>): (r: set<Key>)
    ensures forall k :: k in r <==> k.Node? && k.n in nodes
  {
    set n | n in nodes :: Node(n)
  }

  /** What a visited record adds to the whitelist. */
  function Marks(data: Data, k: Key): set<Key>
    requires IsRecord(data, k)
  {
    {k, Schema(data[k].schema)} + NodeKeys(data[k].nodes)
  }

  /** The whitelist of one branch: the head's commit id, and the marks of all reached records. */
  ghost predicate Whitelisted(data: Data, branch: string, after: int, k: Key)
    requires IsRecord(data, Branch(branch))
  {
    k == Branch(branch) || k == Commit(data[Branch(branch)].cid)
    || exists j :: Reached(data, branch, after, j) && IsRecord(data, j) && k in Marks(data, j)
  }

  datatype Marked = Reachable(keys: set<Key>) | Missing(key: Key)

  /** The union of the marks of a set of records. */
  ghost predicate MarksOf(data: Data, visited: set<Key>, k: Key) {
    exists j :: j in visited && IsRecord(data, j) && k in Marks(data, j)
  }

  /** What the loop knows: visited and listed keys are reached, the parents of visited
      records in range are visited or listed, and the marks are collected. */
  ghost predicate MarkLoop(data: Data, branch: string, after: int, visited: set<Key>, listed: set<Key>, keys: set<Key>)
    requires IsRecord(data, Branch(branch))
  {
    && (forall k :: k in visited ==> IsRecord(data, k) && Reached(data, branch, after, k))
    && (forall k :: k in listed ==> Reached(data, branch, after, k))
    && Branch(branch) in visited + listed
    && (forall j :: j in visited && InRange(data, j, after) ==> Elems(data[j].parents) <= visited + listed)
    && (forall k :: k in keys <==>
      k == Branch(branch) || k == Commit(data[Branch(branch)].cid) || MarksOf(data, visited, k))
  }

  lemma {:induction false} MarkStart(data: Data, branch: string, after: int)
    requires IsRecord(data, Branch(branch))
    ensures MarkLoop(data, branch, after, {}, {Branch(branch)}, {Branch(branch), Commit(data[Branch(branch)].cid)})
  {
    assert ReachedIn(data, branch, after, Branch(branch), 0);
  }

  lemma {:induction false} MarkVisit(data: Data, branch: string, after: int, visited: set<Key>, listed: set<Key>,
                                     keys: set<Key>, k: Key, rest: set<Key>, more: set<Key>)
    requires IsRecord(data, Branch(branch)) && MarkLoop(data, branch, after, visited, listed, keys)
    requires listed == {k} + rest && k !in visited && IsRecord(data, k)
    requires more == if InRange(data, k, after) then Elems(data[k].parents) else {}
    ensures MarkLoop(data, branch, after, visited + {k}, rest + more, keys + Marks(data, k))
    ensures visited <= data.Keys && |data.Keys - (visited + {k})| < |data.Keys - visited|
  {
    forall j | j in more ensures Reached(data, branch, after, j) { ReachedParent(data, branch, after, k, j); }
    forall m ensures MarksOf(data, visited + {k}, m) <==> MarksOf(data, visited, m) || m in Marks(data, k) {}
    assert data.Keys - (visited + {k}) == data.Keys - visited - {k};
  }

  lemma {:induction false} MarkSkip(data: Data, branch: string, after: int, visited: set<Key>, listed: set<Key>,
                                    keys: set<Key>, k: Key, rest: set<Key>)
    requires IsRecord(data, Branch(branch)) && MarkLoop(data, branch, after, visited, listed, keys)
    requires listed == {k} + rest && k in visited
    ensures MarkLoop(data, branch, after, visited, rest, keys)
  {
    assert visited + rest == visited + listed;
  }

  /** With nothing left to check, what was visited is the least closed set. */
  lemma {:induction false} MarkDone(data: Data, branch: string, after: int, visited: set<Key>, keys: set<Key>)
    requires IsRecord(data, Branch(branch)) && MarkLoop(data, branch, after, visited, {}, keys)
    ensures forall k :: k in visited <==> Reached(data, branch, after, k)
    ensures forall k :: Reached(data, branch, after, k) ==> IsRecord(data, k)
    ensures forall k :: k in keys <==> Whitelisted(data, branch, after, k)
  {
    assert visited + {} == visited;
    forall k | Reached(data, branch, after, k) ensures k in visited {
      var n: nat :| ReachedIn(data, branch, after, k, n);
      ReachedLeast(data, branch, after, visited, k, n);
    }
    forall k
      ensures MarksOf(data, visited, k) <==>
          exists j :: Reached(data, branch, after, j) && IsRecord(data, j) && k in Marks(data, j)
    {}
  }

  /** `reachable-in-branch`: a worklist of commits. A head or commit that is not in the store
      has no time to compare, and the collection fails. */
  method ReachableInBranch(data: Data, branch: string, after: int) returns (r: Marked)
    ensures r.Missing? ==> Reached(data, branch, after, r.key) && !IsRecord(data, r.key)
    ensures r.Reachable? ==> IsRecord(data, Branch(branch)) && forall k :: Reached(data, branch, after, k) ==>
        IsRecord(data, k)
    ensures r.Reachable? ==> forall k :: k in r.keys <==> Whitelisted(data, branch, after, k)
  {
    if !IsRecord(data, Branch(branch)) {
      assert ReachedIn(data, branch, after, Branch(branch), 0);
      return Missing(Branch(branch));
    }
    var toCheck, visited, reachable := [Branch(branch)], {}, {Branch(branch), Commit(data[Branch(branch)].cid)};
    ElemsFirst(toCheck);
    MarkStart(data, branch, after);
    while toCheck != []
      invariant MarkLoop(data, branch, after, visited, Elems(toCheck), reachable)
      decreases |data.Keys - visited|, |toCheck|
    {
      var k, rest := toCheck[0], toCheck[1..];
      ElemsFirst(toCheck);
      if k !in visited {
        if !IsRecord(data, k) { return Missing(k); }
        var more := if InRange(data, k, after) then data[k].parents else [];
        MarkVisit(data, branch, after, visited, Elems(toCheck), reachable, k, Elems(rest), Elems(more));
        ElemsConcat(rest, more);
        reachable := reachable + Marks(data, k);
        visited := visited + {k};
        toCheck := rest + more;
      } else {
        MarkSkip(data, branch, after, visited, Elems(toCheck), reachable, k, Elems(rest));
        toCheck := rest;
      }
    }
    MarkDone(data, branch, after, visited, reachable);
    r := Reachable(reachable);
  }

  lemma {:induction false} ElemsFirst<T>(s: seq<T>)
    requires s != []
    ensures Elems(s) == {s[0]} + Elems(s[1..])
  {
    assert s == [s[0]] + s[1..];
    assert [s[0]][..0] == [] && Elems([s[0]]) == {s[0]};
    ElemsConcat([s[0]], s[1..]);
  }

  // -------------------------------------------------------------------- operations

  datatype Heads = Known(commits: seq<Key>) | Unknown

  /** `branch-heads-as-commits`: a branch stands for the commit at its head. */
  function HeadCommits(data: Data, parents: seq<Key>): Heads {
    if parents == [] then Known([])
    else
      var (init, last) := (HeadCommits(data, parents[..|parents| - 1]), parents[|parents| - 1]);
      if init.Unknown? || (last.Branch? && !IsRecord(data, last)) then Unknown
      else Known(init.commits + [if last.Branch? then Commit(data[last].cid) else last])
  }

  function Writes(cache: set<int>, branch: string, rec: Value, added: set<int>): Data
    requires rec.Record?
  {
    (map k | k in NodeKeys(added) :: Blob)
    + (if rec.schema in cache then map[] else map[Schema(rec.schema) := Blob])
    + map[Commit(rec.cid) := rec, Branch(branch) := rec]
  }

  function Stamped(written: map<Key, int>, keys: set<Key>, now: int): map<Key, int> {
    written + (map k | k in keys :: now)
  }

  /** `commit!`, which `merge!` calls with more parents. The index consists of `added` nodes,
      written with the commit, and nodes `shared` with earlier commits. */
  function CommitTo(s: State, branch: string, parents: seq<Key>, cid: int, time: int, added: set<int>, shared: set<int>,
                    schema: int, now: int): Outcome
  {
    match HeadCommits(s.data, parents)
    case Unknown => Refused
    case Known(commits) =>
      var writes := Writes(s.cache, branch, Record(cid, commits, time, added + shared, schema), added);
      Done(State(s.data + writes, Stamped(s.written, writes.Keys, now), s.cache + {schema}, s.removed, now))
  }

  /** `branch!`: the record at `from` is stored once more, under the new name. */
  function BranchFrom(s: State, from: Key, name: string, now: int): Outcome {
    if name in BranchNames(s.data) || !IsRecord(s.data, from) then Refused
    else
      var writes := map[Branch(name) := s.data[from], Branches := Names(BranchNames(s.data) + {name})];
      Done(State(s.data + writes, Stamped(s.written, writes.Keys, now), s.cache, s.removed, now))
  }

  /** `delete-branch!`: the name goes, the record stays until the next collection. */
  function DeleteBranch(s: State, name: string, now: int): Outcome {
    if name == "db" || name !in BranchNames(s.data) then Refused
    else
      var names := Names(BranchNames(s.data) - {name});
      Done(State(s.data[Branches := names], Stamped(s.written, {Branches}, now), s.cache, s.removed, now))
  }

  ghost predicate Listed(data: Data, after: int, k: Key) {
    k == Branches || exists b :: b in BranchNames(data) && IsRecord(data, Branch(b)) && Whitelisted(data, b, after, k)
  }

  /** `gc-storage!`: the write cache is cleared, and what is neither whitelisted nor newer
      than the start of the collection is swept. */
  ghost predicate Collected(s: State, after: int, now: int, t: State) {
    && (forall k :: k in t.data <==>
      k in s.data && (Listed(s.data, after, k) || (k in s.written && s.written[k] >= now)))
    && (forall k :: k in t.data ==> t.data[k] == s.data[k] && (k in s.written <==> k in t.written))
    && (forall k :: k in t.data && k in s.written ==> t.written[k] == s.written[k])
    && t.cache == {} && t.removed == after && t.clock == now
  }

  // --------------------------------------------------------------- what runs keep

  /** The record's index nodes, its schema and its commit are in the store. */
  ghost predicate Whole(data: Data, k: Key)
    requires IsRecord(data, k)
  {
    && (forall n :: n in data[k].nodes ==> Node(n) in data)
    && Schema(data[k].schema) in data
    && Commit(data[k].cid) in data && data[Commit(data[k].cid)] == data[k]
    && (k.Commit? ==> data[k].cid == k.id)
    && (forall p :: p in Elems(data[k].parents) ==> p.Commit?)
  }

  /** ... and so are its parents, if it is newer than what was removed. */
  ghost predicate HasParents(s: State, k: Key)
    requires IsRecord(s.data, k)
  {
    s.data[k].time > s.removed ==> forall p :: p in Elems(s.data[k].parents) ==> IsRecord(s.data, p)
  }

  ghost predicate Sound(s: State) {
    && Branches in s.data && s.data[Branches].Names?
    && (forall b :: b in BranchNames(s.data) ==> IsRecord(s.data, Branch(b)))
    && (forall k :: k in s.data && (k.Branch? || k.Commit?) ==>
      IsRecord(s.data, k) && Whole(s.data, k) && HasParents(s, k))
    && (forall c :: c in s.cache ==> Schema(c) in s.data)
    && (forall k :: k in s.data ==> k in s.written && s.written[k] <= s.clock)
  }

  lemma {:induction false} HeadsKnown(s: State, parents: seq<Key>)
    requires Sound(s) && HeadCommits(s.data, parents).Known?
    requires forall p :: p in Elems(parents) ==> (p.Branch? || p.Commit?) && (p.Commit? ==> IsRecord(s.data, p))
    ensures forall p :: p in Elems(HeadCommits(s.data, parents).commits) ==> p.Commit? && IsRecord(s.data, p)
  {
    if parents != [] {
      var init, last := HeadCommits(s.data, parents[..|parents| - 1]), parents[|parents| - 1];
      HeadsKnown(s, parents[..|parents| - 1]);
      var head := if last.Branch? then Commit(s.data[last].cid) else last;
      assert (init.commits + [head])[..|init.commits|] == init.commits;
      assert IsRecord(s.data, last) && Whole(s.data, last);
    }
  }

  lemma {:induction false} WritesAre(cache: set<int>, branch: string, rec: Value, added: set<int>, k: Key)
    requires rec.Record?
    ensures var w := Writes(cache, branch, rec, added);
            k in w <==>
              (k.Node? && k.n in added) || (k == Schema(rec.schema) && rec.schema !in cache) || k == Commit(rec.cid)
                || k == Branch(branch)
    ensures k == Commit(rec.cid) || k == Branch(branch) ==> Writes(cache, branch, rec, added)[k] == rec
  {}

  /** A record that is not overwritten stays whole when the store grows. */
  lemma {:induction false} WholeStays(data: Data, more: Data, k: Key)
    requires IsRecord(data, k) && Whole(data, k) && IsRecord(more, k) && more[k] == data[k]
    requires forall j :: j in data ==> j in more && (j.Commit? ==> more[j] == data[j])
    ensures Whole(more, k)
  {}

  lemma {:induction false} ParentsStay(s: State, t: State, k: Key)
    requires IsRecord(s.data, k) && HasParents(s, k) && IsRecord(t.data, k) && t.data[k] == s.data[k]
             && t.removed == s.removed
    requires forall j :: IsRecord(s.data, j) ==> IsRecord(t.data, j)
    ensures HasParents(t, k)
  {}

  /** A commit keeps the store sound if its explicit parents and the index nodes it shares
      are in the store. */
  lemma {:induction false} CommitKeeps(s: State, branch: string, parents: seq<Key>, cid: int, time: int,
                                       added: set<int>, shared: set<int>, schema: int, now: int)
    requires Sound(s) && Commit(cid) !in s.data && now > s.clock
    requires forall p :: p in Elems(parents) ==> (p.Branch? || p.Commit?) && (p.Commit? ==> IsRecord(s.data, p))
    requires forall n :: n in shared ==> Node(n) in s.data
    ensures var r := CommitTo(s, branch, parents, cid, time, added, shared, schema, now); r.Done? ==> Sound(r.state)
  {
    var r := CommitTo(s, branch, parents, cid, time, added, shared, schema, now);
    if r.Done? {
      var t := r.state;
      var rec := Record(cid, HeadCommits(s.data, parents).commits, time, added + shared, schema);
      HeadsKnown(s, parents);
      forall k ensures k in t.data <==> k in s.data || k in Writes(s.cache, branch, rec, added) {}
      forall k | k in s.data && k.Commit? ensures t.data[k] == s.data[k] { WritesAre(s.cache, branch, rec, added, k); }
      NewWhole(s, t, branch, rec, added);
      forall k | k in t.data && (k.Branch? || k.Commit?)
        ensures IsRecord(t.data, k) && Whole(t.data, k) && HasParents(t, k)
      {
        WritesAre(s.cache, branch, rec, added, k);
        if k != Branch(branch) && k != Commit(cid) {
          WholeStays(s.data, t.data, k);
          ParentsStay(s, t, k);
        }
      }
    }
  }

  lemma {:induction false} RecordsStay(s: State, t: State, branch: string, rec: Value, added: set<int>, j: Key)
    requires rec.Record? && t.data == s.data + Writes(s.cache, branch, rec, added) && IsRecord(s.data, j)
    ensures IsRecord(t.data, j)
  {
    WritesAre(s.cache, branch, rec, added, j);
  }

  lemma {:induction false} NewWhole(s: State, t: State, branch: string, rec: Value, added: set<int>)
    requires rec.Record? && Sound(s) && t.data == s.data + Writes(s.cache, branch, rec, added)
    requires forall n :: n in rec.nodes && n !in added ==> Node(n) in s.data
    requires forall p :: p in Elems(rec.parents) ==> p.Commit? && IsRecord(s.data, p)
    ensures forall k :: k == Commit(rec.cid) || k == Branch(branch) ==>
        IsRecord(t.data, k) && Whole(t.data, k) && HasParents(t, k)
    ensures forall j :: IsRecord(s.data, j) ==> IsRecord(t.data, j)
  {
    forall j | IsRecord(s.data, j) ensures IsRecord(t.data, j) { RecordsStay(s, t, branch, rec, added, j); }
    forall n | n in rec.nodes ensures Node(n) in t.data { WritesAre(s.cache, branch, rec, added, Node(n)); }
    assert Schema(rec.schema) in t.data by { WritesAre(s.cache, branch, rec, added, Schema(rec.schema)); }
    WritesAre(s.cache, branch, rec, added, Commit(rec.cid));
    WritesAre(s.cache, branch, rec, added, Branch(branch));
    assert t.data[Commit(rec.cid)] == rec && t.data[Branch(branch)] == rec;
  }

  lemma {:induction false} BranchKeeps(s: State, from: Key, name: string, now: int)
    requires Sound(s) && now > s.clock
    ensures BranchFrom(s, from, name, now).Done? ==> Sound(BranchFrom(s, from, name, now).state)
  {
    if BranchFrom(s, from, name, now).Done? {
      var t := BranchFrom(s, from, name, now).state;
      assert Whole(s.data, from) && HasParents(s, from);
      forall k | k in t.data && (k.Branch? || k.Commit?)
        ensures IsRecord(t.data, k) && Whole(t.data, k) && HasParents(t, k)
      {
        if k != Branch(name) { assert k in s.data && t.data[k] == s.data[k] && Whole(s.data, k) && HasParents(s, k); }
        StaysWhole(s, t, if k == Branch(name) then from else k, k);
      }
    }
  }

  /** A record that is stored again, next to all that was there, has what it had. */
  lemma {:induction false} StaysWhole(s: State, t: State, from: Key, k: Key)
    requires IsRecord(s.data, from) && Whole(s.data, from) && HasParents(s, from) && t.removed == s.removed
    requires k in t.data && t.data[k] == s.data[from] && (k.Branch? || k == from)
    requires forall j :: j in s.data && !j.Branch? && j != Branches ==> j in t.data && t.data[j] == s.data[j]
    requires forall j :: IsRecord(s.data, j) ==> IsRecord(t.data, j)
    ensures IsRecord(t.data, k) && Whole(t.data, k) && HasParents(t, k)
  {}

  lemma {:induction false} DeleteKeeps(s: State, name: string, now: int)
    requires Sound(s) && now > s.clock
    ensures DeleteBranch(s, name, now).Done? ==> Sound(DeleteBranch(s, name, now).state)
  {
    if DeleteBranch(s, name, now).Done? {
      var t := DeleteBranch(s, name, now).state;
      forall k | k in t.data && (k.Branch? || k.Commit?)
        ensures IsRecord(t.data, k) && Whole(t.data, k) && HasParents(t, k)
      {
        assert k in s.data && t.data[k] == s.data[k] && Whole(s.data, k) && HasParents(s, k);
      }
    }
  }

  /** With a removal date that is not earlier than before, a collection finds every commit
      it looks up. */
  lemma {:induction false} LookupsSucceed(s: State, branch: string, after: int, k: Key, n: nat)
    requires Sound(s) && branch in BranchNames(s.data) && after >= s.removed && ReachedIn(s.data, branch, after, k, n)
    ensures IsRecord(s.data, k)
    decreases n
  {
    if n > 0 {
      var j :| InRange(s.data, j, after) && k in Elems(s.data[j].parents) && ReachedIn(s.data, branch, after, j, n - 1);
      assert HasParents(s, j);
    }
  }

  /** A whitelisted record is the same as one that was visited. */
  lemma {:induction false} VisitedFor(s: State, after: int, k: Key) returns (b: string, j: Key)
    requires Sound(s) && Listed(s.data, after, k) && IsRecord(s.data, k)
    ensures b in BranchNames(s.data) && IsRecord(s.data, Branch(b)) && IsRecord(s.data, j)
            && Reached(s.data, b, after, j)
    ensures s.data[j] == s.data[k] && (j == k || (j == Branch(b) && k == Commit(s.data[j].cid)))
  {
    b :| b in BranchNames(s.data) && IsRecord(s.data, Branch(b)) && Whitelisted(s.data, b, after, k);
    assert ReachedIn(s.data, b, after, Branch(b), 0);
    HeadStored(s, b);
    if k == Branch(b) || k == Commit(s.data[Branch(b)].cid) {
      j := Branch(b);
    } else {
      j :| Reached(s.data, b, after, j) && IsRecord(s.data, j) && k in Marks(s.data, j);
      MarksRecord(s.data, j, k);
    }
  }

  lemma {:induction false} MarksRecord(data: Data, j: Key, k: Key)
    requires IsRecord(data, j) && k in Marks(data, j) && (k.Branch? || k.Commit?)
    ensures k == j
  {}

  /** A branch head's commit is in the store, with the same record. */
  lemma {:induction false} HeadStored(s: State, b: string)
    requires Sound(s) && b in BranchNames(s.data)
    ensures IsRecord(s.data, Branch(b)) && IsRecord(s.data, Commit(s.data[Branch(b)].cid))
    ensures s.data[Commit(s.data[Branch(b)].cid)] == s.data[Branch(b)]
  {
    assert Whole(s.data, Branch(b));
  }

  lemma {:induction false} VisitedMarks(s: State, after: int, b: string, j: Key, m: Key)
    requires b in BranchNames(s.data) && IsRecord(s.data, Branch(b)) && IsRecord(s.data, j)
             && Reached(s.data, b, after, j)
    requires m in Marks(s.data, j)
    ensures Listed(s.data, after, m)
  {
    assert Whitelisted(s.data, b, after, m);
  }

  /** Only the head of a branch is reached under a branch name. */
  lemma {:induction false} ReachedName(s: State, b: string, after: int, j: Key)
    requires Sound(s) && Reached(s.data, b, after, j) && j.Branch?
    ensures j == Branch(b)
  {
    var n: nat :| ReachedIn(s.data, b, after, j, n);
    forall i | InRange(s.data, i, after) ensures j !in Elems(s.data[i].parents) { assert Whole(s.data, i); }
    assert n == 0;
  }

  /** The marks of a whitelisted record are whitelisted, and so is its commit. */
  lemma {:induction false} ListedMarks(s: State, after: int, k: Key)
    requires Sound(s) && Listed(s.data, after, k) && IsRecord(s.data, k)
    ensures forall m :: m in Marks(s.data, k) ==> Listed(s.data, after, m)
    ensures Listed(s.data, after, Commit(s.data[k].cid))
  {
    var b, j := VisitedFor(s, after, k);
    assert Whole(s.data, k);
    forall m | m in Marks(s.data, k) ensures Listed(s.data, after, m) {
      if m != k { VisitedMarks(s, after, b, j, m); }
    }
    if k.Branch? {
      ReachedName(s, b, after, j);
      assert Whitelisted(s.data, b, after, Commit(s.data[k].cid));
    }
  }

  /** The parents of a whitelisted record in range are whitelisted records. */
  lemma {:induction false} ListedParents(s: State, after: int, k: Key, p: Key)
    requires Sound(s) && after >= s.removed && Listed(s.data, after, k) && IsRecord(s.data, k)
    requires s.data[k].time > after && p in Elems(s.data[k].parents)
    ensures Listed(s.data, after, p) && IsRecord(s.data, p)
  {
    var b, j := VisitedFor(s, after, k);
    ReachedParent(s.data, b, after, j, p);
    var n: nat :| ReachedIn(s.data, b, after, p, n);
    LookupsSucceed(s, b, after, p, n);
    VisitedMarks(s, after, b, p, p);
  }

  /** A collection keeps the store sound if removal dates do not go back. */
  lemma {:induction false} CollectKeeps(s: State, after: int, now: int, t: State)
    requires Sound(s) && after >= s.removed && now > s.clock && Collected(s, after, now, t)
    ensures Sound(t)
  {
    forall b | b in BranchNames(t.data) ensures IsRecord(t.data, Branch(b)) {
      assert Whitelisted(s.data, b, after, Branch(b));
    }
    forall k | k in t.data && (k.Branch? || k.Commit?)
      ensures IsRecord(t.data, k) && Whole(t.data, k) && HasParents(t, k)
    {
      assert IsRecord(s.data, k) && Whole(s.data, k) && Listed(s.data, after, k);
      ListedMarks(s, after, k);
      forall n | n in s.data[k].nodes ensures Node(n) in t.data { assert Node(n) in Marks(s.data, k); }
      assert Schema(s.data[k].schema) in Marks(s.data, k);
      if s.data[k].time > after {
        forall p | p in Elems(s.data[k].parents) ensures IsRecord(t.data, p) { ListedParents(s, after, k, p); }
      }
    }
  }

  /** Whatever is needed stays: every reached record, its index nodes and its schema. */
  lemma {:induction false} NeededStays(s: State, after: int, now: int, t: State, branch: string, k: Key, m: Key)
    requires Sound(s) && after >= s.removed && Collected(s, after, now, t)
    requires branch in BranchNames(s.data) && Reached(s.data, branch, after, k)
    ensures IsRecord(s.data, k) && (m in Marks(s.data, k) ==> m in t.data && t.data[m] == s.data[m])
  {
    var n: nat :| ReachedIn(s.data, branch, after, k, n);
    LookupsSucceed(s, branch, after, k, n);
    if m in Marks(s.data, k) {
      VisitedMarks(s, after, branch, k, m);
      MarksStored(s, k, m);
    }
  }

  lemma {:induction false} MarksStored(s: State, k: Key, m: Key)
    requires Sound(s) && IsRecord(s.data, k) && m in Marks(s.data, k)
    ensures m in s.data
  {
    assert Whole(s.data, k);
  }

  /** Nothing else stays: an old commit outside every branch's range is swept. */
  lemma {:induction false} OthersGo(s: State, after: int, now: int, t: State, k: Key)
    requires Sound(s) && now > s.clock && Collected(s, after, now, t) && k.Commit? && k in t.data
    ensures exists b, j :: b in BranchNames(s.data) && IsRecord(s.data, j) && Reached(s.data, b, after, j)
              && s.data[j] == s.data[k] && (j == k || j == Branch(b))
  {
    var b, j := VisitedFor(s, after, k);
  }

  // -------------------------------------------------- what operations leave, key by key

  /** The key is a reached record, an index node or the schema of one, or the commit at the
      head of its branch. */
  ghost predicate NeededBy(data: Data, after: int, b: string, j: Key, k: Key) {
    && b in BranchNames(data) && IsRecord(data, Branch(b)) && Reached(data, b, after, j) && IsRecord(data, j)
    && (k == j || k == Commit(data[Branch(b)].cid) || (k.Node? && k.n in data[j].nodes) || k == Schema(data[j].schema))
  }

  ghost predicate Needed(data: Data, after: int, k: Key) {
    exists b, j :: NeededBy(data, after, b, j, k)
  }

  lemma {:induction false} ListedNeeded(data: Data, after: int, k: Key)
    ensures Listed(data, after, k) <==> k == Branches || Needed(data, after, k)
  {
    if Listed(data, after, k) && k != Branches {
      var b :| b in BranchNames(data) && IsRecord(data, Branch(b)) && Whitelisted(data, b, after, k);
      assert ReachedIn(data, b, after, Branch(b), 0);
      if k == Branch(b) || k == Commit(data[Branch(b)].cid) {
        assert NeededBy(data, after, b, Branch(b), k);
      } else {
        var j :| Reached(data, b, after, j) && IsRecord(data, j) && k in Marks(data, j);
        assert NeededBy(data, after, b, j, k);
      }
    }
    if Needed(data, after, k) {
      var b, j :| NeededBy(data, after, b, j, k);
      assert Whitelisted(data, b, after, k) by { assert k == Commit(data[Branch(b)].cid) || k in Marks(data, j); }
    }
  }

  /** A collection leaves exactly the list of branches, what is needed, and what was written
      since it began: every other record, index node and schema goes. */
  lemma {:induction false} KeptExactly(s: State, after: int, now: int, t: State, k: Key)
    requires Collected(s, after, now, t)
    ensures k in t.data <==>
        k in s.data && (k == Branches || Needed(s.data, after, k) || (k in s.written && s.written[k] >= now))
    ensures k in t.data ==> t.data[k] == s.data[k]
  {
    ListedNeeded(s.data, after, k);
  }

  /** ... so nothing that was there before stays for long, unless some branch needs it. */
  lemma {:induction false} UnneededGo(s: State, after: int, now: int, t: State, k: Key)
    requires Sound(s) && after >= s.removed && now > s.clock && Collected(s, after, now, t)
    ensures k in t.data <==> k == Branches || Needed(s.data, after, k)
  {
    KeptExactly(s, after, now, t, k);
    if Needed(s.data, after, k) {
      var b, j :| NeededBy(s.data, after, b, j, k);
      assert Whole(s.data, j) && Whole(s.data, Branch(b));
    }
  }

  /** The keys were written now, and the times of the others are as they were. */
  ghost predicate Stamps(s: State, t: State, now: int, keys: set<Key>) {
    && (forall k :: k in t.written <==> k in s.written || k in keys)
    && (forall k :: k in t.written ==> t.written[k] == if k in keys then now else s.written[k])
  }

  /** Deleting a branch: exactly its name goes; the main branch and unknown ones are refused. */
  lemma {:induction false} DeleteIs(s: State, name: string, now: int)
    ensures var r := DeleteBranch(s, name, now);
            && (r.Done? <==> name != "db" && name in BranchNames(s.data))
            && (r.Done? ==>
                  && BranchNames(r.state.data) == BranchNames(s.data) - {name}
                  && r.state.data.Keys == s.data.Keys
                  && (forall k :: k in s.data && k != Branches ==> r.state.data[k] == s.data[k])
                  && Stamps(s, r.state, now, {Branches})
                  && r.state.cache == s.cache && r.state.removed == s.removed && r.state.clock == now)
  {}

  /** Branching off: the new name is added, with the record of its origin, and nothing else
      changes; a name that is there and an origin that is not are refused. */
  lemma {:induction false} BranchIs(s: State, from: Key, name: string, now: int)
    ensures var r := BranchFrom(s, from, name, now);
            && (r.Done? <==> name !in BranchNames(s.data) && IsRecord(s.data, from))
            && (r.Done? ==>
                  && BranchNames(r.state.data) == BranchNames(s.data) + {name}
                  && Branch(name) in r.state.data && r.state.data[Branch(name)] == s.data[from]
                  && r.state.data.Keys == s.data.Keys + {Branch(name), Branches}
                  && (forall k :: k in s.data && k != Branches && k != Branch(name) ==> r.state.data[k] == s.data[k])
                  && Stamps(s, r.state, now, {Branches, Branch(name)})
                  && r.state.cache == s.cache && r.state.removed == s.removed && r.state.clock == now)
  {}

  /** A parent that is named by its branch is recorded as the commit at the branch's head. */
  ghost predicate ParentIs(data: Data, given: Key, parent: Key) {
    if given.Branch? then IsRecord(data, given) && parent == Commit(data[given].cid) else parent == given
  }

  lemma {:induction false} HeadsAre(data: Data, parents: seq<Key>)
    ensures HeadCommits(data, parents).Known? <==> forall p :: p in parents && p.Branch? ==> IsRecord(data, p)
    ensures HeadCommits(data, parents).Known? ==>
        var commits := HeadCommits(data, parents).commits;
        |commits| == |parents| && forall i :: 0 <= i < |parents| ==> ParentIs(data, parents[i], commits[i])
  {
    if parents != [] {
      var init, last := parents[..|parents| - 1], parents[|parents| - 1];
      HeadsAre(data, init);
      assert parents == init + [last];
    }
  }

  /** The keys a commit writes. */
  function NewKeys(s: State, branch: string, cid: int, added: set<int>, schema: int): set<Key> {
    NodeKeys(added) + (if schema in s.cache then {} else {Schema(schema)}) + {Commit(cid), Branch(branch)}
  }

  ghost predicate CommitState(s: State, branch: string, parents: seq<Key>, cid: int, time: int, nodes: set<int>,
                              schema: int, now: int, keys: set<Key>, t: State) {
    && (forall k :: k in t.data <==> k in s.data || k in keys)
    && (forall k :: k in s.data && k !in keys ==> t.data[k] == s.data[k])
    && Commit(cid) in t.data && Branch(branch) in t.data
    && (var rec := t.data[Commit(cid)];
        && t.data[Branch(branch)] == rec && rec.Record? && rec.cid == cid && rec.time == time && rec.schema == schema
        && rec.nodes == nodes && |rec.parents| == |parents|
        && forall i :: 0 <= i < |parents| ==> ParentIs(s.data, parents[i], rec.parents[i]))
    && BranchNames(t.data) == BranchNames(s.data) && Stamps(s, t, now, keys)
    && t.cache == s.cache + {schema} && t.removed == s.removed && t.clock == now
  }

  lemma {:induction false} NewKeysAre(s: State, branch: string, rec: Value, added: set<int>)
    requires rec.Record?
    ensures var writes := Writes(s.cache, branch, rec, added);
            && writes.Keys == NewKeys(s, branch, rec.cid, added, rec.schema)
            && writes[Commit(rec.cid)] == rec && writes[Branch(branch)] == rec
  {
    var (writes, keys) := (Writes(s.cache, branch, rec, added), NewKeys(s, branch, rec.cid, added, rec.schema));
    forall k ensures k in writes <==> k in keys { WritesAre(s.cache, branch, rec, added, k); }
    WritesAre(s.cache, branch, rec, added, Commit(rec.cid));
    WritesAre(s.cache, branch, rec, added, Branch(branch));
  }

  lemma {:induction false} Written(s: State, branch: string, parents: seq<Key>, rec: Value, now: int, writes: Data,
                                   keys: set<Key>, t: State)
    requires rec.Record? && writes.Keys == keys && Commit(rec.cid) in keys && Branch(branch) in keys
             && Branches !in keys
    requires writes[Commit(rec.cid)] == rec && writes[Branch(branch)] == rec
    requires |rec.parents| == |parents| && forall i :: 0 <= i < |parents| ==>
        ParentIs(s.data, parents[i], rec.parents[i])
    requires t == State(s.data + writes, Stamped(s.written, keys, now), s.cache + {rec.schema}, s.removed, now)
    ensures CommitState(s, branch, parents, rec.cid, rec.time, rec.nodes, rec.schema, now, keys, t)
  {}

  /** A commit: one record, with the parents given, under its id and its branch, with its new
      index nodes and its schema; nothing else changes, the list of branches included. */
  lemma {:induction false} CommitIs(s: State, branch: string, parents: seq<Key>, cid: int, time: int, added: set<int>,
                                    shared: set<int>, schema: int, now: int)
    ensures var r := CommitTo(s, branch, parents, cid, time, added, shared, schema, now);
            && (r.Done? <==> forall p :: p in parents && p.Branch? ==> IsRecord(s.data, p))
            && (r.Done? ==> CommitState(s, branch, parents, cid, time, added + shared, schema, now,
                                        NewKeys(s, branch, cid, added, schema), r.state))
  {
    HeadsAre(s.data, parents);
    var r := CommitTo(s, branch, parents, cid, time, added, shared, schema, now);
    if r.Done? {
      var rec := Record(cid, HeadCommits(s.data, parents).commits, time, added + shared, schema);
      NewKeysAre(s, branch, rec, added);
      Written(s, branch, parents, rec, now, Writes(s.cache, branch, rec, added), NewKeys(s, branch, cid, added, schema),
          r.state);
    }
  }
}
