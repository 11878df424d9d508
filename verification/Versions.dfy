/** The store as an object whose keys are written and swept in place, and what holds over
    every run of commits, merges, branches and collections. */
module Versions {
  import opened Sequences
  import opened Gc

  /** The removal date of a collection that removes nothing by age. */
  const EPOCH := 0

  /** The state of a new database with its first commit. */
  function Created(rec: Value, now: int): State
    requires rec.Record?
  {
    var data := Writes({}, "db", rec, rec.nodes)[Branches := Names({"db"})];
    State(data, Stamped(map[], data.Keys, now), {rec.schema}, EPOCH, now)
  }

  lemma {:induction false} CreatedSound(rec: Value, now: int)
    requires rec.Record? && rec.parents == []
    ensures Sound(Created(rec, now))
  {
    var s := Created(rec, now);
    forall k ensures k in s.data <==> k in Writes({}, "db", rec, rec.nodes) || k == Branches {}
    forall k | k in s.data && (k.Branch? || k.Commit?)
      ensures IsRecord(s.data, k) && Whole(s.data, k) && HasParents(s, k)
    {
      WritesAre({}, "db", rec, rec.nodes, k);
      WritesAre({}, "db", rec, rec.nodes, Commit(rec.cid));
    }
    WritesAre({}, "db", rec, rec.nodes, Branch("db"));
  }

  class Store {
    var data: Data
    var written: map<Key, int>
    var cache: set<int>
    ghost var removed: int
    ghost var clock: int

    ghost function Now(): State
      reads this
    {
      State(data, written, cache, removed, clock)
    }

    /** `create-database`. */
    constructor (cid: int, time: int, nodes: set<int>, schema: int, now: int)
      ensures Now() == Created(Record(cid, [], time, nodes, schema), now)
      ensures Sound(Now())
    {
      var rec := Record(cid, [], time, nodes, schema);
      data := Created(rec, now).data;
      written := Created(rec, now).written;
      cache := {schema};
      removed := EPOCH;
      clock := now;
      CreatedSound(rec, now);
    }

    method CommitDb(branch: string, parents: seq<Key>, cid: int, time: int, added: set<int>, shared: set<int>,
                    schema: int, now: int)
      returns (ok: bool)
      modifies this
      ensures var r := CommitTo(old(Now()), branch, parents, cid, time, added, shared, schema, now);
              ok == r.Done? && Now() == if ok then r.state else old(Now())
    {
      var heads := HeadCommits(data, parents);
      ok := heads.Known?;
      if ok {
        var writes := Writes(cache, branch, Record(cid, heads.commits, time, added + shared, schema), added);
        data := data + writes;
        written := Stamped(written, writes.Keys, now);
        cache := cache + {schema};
        clock := now;
      }
    }

    /** `merge!`: a commit with further parents, of which there must be one. */
    method Merge(branch: string, parents: seq<Key>, cid: int, time: int, added: set<int>, shared: set<int>,
                 schema: int, now: int)
      returns (ok: bool)
      modifies this
      ensures var r := CommitTo(old(Now()), branch, parents + [Branch(branch)], cid, time, added, shared, schema, now);
              ok == (parents != [] && r.Done?) && Now() == if ok then r.state else old(Now())
    {
      ok := parents != [];
      if ok { ok := CommitDb(branch, parents + [Branch(branch)], cid, time, added, shared, schema, now); }
    }

    method AddBranch(from: Key, name: string, now: int) returns (ok: bool)
      modifies this
      ensures var r := BranchFrom(old(Now()), from, name, now);
              ok == r.Done? && Now() == if ok then r.state else old(Now())
    {
      ok := name !in BranchNames(data) && IsRecord(data, from);
      if ok {
        var writes := map[Branch(name) := data[from], Branches := Names(BranchNames(data) + {name})];
        data := data + writes;
        written := Stamped(written, writes.Keys, now);
        clock := now;
      }
    }

    method RemoveBranch(name: string, now: int) returns (ok: bool)
      modifies this
      ensures var r := DeleteBranch(old(Now()), name, now); ok == r.Done? && Now() == if ok then r.state else old(Now())
    {
      ok := name != "db" && name in BranchNames(data);
      if ok {
        data := data[Branches := Names(BranchNames(data) - {name})];
        written := Stamped(written, {Branches}, now);
        clock := now;
      }
    }

    /** The whitelist of all branches, unless a lookup fails. */
    method Whitelist(after: int) returns (r: Marked)
      ensures r.Reachable? ==> forall k :: k in r.keys <==> Listed(data, after, k)
      ensures r.Missing? ==>
          exists b :: b in BranchNames(data) && Reached(data, b, after, r.key) && !IsRecord(data, r.key)
    {
      var todo, keys := BranchNames(data), {Branches};
      while todo != {}
        invariant todo <= BranchNames(data)
        invariant forall k :: k in keys <==> k == Branches || ListedBy(data, after, BranchNames(data) - todo, k)
        decreases todo
      {
        var b :| b in todo;
        var one := ReachableInBranch(data, b, after);
        if one.Missing? { return one; }
        ListedMore(data, after, BranchNames(data) - todo, b, BranchNames(data) - (todo - {b}));
        keys := keys + one.keys;
        todo := todo - {b};
      }
      assert BranchNames(data) - todo == BranchNames(data);
      r := Reachable(keys);
    }

    /** `gc-storage!`. */
    method Collect(after: int, now: int) returns (ok: bool)
      modifies this
      ensures ok ==> Collected(old(Now()), after, now, Now())
      ensures !ok ==> data == old(data) && written == old(written) && cache == {}
      ensures !ok ==> exists b, k :: b in BranchNames(data) && Reached(data, b, after, k) && !IsRecord(data, k)
    {
      cache := {};
      var r := Whitelist(after);
      ok := r.Reachable?;
      if ok {
        data := map k | k in data && (k in r.keys || (k in written && written[k] >= now)) :: data[k];
        removed := after;
        clock := now;
      }
    }
  }

  ghost predicate ListedBy(data: Data, after: int, names: set<string>, k: Key) {
    exists b :: b in names && IsRecord(data, Branch(b)) && Whitelisted(data, b, after, k)
  }

  lemma {:induction false} HeadReached(data: Data, b: string, after: int)
    ensures Reached(data, b, after, Branch(b))
  {
    assert ReachedIn(data, b, after, Branch(b), 0);
  }

  lemma {:induction false} ListedMore(data: Data, after: int, names: set<string>, b: string, more: set<string>)
    requires IsRecord(data, Branch(b)) && more == names + {b}
    ensures forall k :: ListedBy(data, after, more, k) <==>
        ListedBy(data, after, names, k) || Whitelisted(data, b, after, k)
  {}

  // ------------------------------------------------------------------------- runs

  datatype Op =
    | CommitOp(branch: string, parents: seq<Key>, cid: int, time: int, added: set<int>, shared: set<int>, schema: int)
    | BranchOp(from: Key, name: string)
    | DeleteOp(name: string)
    | CollectOp(after: int)

  /** What callers see to: new commit ids, parents and shared index nodes that exist, and
      removal dates that do not go back. Time passes between operations. */
  ghost predicate Allowed(s: State, op: Op, now: int) {
    now > s.clock &&
    match op
    case CommitOp(_, parents, cid, _, _, shared, _) =>
      && Commit(cid) !in s.data
      && (forall p :: p in Elems(parents) ==> (p.Branch? || p.Commit?) && (p.Commit? ==> IsRecord(s.data, p)))
      && (forall n :: n in shared ==> Node(n) in s.data)
    case BranchOp(_, _) => true
    case DeleteOp(_) => true
    case CollectOp(after) => after >= s.removed
  }

  ghost predicate Steps(s: State, op: Op, now: int, t: State) {
    match op
    case CommitOp(branch, parents, cid, time, added, shared, schema) =>
      t == (match CommitTo(s, branch, parents, cid, time, added, shared, schema, now) case Done(u) => u case Refused =>
          s)
    case BranchOp(from, name) => t == (match BranchFrom(s, from, name, now) case Done(u) => u case Refused => s)
    case DeleteOp(name) => t == (match DeleteBranch(s, name, now) case Done(u) => u case Refused => s)
    case CollectOp(after) => Collected(s, after, now, t)
  }

  datatype Turn = Turn(op: Op, now: int, after: State)

  ghost predicate RunFrom(s: State, run: seq<Turn>) {
    run == [] ||
    var (init, last) := (run[..|run| - 1], run[|run| - 1]);
    RunFrom(s, init) && Allowed(EndOf(s, init), last.op, last.now)
      && Steps(EndOf(s, init), last.op, last.now, last.after)
  }

  ghost function EndOf(s: State, run: seq<Turn>): State {
    if run == [] then s else run[|run| - 1].after
  }

  lemma {:induction false} StepKeeps(s: State, op: Op, now: int, t: State)
    requires Sound(s) && Allowed(s, op, now) && Steps(s, op, now, t)
    ensures Sound(t)
  {
    match op
    case CommitOp(branch, parents, cid, time, added, shared, schema) =>
      CommitKeeps(s, branch, parents, cid, time, added, shared, schema, now);
    case BranchOp(from, name) => BranchKeeps(s, from, name, now);
    case DeleteOp(name) => DeleteKeeps(s, name, now);
    case CollectOp(after) => CollectKeeps(s, after, now, t);
  }

  /** Over every run the store stays sound: each stored commit is whole, each branch has its
      head, and each commit newer than what was removed has its parents. */
  lemma {:induction false} RunSound(s: State, run: seq<Turn>)
    requires Sound(s) && RunFrom(s, run)
    ensures Sound(EndOf(s, run))
  {
    if run != [] {
      var last := run[|run| - 1];
      RunSound(s, run[..|run| - 1]);
      StepKeeps(EndOf(s, run[..|run| - 1]), last.op, last.now, last.after);
    }
  }

  /** ... so no collection of a run ever looks up a swept commit. */
  lemma {:induction false} RunLookups(s: State, run: seq<Turn>, after: int, b: string, k: Key)
    requires Sound(s) && RunFrom(s, run) && after >= EndOf(s, run).removed
    requires b in BranchNames(EndOf(s, run).data) && Reached(EndOf(s, run).data, b, after, k)
    ensures IsRecord(EndOf(s, run).data, k) && Whole(EndOf(s, run).data, k)
  {
    RunSound(s, run);
    var n: nat :| ReachedIn(EndOf(s, run).data, b, after, k, n);
    LookupsSucceed(EndOf(s, run), b, after, k, n);
  }

  // ------------------------------------------------------------- why the conditions

  /** A merge with a parent that is not in the store makes the next collection fail. */
  lemma {:induction false} MissingParent(s: State, branch: string, parents: seq<Key>, cid: int, time: int,
                                         added: set<int>, shared: set<int>, schema: int, now: int, p: Key, after: int)
    requires branch in BranchNames(s.data) && p.Commit? && p.id != cid && p !in s.data && p in Elems(parents)
             && after < time
    ensures var r := CommitTo(s, branch, parents, cid, time, added, shared, schema, now);
            r.Done? ==> Reached(r.state.data, branch, after, p) && !IsRecord(r.state.data, p)
  {
    var r := CommitTo(s, branch, parents, cid, time, added, shared, schema, now);
    if r.Done? {
      var commits := HeadCommits(s.data, parents).commits;
      var rec := Record(cid, commits, time, added + shared, schema);
      ParentKept(s.data, parents, p);
      WritesAre(s.cache, branch, rec, added, Branch(branch));
      WritesAre(s.cache, branch, rec, added, p);
      HeadReached(r.state.data, branch, after);
      ReachedParent(r.state.data, branch, after, Branch(branch), p);
    }
  }

  lemma {:induction false} ParentKept(data: Data, parents: seq<Key>, p: Key)
    requires HeadCommits(data, parents).Known? && p.Commit? && p in Elems(parents)
    ensures p in Elems(HeadCommits(data, parents).commits)
  {
    var init, last := HeadCommits(data, parents[..|parents| - 1]), parents[|parents| - 1];
    var head := if last.Branch? then Commit(data[last].cid) else last;
    assert (init.commits + [head])[..|init.commits|] == init.commits;
    if p != last { ParentKept(data, parents[..|parents| - 1], p); }
  }

  /** The state after a collection that finds everything it looks up. */
  ghost function Swept(s: State, after: int, now: int): State {
    var kept := map k | k in s.data && (Listed(s.data, after, k) || (k in s.written && s.written[k] >= now)) ::
        s.data[k];
    State(kept, map k | k in kept && k in s.written :: s.written[k], {}, after, now)
  }

  /** A head that is out of range is all that its branch reaches. */
  lemma {:induction false} HeadOnly(data: Data, b: string, after: int, k: Key)
    requires IsRecord(data, Branch(b)) && data[Branch(b)].time <= after && Reached(data, b, after, k)
    ensures k == Branch(b)
  {
    var n: nat :| ReachedIn(data, b, after, k, n);
    ReachedLeast(data, b, after, {Branch(b)}, k, n);
  }

  /** Removal dates that go back: a database is created and committed to, a collection with a
      date after both commits sweeps the first one, and a collection with an earlier date looks
      it up. */
  lemma {:induction false} EarlierDate(first: Value, begun: int, cid: int, time: int, now: int, date: int, later: int,
                                      earlier: int)
    returns (run: seq<Turn>)
    requires first.Record? && cid != first.cid && begun < now < later && earlier < time <= date && EPOCH <= date
    ensures |run| == 2 && run[0].op.CommitOp? && run[1].op == CollectOp(date) && RunFrom(Created(first, begun), run)
    ensures var s := EndOf(Created(first, begun), run);
            Reached(s.data, "db", earlier, Commit(first.cid)) && !IsRecord(s.data, Commit(first.cid))
  {
    var start := Created(first, begun);
    var op := CommitOp("db", [Branch("db")], cid, time, {}, {}, first.schema);
    CreatedIs(first, begun);
    var s := NextCommit(start, cid, time, first.schema, now);
    var t := Sweeps(s, date, later);
    run := [Turn(op, now, s), Turn(CollectOp(date), later, t)];
    TwoTurns(start, op, now, s, CollectOp(date), later, t);
    FirstSwept(s, date, later, t, first.cid, earlier);
  }

  lemma {:induction false} Sweeps(s: State, date: int, now: int) returns (t: State)
    requires now > s.clock && date >= s.removed
    ensures t == Swept(s, date, now) && Allowed(s, CollectOp(date), now) && Steps(s, CollectOp(date), now, t)
  {
    t := Swept(s, date, now);
    assert Collected(s, date, now, t);
  }

  lemma {:induction false} CreatedIs(rec: Value, now: int)
    requires rec.Record?
    ensures var s := Created(rec, now);
            && Branch("db") in s.data && s.data[Branch("db")] == rec && Commit(rec.cid) in s.written
              && s.written[Commit(rec.cid)] == now
            && BranchNames(s.data) == {"db"} && s.clock == now && s.removed == EPOCH
            && forall k: Key :: k.Commit? && k in s.data ==> k == Commit(rec.cid)
  {
    var s := Created(rec, now);
    forall k ensures k in s.data <==> k in Writes({}, "db", rec, rec.nodes) || k == Branches {}
    forall k: Key | k.Commit? ensures k in s.data <==> k == Commit(rec.cid) { WritesAre({}, "db", rec, rec.nodes, k); }
    WritesAre({}, "db", rec, rec.nodes, Branch("db"));
  }

  /** A commit to the main branch, without new index nodes. */
  lemma {:induction false} NextCommit(s: State, cid: int, time: int, schema: int, now: int) returns (t: State)
    requires IsRecord(s.data, Branch("db")) && Commit(cid) !in s.data && now > s.clock
    ensures var op := CommitOp("db", [Branch("db")], cid, time, {}, {}, schema);
            Allowed(s, op, now) && Steps(s, op, now, t)
    ensures t.clock == now && t.removed == s.removed && BranchNames(t.data) == BranchNames(s.data)
    ensures Branch("db") in t.data
            && t.data[Branch("db")] == Record(cid, [Commit(s.data[Branch("db")].cid)], time, {}, schema)
    ensures forall k: Key :: k.Commit? && k != Commit(cid) && k in s.written ==>
        k in t.written && t.written[k] == s.written[k]
  {
    var parents, rec := [Branch("db")], Record(cid, [Commit(s.data[Branch("db")].cid)], time, {}, schema);
    OneParent(Branch("db"));
    assert parents[..0] == [] && HeadCommits(s.data, []) == Known([]);
    assert HeadCommits(s.data, parents) == Known([] + [Commit(s.data[Branch("db")].cid)]);
    t := CommitTo(s, "db", parents, cid, time, {}, {}, schema, now).state;
    var writes := Writes(s.cache, "db", rec, {});
    var none: set<int> := {};
    assert none + none == none && [] + rec.parents == rec.parents;
    assert t.data == s.data + writes;
    WritesAre(s.cache, "db", rec, {}, Branch("db"));
    WritesAre(s.cache, "db", rec, {}, Branches);
    forall k: Key | k.Commit? && k != Commit(cid) ensures k !in writes { WritesAre(s.cache, "db", rec, {}, k); }
  }

  lemma {:induction false} TwoTurns(start: State, op: Op, now: int, s: State, next: Op, later: int, t: State)
    requires Allowed(start, op, now) && Steps(start, op, now, s) && Allowed(s, next, later) && Steps(s, next, later, t)
    ensures RunFrom(start, [Turn(op, now, s), Turn(next, later, t)])
  {
    var run := [Turn(op, now, s), Turn(next, later, t)];
    assert run[..1] == [Turn(op, now, s)] && [Turn(op, now, s)][..0] == [];
    assert RunFrom(start, []) && EndOf(start, []) == start;
    assert RunFrom(start, [Turn(op, now, s)]);
  }

  lemma {:induction false} OneParent(k: Key)
    ensures Elems([k]) == {k}
  {
    assert [k][..0] == [];
  }

  lemma {:induction false} FirstSwept(s: State, date: int, now: int, t: State, gone: int, earlier: int)
    requires t == Swept(s, date, now) && Branch("db") in s.data && BranchNames(s.data) == {"db"}
    requires var rec := s.data[Branch("db")];
             rec.Record? && rec.parents == [Commit(gone)] && rec.cid != gone && earlier < rec.time <= date
    requires Commit(gone) in s.written && s.written[Commit(gone)] < now
    ensures Reached(t.data, "db", earlier, Commit(gone)) && !IsRecord(t.data, Commit(gone))
  {
    if Listed(s.data, date, Commit(gone)) {
      var j :| Reached(s.data, "db", date, j) && IsRecord(s.data, j) && Commit(gone) in Marks(s.data, j);
      HeadOnly(s.data, "db", date, j);
    }
    HeadReached(s.data, "db", date);
    assert Whitelisted(s.data, "db", date, Branch("db")) && Listed(s.data, date, Branch("db"));
    HeadReached(t.data, "db", earlier);
    OneParent(Commit(gone));
    ReachedParent(t.data, "db", earlier, Branch("db"), Commit(gone));
  }
}
