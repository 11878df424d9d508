/** What pull promises: it ends on every database, with what the direct evaluation yields. */
module PullProps {
  import opened Options
  import opened Pull
  import opened PullEval

  // ------------------------------------------------------------------ whole pulls

  /** Every id a pull can meet. */
  ghost function Ids(db: Db, eids: seq<int>): set<int> {
    (set f | f in db.facts :: f.e) + (set f | f in db.facts :: f.v) + (set i | 0 <= i < |eids| :: eids[i])
  }

  ghost function Start(pat: Pattern, eids: seq<int>, multi: bool): Stack {
    [Fresh(pat, eids, multi, None, NO_REC)]
  }

  /** The result of a pull, read off the pattern directly. */
  ghost function Expected(db: Db, pat: Pattern, eids: seq<int>): seq<Val> {
    IdsIn(db, eids, eids);
    EvalEids(db, Ids(db, eids), pat, eids, None, NO_REC)
  }

  lemma {:induction false} IdsIn(db: Db, eids: seq<int>, some: seq<int>)
    requires forall i :: 0 <= i < |some| ==> some[i] in Ids(db, eids)
    ensures Covers(db, Ids(db, eids)) && AllIn(Ids(db, eids), some)
  {
    if some != [] { IdsIn(db, eids, some[1..]); }
  }

  /** The frame machine ends, and yields what the direct evaluation does. */
  lemma {:induction false} PullExact(db: Db, pat: Pattern, eids: seq<int>, multi: bool)
    ensures Reaches(db, Start(pat, eids, multi), [DoneF(Expected(db, pat, eids), multi, None)])
  {
    var f, r := Fresh(pat, eids, multi, None, NO_REC), Expected(db, pat, eids);
    IdsIn(db, eids, eids);
    EidsRun(db, Ids(db, eids), f, []);
    assert [f] + [] == Start(pat, eids, multi);
    assert [] + r == r;
    assert [DoneF(r, multi, None)] + [] == [DoneF(r, multi, None)];
  }

  lemma {:induction false} FinalStays(db: Db, s: Stack, n: nat)
    requires Final(s)
    ensures Run(db, s, n) == s
    decreases n
  {
    if n > 0 { FinalStays(db, s, n - 1); }
  }

  lemma {:induction false} RunOn(db: Db, s: Stack, n: nat) returns (fewer: nat)
    requires !Final(s) && Final(Run(db, s, n))
    ensures fewer < n && Run(db, Step(db, s), fewer) == Run(db, s, n)
  {
    fewer := n - 1;
  }

  /** The interpreter as an object: its stack is replaced turn by turn, on a run that ends
      with the expected results. */
  class Machine {
    const db: Db
    ghost const expected: seq<Val>
    ghost const many: bool
    ghost var left: nat
    var stack: Stack

    ghost predicate Valid()
      reads this
    {
      Run(db, stack, left) == [DoneF(expected, many, None)]
    }

    constructor (db: Db, pat: Pattern, eids: seq<int>, multi: bool)
      ensures Valid() && expected == Expected(db, pat, eids)
    {
      PullExact(db, pat, eids, multi);
      ghost var n: nat :| Run(db, Start(pat, eids, multi), n) == [DoneF(Expected(db, pat, eids), multi, None)];
      this.db := db;
      expected := Expected(db, pat, eids);
      many := multi;
      left := n;
      stack := [Fresh(pat, eids, multi, None, NO_REC)];
    }

    /** A turn brings the end nearer. */
    method Turn()
      requires Valid() && !Final(stack)
      modifies this
      ensures Valid() && left < old(left) && stack == Step(db, old(stack))
    {
      ghost var fewer := RunOn(db, stack, left);
      stack := Step(db, stack);
      left := fewer;
    }

    /** `pull-pattern`: turns until a single finished frame is left. */
    method Finish() returns (result: seq<Val>)
      requires Valid()
      modifies this
      ensures result == expected
    {
      while !Final(stack)
        invariant Valid()
        decreases left
      {
        Turn();
      }
      FinalStays(db, stack, left);
      result := stack[0].results;
    }
  }

  /** `pull-spec`. */
  method PullSpec(db: Db, pat: Pattern, eids: seq<int>, multi: bool) returns (result: Option<Val>)
    ensures result == ResultOf(Expected(db, pat, eids), multi)
  {
    var m := new Machine(db, pat, eids, multi);
    var results := m.Finish();
    result := ResultOf(results, multi);
  }
}
