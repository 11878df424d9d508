/** Decision trees compiled from pattern tables, and from sorted index lists. */
module DecisionTrees {

  /** `_` asks for a false element, `*` for any, every other symbol for a true one. */
  datatype Class = Negative | Any | Positive

  datatype Row<E> = Row(pattern: seq<Class>, expr: E)

  datatype Tree<E> = Leaf(expr: E) | If(pos: nat, yes: Tree<E>, no: Tree<E>)

  datatype Compiled<E> = Ok(tree: Tree<E>) | Raised

  // ---------------------------------------------------------------- match-vector

  predicate Sized<E>(rows: seq<Row<E>>, size: nat) {
    rows == [] || (|rows[0].pattern| == size && Sized(rows[1..], size))
  }

  /** The rows of one class at a position, in order. */
  function Group<E>(rows: seq<Row<E>>, pos: nat, size: nat, c: Class): (r: seq<Row<E>>)
    requires Sized(rows, size) && pos < size
    ensures Sized(r, size)
  {
    if rows == [] then []
    else
      var rest := Group(rows[1..], pos, size, c);
      if rows[0].pattern[pos] == c then
        var r := [rows[0]] + rest;
        assert r[1..] == rest;
        r
      else rest
  }

  /** The rows that stay when the element is true, or false. */
  function Side<E>(rows: seq<Row<E>>, pos: nat, size: nat, yes: bool): (r: seq<Row<E>>)
    requires Sized(rows, size) && pos < size
    ensures Sized(r, size)
  {
    var (own, any) := (Group(rows, pos, size, if yes then Positive else Negative), Group(rows, pos, size, Any));
    SizedConcat(own, any, size);
    own + any
  }

  lemma {:induction false} SizedConcat<E>(s: seq<Row<E>>, t: seq<Row<E>>, size: nat)
    ensures Sized(s + t, size) <==> Sized(s, size) && Sized(t, size)
  {
    if s == [] {
      assert s + t == t;
    } else {
      assert (s + t)[1..] == s[1..] + t;
      SizedConcat(s[1..], t, size);
    }
  }

  /** `-match-vector`: no test at a position where every row takes anything; at a leaf
      there must be exactly one row. */
  function Compile<E>(rows: seq<Row<E>>, pos: nat, size: nat): Compiled<E>
    requires Sized(rows, size) && pos <= size
    decreases size - pos
  {
    if pos < size then
      if Group(rows, pos, size, Any) != [] && Group(rows, pos, size, Positive) == []
        && Group(rows, pos, size, Negative) == [] then
        Compile(Group(rows, pos, size, Any), pos + 1, size)
      else
        var (yes, no) :=
            (Compile(Side(rows, pos, size, true), pos + 1, size), Compile(Side(rows, pos, size, false), pos + 1, size));
        if yes.Raised? || no.Raised? then Raised else Ok(If(pos, yes.tree, no.tree))
    else if |rows| != 1 then Raised
    else Ok(Leaf(rows[0].expr))
  }

  function Eval<E>(t: Tree<E>, input: seq<bool>): E {
    match t
    case Leaf(e) => e
    case If(pos, yes, no) => if pos < |input| && input[pos] then Eval(yes, input) else Eval(no, input)
  }

  predicate Fits(c: Class, b: bool) {
    c == Any || (c == Positive) == b
  }

  /** The pattern matches the input from a position on. */
  predicate Matches(pattern: seq<Class>, input: seq<bool>, pos: nat)
    requires |pattern| == |input|
    decreases |input| - pos
  {
    pos >= |input| || (Fits(pattern[pos], input[pos]) && Matches(pattern, input, pos + 1))
  }

  /** The rows that match. */
  function Hits<E>(rows: seq<Row<E>>, input: seq<bool>, pos: nat): (r: seq<E>)
    requires Sized(rows, |input|)
  {
    if rows == [] then [] else
      (if Matches(rows[0].pattern, input, pos) then [rows[0].expr] else []) + Hits(rows[1..], input, pos)
  }

  lemma {:induction false} HitsConcat<E>(s: seq<Row<E>>, t: seq<Row<E>>, input: seq<bool>, pos: nat)
    requires Sized(s, |input|) && Sized(t, |input|)
    ensures Sized(s + t, |input|) && Hits(s + t, input, pos) == Hits(s, input, pos) + Hits(t, input, pos)
  {
    SizedConcat(s, t, |input|);
    if s == [] {
      assert s + t == t;
      assert [] + Hits(t, input, pos) == Hits(t, input, pos);
    } else {
      var first := if Matches(s[0].pattern, input, pos) then [s[0].expr] else [];
      assert (s + t)[1..] == s[1..] + t && (s + t)[0] == s[0];
      HitsConcat(s[1..], t, input, pos);
      assert Hits(s + t, input, pos) == first + Hits(s[1..] + t, input, pos);
      assert Hits(s, input, pos) == first + Hits(s[1..], input, pos);
    }
  }

  /** How often a result occurs among the matching rows. */
  function Count<E(==)>(s: seq<E>, e: E): nat {
    if s == [] then 0 else (if s[0] == e then 1 else 0) + Count(s[1..], e)
  }

  lemma {:induction false} CountConcat<E>(s: seq<E>, t: seq<E>, e: E)
    ensures Count(s + t, e) == Count(s, e) + Count(t, e)
  {
    if s == [] {
      assert s + t == t;
    } else {
      assert (s + t)[1..] == s[1..] + t;
      CountConcat(s[1..], t, e);
    }
  }

  /** Splitting the rows at a position keeps the matching ones, as a bag. */
  lemma {:induction false} SideHits<E>(rows: seq<Row<E>>, input: seq<bool>, pos: nat, next: nat, e: E)
    requires Sized(rows, |input|) && pos < |input| && next == pos + 1
    ensures Count(Hits(Side(rows, pos, |input|, input[pos]), input, next), e) == Count(Hits(rows, input, pos), e)
    ensures |Hits(Side(rows, pos, |input|, input[pos]), input, next)| == |Hits(rows, input, pos)|
  {
    var own := if input[pos] then Positive else Negative;
    GroupsHit(rows, input, pos, own, e);
    HitsConcat(Group(rows, pos, |input|, own), Group(rows, pos, |input|, Any), input, next);
    CountConcat(Hits(Group(rows, pos, |input|, own), input, next), Hits(Group(rows, pos, |input|, Any), input, next),
        e);
  }

  lemma {:induction false} GroupsHit<E>(rows: seq<Row<E>>, input: seq<bool>, pos: nat, own: Class, e: E)
    requires Sized(rows, |input|) && pos < |input| && own == if input[pos] then Positive else Negative
    ensures Count(Hits(rows, input, pos), e)
         == Count(Hits(Group(rows, pos, |input|, own), input, pos + 1), e)
             + Count(Hits(Group(rows, pos, |input|, Any), input, pos + 1), e)
    ensures |Hits(rows, input, pos)|
         == |Hits(Group(rows, pos, |input|, own), input, pos + 1)|
             + |Hits(Group(rows, pos, |input|, Any), input, pos + 1)|
  {
    if rows != [] {
      GroupsHit(rows[1..], input, pos, own, e);
      var first := if Matches(rows[0].pattern, input, pos) then [rows[0].expr] else [];
      CountConcat(first, Hits(rows[1..], input, pos), e);
      assert first != [] ==> first[1..] == [];
      GroupHits(rows, input, pos, own, e);
      GroupHits(rows, input, pos, Any, e);
    }
  }

  lemma {:induction false} GroupHits<E>(rows: seq<Row<E>>, input: seq<bool>, pos: nat, c: Class, e: E)
    requires Sized(rows, |input|) && pos < |input| && rows != []
    ensures var one := rows[0].pattern[pos] == c && Matches(rows[0].pattern, input, pos + 1);
            && Count(Hits(Group(rows, pos, |input|, c), input, pos + 1), e)
               == (if one && rows[0].expr == e then 1 else 0)
                   + Count(Hits(Group(rows[1..], pos, |input|, c), input, pos + 1), e)
            && |Hits(Group(rows, pos, |input|, c), input, pos + 1)|
               == (if one then 1 else 0) + |Hits(Group(rows[1..], pos, |input|, c), input, pos + 1)|
  {
    var rest := Group(rows[1..], pos, |input|, c);
    if rows[0].pattern[pos] == c {
      assert ([rows[0]] + rest)[1..] == rest;
      var first := if Matches(rows[0].pattern, input, pos + 1) then [rows[0].expr] else [];
      assert Hits([rows[0]] + rest, input, pos + 1) == first + Hits(rest, input, pos + 1);
      CountConcat(first, Hits(rest, input, pos + 1), e);
      assert first != [] ==> first[1..] == [];
    }
  }

  /** Only one side of a test matters, and none where every row takes anything. */
  lemma {:induction false} CompileStep<E>(rows: seq<Row<E>>, input: seq<bool>, pos: nat, next: nat)
    requires Sized(rows, |input|) && pos < |input| && next == pos + 1
    ensures var c, side := Compile(rows, pos, |input|), Compile(Side(rows, pos, |input|, input[pos]), next, |input|);
            c.Ok? ==> side.Ok? && Eval(c.tree, input) == Eval(side.tree, input)
    ensures Compile(Side(rows, pos, |input|, true), next, |input|).Ok?
            && Compile(Side(rows, pos, |input|, false), next, |input|).Ok?
            ==> Compile(rows, pos, |input|).Ok?
  {
    var any := Group(rows, pos, |input|, Any);
    if any != [] && Group(rows, pos, |input|, Positive) == [] && Group(rows, pos, |input|, Negative) == [] {
      assert Side(rows, pos, |input|, true) == any && Side(rows, pos, |input|, false) == any;
    }
  }

  /** The tree returns the row that matches, and there is exactly one. */
  lemma {:induction false} CompileHits<E>(rows: seq<Row<E>>, input: seq<bool>, pos: nat, next: nat)
    requires Sized(rows, |input|) && pos <= |input| && next == pos + 1 && Compile(rows, pos, |input|).Ok?
    ensures |Hits(rows, input, pos)| == 1
            && Count(Hits(rows, input, pos), Eval(Compile(rows, pos, |input|).tree, input)) == 1
    decreases |input| - pos
  {
    if pos < |input| {
      var side := Side(rows, pos, |input|, input[pos]);
      CompileStep(rows, input, pos, next);
      CompileHits(side, input, next, next + 1);
      SideHits(rows, input, pos, next, Eval(Compile(side, next, |input|).tree, input));
    } else {
      assert rows[1..] == [] && Hits(rows, input, pos) == [rows[0].expr] + [];
      assert [rows[0].expr][1..] == [];
    }
  }

  lemma {:induction false} OnlyHit<E>(rows: seq<Row<E>>, input: seq<bool>, e: E)
    requires Sized(rows, |input|) && Compile(rows, 0, |input|).Ok? && Hits(rows, input, 0) == [e]
    ensures Eval(Compile(rows, 0, |input|).tree, input) == e
  {
    CompileHits(rows, input, 0, 1);
    assert [e][1..] == [];
    assert Count([e], Eval(Compile(rows, 0, |input|).tree, input)) == 1;
  }

  /** Changing positions already passed does not change the matches. */
  lemma {:induction false} MatchesFrame(pattern: seq<Class>, input: seq<bool>, other: seq<bool>, pos: nat)
    requires |pattern| == |input| == |other| && forall i :: pos <= i < |input| ==> input[i] == other[i]
    ensures Matches(pattern, input, pos) == Matches(pattern, other, pos)
    decreases |input| - pos
  {
    if pos < |input| { MatchesFrame(pattern, input, other, pos + 1); }
  }

  lemma {:induction false} HitsFrame<E>(rows: seq<Row<E>>, input: seq<bool>, other: seq<bool>, pos: nat)
    requires |input| == |other| && Sized(rows, |input|) && forall i :: pos <= i < |input| ==> input[i] == other[i]
    ensures Hits(rows, input, pos) == Hits(rows, other, pos)
  {
    if rows != [] {
      MatchesFrame(rows[0].pattern, input, other, pos);
      HitsFrame(rows[1..], input, other, pos);
    }
  }

  /** Some input matches no row, or more than one. */
  lemma {:induction false} RejectedInput<E>(rows: seq<Row<E>>, pos: nat, next: nat, input: seq<bool>)
    returns (bad: seq<bool>)
    requires Sized(rows, |input|) && pos <= |input| && next == pos + 1 && Compile(rows, pos, |input|).Raised?
    ensures |bad| == |input| && |Hits(rows, bad, pos)| != 1
    decreases |input| - pos
  {
    if pos == |input| {
      AllHit(rows, input, pos);
      bad := input;
    } else {
      CompileStep(rows, input, pos, next);
      var yes := Compile(Side(rows, pos, |input|, true), next, |input|).Raised?;
      var side := Side(rows, pos, |input|, yes);
      bad := RejectedInput(side, next, next + 1, input);
      var fixed := bad[pos := yes];
      HitsFrame(side, bad, fixed, next);
      if |rows| > 0 { SideHits(rows, fixed, pos, next, rows[0].expr); } else { assert side == []; }
      bad := fixed;
    }
  }

  lemma {:induction false} AllHit<E>(rows: seq<Row<E>>, input: seq<bool>, pos: nat)
    requires Sized(rows, |input|) && pos >= |input|
    ensures |Hits(rows, input, pos)| == |rows|
  {
    if rows != [] { AllHit(rows[1..], input, pos); }
  }

  /** A table compiles if and only if every input matches exactly one row: overlapping and
      incomplete tables are rejected. */
  lemma {:induction false} CompilesExactly<E>(rows: seq<Row<E>>, size: nat)
    requires Sized(rows, size)
    ensures Compile(rows, 0, size).Ok? <==> forall input: seq<bool> :: |input| == size ==> |Hits(rows, input, 0)| == 1
  {
    if Compile(rows, 0, size).Ok? {
      forall input: seq<bool> | |input| == size ensures |Hits(rows, input, 0)| == 1 { CompileHits(rows, input, 0, 1); }
    } else {
      var some := seq(size, i => true);
      var bad := RejectedInput(rows, 0, 1, some);
    }
  }

  // ---------------------------------------------------------- range-subset-tree

  datatype MaskSlot = Unset | At(n: nat)

  /** A test of the first index of what is left of the input; `empty` is the leaf reached
      when nothing is left. */
  datatype RangeTree = Found(inds: seq<nat>, mask: seq<MaskSlot>)
    | Next(at: nat, inds: seq<nat>, mask: seq<MaskSlot>, hit: RangeTree, miss: RangeTree)

  function RangeSubsetTree(size: nat, at: nat, inds: seq<nat>, mask: seq<MaskSlot>): RangeTree
    requires at <= size == |mask|
    decreases size - at
  {
    if at == size then Found(inds, mask)
    else Next(at, inds, mask,
              RangeSubsetTree(size, at + 1, inds + [at], mask[at := At(|inds|)]),
              RangeSubsetTree(size, at + 1, inds, mask))
  }

  function Reach(t: RangeTree, input: seq<nat>): (seq<nat>, seq<MaskSlot>) {
    match t
    case Found(inds, mask) => (inds, mask)
    case Next(at, inds, mask, hit, miss) =>
      if input == [] then (inds, mask) else if input[0] == at then Reach(hit, input[1..]) else Reach(miss, input)
  }

  /** Growing indices from `at` on. */
  ghost predicate Growing(input: seq<nat>, at: nat, size: nat) {
    input == [] || (at <= input[0] < size && Growing(input[1..], input[0] + 1, size))
  }

  /** The mask says where each index stands in the list. */
  ghost predicate Inverts(mask: seq<MaskSlot>, inds: seq<nat>) {
    && (forall j :: 0 <= j < |inds| ==> inds[j] < |mask| && mask[inds[j]] == At(j))
    && (forall i :: 0 <= i < |mask| && mask[i].At? ==> mask[i].n < |inds| && inds[mask[i].n] == i)
  }

  lemma {:induction false} GrowingFrom(input: seq<nat>, at: nat, size: nat)
    requires Growing(input, at, size) && input != [] && input[0] != at
    ensures Growing(input, at + 1, size)
  {}

  lemma {:induction false} ReachExact(size: nat, at: nat, next: nat, inds: seq<nat>, mask: seq<MaskSlot>,
                                      input: seq<nat>)
    requires at <= size == |mask| && next == at + 1 && Growing(input, at, size)
    requires Inverts(mask, inds) && forall j :: 0 <= j < |inds| ==> inds[j] < at
    ensures var r := Reach(RangeSubsetTree(size, at, inds, mask), input);
            r.0 == inds + input && |r.1| == size && Inverts(r.1, r.0)
    decreases size - at
  {
    if at == size || input == [] {
      assert input == [] && inds + [] == inds;
    } else if input[0] == at {
      var more, set1 := inds + [at], mask[at := At(|inds|)];
      ReachExact(size, next, next + 1, more, set1, input[1..]);
      assert more + input[1..] == inds + input;
    } else {
      GrowingFrom(input, at, size);
      ReachExact(size, next, next + 1, inds, mask, input);
    }
  }

  /** For every growing index list, the leaf that is reached has that list, and a mask that
      inverts it. */
  lemma {:induction false} RangeTreeExact(size: nat, input: seq<nat>)
    requires Growing(input, 0, size)
    ensures var r := Reach(RangeSubsetTree(size, 0, [], seq(size, i => Unset)), input);
            r.0 == input && |r.1| == size && Inverts(r.1, input)
  {
    ReachExact(size, 0, 1, [], seq(size, i => Unset), input);
    assert [] + input == input;
  }
}
