/** Joins in the FROM clause (`GeneralJoin`): the choice of a join type and, for
    natural joins, an outer type, each by a rejection loop over enabled nodes;
    pairing the listed tables into joins; and joining the remaining tables with
    subqueries. The ON predicate is whatever the expression generator produced
    for the pair, a value of type `E`. */
module Joins {
  import opened Base
  import opened Text
  import opened Features
  import opened Controller

  datatype JoinType = Inner | Natural | LeftJoin | RightJoin
  datatype OuterType = Full | LeftOuter | RightOuter

  /** The join type's enum name. */
  function JoinName(t: JoinType): string {
    match t
    case Inner => "INNER"
    case Natural => "NATURAL"
    case LeftJoin => "LEFT"
    case RightJoin => "RIGHT"
  }

  /** The outer type's enum name. */
  function OuterName(o: OuterType): string {
    match o
    case Full => "FULL"
    case LeftOuter => "LEFT"
    case RightOuter => "RIGHT"
  }

  /** The node `<TYPE>_JOIN` that switches a join type on and off. */
  function JoinNode(t: JoinType): Node {
    match t
    case Inner => INNER_JOIN
    case Natural => NATURAL_JOIN
    case LeftJoin => LEFT_JOIN
    case RightJoin => RIGHT_JOIN
  }

  /** The node `<OUTER>_NATURAL_JOIN` of an outer type. */
  function OuterNode(o: OuterType): Node {
    match o
    case Full => FULL_NATURAL_JOIN
    case LeftOuter => LEFT_NATURAL_JOIN
    case RightOuter => RIGHT_NATURAL_JOIN
  }

  /** Each join type and each outer type has a node of its own, none of them
      shared, so recording one never counts as another. */
  lemma NodesDistinct(t: JoinType, u: JoinType, o: OuterType, p: OuterType)
    ensures JoinNode(t) == JoinNode(u) <==> t == u
    ensures OuterNode(o) == OuterNode(p) <==> o == p
    ensures JoinNode(t) != OuterNode(o)
  {
  }

  /** `JoinType.values()`. */
  const AllJoinTypes: seq<JoinType> := [Inner, Natural, LeftJoin, RightJoin]
  /** `VALUE_NOT_NJ`: every join type but NATURAL. */
  const JoinTypesWithoutNatural: seq<JoinType> := [Inner, LeftJoin, RightJoin]
  /** `OuterType.values()`. */
  const AllOuterTypes: seq<OuterType> := [Full, LeftOuter, RightOuter]

  /** `JoinType.getRandomByOptions`: the first drawn type whose node is enabled
      (on a true coin). The loop records the node of the type it returns, which
      `RecordJoin` accounts for. */
  function RandomJoinType(opts: map<Node, bool>, draws: seq<Draw>): (r: Result<JoinType>)
    ensures r.Failure? ==> r.error == OutOfChoices
    ensures r.Success? ==> Enabled(opts, JoinNode(r.value))
  {
    PickEnabled(AllJoinTypes, JoinNode, opts, draws)
  }

  /** `JoinType.getRandomByOptionsWithoutNJ`: as above, among the types other
      than NATURAL. */
  function RandomJoinTypeWithoutNatural(opts: map<Node, bool>, draws: seq<Draw>): (r: Result<JoinType>)
    ensures r.Failure? ==> r.error == OutOfChoices
    ensures r.Success? ==> r.value != Natural && Enabled(opts, JoinNode(r.value))
  {
    PickEnabledMember(JoinTypesWithoutNatural, JoinNode, opts, draws);
    PickEnabled(JoinTypesWithoutNatural, JoinNode, opts, draws)
  }

  /** `OuterType.getRandomByOptions`: the first drawn outer type whose
      `<OUTER>_NATURAL_JOIN` node is enabled. */
  function RandomOuterType(opts: map<Node, bool>, draws: seq<Draw>): (r: Result<OuterType>)
    ensures r.Failure? ==> r.error == OutOfChoices
    ensures r.Success? ==> Enabled(opts, OuterNode(r.value))
  {
    PickEnabled(AllOuterTypes, OuterNode, opts, draws)
  }

  /** Every enabled join type can be drawn, by either selector unless it is
      NATURAL, and every enabled outer type too. */
  lemma SelectorsReach(opts: map<Node, bool>, t: JoinType, o: OuterType)
    requires Enabled(opts, JoinNode(t)) && Enabled(opts, OuterNode(o))
    ensures exists d :: RandomJoinType(opts, [d]) == Success(t)
    ensures t != Natural ==> exists d :: RandomJoinTypeWithoutNatural(opts, [d]) == Success(t)
    ensures exists d :: RandomOuterType(opts, [d]) == Success(o)
  {
    var i := if t == Inner then 0 else if t == Natural then 1 else if t == LeftJoin then 2 else 3;
    PickEnabledReaches(AllJoinTypes, JoinNode, opts, i);
    assert RandomJoinType(opts, [Draw(i, true)]) == Success(t);
    if t != Natural {
      var k := if t == Inner then 0 else if t == LeftJoin then 1 else 2;
      PickEnabledReaches(JoinTypesWithoutNatural, JoinNode, opts, k);
      assert RandomJoinTypeWithoutNatural(opts, [Draw(k, true)]) == Success(t);
    }
    var m := if o == Full then 0 else if o == LeftOuter then 1 else 2;
    PickEnabledReaches(AllOuterTypes, OuterNode, opts, m);
    assert RandomOuterType(opts, [Draw(m, true)]) == Success(o);
  }

  // ---------------------------------------------------------------------------
  // Join expressions

  /** The right-hand side of a join: a table, or the subquery of loop iteration
      `index` over the table `base`. */
  datatype Source = TableSource(table: string) | SubquerySource(index: nat, base: string)

  /** The name a subquery gets: `sub<index>`. */
  function SubqueryName(index: nat): string {
    "sub" + NatToString(index)
  }

  /** A join of a table with a source. A natural join has no ON condition and an
      outer type; the others have an ON condition and no outer type. */
  datatype Join<E> = Join(left: string, right: Source, joinType: JoinType, on: Option<E>, outer: Option<OuterType>)

  /** The shape `create*Join` gives a join. */
  predicate Shaped<E>(j: Join<E>) {
    && (j.joinType == Natural <==> j.on.None?)
    && (j.joinType == Natural <==> j.outer.Some?)
    && (j.right.SubquerySource? ==> j.joinType != Natural)
  }

  /** The choices one join consumes: the draws for the join type and for an
      outer type, and the ON predicate generated for the pair. */
  datatype JoinDraws<E> = JoinDraws(typeDraws: seq<Draw>, outerDraws: seq<Draw>, on: E)

  /** `getJoinExpression`: a subquery on the right rules NATURAL out; a natural
      join takes an outer type instead of an ON predicate. */
  function JoinExpression<E>(left: string, right: Source, d: JoinDraws<E>, opts: map<Node, bool>)
    : (r: Result<Join<E>>)
    ensures r.Failure? ==> r.error == OutOfChoices
    ensures r.Success? ==> r.value.left == left && r.value.right == right
  {
    var t :- if right.SubquerySource? then RandomJoinTypeWithoutNatural(opts, d.typeDraws)
             else RandomJoinType(opts, d.typeDraws);
    if t == Natural then
      var o :- RandomOuterType(opts, d.outerDraws);
      Success(Join(left, right, Natural, None, Some(o)))
    else
      Success(Join(left, right, t, Some(d.on), None))
  }

  /** A join expression has the shape `create*Join` gives it, an enabled join
      type, the generated ON predicate unless it is natural, and an enabled
      outer type if it is. */
  lemma JoinExpressionShaped<E>(left: string, right: Source, d: JoinDraws<E>, opts: map<Node, bool>)
    requires JoinExpression(left, right, d, opts).Success?
    ensures var j := JoinExpression(left, right, d, opts).value;
            && Shaped(j) && Enabled(opts, JoinNode(j.joinType))
            && (j.joinType != Natural ==> j.on == Some(d.on))
            && (j.outer.Some? ==> Enabled(opts, OuterNode(j.outer.value)))
  {
  }

  /** What a join adds to the record, in the order the source adds it: its
      type's node (by the type selector), its outer type's node for a natural
      join (by the outer selector), and SUBQUERY for a subquery join. */
  function RecordJoin<E>(rec: Record, j: Join<E>): (r: Record)
    ensures j.right.TableSource? && j.outer.None? ==> r == ScoreNode(rec, JoinNode(j.joinType))
  {
    var r1 := ScoreNode(rec, JoinNode(j.joinType));
    var r2 := if j.outer.Some? then ScoreNode(r1, OuterNode(j.outer.value)) else r1;
    if j.right.SubquerySource? then ScoreNode(r2, SUBQUERY) else r2
  }

  /** Recording node `m` raises its count by one and no other. */
  lemma ScoredOnce(rec: Record, m: Node, n: Node)
    ensures CountOf(ScoreNode(rec, m).nodes, n) == CountOf(rec.nodes, n) + (if n == m then 1 else 0)
  {
  }

  /** A join is recorded once: its type's node, its outer type's node and, for
      a subquery, SUBQUERY each rise by one, every other node keeps its count,
      and nothing but node counts changes. */
  lemma RecordJoinCounts<E>(rec: Record, j: Join<E>, n: Node)
    ensures var r := RecordJoin(rec, j);
            && r.composites == rec.composites && r.fragments == rec.fragments && r.status == rec.status
            && CountOf(r.nodes, n) == CountOf(rec.nodes, n)
               + (if n == JoinNode(j.joinType) then 1 else 0)
               + (if j.outer.Some? && n == OuterNode(j.outer.value) then 1 else 0)
               + (if j.right.SubquerySource? && n == SUBQUERY then 1 else 0)
  {
    var r1 := ScoreNode(rec, JoinNode(j.joinType));
    ScoredOnce(rec, JoinNode(j.joinType), n);
    if j.outer.Some? {
      var r2 := ScoreNode(r1, OuterNode(j.outer.value));
      ScoredOnce(r1, OuterNode(j.outer.value), n);
      if j.right.SubquerySource? {
        ScoredOnce(r2, SUBQUERY, n);
      }
    } else if j.right.SubquerySource? {
      ScoredOnce(r1, SUBQUERY, n);
    }
  }

  /** The joins recorded in order. */
  function RecordJoins<E>(rec: Record, js: seq<Join<E>>): Record {
    Fold(rec, js, RecordJoin)
  }

  /** How many times recording join `j` counts node `n`. */
  function Uses<E>(j: Join<E>, n: Node): nat {
    (if n == JoinNode(j.joinType) then 1 else 0)
    + (if j.outer.Some? && n == OuterNode(j.outer.value) then 1 else 0)
    + (if j.right.SubquerySource? && n == SUBQUERY then 1 else 0)
  }

  /** How many times recording the joins counts node `n`. */
  function TotalUses<E>(js: seq<Join<E>>, n: Node): nat
    decreases |js|
  {
    if |js| == 0 then 0 else Uses(js[0], n) + TotalUses(js[1..], n)
  }

  /** Recording a list of joins adds up what each join records, and changes
      nothing but node counts. */
  lemma {:induction false} RecordJoinsCounts<E>(rec: Record, js: seq<Join<E>>, n: Node)
    ensures var r := RecordJoins(rec, js);
            && r.composites == rec.composites && r.fragments == rec.fragments && r.status == rec.status
            && CountOf(r.nodes, n) == CountOf(rec.nodes, n) + TotalUses(js, n)
    decreases |js|
  {
    if |js| > 0 {
      RecordJoinCounts(rec, js[0], n);
      RecordJoinsCounts(RecordJoin(rec, js[0]), js[1..], n);
    }
  }

  /** SUBQUERY is counted once per join with a subquery on its right and
      never for a join with a table there. */
  lemma {:induction false} SubqueryUses<E>(js: seq<Join<E>>)
    ensures (forall i :: 0 <= i < |js| ==> js[i].right.SubquerySource?) ==> TotalUses(js, SUBQUERY) == |js|
    ensures (forall i :: 0 <= i < |js| ==> js[i].right.TableSource?) ==> TotalUses(js, SUBQUERY) == 0
    decreases |js|
  {
    if |js| > 0 {
      SubqueryUses(js[1..]);
      assert JoinNode(js[0].joinType) != SUBQUERY;
      assert js[0].outer.Some? ==> OuterNode(js[0].outer.value) != SUBQUERY;
      assert forall i :: 0 <= i < |js[1..]| ==> js[1..][i] == js[i + 1];
    }
  }

  // ---------------------------------------------------------------------------
  // Pairing tables

  /** The two sides of a join. */
  datatype Sides = Sides(left: string, right: Source)

  /** The sides of each join, in order. */
  type Ends = seq<Sides>

  /** The joins built for the given sides, each from its own draws; running
      out of draws fails. */
  function MakeJoins<E>(ends: Ends, ds: seq<JoinDraws<E>>, opts: map<Node, bool>): (r: Result<seq<Join<E>>>)
    ensures r.Failure? ==> r.error == OutOfChoices
    ensures r.Success? ==> |r.value| == |ends|
    decreases |ends|
  {
    if |ends| == 0 then Success([])
    else if |ds| == 0 then Failure(OutOfChoices)
    else
      var first :- JoinExpression(ends[0].left, ends[0].right, ds[0], opts);
      var more :- MakeJoins(ends[1..], ds[1..], opts);
      Success([first] + more)
  }

  /** Join `i` joins the sides `i`. */
  lemma {:induction false} MakeJoinsSides<E>(ends: Ends, ds: seq<JoinDraws<E>>, opts: map<Node, bool>)
    requires MakeJoins(ends, ds, opts).Success?
    ensures forall i {:trigger MakeJoins(ends, ds, opts).value[i]} :: 0 <= i < |MakeJoins(ends, ds, opts).value| ==>
              MakeJoins(ends, ds, opts).value[i].left == ends[i].left && MakeJoins(ends, ds, opts).value[i].right == ends[i].right
    decreases |ends|
  {
    if |ends| > 0 {
      MakeJoinsSides(ends[1..], ds[1..], opts);
      var js := MakeJoins(ends, ds, opts).value;
      assert js[1..] == MakeJoins(ends[1..], ds[1..], opts).value;
    }
  }

  /** Every join built has its shape and an enabled type. */
  lemma {:induction false} MakeJoinsShaped<E>(ends: Ends, ds: seq<JoinDraws<E>>, opts: map<Node, bool>)
    requires MakeJoins(ends, ds, opts).Success?
    ensures forall i {:trigger MakeJoins(ends, ds, opts).value[i]} :: 0 <= i < |MakeJoins(ends, ds, opts).value| ==>
              Shaped(MakeJoins(ends, ds, opts).value[i]) && Enabled(opts, JoinNode(MakeJoins(ends, ds, opts).value[i].joinType))
    decreases |ends|
  {
    if |ends| > 0 {
      JoinExpressionShaped(ends[0].left, ends[0].right, ds[0], opts);
      MakeJoinsShaped(ends[1..], ds[1..], opts);
      var js := MakeJoins(ends, ds, opts).value;
      assert js[1..] == MakeJoins(ends[1..], ds[1..], opts).value;
    }
  }

  // ---------------------------------------------------------------------------
  // Pairing tables

  /** The loop of `getJoins` once the first `k` tables have been removed: while
      two tables remain, the rather-low-probability coin says go on and JOIN is
      enabled, the next two tables are removed and paired. Running out of
      coins ends the loop like a false coin. */
  function PairTables(tables: seq<string>, k: nat, goes: seq<bool>, opts: map<Node, bool>): (r: Ends)
    requires k <= |tables|
    ensures k + |r| + |r| <= |tables|
    ensures !Enabled(opts, JOIN) ==> r == []
    decreases |goes|
  {
    if |tables| - k >= 2 && |goes| > 0 && goes[0] && Enabled(opts, JOIN) then
      [Sides(tables[k], TableSource(tables[k + 1]))] + PairTables(tables, k + 2, goes[1..], opts)
    else
      []
  }

  /** The pairs take the tables in order: pair `i` holds the tables at
      `k + 2i` and `k + 2i + 1`. */
  lemma {:induction false} PairTablesInOrder(tables: seq<string>, k: nat, goes: seq<bool>, opts: map<Node, bool>)
    requires k <= |tables|
    ensures forall i {:trigger PairTables(tables, k, goes, opts)[i]} :: 0 <= i < |PairTables(tables, k, goes, opts)| ==>
              PairTables(tables, k, goes, opts)[i] == Sides(tables[k + i + i], TableSource(tables[k + i + i + 1]))
    decreases |goes|
  {
    if |tables| - k >= 2 && |goes| > 0 && goes[0] && Enabled(opts, JOIN) {
      PairTablesInOrder(tables, k + 2, goes[1..], opts);
      var ps := PairTables(tables, k, goes, opts);
      assert ps[1..] == PairTables(tables, k + 2, goes[1..], opts);
    }
  }

  /** The joins made and the tables left over. */
  datatype Joined<E> = Joined(joins: seq<Join<E>>, rest: seq<string>)

  /** `getJoins`: the tables are joined two by two from the front, join `i`
      with the draws `joins[i]`; the tables not joined stay in the list. The
      record afterwards is `RecordJoins` of the joins. */
  function GetJoins<E>(tables: seq<string>, goes: seq<bool>, joins: seq<JoinDraws<E>>, opts: map<Node, bool>)
    : (r: Result<Joined<E>>)
    ensures r.Failure? ==> r.error == OutOfChoices
    ensures r.Success? ==> |r.value.joins| <= |tables| / 2 && r.value.rest == tables[|r.value.joins| * 2..]
    ensures r.Success? && !Enabled(opts, JOIN) ==> r.value == Joined([], tables)
    ensures r.Success? ==> MakeJoins(PairTables(tables, 0, goes, opts), joins, opts) == Success(r.value.joins)
  {
    var ps := PairTables(tables, 0, goes, opts);
    var js :- MakeJoins(ps, joins, opts);
    Success(Joined(js, tables[|js| + |js|..]))
  }

  /** `getJoins` joins table `2i` with table `2i + 1` in its `i`-th join. */
  lemma GetJoinsPairs<E>(tables: seq<string>, goes: seq<bool>, joins: seq<JoinDraws<E>>, opts: map<Node, bool>)
    requires GetJoins(tables, goes, joins, opts).Success?
    ensures var js := GetJoins(tables, goes, joins, opts).value.joins;
            forall i :: 0 <= i < |js| ==>
              && js[i].left == tables[i + i] && js[i].right == TableSource(tables[i + i + 1])
              && Shaped(js[i]) && Enabled(opts, JoinNode(js[i].joinType))
  {
    var ps := PairTables(tables, 0, goes, opts);
    PairTablesInOrder(tables, 0, goes, opts);
    MakeJoinsSides(ps, joins, opts);
    MakeJoinsShaped(ps, joins, opts);
  }

  // ---------------------------------------------------------------------------
  // Joins with subqueries

  /** The choices of `getJoinsWithSubquery`: whether to pair tables first, and
      the coins and draws for it; the rather-low-probability coin that stops
      before any subquery; the pick of the table the subqueries select from;
      how many times the loop's `smallNumber` bound lets it go on; and each
      subquery join's draws. */
  datatype SubqueryDraws<E> = SubqueryDraws(
    pairFirst: bool, goes: seq<bool>, pairJoins: seq<JoinDraws<E>>,
    stop: bool, basePick: nat, iterations: nat, joins: seq<JoinDraws<E>>)

  /** The subquery loop from iteration `i` on, after the first `start` tables
      were joined in pairs: iteration `i` takes the table at `start + i` as its
      left side and a subquery `sub<i>` over `base` as its right side. */
  function SubqueryEnds(tables: seq<string>, start: nat, base: string, i: nat, n: nat): (r: Ends)
    requires start + i <= |tables|
    ensures start + i + |r| <= |tables|
    ensures i + |r| <= n || |r| == 0
    decreases n - i
  {
    if i >= n || start + i == |tables| then []
    else [Sides(tables[start + i], SubquerySource(i, base))] + SubqueryEnds(tables, start, base, i + 1, n)
  }

  /** The subquery joins take the remaining tables in order as left sides and
      number their subqueries `i`, `i + 1`, … (named `sub<i>`, …), all over the
      one base table. */
  lemma {:induction false} SubqueryEndsInOrder(tables: seq<string>, start: nat, base: string, i: nat, n: nat)
    requires start + i <= |tables|
    ensures forall k {:trigger SubqueryEnds(tables, start, base, i, n)[k]} :: 0 <= k < |SubqueryEnds(tables, start, base, i, n)| ==>
              SubqueryEnds(tables, start, base, i, n)[k] == Sides(tables[start + i + k], SubquerySource(i + k, base))
    decreases n - i
  {
    if !(i >= n || start + i == |tables|) {
      SubqueryEndsInOrder(tables, start, base, i + 1, n);
      var es := SubqueryEnds(tables, start, base, i, n);
      var more := SubqueryEnds(tables, start, base, i + 1, n);
      forall k | 1 <= k < |es|
        ensures es[k] == Sides(tables[start + i + k], SubquerySource(i + k, base))
      {
        assert es[k] == more[k - 1];
        assert more[k - 1] == Sides(tables[start + (i + 1) + (k - 1)], SubquerySource(i + 1 + (k - 1), base));
      }
    }
  }

  /** The table the subqueries are built over: one drawn among the tables not
      joined in pairs. */
  function SubqueryBase(tables: seq<string>, start: nat, pick: nat): (b: string)
    requires start < |tables|
    ensures exists i :: start <= i < |tables| && b == tables[i]
  {
    tables[start + pick % (|tables| - start)]
  }

  /** The sides of the subquery part of `getJoinsWithSubquery` once the first
      `start` tables were joined in pairs: none when no table is left or the
      loop stops at once, else the subquery loop over one drawn base table. */
  function SubqueryPhase(tables: seq<string>, start: nat, stop: bool, basePick: nat, n: nat): (r: Ends)
    requires start <= |tables|
    ensures start + |r| <= |tables|
    ensures start == |tables| || stop ==> r == []
  {
    if start == |tables| || stop then []
    else SubqueryEnds(tables, start, SubqueryBase(tables, start, basePick), 0, n)
  }

  /** Side `k` of the subquery part joins the table at `start + k` with the
      subquery `sub<k>`. */
  lemma SubqueryPhaseInOrder(tables: seq<string>, start: nat, stop: bool, basePick: nat, n: nat)
    requires start <= |tables|
    ensures var es := SubqueryPhase(tables, start, stop, basePick, n);
            forall k :: 0 <= k < |es| ==>
              es[k].left == tables[start + k] && es[k].right.SubquerySource? && es[k].right.index == k
  {
    if !(start == |tables| || stop) {
      var base := SubqueryBase(tables, start, basePick);
      var es := SubqueryEnds(tables, start, base, 0, n);
      SubqueryEndsInOrder(tables, start, base, 0, n);
      forall k | 0 <= k < |es|
        ensures es[k].left == tables[start + k] && es[k].right == SubquerySource(k, base)
      {
        assert es[k] == Sides(tables[start + 0 + k], SubquerySource(0 + k, base));
      }
    }
  }

  /** Every subquery of the subquery part selects from one table at or after
      `start`. */
  lemma SubqueryPhaseBase(tables: seq<string>, start: nat, stop: bool, basePick: nat, n: nat)
    requires start <= |tables|
    ensures var es := SubqueryPhase(tables, start, stop, basePick, n);
            forall k :: 0 <= k < |es| ==>
              es[k].right.SubquerySource? && exists b :: start <= b < |tables| && es[k].right.base == tables[b]
  {
    if !(start == |tables| || stop) {
      var base := SubqueryBase(tables, start, basePick);
      var es := SubqueryEnds(tables, start, base, 0, n);
      SubqueryEndsInOrder(tables, start, base, 0, n);
      forall k | 0 <= k < |es|
        ensures es[k].right == SubquerySource(k, base)
      {
        assert es[k] == Sides(tables[start + 0 + k], SubquerySource(0 + k, base));
      }
    }
  }

  /** The sides `getJoinsWithSubquery` joins: the table pairs, then the
      subquery sides, and the tables left unjoined. */
  datatype FromSides = FromSides(pairs: Ends, subqueries: Ends, rest: seq<string>)

  /** The sides of `getJoinsWithSubquery`: optionally the table pairs first,
      then the subquery part on the tables after them. */
  function SubquerySides<E>(tables: seq<string>, d: SubqueryDraws<E>, opts: map<Node, bool>): (r: FromSides)
    ensures |r.pairs| + |r.pairs| + |r.subqueries| <= |tables|
    ensures r.rest == tables[|r.pairs| + |r.pairs| + |r.subqueries|..]
    ensures !d.pairFirst ==> r.pairs == []
  {
    var ps := if d.pairFirst then PairTables(tables, 0, d.goes, opts) else [];
    var ss := SubqueryPhase(tables, |ps| + |ps|, d.stop, d.basePick, d.iterations);
    FromSides(ps, ss, tables[|ps| + |ps| + |ss|..])
  }

  /** Pair `i` holds tables `2i` and `2i + 1`. */
  lemma SubquerySidesPairs<E>(tables: seq<string>, d: SubqueryDraws<E>, opts: map<Node, bool>)
    ensures var r := SubquerySides(tables, d, opts);
            forall i :: 0 <= i < |r.pairs| ==> r.pairs[i] == Sides(tables[i + i], TableSource(tables[i + i + 1]))
  {
    var r := SubquerySides(tables, d, opts);
    if d.pairFirst {
      PairTablesInOrder(tables, 0, d.goes, opts);
      forall i | 0 <= i < |r.pairs|
        ensures r.pairs[i] == Sides(tables[i + i], TableSource(tables[i + i + 1]))
      {
        assert r.pairs[i] == Sides(tables[0 + i + i], TableSource(tables[0 + i + i + 1]));
      }
    }
  }

  /** Subquery side `k` holds the next table after the pairs and the subquery
      `sub<k>`. */
  lemma SubquerySidesInOrder<E>(tables: seq<string>, d: SubqueryDraws<E>, opts: map<Node, bool>)
    ensures var r := SubquerySides(tables, d, opts);
            var p := |r.pairs| + |r.pairs|;
            forall k :: 0 <= k < |r.subqueries| ==>
              r.subqueries[k].left == tables[p + k] && r.subqueries[k].right.SubquerySource?
              && r.subqueries[k].right.index == k
  {
    var r := SubquerySides(tables, d, opts);
    SubqueryPhaseInOrder(tables, |r.pairs| + |r.pairs|, d.stop, d.basePick, d.iterations);
  }

  /** Every subquery side selects from one table not joined in pairs. */
  lemma SubquerySidesBase<E>(tables: seq<string>, d: SubqueryDraws<E>, opts: map<Node, bool>)
    ensures var r := SubquerySides(tables, d, opts);
            var p := |r.pairs| + |r.pairs|;
            forall k :: 0 <= k < |r.subqueries| ==>
              r.subqueries[k].right.SubquerySource?
              && exists b :: p <= b < |tables| && r.subqueries[k].right.base == tables[b]
  {
    var r := SubquerySides(tables, d, opts);
    SubqueryPhaseBase(tables, |r.pairs| + |r.pairs|, d.stop, d.basePick, d.iterations);
  }

  /** The FROM-clause joins `getJoinsWithSubquery` builds: the table pairs, then
      the subquery joins, and the tables left unjoined. */
  datatype FromJoins<E> = FromJoins(pairs: seq<Join<E>>, subqueries: seq<Join<E>>, rest: seq<string>) {
    /** The joins in the order the list holds them. */
    function All(): seq<Join<E>> { pairs + subqueries }
  }

  /** `getJoinsWithSubquery`: the joins of its sides, the pairs with the
      pairing draws and the subquery sides with theirs. */
  function JoinsWithSubquery<E>(tables: seq<string>, d: SubqueryDraws<E>, opts: map<Node, bool>)
    : (r: Result<FromJoins<E>>)
    ensures r.Failure? ==> r.error == OutOfChoices
    ensures r.Success? ==>
              var e := SubquerySides(tables, d, opts);
              && MakeJoins(e.pairs, d.pairJoins, opts) == Success(r.value.pairs)
              && MakeJoins(e.subqueries, d.joins, opts) == Success(r.value.subqueries)
              && r.value.rest == e.rest
  {
    var e := SubquerySides(tables, d, opts);
    match MakeJoins(e.pairs, d.pairJoins, opts)
    case Failure(err) => Failure(err)
    case Success(ps) =>
      match MakeJoins(e.subqueries, d.joins, opts)
      case Failure(err) => Failure(err)
      case Success(ss) => Success(FromJoins(ps, ss, e.rest))
  }

  /** `getJoinsWithSubquery` joins every table at most once: the pairs, then
      the subquery joins, then the tables left, make up the table list. */
  lemma JoinsWithSubqueryCovers<E>(tables: seq<string>, d: SubqueryDraws<E>, opts: map<Node, bool>)
    requires JoinsWithSubquery(tables, d, opts).Success?
    ensures var r := JoinsWithSubquery(tables, d, opts).value;
            var p := |r.pairs| + |r.pairs|;
            && p + |r.subqueries| <= |tables| && r.rest == tables[p + |r.subqueries|..]
            && (!d.pairFirst ==> r.pairs == [])
  {
  }

  /** After `getJoinsWithSubquery` pair `i` joins tables `2i` and `2i + 1`. */
  lemma JoinsWithSubqueryPairs<E>(tables: seq<string>, d: SubqueryDraws<E>, opts: map<Node, bool>)
    requires JoinsWithSubquery(tables, d, opts).Success?
    ensures var r := JoinsWithSubquery(tables, d, opts).value;
            forall i :: 0 <= i < |r.pairs| ==>
              r.pairs[i].left == tables[i + i] && r.pairs[i].right == TableSource(tables[i + i + 1])
  {
    var e := SubquerySides(tables, d, opts);
    SubquerySidesPairs(tables, d, opts);
    MakeJoinsSides(e.pairs, d.pairJoins, opts);
  }

  /** After `getJoinsWithSubquery` subquery join `k` joins the next table
      after the pairs with the subquery `sub<k>`. */
  lemma JoinsWithSubquerySources<E>(tables: seq<string>, d: SubqueryDraws<E>, opts: map<Node, bool>)
    requires JoinsWithSubquery(tables, d, opts).Success?
    ensures var r := JoinsWithSubquery(tables, d, opts).value;
            var p := |r.pairs| + |r.pairs|;
            forall k :: 0 <= k < |r.subqueries| ==>
              && r.subqueries[k].left == tables[p + k]
              && r.subqueries[k].right.SubquerySource? && r.subqueries[k].right.index == k
  {
    var e := SubquerySides(tables, d, opts);
    SubquerySidesInOrder(tables, d, opts);
    MakeJoinsSides(e.subqueries, d.joins, opts);
  }

  /** The subqueries of `getJoinsWithSubquery` select from a table not joined
      in pairs. */
  lemma JoinsWithSubqueryBase<E>(tables: seq<string>, d: SubqueryDraws<E>, opts: map<Node, bool>)
    requires JoinsWithSubquery(tables, d, opts).Success?
    ensures var r := JoinsWithSubquery(tables, d, opts).value;
            var p := |r.pairs| + |r.pairs|;
            forall k :: 0 <= k < |r.subqueries| ==>
              r.subqueries[k].right.SubquerySource?
              && exists b :: p <= b < |tables| && r.subqueries[k].right.base == tables[b]
  {
    var e := SubquerySides(tables, d, opts);
    SubquerySidesBase(tables, d, opts);
    MakeJoinsSides(e.subqueries, d.joins, opts);
  }

  /** Every join `getJoinsWithSubquery` builds has its shape and an enabled
      type, and no subquery join is natural. */
  lemma JoinsWithSubqueryShaped<E>(tables: seq<string>, d: SubqueryDraws<E>, opts: map<Node, bool>)
    requires JoinsWithSubquery(tables, d, opts).Success?
    ensures var r := JoinsWithSubquery(tables, d, opts).value;
            && (forall k :: 0 <= k < |r.subqueries| ==> r.subqueries[k].joinType != Natural)
            && (forall j :: 0 <= j < |r.All()| ==> Shaped(r.All()[j]) && Enabled(opts, JoinNode(r.All()[j].joinType)))
  {
    var r := JoinsWithSubquery(tables, d, opts).value;
    var e := SubquerySides(tables, d, opts);
    SubquerySidesInOrder(tables, d, opts);
    MakeJoinsSides(e.subqueries, d.joins, opts);
    MakeJoinsShaped(e.pairs, d.pairJoins, opts);
    MakeJoinsShaped(e.subqueries, d.joins, opts);
    forall j | 0 <= j < |r.All()|
      ensures Shaped(r.All()[j]) && Enabled(opts, JoinNode(r.All()[j].joinType))
    {
      if j >= |r.pairs| {
        assert r.All()[j] == r.subqueries[j - |r.pairs|];
      }
    }
  }

  /** Recording the joins of `getJoinsWithSubquery` counts SUBQUERY exactly
      once per subquery join. */
  lemma JoinsWithSubqueryRecordsSubquery<E>(rec: Record, tables: seq<string>, d: SubqueryDraws<E>, opts: map<Node, bool>)
    requires JoinsWithSubquery(tables, d, opts).Success?
    ensures var r := JoinsWithSubquery(tables, d, opts).value;
            CountOf(RecordJoins(rec, r.All()).nodes, SUBQUERY) == CountOf(rec.nodes, SUBQUERY) + |r.subqueries|
  {
    var r := JoinsWithSubquery(tables, d, opts).value;
    JoinsWithSubqueryPairs(tables, d, opts);
    JoinsWithSubquerySources(tables, d, opts);
    SubqueryUses(r.pairs);
    SubqueryUses(r.subqueries);
    FoldAppend(rec, r.pairs, r.subqueries, RecordJoin);
    RecordJoinsCounts(rec, r.pairs, SUBQUERY);
    RecordJoinsCounts(RecordJoins(rec, r.pairs), r.subqueries, SUBQUERY);
  }
}
