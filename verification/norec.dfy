/** The NoREC oracle (`GeneralNoRECOracle`). One random condition P is used
    twice over the same tables and joins: the unoptimized query fetches
    `P IS TRUE` with no WHERE clause and counts the rows whose value is true;
    the optimized query fetches every column WHERE P and counts its rows. A DBMS
    that evaluates P the same way in both places gives equal counts. What the
    DBMS answers is an input; the model states the verdict, what is recorded in
    the feedback table, and the reproducer that replays a mismatch. */
module NoREC {
  import opened Base
  import opened Text
  import opened Features
  import opened Controller
  import opened Schema
  import opened Selects
  import ExprGen
  import Joins

  // ---------------------------------------------------------------------------
  // The two queries

  /** `getSecondQuery`'s SELECT: `P IS TRUE` over the tables and joins. */
  function Unoptimized(from: seq<string>, joins: seq<Joins.Join<ExprGen.Expr>>, p: ExprGen.Expr): SelectQuery {
    SelectQuery([IsTrueItem(p)], from, joins, None, [])
  }

  /** `getFirstQueryCount`'s SELECT: every column, WHERE P. */
  function Optimized(from: seq<string>, columns: seq<Column>, joins: seq<Joins.Join<ExprGen.Expr>>, p: ExprGen.Expr)
    : SelectQuery
  {
    SelectQuery(ColumnItems(columns), from, joins, Some(p), [])
  }

  /** The two queries range over the same tables and joins and differ only in what
      they fetch and in the WHERE clause: the unoptimized one fetches just the
      condition and filters nothing, the optimized one filters by the condition. */
  lemma QueriesDiffer(from: seq<string>, columns: seq<Column>, joins: seq<Joins.Join<ExprGen.Expr>>, p: ExprGen.Expr)
    ensures var u := Unoptimized(from, joins, p);
            var o := Optimized(from, columns, joins, p);
            && u.from == o.from && u.joins == o.joins && u.orderBy == o.orderBy
            && u.(fetch := o.fetch, where := o.where) == o
            && u.where.None? && o.where == Some(p)
            && u.fetch == [IsTrueItem(p)]
            && |o.fetch| == |columns| && forall i :: 0 <= i < |columns| ==> o.fetch[i] == ColumnItem(columns[i])
  {
  }

  // ---------------------------------------------------------------------------
  // The generator choice

  /** The handler once the expression generator is chosen, and which one. */
  datatype Chosen = Chosen(untyped: bool, handler: Handler)

  /** The untyped generator is taken when UNTYPE_EXPR is enabled and the
      small-probability coin says so, and then UNTYPE_EXPR is scored. */
  function ChooseGenerator(h: Handler, fb: Feedback, small: bool): (r: Chosen)
    ensures r.untyped <==> Enabled(fb.nodeOptions, UNTYPE_EXPR) && small
    ensures CountOf(r.handler.current.nodes, UNTYPE_EXPR) == CountOf(h.current.nodes, UNTYPE_EXPR) + (if r.untyped then 1 else 0)
    ensures forall n :: n != UNTYPE_EXPR ==> CountOf(r.handler.current.nodes, n) == CountOf(h.current.nodes, n)
    ensures r.handler == h.(current := r.handler.current)
  {
    if Enabled(fb.nodeOptions, UNTYPE_EXPR) && small then Chosen(true, h.(current := ScoreNode(h.current, UNTYPE_EXPR)))
    else Chosen(false, h)
  }

  // ---------------------------------------------------------------------------
  // What the DBMS answers

  /** A row of the unoptimized query as `getBoolean(1)` reads it: true or false
      (SQL NULL reads as false), or a read that throws. */
  datatype Cell = Truth(b: bool) | Unreadable

  /** The unoptimized query: it throws, or an expected error gives no result set
      (`null`), or its rows are read. */
  datatype SecondAnswer = Threw(message: string) | NoResult | Cells(cells: seq<Cell>)

  /** The optimized query: an SQLException, or the number of rows it has. */
  datatype FirstAnswer = FirstFailed(message: string) | FirstRows(count: nat)

  /** The number of true rows, or None when some row cannot be read. */
  function TrueCells(cells: seq<Cell>): (r: Option<nat>)
    ensures r.None? <==> exists i :: 0 <= i < |cells| && cells[i].Unreadable?
    ensures r.Some? ==> r.value <= |cells|
  {
    if |cells| == 0 then Some(0)
    else
      match TrueCells(cells[1..])
      case None => None
      case Some(k) =>
        if cells[0].Unreadable? then None
        else
          assert forall i :: 1 <= i < |cells| ==> cells[i] == cells[1..][i - 1];
          Some((if cells[0].b then 1 else 0) + k)
  }

  /** The count that stands for a missing result. */
  const Missing: int := -1

  /** `secondCount`: -1 without a result set, else the true rows (None when a row
      cannot be read). */
  function SecondCount(a: SecondAnswer): (r: Option<int>)
    requires !a.Threw?
    ensures a.NoResult? ==> r == Some(-1)
    ensures a.Cells? ==> r == (match TrueCells(a.cells) case None => None case Some(k) => Some(k))
  {
    match a
    case NoResult => Some(Missing)
    case Cells(cells) =>
      match TrueCells(cells)
      case None => None
      case Some(k) => Some(k)
  }

  // ---------------------------------------------------------------------------
  // The verdict

  /** The error message of a mismatch: the optimized query and its count, a line
      break, the unoptimized query and its count. */
  function Message(optimized: string, first: nat, unoptimized: string, second: nat): string {
    optimized + "; -- " + NatToString(first) + "\n" + unoptimized + " -- " + NatToString(second)
  }

  /** `GeneralNoRECReproducer`: the two query texts and the message. */
  datatype Reproducer = Reproducer(unoptimized: string, optimized: string, message: string)

  /** The end of one check: the exception it throws (None when it passes), the
      reproducer it leaves, and the handler and feedback after it. */
  datatype Checked = Checked(fault: Option<Fault>, reproducer: Option<Reproducer>, handler: Handler, feedback: Feedback)

  /** A failed attempt: recorded as a failing query, and the test case discarded. */
  function Skip(h: Handler, fb: Feedback): (r: Checked)
    ensures r.fault == Some(Ignore) && r.reproducer.None?
    ensures r.handler.table == h.table + [h.current.(status := false, isQuery := true)]
    ensures r.feedback == fb
  {
    var (h', fb') := AppendScoreToTable(h, fb, false, true, None);
    Checked(Some(Ignore), None, h', fb')
  }

  /** The verdict once both counts are known. */
  function Compare(h: Handler, fb: Feedback, unoptimized: string, optimized: string, second: int, first: nat)
    : (r: Checked)
    requires second >= -1
  {
    if second == -1 then Skip(h, fb)
    else if first != second then
      var message := Message(optimized, first, unoptimized, second);
      var (h', fb') := AppendScoreToTable(h, fb, true, true, Some(unoptimized));
      Checked(Some(Assertion(message)), Some(Reproducer(unoptimized, optimized, message)), h', fb')
    else
      var (h', fb') := AppendScoreToTable(h, fb, true, true, Some(optimized));
      Checked(None, None, h', fb')
  }

  /** `check` after the queries are built, over the texts they are sent as and
      the answers to them. The unoptimized query runs first; when it throws, the
      check fails with its text and records nothing. */
  function Check(h: Handler, fb: Feedback, unoptimized: string, optimized: string,
                 second: SecondAnswer, first: FirstAnswer): (r: Checked)
    ensures second.Threw? ==> r == Checked(Some(Assertion(unoptimized)), None, h, fb)
    ensures !second.Threw? && SecondCount(second).None? ==> r == Skip(h, fb)
    ensures !second.Threw? && SecondCount(second).Some? && first.FirstFailed? ==> r == Skip(h, fb)
    ensures !second.Threw? && SecondCount(second).Some? && first.FirstRows? ==>
              r == Compare(h, fb, unoptimized, optimized, SecondCount(second).value, first.count)
  {
    if second.Threw? then Checked(Some(Assertion(unoptimized)), None, h, fb)
    else
      match SecondCount(second)
      case None => Skip(h, fb)
      case Some(k) =>
        match first
        case FirstFailed(_) => Skip(h, fb)
        case FirstRows(n) => Compare(h, fb, unoptimized, optimized, k, n)
  }

  /** Every check that reaches a verdict records the attempt exactly once, as a
      query: a failure when a count is missing (-1), the optimized query read
      badly or a row of the unoptimized one could not be read, and a success
      otherwise. Equal counts pass with the optimized query as the example;
      different counts fail with both counts in the message, the unoptimized
      query as the example, and a reproducer holding both texts. */
  lemma CheckVerdicts(h: Handler, fb: Feedback, unoptimized: string, optimized: string,
                      second: SecondAnswer, first: FirstAnswer)
    requires !second.Threw?
    ensures var r := Check(h, fb, unoptimized, optimized, second, first);
            var missing := SecondCount(second) == Some(-1) || SecondCount(second).None? || first.FirstFailed?;
            && |r.handler.table| == |h.table| + 1 && r.handler.current == NewRecord
            && r.handler.table[|h.table|] == h.current.(status := !missing, isQuery := true)
            && (missing ==> r.fault == Some(Ignore) && r.feedback == fb)
            && (!missing && first.count == SecondCount(second).value ==>
                  r.fault.None? && r == Compare(h, fb, unoptimized, optimized, first.count, first.count)
                  && r.feedback == AppendScoreToTable(h, fb, true, true, Some(optimized)).1)
            && (!missing && first.count != SecondCount(second).value ==>
                  var m := Message(optimized, first.count, unoptimized, SecondCount(second).value);
                  && r.fault == Some(Assertion(m))
                  && r.reproducer == Some(Reproducer(unoptimized, optimized, m))
                  && r.feedback == AppendScoreToTable(h, fb, true, true, Some(unoptimized)).1)
  {
  }

  /** The mismatch message starts with the optimized query and ends with the
      unoptimized count; different counts are rendered differently. */
  lemma MessageShowsCounts(optimized: string, first: nat, unoptimized: string, second: nat)
    ensures var m := Message(optimized, first, unoptimized, second);
            && StartsWith(m, optimized + "; -- " + NatToString(first) + "\n")
            && EndsWith(m, " -- " + NatToString(second))
    ensures first != second ==> NatToString(first) != NatToString(second)
  {
    var m := Message(optimized, first, unoptimized, second);
    var head := optimized + "; -- " + NatToString(first) + "\n";
    var tail := " -- " + NatToString(second);
    assert m == head + unoptimized + tail;
    assert m[..|head|] == head;
    assert m[|m| - |tail|..] == tail;
    if NatToString(first) == NatToString(second) {
      NatToStringInjective(first, second);
    }
  }

  // ---------------------------------------------------------------------------
  // The reproducer

  /** What replaying gives: whether the bug still shows and the message then. */
  datatype Replay = Replay(triggers: bool, message: string)

  /** `bugStillTriggers` on fresh answers to the two texts. An unoptimized query
      that throws still shows the bug, with the exception's message; a row that
      cannot be read, a failing optimized query, or a missing count does not;
      otherwise the bug shows exactly when the counts differ. */
  function Replayed(r: Reproducer, second: SecondAnswer, first: FirstAnswer): (res: Replay)
    ensures second.Threw? ==> res == Replay(true, second.message)
    ensures !second.Threw? && (SecondCount(second) == Some(-1) || SecondCount(second).None? || first.FirstFailed?)
            ==> !res.triggers && res.message == r.message
  {
    match second
    case Threw(m) => Replay(true, m)
    case NoResult => Replay(false, r.message)
    case Cells(cells) =>
      match TrueCells(cells)
      case None => Replay(false, r.message)
      case Some(k) =>
        match first
        case FirstFailed(_) => Replay(false, r.message)
        case FirstRows(n) =>
          if n != k then Replay(true, Message(r.optimized, n, r.unoptimized, k)) else Replay(false, r.message)
  }

  /** A reproducer replays its check: on the same answers (short of the
      unoptimized query throwing, which the check does not report as a mismatch)
      it triggers exactly when the check found a mismatch, and then with the same
      message. */
  lemma ReplayAgrees(h: Handler, fb: Feedback, unoptimized: string, optimized: string, message: string,
                     second: SecondAnswer, first: FirstAnswer)
    requires !second.Threw?
    ensures var c := Check(h, fb, unoptimized, optimized, second, first);
            var p := Replayed(Reproducer(unoptimized, optimized, message), second, first);
            && (p.triggers <==> c.reproducer.Some?)
            && (p.triggers ==> c.fault == Some(Assertion(p.message)) && c.reproducer.value.message == p.message)
  {
  }

  // ---------------------------------------------------------------------------
  // The principle

  /** The rows of the joined tables as P evaluates on them: true, false or NULL
      (None). */
  function Evaluated(values: seq<Option<bool>>): (cells: seq<Cell>)
    ensures |cells| == |values|
    ensures forall i :: 0 <= i < |values| ==> cells[i] == Truth(values[i] == Some(true))
  {
    seq(|values|, i requires 0 <= i < |values| => Truth(values[i] == Some(true)))
  }

  /** The number of rows on which P is true: the rows WHERE P keeps. */
  function Kept(values: seq<Option<bool>>): (n: nat)
    ensures n <= |values|
  {
    if |values| == 0 then 0 else (if values[0] == Some(true) then 1 else 0) + Kept(values[1..])
  }

  /** Counting the true `P IS TRUE` values counts exactly the rows WHERE P keeps. */
  lemma {:induction false} TrueCellsKept(values: seq<Option<bool>>)
    ensures TrueCells(Evaluated(values)) == Some(Kept(values))
  {
    if |values| > 0 {
      TrueCellsKept(values[1..]);
      assert Evaluated(values)[1..] == Evaluated(values[1..]);
    }
  }

  /** NoREC does not report a DBMS that evaluates P consistently: when the
      unoptimized query yields P's value on every row and the optimized query the
      rows on which P is true, the check passes and records a success with the
      optimized query as the example. */
  lemma ConsistentPasses(h: Handler, fb: Feedback, unoptimized: string, optimized: string, values: seq<Option<bool>>)
    ensures var c := Check(h, fb, unoptimized, optimized, Cells(Evaluated(values)), FirstRows(Kept(values)));
            && c.fault.None? && c.reproducer.None?
            && c.handler.table == h.table + [h.current.(status := true, isQuery := true)]
            && c.feedback == AppendScoreToTable(h, fb, true, true, Some(optimized)).1
  {
    TrueCellsKept(values);
  }
}
