/** The ternary-logic WHERE partitioning oracle (`GeneralQueryPartitioningWhere`).
    A SELECT without WHERE clause (the baseline) must return the same rows, as a
    multiset, as the three copies of it filtered by P, by NOT P and by P IS NULL
    together, since every row makes P true, false or NULL. The partitions are
    read as one UNION ALL query unless an ORDER BY was added to them. What the
    DBMS answers is an input; the model states the queries, the verdict, what is
    recorded, and the reproducer. */
module TLP {
  import opened Base
  import opened Text
  import opened Controller
  import opened Selects
  import opened AutoIndex
  import opened Comparator
  import ExprGen

  // ---------------------------------------------------------------------------
  // The queries

  /** The baseline: the SELECT with its WHERE clause removed. */
  function Baseline(s: SelectQuery): (r: SelectQuery)
    ensures r.where.None? && r.(where := s.where) == s
  {
    s.(where := None)
  }

  /** The three partition queries. */
  datatype Partitions = Partitions(first: SelectQuery, second: SelectQuery, third: SelectQuery)

  /** The partitions: on the rather-low coin the SELECT gets the ORDER BY terms
      first; then its WHERE clause is P, NOT P and P IS NULL in turn. */
  function PartitionsOf(s: SelectQuery, p: ExprGen.Expr, orderBy: bool, terms: seq<ExprGen.OrderTerm>): Partitions {
    var o := if orderBy then s.(orderBy := terms) else s;
    Partitions(o.(where := Some(p)), o.(where := Some(ExprGen.Negate(p))), o.(where := Some(ExprGen.IsNull(p))))
  }

  /** The three partitions are the baseline under the WHERE clauses P, NOT P and
      P IS NULL in that order, three different clauses; they carry the ORDER BY
      terms exactly when the coin said so. */
  lemma PartitionsShape(s: SelectQuery, p: ExprGen.Expr, orderBy: bool, terms: seq<ExprGen.OrderTerm>)
    ensures var ps := PartitionsOf(s, p, orderBy, terms);
            var o := if orderBy then Baseline(s).(orderBy := terms) else Baseline(s);
            && ps.first == o.(where := Some(p))
            && ps.second == o.(where := Some(ExprGen.Negate(p)))
            && ps.third == o.(where := Some(ExprGen.IsNull(p)))
            && ps.first.where != ps.second.where && ps.second.where != ps.third.where
            && ps.first.where != ps.third.where
  {
    ExprGen.PartitionsDistinct(p, p);
  }

  // ---------------------------------------------------------------------------
  // The verdict

  /** The context of a check: the backend, the visitor's text for each SELECT,
      the canonicalisation of result values (`canonicalizeResultValue`, not part
      of this model), and the message a failed comparison carries (it is made by
      `assumeResultSetsAreEqual`, which is not part of this model either). */
  datatype Env = Env(backend: Backend, show: SelectQuery -> string, canon: Value -> Value, mismatch: string)

  /** The values after canonicalisation, in order. */
  function Canonized(vs: seq<Value>, canon: Value -> Value): (r: seq<Value>)
    ensures |r| == |vs| && forall i :: 0 <= i < |vs| ==> r[i] == canon(vs[i])
  {
    seq(|vs|, i requires 0 <= i < |vs| => canon(vs[i]))
  }

  /** The comparison: the same canonical values, each as often, in any order. */
  predicate SameResults(a: seq<Value>, b: seq<Value>, canon: Value -> Value) {
    multiset(Canonized(a, canon)) == multiset(Canonized(b, canon))
  }

  /** A baseline read on a SELECT without joins and with at most two FROM items is
      not expected to fail. */
  predicate Simple(s: SelectQuery) {
    |s.joins| == 0 && |s.from| <= 2
  }

  /** `getMessage()` of the exception a fault stands for; IgnoreMeException has
      none, which string concatenation renders as `null`. */
  function FaultMessage(f: Fault): string {
    match f
    case SqlFailure(m) => m
    case Assertion(m) => m
    case _ => "null"
  }

  /** The note added to a failing baseline read of a simple SELECT. */
  const SimpleNote: string := "\n You probably triggered an error in the DBMS by the previous query, as the query is a simple select that could not easily have issue. Check the *-cur.log"

  /** `GeneralQueryPartitioningWhereReproducer`: the four texts and the coin. */
  datatype Reproducer = Reproducer(first: string, second: string, third: string, original: string, orderBy: bool)

  /** The end of one check: the exception it throws (None when it passes), the
      reproducer it leaves, and the handler and feedback after it. */
  datatype Checked = Checked(fault: Option<Fault>, reproducer: Option<Reproducer>, handler: Handler, feedback: Feedback)

  /** An attempt recorded as a failing query, with the read's exception passed on. */
  function Rethrow(h: Handler, fb: Feedback, f: Fault): (r: Checked)
    ensures r.fault == Some(f) && r.reproducer.None? && r.feedback == fb
    ensures r.handler.table == h.table + [h.current.(status := false, isQuery := true)]
  {
    var (h', fb') := AppendScoreToTable(h, fb, false, true, None);
    Checked(Some(f), None, h', fb')
  }

  /** The texts of the four queries. */
  datatype Texts = Texts(original: string, first: string, second: string, third: string)

  function TextsOf(env: Env, s: SelectQuery, ps: Partitions): Texts {
    Texts(env.show(Baseline(s)), env.show(ps.first), env.show(ps.second), env.show(ps.third))
  }

  /** The comparison once both sides are read: either way the attempt is recorded
      as a succeeding query with the first partition as its example; a difference
      fails with a reproducer of the four texts. */
  function Compare(h: Handler, fb: Feedback, env: Env, t: Texts, orderBy: bool, base: seq<Value>, parts: seq<Value>)
    : (r: Checked)
    ensures r.handler.table == h.table + [h.current.(status := true, isQuery := true)]
    ensures r.feedback == AppendScoreToTable(h, fb, true, true, Some(t.first)).1
    ensures r.fault.None? <==> SameResults(base, parts, env.canon)
    ensures r.fault.Some? ==> r.fault == Some(Assertion(env.mismatch))
                               && r.reproducer == Some(Reproducer(t.first, t.second, t.third, t.original, orderBy))
    ensures r.fault.None? ==> r.reproducer.None?
  {
    var (h', fb') := AppendScoreToTable(h, fb, true, true, Some(t.first));
    if SameResults(base, parts, env.canon) then Checked(None, None, h', fb')
    else Checked(Some(Assertion(env.mismatch)), Some(Reproducer(t.first, t.second, t.third, t.original, orderBy)), h', fb')
  }

  /** `check` for the SELECT `s` with predicate P, the ORDER BY coin and terms. A
      failing read passes an AssertionError on untouched; any other failure of the
      baseline read is an AssertionError with the note for a simple SELECT, and
      is recorded as a failure and passed on otherwise; a failure reading the
      partitions is recorded as a failure and passed on. */
  function Check(h: Handler, fb: Feedback, env: Env, s: SelectQuery, p: ExprGen.Expr, orderBy: bool,
                 terms: seq<ExprGen.OrderTerm>): (r: Checked)
  {
    var t := TextsOf(env, s, PartitionsOf(s, p, orderBy, terms));
    match FirstColumn(env.backend, t.original)
    case Failure(f) =>
      if f.Assertion? then Checked(Some(f), None, h, fb)
      else if Simple(s) then Checked(Some(Assertion(FaultMessage(f) + SimpleNote)), None, h, fb)
      else Rethrow(h, fb, f)
    case Success(base) =>
      match CombinedResultSet(env.backend, t.first, t.second, t.third, !orderBy).values
      case Failure(f) => if f.Assertion? then Checked(Some(f), None, h, fb) else Rethrow(h, fb, f)
      case Success(parts) => Compare(h, fb, env, t, orderBy, base, parts)
  }

  /** The failure paths. A baseline read that fails (short of an AssertionError)
      on a simple SELECT is a hard AssertionError that records nothing; on any
      other SELECT it records a failing query and passes the exception on, and
      the partitions are not read. */
  lemma BaselineFailure(h: Handler, fb: Feedback, env: Env, s: SelectQuery, p: ExprGen.Expr, orderBy: bool,
                        terms: seq<ExprGen.OrderTerm>)
    requires var f := FirstColumn(env.backend, env.show(Baseline(s))); f.Failure? && !f.error.Assertion?
    ensures var f := FirstColumn(env.backend, env.show(Baseline(s))).error;
            var r := Check(h, fb, env, s, p, orderBy, terms);
            && (Simple(s) ==> r == Checked(Some(Assertion(FaultMessage(f) + SimpleNote)), None, h, fb))
            && (!Simple(s) ==> r.fault == Some(f) && r.reproducer.None? && r.feedback == fb
                               && r.handler.table == h.table + [h.current.(status := false, isQuery := true)])
  {
  }

  /** Once the baseline is read, a failure reading the partitions (short of an
      AssertionError) records a failing query and passes the exception on; when
      both are read the attempt is recorded as a succeeding query with the first
      partition as the example, and it fails, with a reproducer of the four
      texts, exactly when the canonical values differ as multisets. */
  lemma PartitionVerdict(h: Handler, fb: Feedback, env: Env, s: SelectQuery, p: ExprGen.Expr, orderBy: bool,
                         terms: seq<ExprGen.OrderTerm>)
    requires FirstColumn(env.backend, env.show(Baseline(s))).Success?
    ensures var t := TextsOf(env, s, PartitionsOf(s, p, orderBy, terms));
            var base := FirstColumn(env.backend, t.original).value;
            var c := CombinedResultSet(env.backend, t.first, t.second, t.third, !orderBy).values;
            var r := Check(h, fb, env, s, p, orderBy, terms);
            && (c.Failure? && !c.error.Assertion? ==>
                  r.fault == Some(c.error) && r.handler.table == h.table + [h.current.(status := false, isQuery := true)])
            && (c.Success? ==>
                  && r.handler.table == h.table + [h.current.(status := true, isQuery := true)]
                  && r.feedback == AppendScoreToTable(h, fb, true, true, Some(t.first)).1
                  && (r.fault.None? <==> SameResults(base, c.value, env.canon))
                  && (r.fault.Some? ==> r.reproducer == Some(Reproducer(t.first, t.second, t.third, t.original, orderBy))))
  {
  }

  /** Without an ORDER BY the partitions are read as the one query
      `P1 UNION ALL P2 UNION ALL P3`; with one they are read one by one. */
  lemma UnionWithoutOrderBy(env: Env, s: SelectQuery, p: ExprGen.Expr, orderBy: bool, terms: seq<ExprGen.OrderTerm>)
    ensures var t := TextsOf(env, s, PartitionsOf(s, p, orderBy, terms));
            var c := CombinedResultSet(env.backend, t.first, t.second, t.third, !orderBy);
            && (!orderBy ==> c.strings == [UnionAll(t.first, t.second, t.third)])
            && (orderBy && c.values.Success? ==> c.strings == [t.first, t.second, t.third])
  {
  }

  // ---------------------------------------------------------------------------
  // The reproducer

  /** What replaying gives: whether the bug still shows (or the exception that
      escapes it) and the message then. */
  datatype Replay = Replay(triggers: Result<bool>, message: string)

  /** `bugStillTriggers`: the four texts are read again with the direct reader,
      whatever the option says. A failed comparison, or an AssertionError from a
      read, shows the bug; an SQLException does not; a discarded test case
      escapes. */
  function Replayed(r: Reproducer, env: Env, message: string): (res: Replay) {
    var b := env.backend.(autoIndexSelects := false);
    match FirstColumn(b, r.original)
    case Failure(f) => Escape(f, message)
    case Success(base) =>
      match CombinedResultSet(b, r.first, r.second, r.third, !r.orderBy).values
      case Failure(f) => Escape(f, message)
      case Success(parts) =>
        if SameResults(base, parts, env.canon) then Replay(Success(false), message)
        else Replay(Success(true), env.mismatch)
  }

  /** How a read's exception ends the replay. */
  function Escape(f: Fault, message: string): (res: Replay)
    ensures f.Assertion? ==> res == Replay(Success(true), f.msg)
    ensures f.SqlFailure? ==> res == Replay(Success(false), message)
    ensures !f.Assertion? && !f.SqlFailure? ==> res == Replay(Failure(f), message)
  {
    match f
    case Assertion(m) => Replay(Success(true), m)
    case SqlFailure(_) => Replay(Success(false), message)
    case _ => Replay(Failure(f), message)
  }

  /** With the option off, a reproducer replays its check: on the same answers it
      triggers exactly when the comparison of the check failed. */
  lemma ReplayAgrees(h: Handler, fb: Feedback, env: Env, s: SelectQuery, p: ExprGen.Expr, orderBy: bool,
                     terms: seq<ExprGen.OrderTerm>, message: string)
    requires !env.backend.autoIndexSelects
    requires Check(h, fb, env, s, p, orderBy, terms).reproducer.Some?
    ensures var r := Check(h, fb, env, s, p, orderBy, terms).reproducer.value;
            Replayed(r, env, message) == Replay(Success(true), env.mismatch)
  {
  }

  /** With the option off, a check that passed is not reproduced either. */
  lemma PassNotReplayed(h: Handler, fb: Feedback, env: Env, s: SelectQuery, p: ExprGen.Expr, orderBy: bool,
                        terms: seq<ExprGen.OrderTerm>, message: string)
    requires !env.backend.autoIndexSelects
    requires Check(h, fb, env, s, p, orderBy, terms).fault.None?
    ensures var t := TextsOf(env, s, PartitionsOf(s, p, orderBy, terms));
            Replayed(Reproducer(t.first, t.second, t.third, t.original, orderBy), env, message) ==
              Replay(Success(false), message)
  {
  }

  // ---------------------------------------------------------------------------
  // The principle

  /** A row of the joined tables: its first-column value and what P evaluates to
      on it (None for NULL). */
  datatype Row = Row(first: Value, truth: Option<bool>)

  /** The first-column values of all rows. */
  function All(rows: seq<Row>): (r: seq<Value>)
    ensures |r| == |rows|
  {
    if |rows| == 0 then [] else [rows[0].first] + All(rows[1..])
  }

  /** The first-column values of the rows on which P evaluates to `k`. */
  function Where(rows: seq<Row>, k: Option<bool>): (r: seq<Value>)
    ensures |r| <= |rows|
  {
    if |rows| == 0 then []
    else (if rows[0].truth == k then [rows[0].first] else []) + Where(rows[1..], k)
  }

  /** The three partitions hold every row exactly once: together they are a
      permutation of the baseline's values. */
  lemma {:induction false} PartitionsPermute(rows: seq<Row>)
    ensures multiset(Where(rows, Some(true)) + Where(rows, Some(false)) + Where(rows, None)) == multiset(All(rows))
  {
    if |rows| > 0 {
      var t := rows[1..];
      PartitionsPermute(t);
      var x := rows[0].first;
      var wt, wf, wn := Where(t, Some(true)), Where(t, Some(false)), Where(t, None);
      var m := multiset(wt) + multiset(wf) + multiset(wn);
      assert multiset(wt + wf + wn) == m;
      assert multiset(All(rows)) == multiset{x} + m by {
        assert All(rows) == [x] + All(t);
      }
      var ws := Where(rows, Some(true)) + Where(rows, Some(false)) + Where(rows, None);
      assert multiset(ws) == multiset(Where(rows, Some(true))) + multiset(Where(rows, Some(false)))
                             + multiset(Where(rows, None));
      PartitionStep(rows);
    }
  }

  /** One row joins exactly one partition. */
  lemma PartitionStep(rows: seq<Row>)
    requires |rows| > 0
    ensures var t := rows[1..];
            multiset(Where(rows, Some(true))) + multiset(Where(rows, Some(false))) + multiset(Where(rows, None))
            == multiset{rows[0].first} + multiset(Where(t, Some(true))) + multiset(Where(t, Some(false)))
               + multiset(Where(t, None))
  {
    var x := rows[0].first;
    var t := rows[1..];
    match rows[0].truth
    case Some(true) =>
      assert Where(rows, Some(true)) == [x] + Where(t, Some(true));
    case Some(false) =>
      assert Where(rows, Some(false)) == [x] + Where(t, Some(false));
    case None =>
      assert Where(rows, None) == [x] + Where(t, None);
  }

  /** The rows with canonical first-column values. */
  function CanonRows(rows: seq<Row>, canon: Value -> Value): (r: seq<Row>)
    ensures |r| == |rows| && forall i :: 0 <= i < |rows| ==> r[i] == rows[i].(first := canon(rows[i].first))
  {
    seq(|rows|, i requires 0 <= i < |rows| => rows[i].(first := canon(rows[i].first)))
  }

  /** Canonicalising commutes with taking the rows' values. */
  lemma {:induction false} CanonAll(rows: seq<Row>, canon: Value -> Value)
    ensures Canonized(All(rows), canon) == All(CanonRows(rows, canon))
  {
    if |rows| > 0 {
      CanonAll(rows[1..], canon);
      assert CanonRows(rows, canon)[1..] == CanonRows(rows[1..], canon);
      assert Canonized(All(rows), canon) == [canon(rows[0].first)] + Canonized(All(rows[1..]), canon);
    }
  }

  /** Canonicalising commutes with partitioning. */
  lemma {:induction false} CanonWhere(rows: seq<Row>, canon: Value -> Value, k: Option<bool>)
    ensures Canonized(Where(rows, k), canon) == Where(CanonRows(rows, canon), k)
  {
    if |rows| > 0 {
      CanonWhere(rows[1..], canon, k);
      assert CanonRows(rows, canon)[1..] == CanonRows(rows[1..], canon);
      var head := if rows[0].truth == k then [rows[0].first] else [];
      var rest := Where(rows[1..], k);
      assert Where(rows, k) == head + rest;
      assert Canonized(head + rest, canon) == Canonized(head, canon) + Canonized(rest, canon);
      assert Where(CanonRows(rows, canon), k) == Canonized(head, canon) + Where(CanonRows(rows[1..], canon), k);
    }
  }

  /** The comparison the oracle makes accepts a consistent partitioning: the
      canonical values of the three partitions make up the multiset of the
      baseline's. */
  lemma PartitionsCover(rows: seq<Row>, canon: Value -> Value)
    ensures SameResults(All(rows), Where(rows, Some(true)) + Where(rows, Some(false)) + Where(rows, None), canon)
  {
    var wt, wf, wn := Where(rows, Some(true)), Where(rows, Some(false)), Where(rows, None);
    var cr := CanonRows(rows, canon);
    CanonAll(rows, canon);
    CanonWhere(rows, canon, Some(true));
    CanonWhere(rows, canon, Some(false));
    CanonWhere(rows, canon, None);
    PartitionsPermute(cr);
    assert Canonized(wt + wf + wn, canon) == Where(cr, Some(true)) + Where(cr, Some(false)) + Where(cr, None);
  }

  /** The oracle does not report a DBMS that evaluates P consistently: when the
      baseline yields every row and the partitions yield the rows on which P is
      true, false and NULL (as one union, or one by one), the check passes and
      records a success with the first partition as the example. */
  lemma ConsistentPasses(h: Handler, fb: Feedback, env: Env, s: SelectQuery, p: ExprGen.Expr, orderBy: bool,
                         terms: seq<ExprGen.OrderTerm>, rows: seq<Row>)
    requires var t := TextsOf(env, s, PartitionsOf(s, p, orderBy, terms));
             && FirstColumn(env.backend, t.original) == Success(All(rows))
             && (!orderBy ==> FirstColumn(env.backend, UnionAll(t.first, t.second, t.third)) ==
                                Success(Where(rows, Some(true)) + Where(rows, Some(false)) + Where(rows, None)))
             && (orderBy ==> && FirstColumn(env.backend, t.first) == Success(Where(rows, Some(true)))
                             && FirstColumn(env.backend, t.second) == Success(Where(rows, Some(false)))
                             && FirstColumn(env.backend, t.third) == Success(Where(rows, None)))
    ensures var t := TextsOf(env, s, PartitionsOf(s, p, orderBy, terms));
            var r := Check(h, fb, env, s, p, orderBy, terms);
            && r.fault.None? && r.reproducer.None?
            && r.handler.table == h.table + [h.current.(status := true, isQuery := true)]
            && r.feedback == AppendScoreToTable(h, fb, true, true, Some(t.first)).1
  {
    PartitionsCover(rows, env.canon);
  }
}
