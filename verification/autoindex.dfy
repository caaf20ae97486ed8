/** Routing a SELECT through an indexed view (`AutoIndexSelectHelper`): the query
    becomes the body of a view `v<uuid>` with columns `a1` .. `an`, an index
    `idx<uuid>` is put on the view, the rows are read back from the view, and the
    view is dropped. What the DBMS answers to each statement is an input here; the
    model states which SQL is sent and how the answers become a result. */
module AutoIndex {
  import opened Base
  import opened Text

  /** `MAX_ROWS_LIMIT`: the statement never hands back more rows than this. */
  const MaxRows: nat := 100000

  /** A value of the first column; None stands for SQL NULL. */
  type Value = Option<string>

  // ---------------------------------------------------------------------------
  // Names

  /** The view and index names of one routing. */
  datatype Names = Names(view: string, index: string)

  /** Both names carry the random UUID with its dashes removed, after `v` and
      `idx` respectively. */
  function NamesOf(uuid: string): (r: Names) {
    var suffix := Replace(uuid, "-", "");
    Names("v" + suffix, "idx" + suffix)
  }

  /** The two names end in the same suffix and differ from each other, and the
      suffix determines them. */
  lemma NamesShareSuffix(u: string, w: string)
    ensures var n := NamesOf(u);
            var suffix := Replace(u, "-", "");
            && EndsWith(n.view, suffix) && EndsWith(n.index, suffix)
            && n.view != n.index
    ensures Replace(u, "-", "") == Replace(w, "-", "") <==> NamesOf(u) == NamesOf(w)
  {
    var n := NamesOf(u);
    var suffix := Replace(u, "-", "");
    assert n.view[|n.view| - |suffix|..] == suffix;
    assert n.index[|n.index| - |suffix|..] == suffix;
    assert n.view[0] == 'v' && n.index[0] == 'i';
    var m := NamesOf(w);
    if n == m {
      assert n.view[1..] == suffix && m.view[1..] == Replace(w, "-", "");
    }
  }

  // ---------------------------------------------------------------------------
  // The generated statements

  /** The column count is known when the probe succeeded and gave a positive
      count. */
  predicate Known(numColumns: Option<int>) {
    numColumns.Some? && numColumns.value > 0
  }

  /** `a1`, `a2`, ..., `an`. */
  function Aliases(n: nat): (r: seq<string>)
    ensures |r| == n
    ensures forall i :: 0 <= i < n ==> r[i] == "a" + NatToString(i + 1)
  {
    seq(n, i requires 0 <= i < n => "a" + NatToString(i + 1))
  }

  /** The aliases, separated by `, `. */
  function AliasList(n: nat): string {
    Join(Aliases(n), ", ")
  }

  /** `generateCreateViewSql`: the column list is present only for a known count. */
  function CreateViewSql(query: string, view: string, numColumns: Option<int>): string {
    "CREATE VIEW " + view + (if Known(numColumns) then "(" + AliasList(numColumns.value) + ")" else "") +
    " AS " + query
  }

  /** `generateCreateIndexSql`: the index covers every alias, or `a1` alone for an
      unknown count. */
  function CreateIndexSql(view: string, index: string, numColumns: Option<int>): string {
    "CREATE INDEX " + index + " ON " + view + "(" +
    (if Known(numColumns) then AliasList(numColumns.value) else "a1") + ")"
  }

  /** `generateViewSelectSql`: the aliases, or `*` for an unknown count. */
  function ViewSelectSql(view: string, numColumns: Option<int>): string {
    "SELECT " + (if Known(numColumns) then AliasList(numColumns.value) else "*") + " FROM " + view
  }

  /** `generateDropViewSql`. */
  function DropViewSql(view: string): string {
    "DROP VIEW " + view
  }

  /** The aliases are pairwise different, so the view's columns never clash. */
  lemma AliasesDistinct(n: nat)
    ensures forall i, j :: 0 <= i < j < n ==> Aliases(n)[i] != Aliases(n)[j]
  {
    forall i, j | 0 <= i < j < n
      ensures Aliases(n)[i] != Aliases(n)[j]
    {
      if Aliases(n)[i] == Aliases(n)[j] {
        assert NatToString(i + 1) == Aliases(n)[i][1..] == Aliases(n)[j][1..] == NatToString(j + 1);
        NatToStringInjective(i + 1, j + 1);
      }
    }
  }

  /** For a known count the view declares the same column list that the index
      covers and the SELECT reads back. */
  lemma KnownStatements(query: string, view: string, index: string, n: nat)
    requires n > 0
    ensures var list := AliasList(n);
            && CreateViewSql(query, view, Some(n)) == "CREATE VIEW " + view + "(" + list + ")" + " AS " + query
            && CreateIndexSql(view, index, Some(n)) == "CREATE INDEX " + index + " ON " + view + "(" + list + ")"
            && ViewSelectSql(view, Some(n)) == "SELECT " + list + " FROM " + view
  {
  }

  /** For an unknown count the view declares no column list, the index falls back
      to the single column `a1` (the index a count of one gives) and the SELECT
      reads `*`. */
  lemma UnknownStatements(query: string, view: string, index: string, numColumns: Option<int>)
    requires !Known(numColumns)
    ensures CreateViewSql(query, view, numColumns) == "CREATE VIEW " + view + "" + " AS " + query
    ensures CreateIndexSql(view, index, numColumns) == CreateIndexSql(view, index, Some(1))
    ensures ViewSelectSql(view, numColumns) == "SELECT " + "*" + " FROM " + view
  {
    assert AliasList(1) == Aliases(1)[0] == "a" + NatToString(1) == "a1";
  }

  /** The count probe (`getColumnCount`): ` LIMIT 0` is appended unless the query
      already mentions LIMIT in any letter case. */
  function ProbeSql(query: string): (r: string)
    ensures Contains(Upper(query), "LIMIT") ==> r == query
    ensures !Contains(Upper(query), "LIMIT") ==> StartsWith(r, query) && r[|query|..] == " LIMIT 0"
  {
    if Contains(Upper(query), "LIMIT") then query
    else
      var r := query + " LIMIT 0";
      assert r[..|query|] == query;
      r
  }

  /** The probe always mentions LIMIT, so probing a probe changes nothing. */
  lemma ProbeHasLimit(query: string)
    ensures Contains(Upper(ProbeSql(query)), "LIMIT")
    ensures ProbeSql(ProbeSql(query)) == ProbeSql(query)
  {
    var r := ProbeSql(query);
    if !Contains(Upper(query), "LIMIT") {
      var u := Upper(r);
      assert u[|query| + 1..|query| + 6] == "LIMIT";
      assert OccursAt(u, "LIMIT", |query| + 1);
    }
  }

  // ---------------------------------------------------------------------------
  // Values

  /** The number of `0` characters that end the string. */
  function TrailingZeros(s: string): (z: nat)
    ensures z <= |s|
    ensures forall j :: |s| - z <= j < |s| ==> s[j] == '0'
    ensures z < |s| ==> s[|s| - z - 1] != '0'
  {
    if |s| == 0 || s[|s| - 1] != '0' then 0
    else
      var z := TrailingZeros(s[..|s| - 1]);
      assert forall j :: |s| - 1 - z <= j < |s| - 1 ==> s[..|s| - 1][j] == s[j];
      z + 1
  }

  /** A `.` followed by one or more `0` and nothing else. */
  predicate DotZeros(t: string) {
    |t| >= 2 && t[0] == '.' && forall j :: 1 <= j < |t| ==> t[j] == '0'
  }

  /** Where a `.` followed only by zeros starts, it starts right before the
      trailing zeros: there is at most one such place. */
  lemma DotZerosAt(s: string, i: nat)
    requires i < |s| && DotZeros(s[i..])
    ensures 0 < TrailingZeros(s) < |s| && i == |s| - TrailingZeros(s) - 1 && s[i] == '.'
  {
    assert s[i] == s[i..][0];
    assert forall j :: i < j < |s| ==> s[j] == s[i..][j - i];
  }

  /** `replaceAll("[\\.]0+$", "")`: a final `.` with the zeros after it is cut
      off; anything else is kept. Java's `$` also matches right before a final
      line terminator, so a value such as `1.0` followed by a newline loses its
      `.0` in the source but is kept whole here: values are taken to hold no
      line terminators. */
  function StripZeros(s: string): (r: string)
    ensures r != s ==> |r| < |s| && s[..|r|] == r && DotZeros(s[|r|..])
  {
    var z := TrailingZeros(s);
    if 0 < z < |s| && s[|s| - z - 1] == '.' then
      var r := s[..|s| - z - 1];
      assert s[|r|..][0] == '.';
      r
    else s
  }

  /** The string changes exactly when it ends in a `.` followed by one or more
      zeros. */
  lemma StripZerosChanges(s: string)
    ensures (exists i :: 0 <= i < |s| && DotZeros(s[i..])) <==> StripZeros(s) != s
  {
    if exists i :: 0 <= i < |s| && DotZeros(s[i..]) {
      var i :| 0 <= i < |s| && DotZeros(s[i..]);
      DotZerosAt(s, i);
    }
  }

  /** `n` zeros. */
  function Zeros(n: nat): (r: string)
    ensures |r| == n && forall j :: 0 <= j < n ==> r[j] == '0'
  {
    seq(n, _ => '0')
  }

  /** Stripping undoes a `.` and one or more zeros appended to any string: a
      decimal rendering `x.0`, `x.00`, ... reads back as `x`. */
  lemma StripAppended(s: string, k: nat)
    requires k >= 1
    ensures StripZeros(s + "." + Zeros(k)) == s
  {
    var t := s + "." + Zeros(k);
    assert t[|s|..] == "." + Zeros(k);
    assert DotZeros(t[|s|..]);
    StripZerosChanges(t);
    var r := StripZeros(t);
    DotZerosAt(t, |s|);
    DotZerosAt(t, |r|);
  }

  /** A value as it is collected: NULL stays NULL, a string loses a final `.0..0`. */
  function Canonical(v: Value): (r: Value)
    ensures r.None? <==> v.None?
    ensures v.Some? ==> r.value == StripZeros(v.value)
  {
    match v
    case None => None
    case Some(s) => Some(StripZeros(s))
  }

  // ---------------------------------------------------------------------------
  // Executing through the view

  /** What the DBMS answers to a query: the rows it hands back (as many as it
      has, before the row cap), or the message of the SQLException it raised. */
  datatype Outcome<T> = Fetched(rows: seq<T>) | Raised(message: string)

  /** `IndexedSelectResult`: the collected values, or the error message. */
  datatype Indexed = Collected(results: seq<Value>) | IndexedError(message: string)

  /** `setMaxRows(MAX_ROWS_LIMIT)`: the first rows, at most the cap. */
  function Capped<T>(rows: seq<T>): (r: seq<T>)
    ensures |r| <= MaxRows && |r| <= |rows| && r == rows[..|r|]
    ensures |r| == MaxRows <==> |rows| >= MaxRows
  {
    if |rows| <= MaxRows then rows else rows[..MaxRows]
  }

  /** The values read from the capped rows, in order; a full page of rows is
      reported as an error, so the comparison is skipped. */
  function Collect(rows: seq<Value>): (r: Indexed)
    ensures r.IndexedError? <==> |rows| >= MaxRows
    ensures r.IndexedError? ==> r.message == "Row limit exceeded"
    ensures r.Collected? ==> |r.results| == |rows| && forall i :: 0 <= i < |rows| ==> r.results[i] == Canonical(rows[i])
  {
    var kept := Capped(rows);
    if |kept| == MaxRows then IndexedError("Row limit exceeded")
    else Collected(seq(|kept|, i requires 0 <= i < |kept| => Canonical(kept[i])))
  }

  /** `executeDirectQuery`: the query itself, expected error or not. */
  function DirectQuery(select: Outcome<Value>): (r: Indexed)
    ensures select.Raised? ==> r == IndexedError(select.message)
    ensures select.Fetched? ==> r == Collect(select.rows)
  {
    match select
    case Raised(m) => IndexedError(m)
    case Fetched(rows) => Collect(rows)
  }

  /** The answers the DBMS gives to one routing: to opening a statement (None
      when it opens), to CREATE VIEW (None when it succeeds), to the SELECT from
      the view, and to the query itself should the view fail. The answer to
      CREATE INDEX and DROP VIEW is ignored, so it is not an input. */
  datatype Answers = Answers(open: Option<string>, createView: Option<string>, select: Outcome<Value>,
                             direct: Outcome<Value>)

  /** `executeSelectThroughIndexedView`. */
  function ThroughView(a: Answers): (r: Indexed)
    ensures a.open.Some? ==> r == IndexedError(a.open.value)
    ensures a.open.None? && a.createView.Some? ==> r == DirectQuery(a.direct)
    ensures a.open.None? && a.createView.None? ==> r == DirectQuery(a.select)
  {
    if a.open.Some? then IndexedError(a.open.value)
    else if a.createView.Some? then DirectQuery(a.direct)
    else
      match a.select
      case Raised(m) => IndexedError(m)
      case Fetched(rows) => Collect(rows)
  }

  /** A routing succeeds exactly when the query that is finally read (the view, or
      the query itself once the view could not be made) yields fewer rows than
      the cap; then it yields them all, canonical and in order, NULL kept. */
  lemma ThroughViewRows(a: Answers)
    requires a.open.None?
    ensures var read := if a.createView.Some? then a.direct else a.select;
            && (ThroughView(a).Collected? <==> read.Fetched? && |read.rows| < MaxRows)
            && (ThroughView(a).Collected? ==>
                  forall i :: 0 <= i < |read.rows| ==>
                    && ThroughView(a).results[i] == Canonical(read.rows[i])
                    && (ThroughView(a).results[i].None? <==> read.rows[i].None?))
  {
  }

  // ---------------------------------------------------------------------------
  // Counting through the view

  /** `BooleanCountResult`: a count, or -1 with a message and the success flag
      `!isError`. */
  datatype CountResult = CountResult(count: int, success: bool, message: Option<string>)

  /** The error form: count -1, success exactly when the error is not one. */
  function CountError(message: Option<string>, isError: bool): (r: CountResult)
    ensures r.count == -1 && r.message == message
    ensures r.success <==> !isError
  {
    CountResult(-1, !isError, message)
  }

  /** The number of `true` values. */
  function TrueCount(bs: seq<bool>): (n: nat)
    ensures n <= |bs|
  {
    if |bs| == 0 then 0 else (if bs[0] then 1 else 0) + TrueCount(bs[1..])
  }

  /** The count agrees with the number of `true` in the multiset of values. */
  lemma {:induction false} TrueCountMultiset(bs: seq<bool>)
    ensures TrueCount(bs) == multiset(bs)[true]
  {
    if |bs| > 0 {
      TrueCountMultiset(bs[1..]);
      assert bs == [bs[0]] + bs[1..];
      assert multiset(bs) == multiset([bs[0]]) + multiset(bs[1..]);
    }
  }

  /** The answers to one counting: opening a statement, CREATE VIEW, and the
      SELECT from the view, whose rows are read here as the first column's
      `getBoolean`. */
  datatype CountAnswers<T> = CountAnswers(open: Option<string>, createView: Option<string>, select: Outcome<T>)

  /** The shared failure paths of the two counts: an error at opening is one; a
      failing CREATE VIEW or SELECT is one unless it is expected. */
  function CountFailure<T>(a: CountAnswers<T>, expected: string -> bool): (r: Option<CountResult>)
    ensures r.None? <==> a.open.None? && a.createView.None? && a.select.Fetched?
    ensures r.Some? ==> r.value.count == -1
  {
    if a.open.Some? then Some(CountError(a.open, true))
    else if a.createView.Some? then Some(CountError(a.createView, !expected(a.createView.value)))
    else if a.select.Raised? then Some(CountError(Some(a.select.message), !expected(a.select.message)))
    else None
  }

  /** `executeBooleanCountThroughIndexedView`: the number of rows whose first
      column is true; a full page of rows fails with no message. */
  function BooleanCount(a: CountAnswers<bool>, expected: string -> bool): (r: CountResult)
    ensures CountFailure(a, expected).Some? ==> r == CountFailure(a, expected).value
    ensures CountFailure(a, expected).None? && |a.select.rows| >= MaxRows ==> r == CountError(None, true)
    ensures CountFailure(a, expected).None? && |a.select.rows| < MaxRows ==>
              r == CountResult(TrueCount(a.select.rows), true, None)
  {
    match CountFailure(a, expected)
    case Some(e) => e
    case None =>
      var kept := Capped(a.select.rows);
      if |kept| == MaxRows then CountError(None, true) else CountResult(TrueCount(kept), true, None)
  }

  /** `executeRowCountThroughIndexedView`: the number of rows; a full page of rows
      fails with no message. */
  function RowCount<T>(a: CountAnswers<T>, expected: string -> bool): (r: CountResult)
    ensures CountFailure(a, expected).Some? ==> r == CountFailure(a, expected).value
    ensures CountFailure(a, expected).None? && |a.select.rows| >= MaxRows ==> r == CountError(None, true)
    ensures CountFailure(a, expected).None? && |a.select.rows| < MaxRows ==>
              r == CountResult(|a.select.rows|, true, None)
  {
    match CountFailure(a, expected)
    case Some(e) => e
    case None =>
      var kept := Capped(a.select.rows);
      if |kept| == MaxRows then CountError(None, true) else CountResult(|kept|, true, None)
  }

  /** Either count is non-negative exactly when every statement answered and
      fewer rows than the cap came back; a count of -1 is a success exactly when
      its error was an expected one; and the boolean count never exceeds the row
      count. */
  lemma CountsAgree(a: CountAnswers<bool>, expected: string -> bool)
    ensures var b := BooleanCount(a, expected);
            var n := RowCount(a, expected);
            && (b.count >= 0 <==> CountFailure(a, expected).None? && |a.select.rows| < MaxRows)
            && (n.count >= 0 <==> b.count >= 0)
            && (b.count >= 0 ==> b.success && b.count <= n.count && b.count == multiset(a.select.rows)[true])
            && (b.count == -1 && a.open.None? && a.createView.Some? ==> (b.success <==> expected(a.createView.value)))
  {
    if CountFailure(a, expected).None? && |a.select.rows| < MaxRows {
      TrueCountMultiset(a.select.rows);
    }
  }
}
