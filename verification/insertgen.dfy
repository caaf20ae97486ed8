/** INSERT generation (`GeneralInsertGenerator`): on a random table that is not a
    view and has columns, a non-empty subset of its columns, and one or more rows
    of constants for them. The loop test draws `smallNumber()` afresh before every
    row. A value is an untyped constant when UNTYPE_EXPR is enabled or on a
    small-probability coin, and a constant of the column's type otherwise. */
module InsertGen {
  import opened Base
  import opened Text
  import opened Features
  import opened Controller
  import opened Types
  import opened Schema
  import opened Session
  import opened Queries
  import TableGen

  /** The generator a value is asked of: the untyped one, or the typed one with
      the column's type. */
  datatype Source = Untyped | Typed(colType: CompositeType)

  /** A value of a row: where it comes from and its text. */
  datatype Value = Value(source: Source, text: string)

  /** The draws of one value: the small-probability coin and the text the
      generator returns. */
  datatype ValueDraw = ValueDraw(small: bool, text: string)

  /** The draws of one round of the row loop: `smallNumber()` for the loop test,
      then the draws of the row's values. */
  datatype RowDraw = RowDraw(small: nat, values: seq<ValueDraw>)

  /** The draws of one `generate`: the table, the column subset, the row rounds. */
  datatype InsertDraws = InsertDraws(tablePick: nat, columnPicks: seq<nat>, rows: seq<RowDraw>)

  // ---------------------------------------------------------------------------
  // Values and rows

  /** `insertValue`: the untyped generator when UNTYPE_EXPR is on or the coin says
      so, the typed one with the column's type otherwise. */
  function SourceOf(untyped: bool, c: Column, d: ValueDraw): (r: Source)
    ensures r.Untyped? <==> untyped || d.small
    ensures r.Typed? ==> r.colType == c.colType
  {
    if untyped || d.small then Untyped else Typed(c.colType)
  }

  /** The values of one row, one per column in column order. */
  function Row(untyped: bool, cols: seq<Column>, vs: seq<ValueDraw>): (r: Result<seq<Value>>)
    ensures r.Success? <==> |cols| <= |vs|
    ensures r.Failure? ==> r.error == OutOfChoices
  {
    if |vs| < |cols| then Failure(OutOfChoices)
    else Success(seq(|cols|, j requires 0 <= j < |cols| => Value(SourceOf(untyped, cols[j], vs[j]), vs[j].text)))
  }

  /** A row has one value per column, each asked of the generator `insertValue`
      picks for that column. */
  lemma RowValues(untyped: bool, cols: seq<Column>, vs: seq<ValueDraw>)
    requires |cols| <= |vs|
    ensures var row := Row(untyped, cols, vs).value;
            && |row| == |cols|
            && forall j :: 0 <= j < |cols| ==>
                 && (row[j].source.Untyped? <==> untyped || vs[j].small)
                 && (row[j].source.Typed? ==> row[j].source.colType == cols[j].colType)
                 && row[j].text == vs[j].text
  {
  }

  /** `insertColumns` from round `i` on: the loop ends at the first round whose
      test `i < smallNumber() + 1` fails; every earlier round adds a row. */
  function Rows(untyped: bool, cols: seq<Column>, draws: seq<RowDraw>, i: nat): (r: Result<seq<seq<Value>>>)
    ensures r.Success? ==> |r.value| < |draws| && !(i + |r.value| < draws[|r.value|].small + 1)
    ensures r.Success? ==> forall k :: 0 <= k < |r.value| ==> i + k < draws[k].small + 1
    ensures r.Success? ==> forall k :: 0 <= k < |r.value| ==> Row(untyped, cols, draws[k].values) == Success(r.value[k])
    ensures r.Failure? ==> r.error == OutOfChoices
    decreases |draws|
  {
    if |draws| == 0 then Failure(OutOfChoices)
    else if !(i < draws[0].small + 1) then Success([])
    else
      match Row(untyped, cols, draws[0].values)
      case Failure(e) => Failure(e)
      case Success(row) =>
        match Rows(untyped, cols, draws[1..], i + 1)
        case Failure(e) => Failure(e)
        case Success(rest) => Success([row] + rest)
  }

  /** Rows start at round 0, whose test always passes: there is at least one row. */
  lemma AtLeastOneRow(untyped: bool, cols: seq<Column>, draws: seq<RowDraw>)
    requires Rows(untyped, cols, draws, 0).Success?
    ensures |Rows(untyped, cols, draws, 0).value| >= 1
  {
  }

  /** When every round draws the same `n` and has the values it needs, the loop
      adds exactly `n + 1 - i` rows from round `i` on. */
  lemma {:induction false} SteadyRows(untyped: bool, cols: seq<Column>, draws: seq<RowDraw>, i: nat, n: nat)
    requires i <= n + 1 && n + 1 - i < |draws|
    requires forall k :: 0 <= k < |draws| ==> draws[k].small == n && |cols| <= |draws[k].values|
    ensures Rows(untyped, cols, draws, i).Success?
    ensures |Rows(untyped, cols, draws, i).value| == n + 1 - i
    decreases n + 1 - i
  {
    if i < n + 1 {
      assert forall k :: 0 <= k < |draws[1..]| ==> draws[1..][k] == draws[k + 1];
      SteadyRows(untyped, cols, draws[1..], i + 1, n);
    }
  }

  // ---------------------------------------------------------------------------
  // Text

  /** The texts of a row's values. */
  function Texts(row: seq<Value>): (r: seq<string>)
    ensures |r| == |row| && forall j :: 0 <= j < |row| ==> r[j] == row[j].text
  {
    seq(|row|, j requires 0 <= j < |row| => row[j].text)
  }

  /** A row in parentheses, its values separated by `, `. */
  function RowText(row: seq<Value>): string {
    "(" + Join(Texts(row), ", ") + ")"
  }

  /** The rows, separated by `, `. */
  function RowsText(rows: seq<seq<Value>>): string {
    if |rows| == 0 then ""
    else if |rows| == 1 then RowText(rows[0])
    else RowText(rows[0]) + ", " + RowsText(rows[1..])
  }

  /** The statement: `INSERT INTO <table>(<columns>) VALUES <rows>`. */
  function InsertText(t: Table, cols: seq<Column>, rows: seq<seq<Value>>): string {
    "INSERT INTO " + t.name + "(" + Join(TableGen.NamesOf(cols), ", ") + ")" + " VALUES " + RowsText(rows)
  }

  // ---------------------------------------------------------------------------
  // generate

  /** A successful `generate` and what it was built from. */
  datatype Inserted = Inserted(table: Table, columns: seq<Column>, rows: seq<seq<Value>>, step: Step)

  /** `generate` once the table is drawn: the column subset, the rows, and the
      statement over them. */
  function GenerateOn(st: GlobalState, d: InsertDraws, t: Table): (r: Result<Inserted>)
    ensures r.Success? ==>
              && r.value.table == t
              && SubsetPicks(d.columnPicks, |t.columns|) && r.value.columns == Select(t.columns, d.columnPicks)
              && Rows(Enabled(st.feedback.nodeOptions, UNTYPE_EXPR), r.value.columns, d.rows, 0) == Success(r.value.rows)
              && |r.value.rows| >= 1
              && r.value.step.query == Query(InsertText(t, r.value.columns, r.value.rows), InsertErrors, false)
              && r.value.step.st == st.(handler := st.handler.(current := ScoreNode(st.handler.current, INSERT)),
                                        creatingDatabase := false)
  {
    match NonEmptySubset(t.columns, d.columnPicks)
    case Failure(e) => Failure(e)
    case Success(cols) =>
      var untyped := Enabled(st.feedback.nodeOptions, UNTYPE_EXPR);
      match Rows(untyped, cols, d.rows, 0)
      case Failure(e) => Failure(e)
      case Success(rows) =>
        AtLeastOneRow(untyped, cols, d.rows);
        var st' := st.(handler := st.handler.(current := ScoreNode(st.handler.current, INSERT)),
                       creatingDatabase := false);
        Success(Inserted(t, cols, rows, Step(Query(InsertText(t, cols, rows), InsertErrors, false), st')))
  }

  /** `generate`. A schema without a table that has columns and is not a view
      bails out. Otherwise the statement inserts one or more rows into a
      non-empty subset of the table's columns, expects the insert errors and does
      not change the schema; INSERT is scored, and `creatingDatabase`, set while
      the values are made, is off again afterwards. Nothing else changes. */
  function Generate(st: GlobalState, d: InsertDraws): (r: Result<Inserted>)
    ensures (forall t :: t in st.tables ==> !Target(t, true)) ==> r == Failure(Ignore)
    ensures r.Success? ==>
              && r.value.table == RandomTableOrBailout(st.tables, true, d.tablePick).value
              && r.value.table in st.tables && Target(r.value.table, true)
              && r == GenerateOn(st, d, r.value.table)
  {
    match RandomTableOrBailout(st.tables, true, d.tablePick)
    case Failure(e) => Failure(e)
    case Success(t) => GenerateOn(st, d, t)
  }

  /** Every row the loop adds has one value per inserted column, and a value is
      untyped exactly when UNTYPE_EXPR is enabled or its coin says so, typed with
      its column's type otherwise. */
  lemma RowsValues(untyped: bool, cols: seq<Column>, draws: seq<RowDraw>)
    requires Rows(untyped, cols, draws, 0).Success?
    ensures var rows := Rows(untyped, cols, draws, 0).value;
            forall k, j :: 0 <= k < |rows| && 0 <= j < |cols| ==>
              && |rows[k]| == |cols|
              && (rows[k][j].source.Untyped? <==> untyped || draws[k].values[j].small)
              && (rows[k][j].source.Typed? ==> rows[k][j].source.colType == cols[j].colType)
  {
    var rows: seq<seq<Value>> := Rows(untyped, cols, draws, 0).value;
    forall k | 0 <= k < |rows|
      ensures |rows[k]| == |cols|
      ensures forall j :: 0 <= j < |cols| ==>
                && (rows[k][j].source.Untyped? <==> untyped || draws[k].values[j].small)
                && (rows[k][j].source.Typed? ==> rows[k][j].source.colType == cols[j].colType)
    {
      RowValues(untyped, cols, draws[k].values);
    }
  }
}
