/** UPDATE generation (`GeneralUpdateGenerator`): on a random table that is not a
    view and has columns, `SET` over a non-empty subset of its columns, each to an
    expression on a rather-low coin and to a constant otherwise, and a WHERE
    clause when UPDATE_WHERE is enabled and a coin says so. */
module UpdateGen {
  import opened Base
  import opened Text
  import opened Features
  import opened Controller
  import opened Types
  import opened Schema
  import opened Session
  import opened Queries

  /** One `column=value` of the SET list: the column's name, whether the value is
      an expression (rather than a constant), the type the typed generator was
      asked for (none for the untyped generator), and the value's text. */
  datatype Setting = Setting(column: string, expression: bool, asked: Option<CompositeType>, text: string)

  /** The draws of one value: the rather-low coin and the text generated. */
  datatype ValueDraw = ValueDraw(rare: bool, text: string)

  /** The draws of one `generate`: the table, the column subset, whether the
      expression generator handed out is the typed one, the values, and the
      WHERE coin with the text of its predicate. */
  datatype UpdateDraws = UpdateDraws(tablePick: nat, columnPicks: seq<nat>, typed: bool, values: seq<ValueDraw>,
                                     where: bool, whereText: string)

  // ---------------------------------------------------------------------------
  // SET

  /** `updateValue`: an expression on the rather-low coin, a constant otherwise;
      the typed generator is asked for the column's type. */
  function SettingOf(typed: bool, c: Column, d: ValueDraw): (r: Setting)
    ensures r.column == c.name && r.text == d.text
    ensures r.expression <==> d.rare
    ensures r.asked.Some? <==> typed
    ensures r.asked.Some? ==> r.asked.value == c.colType
  {
    Setting(c.name, d.rare, if typed then Some(c.colType) else None, d.text)
  }

  /** The SET list, one setting per column in column order. */
  function Settings(typed: bool, cols: seq<Column>, vs: seq<ValueDraw>): (r: Result<seq<Setting>>)
    ensures r.Success? <==> |cols| <= |vs|
    ensures r.Success? ==> |r.value| == |cols| && forall j :: 0 <= j < |cols| ==> r.value[j] == SettingOf(typed, cols[j], vs[j])
    ensures r.Failure? ==> r.error == OutOfChoices
  {
    if |vs| < |cols| then Failure(OutOfChoices)
    else Success(seq(|cols|, j requires 0 <= j < |cols| => SettingOf(typed, cols[j], vs[j])))
  }

  /** Some value of the list is an expression. */
  predicate AnyExpression(sets: seq<Setting>) {
    exists j :: 0 <= j < |sets| && sets[j].expression
  }

  /** The errors of the statement: the insert errors, and the expression errors
      once a value is an expression. A WHERE predicate adds none. */
  function UpdateErrors(sets: seq<Setting>): (r: Errors)
    ensures r.insert && !r.anything && r.messages == []
    ensures r.expression <==> AnyExpression(sets)
  {
    Errors(false, [], AnyExpression(sets), true)
  }

  /** `column=value` pairs separated by `, `. */
  function SetsText(sets: seq<Setting>): string {
    Join(seq(|sets|, j requires 0 <= j < |sets| => sets[j].column + "=" + sets[j].text), ", ")
  }

  // ---------------------------------------------------------------------------
  // WHERE

  /** The WHERE clause is appended when UPDATE_WHERE is enabled and the coin says
      so. */
  predicate HasWhere(st: GlobalState, d: UpdateDraws) {
    Enabled(st.feedback.nodeOptions, UPDATE_WHERE) && d.where
  }

  /** The WHERE clause as text, empty when there is none. */
  function WhereText(st: GlobalState, d: UpdateDraws): (r: string)
    ensures r == "" <==> !HasWhere(st, d)
  {
    if HasWhere(st, d) then " WHERE " + d.whereText else ""
  }

  /** The record after the statement: UPDATE_WHERE scored exactly for a WHERE
      clause. */
  function WhereScored(rec: Record, st: GlobalState, d: UpdateDraws): (r: Record)
    ensures CountOf(r.nodes, UPDATE_WHERE) == CountOf(rec.nodes, UPDATE_WHERE) + (if HasWhere(st, d) then 1 else 0)
    ensures forall n :: n != UPDATE_WHERE ==> CountOf(r.nodes, n) == CountOf(rec.nodes, n)
    ensures r.composites == rec.composites && r.fragments == rec.fragments
    ensures r.status == rec.status && r.isQuery == rec.isQuery
  {
    if HasWhere(st, d) then ScoreNode(rec, UPDATE_WHERE) else rec
  }

  // ---------------------------------------------------------------------------
  // generate

  /** A successful `generate` and what it was built from. */
  datatype Updated = Updated(table: Table, columns: seq<Column>, sets: seq<Setting>, step: Step)

  /** `generate` once the table is drawn. */
  function GenerateOn(st: GlobalState, d: UpdateDraws, t: Table): (r: Result<Updated>)
    ensures r.Success? ==>
              && r.value.table == t
              && SubsetPicks(d.columnPicks, |t.columns|) && r.value.columns == Select(t.columns, d.columnPicks)
              && Settings(d.typed, r.value.columns, d.values) == Success(r.value.sets)
              && r.value.step.query ==
                 Query("UPDATE " + t.name + " SET " + SetsText(r.value.sets) + WhereText(st, d),
                       UpdateErrors(r.value.sets), false)
              && r.value.step.st == st.(handler := st.handler.(current := WhereScored(st.handler.current, st, d)))
  {
    match NonEmptySubset(t.columns, d.columnPicks)
    case Failure(e) => Failure(e)
    case Success(cols) =>
      match Settings(d.typed, cols, d.values)
      case Failure(e) => Failure(e)
      case Success(sets) =>
        var sql := "UPDATE " + t.name + " SET " + SetsText(sets) + WhereText(st, d);
        Success(Updated(t, cols, sets, Step(Query(sql, UpdateErrors(sets), false),
                                            st.(handler := st.handler.(current := WhereScored(st.handler.current, st, d))))))
  }

  /** `generate`. A schema without a table that has columns and is not a view
      bails out; otherwise the statement is built on the drawn table. */
  function Generate(st: GlobalState, d: UpdateDraws): (r: Result<Updated>)
    ensures (forall t :: t in st.tables ==> !Target(t, true)) ==> r == Failure(Ignore)
    ensures r.Success? ==>
              && r.value.table == RandomTableOrBailout(st.tables, true, d.tablePick).value
              && r.value.table in st.tables && Target(r.value.table, true)
              && r == GenerateOn(st, d, r.value.table)
  {
    match RandomTableOrBailout(st.tables, true, d.tablePick)
    case Failure(e) => Failure(e)
    case Success(t) => GenerateOn(st, d, t)
  }

  /** Every inserted column is set once, in the subset's order; with the typed
      generator each value is asked for with its column's type; and the
      expression errors are expected exactly when some value is an expression. */
  lemma GenerateSettings(st: GlobalState, d: UpdateDraws)
    requires Generate(st, d).Success?
    ensures var g := Generate(st, d).value;
            && |g.sets| == |g.columns| > 0
            && (forall j :: 0 <= j < |g.sets| ==>
                  && g.sets[j].column == g.columns[j].name
                  && (d.typed ==> g.sets[j].asked == Some(g.columns[j].colType))
                  && (!d.typed ==> g.sets[j].asked.None?)
                  && (g.sets[j].expression <==> d.values[j].rare))
            && (g.step.query.errors.expression <==> exists j :: 0 <= j < |g.columns| && d.values[j].rare)
  {
  }

  /** The statement has a WHERE clause exactly when UPDATE_WHERE is enabled and the
      coin says so, and UPDATE_WHERE is scored exactly then; no other node
      is scored and the statement never changes the schema. */
  lemma GenerateWhere(st: GlobalState, d: UpdateDraws)
    requires Generate(st, d).Success?
    ensures var g := Generate(st, d).value;
            var rec := g.step.st.handler.current;
            && (WhereText(st, d) != "" <==> Enabled(st.feedback.nodeOptions, UPDATE_WHERE) && d.where)
            && (CountOf(rec.nodes, UPDATE_WHERE) > CountOf(st.handler.current.nodes, UPDATE_WHERE)
                <==> WhereText(st, d) != "")
            && (forall n :: n != UPDATE_WHERE ==> CountOf(rec.nodes, n) == CountOf(st.handler.current.nodes, n))
            && !g.step.query.couldAffectSchema
  {
  }
}
