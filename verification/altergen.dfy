/** ALTER TABLE generation (`GeneralAlterTableGenerator`): on a random table that
    is not a view and has columns, one of three actions. ADD COLUMN appends a
    column with a free name and a random type; ALTER COLUMN gives an existing
    column a new type, optionally with a USING expression, and does not count as
    a schema change; DROP COLUMN removes the columns of a drawn name. The pending
    delta is the table with its new column list. */
module AlterGen {
  import opened Base
  import opened Text
  import opened Types
  import opened Schema
  import opened Session
  import opened Queries

  /** The three actions, in declaration order. */
  datatype Action = AddColumn | AlterColumn | DropColumn

  const Actions: seq<Action> := [AddColumn, AlterColumn, DropColumn]

  /** The draws of one `getQuery`: the table, the action, the start of the free
      column search, the draws of `getRandomWithoutNull`, the column, and the
      USING coin with the text of its expression. */
  datatype AlterDraws = AlterDraws(tablePick: nat, actionPick: nat, start: nat, typePick: nat, idPick: nat,
                                   wide: bool, columnPick: nat, using: bool, usingText: string)

  // ---------------------------------------------------------------------------
  // Column names

  /** Some column is called `name`. */
  predicate HasColumn(cols: seq<Column>, name: string) {
    exists j :: 0 <= j < |cols| && cols[j].name == name
  }

  /** The columns still called `c<k>` for some `k` from `i` on: they bound the
      search for a free name. */
  ghost function Blocking(cols: seq<Column>, i: nat): set<nat> {
    set j | 0 <= j < |cols| && exists k: nat :: k >= i && cols[j].name == ColumnName(k)
  }

  /** Moving past a taken name frees the column that took it. */
  lemma BlockingShrinks(cols: seq<Column>, i: nat)
    requires HasColumn(cols, ColumnName(i))
    ensures |Blocking(cols, i + 1)| < |Blocking(cols, i)|
  {
    var j0 :| 0 <= j0 < |cols| && cols[j0].name == ColumnName(i);
    assert j0 in Blocking(cols, i);
    forall j | j in Blocking(cols, i + 1)
      ensures j in Blocking(cols, i) - {j0}
    {
      var k: nat :| k >= i + 1 && cols[j].name == ColumnName(k);
      if j == j0 {
        NamesInjective(i, k);
      }
    }
    SubsetSmaller(Blocking(cols, i + 1), Blocking(cols, i) - {j0});
  }

  /** The first `c<k>` from `i` on that no column is called. */
  function FreeColumnFrom(cols: seq<Column>, i: nat): (r: nat)
    ensures r >= i && !HasColumn(cols, ColumnName(r))
    ensures forall k :: i <= k < r ==> HasColumn(cols, ColumnName(k))
    decreases |Blocking(cols, i)|
  {
    if HasColumn(cols, ColumnName(i)) then
      BlockingShrinks(cols, i);
      FreeColumnFrom(cols, i + 1)
    else i
  }

  /** `getFreeColumnName`: the first `c<k>`, from the drawn start on, that no column
      of the table is called. */
  function FreeColumnName(t: Table, start: nat): (r: string)
    ensures forall j :: 0 <= j < |t.columns| ==> t.columns[j].name != r
    ensures exists k: nat :: k >= start && r == ColumnName(k)
  {
    var k := FreeColumnFrom(t.columns, start);
    ColumnName(k)
  }

  // ---------------------------------------------------------------------------
  // Dropping columns

  /** `removeIf(c -> c.getName().contentEquals(name))`: the columns of other
      names, in their order. */
  function RemoveNamed(cols: seq<Column>, name: string): seq<Column> {
    if |cols| == 0 then []
    else if cols[0].name == name then RemoveNamed(cols[1..], name)
    else [cols[0]] + RemoveNamed(cols[1..], name)
  }

  /** Exactly the columns of other names survive; when some column has the name,
      the list gets shorter, and otherwise it stays as it was. */
  lemma {:induction false} RemoveNamedMembers(cols: seq<Column>, name: string)
    ensures forall c :: c in RemoveNamed(cols, name) <==> c in cols && c.name != name
    ensures HasColumn(cols, name) ==> |RemoveNamed(cols, name)| < |cols|
    ensures !HasColumn(cols, name) ==> RemoveNamed(cols, name) == cols
    ensures |RemoveNamed(cols, name)| <= |cols|
  {
    if |cols| > 0 {
      RemoveNamedMembers(cols[1..], name);
      assert cols == [cols[0]] + cols[1..];
      if HasColumn(cols, name) && cols[0].name != name {
        var j :| 0 <= j < |cols| && cols[j].name == name;
        assert cols[1..][j - 1] == cols[j];
      }
      if HasColumn(cols[1..], name) {
        var j :| 0 <= j < |cols[1..]| && cols[1..][j].name == name;
        assert cols[j + 1] == cols[1..][j];
      }
    }
  }

  /** Removing from two column lists in a row removes from each, keeping order. */
  lemma {:induction false} RemoveNamedAppend(a: seq<Column>, b: seq<Column>, name: string)
    ensures RemoveNamed(a + b, name) == RemoveNamed(a, name) + RemoveNamed(b, name)
  {
    if |a| > 0 {
      var x, y := RemoveNamed(a[1..], name), RemoveNamed(b, name);
      assert (a + b)[1..] == a[1..] + b;
      RemoveNamedAppend(a[1..], b, name);
      assert RemoveNamed(a + b, name) == (if a[0].name == name then x + y else [a[0]] + (x + y));
      assert RemoveNamed(a, name) == (if a[0].name == name then x else [a[0]] + x);
      assert [a[0]] + (x + y) == ([a[0]] + x) + y;
    } else {
      assert a + b == b;
    }
  }

  /** Dropping a column just added under a free name restores the columns. */
  lemma AddThenDrop(t: Table, start: nat, ct: CompositeType)
    ensures var name := FreeColumnName(t, start);
            RemoveNamed(t.columns + [Column(name, ct, false, false)], name) == t.columns
  {
    var name := FreeColumnName(t, start);
    RemoveNamedAppend(t.columns, [Column(name, ct, false, false)], name);
    RemoveNamedMembers(t.columns, name);
    assert [Column(name, ct, false, false)][1..] == [];
  }

  // ---------------------------------------------------------------------------
  // Actions

  /** The type `getRandomWithoutNull()` draws and its SQL spelling; a VARTYPE
      without a registered name dereferences null. */
  datatype Typed = Typed(colType: CompositeType, spelled: string)

  function NewType(st: GlobalState, ctx: Context, d: AlterDraws): (r: Result<Typed>)
    ensures r.Success? ==> r.value.colType.dt != DataType.NULL
    ensures r.Success? ==> TypeName(st.typeState.names, r.value.colType) == Some(r.value.spelled)
    ensures ctx.weights == Weights(|st.typeState.names|) ==> r.Success?
  {
    WeightedDrawSupported(st.typeState.names, d.typePick, d.idPick, d.wide);
    match RandomWithoutNull(ctx.weights, |st.typeState.names|, d.typePick, d.idPick, d.wide)
    case Failure(e) => Failure(e)
    case Success(ct) =>
      match TypeName(st.typeState.names, ct)
      case None => Failure(NullValue)
      case Some(s) => Success(Typed(ct, s))
  }

  /** What one action contributes: the text after `ALTER TABLE <name> `, and the
      column list of the delta. */
  datatype Change = Change(text: string, columns: seq<Column>)

  /** `getRandomColumn`: one of the table's columns. */
  function RandomColumn(t: Table, d: AlterDraws): (r: Column)
    requires |t.columns| > 0
    ensures r in t.columns
  {
    t.columns[d.columnPick % |t.columns|]
  }

  function ActionOf(d: AlterDraws): Action {
    Actions[d.actionPick % 3]
  }

  /** The USING clause of ALTER COLUMN, on its coin. */
  function Using(d: AlterDraws): (r: string)
    ensures r == "" <==> !d.using
  {
    if d.using then " USING " + d.usingText else ""
  }

  /** The change of the drawn action on table `t`. */
  function ChangeOf(st: GlobalState, ctx: Context, d: AlterDraws, t: Table): (r: Result<Change>)
    requires |t.columns| > 0
    ensures ActionOf(d) == DropColumn ==> r.Success?
    ensures ctx.weights == Weights(|st.typeState.names|) ==> r.Success?
  {
    match ActionOf(d)
    case AddColumn =>
      var name := FreeColumnName(t, d.start);
      (match NewType(st, ctx, d)
       case Failure(e) => Failure(e)
       case Success(ty) =>
         Success(Change("ADD COLUMN " + name + " " + ty.spelled, t.columns + [Column(name, ty.colType, false, false)])))
    case AlterColumn =>
      var name := RandomColumn(t, d).name;
      (match NewType(st, ctx, d)
       case Failure(e) => Failure(e)
       case Success(ty) =>
         Success(Change("ALTER COLUMN " + name + " SET DATA TYPE " + ty.spelled + Using(d), t.columns)))
    case DropColumn =>
      var name := RandomColumn(t, d).name;
      Success(Change("DROP COLUMN " + name, RemoveNamed(t.columns, name)))
  }

  /** `getQuery`. A schema without a table that has columns and is not a view
      bails out. Otherwise the statement is `ALTER TABLE <name> ` and the change,
      only the expression errors are expected, it may change the schema unless it
      alters a column's type, and the pending delta is the table under its name
      and indexes, not a view, with the new column list; nothing else changes. */
  function AlterTable(st: GlobalState, ctx: Context, d: AlterDraws): (r: Result<Step>)
    ensures (forall t :: t in st.tables ==> !Target(t, true)) ==> r == Failure(Ignore)
    ensures (exists t :: t in st.tables && Target(t, true)) && ctx.weights == Weights(|st.typeState.names|) ==>
              r.Success?
    ensures r.Success? ==>
              var t := RandomTableOrBailout(st.tables, true, d.tablePick).value;
              var q := r.value.query;
              && t in st.tables && Target(t, true)
              && StartsWith(q.sql, "ALTER TABLE " + t.name + " ")
              && q.errors == ExpressionErrors
              && (q.couldAffectSchema <==> ActionOf(d) != AlterColumn)
              && r.value.st.pending.Some?
              && r.value.st == st.(pending := r.value.st.pending)
              && var u := r.value.st.pending.value;
                 u.name == t.name && u.indexes == t.indexes && !u.isView
  {
    match RandomTableOrBailout(st.tables, true, d.tablePick)
    case Failure(e) => Failure(e)
    case Success(t) =>
      match ChangeOf(st, ctx, d, t)
      case Failure(e) => Failure(e)
      case Success(c) =>
        var prefix := "ALTER TABLE " + t.name + " ";
        assert (prefix + c.text)[..|prefix|] == prefix;
        Success(Step(Query(prefix + c.text, ExpressionErrors, ActionOf(d) != AlterColumn),
                     st.(pending := Some(Table(t.name, c.columns, t.indexes, false)))))
  }

  // ---------------------------------------------------------------------------
  // What each action does

  /** On success the statement is `ALTER TABLE <name> ` followed by the change of
      the drawn action, and the delta carries the change's columns. */
  lemma AlterUnfolds(st: GlobalState, ctx: Context, d: AlterDraws)
    requires AlterTable(st, ctx, d).Success?
    ensures var t := RandomTableOrBailout(st.tables, true, d.tablePick).value;
            var r := AlterTable(st, ctx, d).value;
            && |t.columns| > 0
            && ChangeOf(st, ctx, d, t).Success?
            && r.query.sql == "ALTER TABLE " + t.name + " " + ChangeOf(st, ctx, d, t).value.text
            && r.st.pending.value.columns == ChangeOf(st, ctx, d, t).value.columns
  {
  }

  /** ADD COLUMN appends exactly one column, neither key nor nullable, whose name
      no column of the table has, and spells its type after the name. */
  lemma AddAppendsFresh(st: GlobalState, ctx: Context, d: AlterDraws, t: Table)
    requires |t.columns| > 0 && ActionOf(d) == AddColumn && ChangeOf(st, ctx, d, t).Success?
    ensures var c := ChangeOf(st, ctx, d, t).value;
            var ty := NewType(st, ctx, d).value;
            var name := FreeColumnName(t, d.start);
            && c.columns == t.columns + [Column(name, ty.colType, false, false)]
            && (forall j :: 0 <= j < |t.columns| ==> t.columns[j].name != name)
            && c.text == "ADD COLUMN " + name + " " + ty.spelled
  {
  }

  /** ALTER COLUMN keeps the column list and names one of the table's columns. */
  lemma AlterKeepsColumns(st: GlobalState, ctx: Context, d: AlterDraws, t: Table)
    requires |t.columns| > 0 && ActionOf(d) == AlterColumn && ChangeOf(st, ctx, d, t).Success?
    ensures var c := ChangeOf(st, ctx, d, t).value;
            && c.columns == t.columns
            && c.text == "ALTER COLUMN " + RandomColumn(t, d).name + " SET DATA TYPE " + NewType(st, ctx, d).value.spelled
                         + Using(d)
  {
  }

  /** DROP COLUMN names one of the table's columns and removes every column of that
      name and nothing else, so the table loses at least one column. */
  lemma DropRemovesNamed(st: GlobalState, ctx: Context, d: AlterDraws, t: Table)
    requires |t.columns| > 0 && ActionOf(d) == DropColumn
    ensures var c := ChangeOf(st, ctx, d, t).value;
            var name := RandomColumn(t, d).name;
            && (forall col :: col in c.columns <==> col in t.columns && col.name != name)
            && |c.columns| < |t.columns|
            && c.text == "DROP COLUMN " + name
  {
    var col := RandomColumn(t, d);
    var j :| 0 <= j < |t.columns| && t.columns[j] == col;
    assert HasColumn(t.columns, col.name);
    RemoveNamedMembers(t.columns, col.name);
  }

  /** Once the statement succeeds, the altered table takes the place of the table
      it was drawn from (the first of that name) and every other table stays. */
  lemma AlterReplacesTable(st: GlobalState, ctx: Context, d: AlterDraws)
    requires AlterTable(st, ctx, d).Success?
    ensures var t := RandomTableOrBailout(st.tables, true, d.tablePick).value;
            var u := AlterTable(st, ctx, d).value.st.pending.value;
            var tables := UpdateSchema(st.tables, Some(u));
            && FindByName(st.tables, t.name).Some?
            && |tables| == |st.tables|
            && tables[FindByName(st.tables, t.name).value] == u
            && forall j :: 0 <= j < |tables| && j != FindByName(st.tables, t.name).value ==> tables[j] == st.tables[j]
  {
    var t := RandomTableOrBailout(st.tables, true, d.tablePick).value;
    var j :| 0 <= j < |st.tables| && st.tables[j] == t;
    assert FindByName(st.tables, t.name).Some?;
  }
}
