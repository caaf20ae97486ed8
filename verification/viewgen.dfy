/** CREATE VIEW generation (`GeneralViewGenerator`): a view, materialized on a
    coin, under a free name that is prefixed by the database unless
    CREATE_DATABASE is enabled, with `smallNumber() + 1` columns `c0`, `c1`, ...
    of random types, over a generated SELECT. Whatever composite scores the
    SELECT records are undone. */
module ViewGen {
  import opened Base
  import opened Text
  import opened Features
  import opened Controller
  import opened Types
  import opened Schema
  import opened Session
  import opened Queries
  import TableGen

  /** The draws of one column type (`getRandomWithoutNull()`). */
  datatype TypeDraw = TypeDraw(pick: nat, idPick: nat, wide: bool)

  /** The draws of one `generate`: `smallNumber()`, the MATERIALIZED coin, the
      free view name, the column types, and what the SELECT generator gives back:
      its text and the record it leaves behind. */
  datatype ViewDraws = ViewDraws(small: nat, materialized: bool, freeName: string, types: seq<TypeDraw>,
                                 selectText: string, selectRec: Record)

  // ---------------------------------------------------------------------------
  // Name and columns

  /** The view's name: the free name as it is when CREATE_DATABASE is enabled, and
      after the database name and the table delimiter otherwise. */
  function ViewName(st: GlobalState, ctx: Context, d: ViewDraws): (r: string)
    ensures Enabled(st.feedback.nodeOptions, CREATE_DATABASE) ==> r == d.freeName
    ensures !Enabled(st.feedback.nodeOptions, CREATE_DATABASE) ==>
              StartsWith(r, ctx.database + ctx.delim) && r[|ctx.database + ctx.delim|..] == d.freeName
  {
    if Enabled(st.feedback.nodeOptions, CREATE_DATABASE) then d.freeName
    else
      var r := ctx.database + ctx.delim + d.freeName;
      assert r[..|ctx.database + ctx.delim|] == ctx.database + ctx.delim;
      r
  }

  /** Columns `c<i>` .. `c<n-1>`, each of a freshly drawn type, neither key nor
      nullable; running out of type draws ends the generation. */
  function Columns(ctx: Context, counter: nat, types: seq<TypeDraw>, i: nat, n: nat): (r: Result<seq<Column>>)
    requires i <= n
    ensures r.Success? ==> |r.value| == n - i
    decreases n - i
  {
    if i == n then Success([])
    else if |types| == 0 then Failure(OutOfChoices)
    else
      match RandomWithoutNull(ctx.weights, counter, types[0].pick, types[0].idPick, types[0].wide)
      case Failure(e) => Failure(e)
      case Success(ct) =>
        match Columns(ctx, counter, types[1..], i + 1, n)
        case Failure(e) => Failure(e)
        case Success(rest) => Success([Column(ColumnName(i), ct, false, false)] + rest)
  }

  /** Column `k` of the list is `c<i+k>`, neither key nor nullable, of a type
      other than NULL. */
  lemma {:induction false} ColumnsShape(ctx: Context, counter: nat, types: seq<TypeDraw>, i: nat, n: nat)
    requires i <= n && Columns(ctx, counter, types, i, n).Success?
    ensures var cols := Columns(ctx, counter, types, i, n).value;
            forall k :: 0 <= k < |cols| ==>
              && cols[k].name == ColumnName(i + k)
              && !cols[k].isPrimaryKey && !cols[k].isNullable
              && cols[k].colType.dt != DataType.NULL
    decreases n - i
  {
    if i < n {
      ColumnsShape(ctx, counter, types[1..], i + 1, n);
      var cols := Columns(ctx, counter, types, i, n).value;
      var rest := Columns(ctx, counter, types[1..], i + 1, n).value;
      assert forall k :: 1 <= k < |cols| ==> cols[k] == rest[k - 1];
    }
  }

  /** With the weights `calcWeight` computes and a type draw for every column, the
      columns are always made; with too few type draws they never are. */
  lemma {:induction false} ColumnsSucceed(names: seq<string>, ctx: Context, types: seq<TypeDraw>, i: nat, n: nat)
    requires i <= n
    ensures ctx.weights == Weights(|names|) && n - i <= |types| ==> Columns(ctx, |names|, types, i, n).Success?
    ensures |types| < n - i ==> Columns(ctx, |names|, types, i, n).Failure?
    decreases n - i
  {
    if i < n && |types| > 0 {
      WeightedDrawSupported(names, types[0].pick, types[0].idPick, types[0].wide);
      ColumnsSucceed(names, ctx, types[1..], i + 1, n);
    }
  }

  /** The view's columns have pairwise different names. */
  lemma ColumnNamesDistinct(cols: seq<Column>)
    requires forall k :: 0 <= k < |cols| ==> cols[k].name == ColumnName(k)
    ensures forall a, b :: 0 <= a < b < |cols| ==> cols[a].name != cols[b].name
  {
    forall a, b | 0 <= a < b < |cols|
      ensures cols[a].name != cols[b].name
    {
      NamesInjective(a, b);
    }
  }

  // ---------------------------------------------------------------------------
  // generate

  /** The statement text. */
  function ViewText(name: string, materialized: bool, cols: seq<Column>, select: string): string {
    "CREATE " + (if materialized then "MATERIALIZED " else "") + ViewBody(name, cols, select)
  }

  /** `VIEW <name>(c0, ...) AS <select>`. */
  function ViewBody(name: string, cols: seq<Column>, select: string): string {
    "VIEW " + name + "(" + Join(TableGen.NamesOf(cols), ", ") + ") AS " + select
  }

  /** `generate`. The view has `smallNumber() + 1` columns; the statement expects
      the expression errors and may change the schema, whose pending delta is the
      view with exactly those columns and no index. The record is the one the
      SELECT leaves, with the composite scores put back as they were before it. */
  function Generate(st: GlobalState, ctx: Context, d: ViewDraws): (r: Result<Step>)
    ensures r.Success? <==> Columns(ctx, |st.typeState.names|, d.types, 0, d.small + 1).Success?
    ensures r.Success? ==>
              var cols := Columns(ctx, |st.typeState.names|, d.types, 0, d.small + 1).value;
              var name := ViewName(st, ctx, d);
              && r.value.query == Query(ViewText(name, d.materialized, cols, d.selectText), ExpressionErrors, true)
              && r.value.st == st.(pending := Some(Table(name, cols, [], true)),
                                   handler := st.handler.(current := LoadCompositeScore(d.selectRec,
                                                                        st.handler.current.composites)))
  {
    match Columns(ctx, |st.typeState.names|, d.types, 0, d.small + 1)
    case Failure(e) => Failure(e)
    case Success(cols) =>
      var name := ViewName(st, ctx, d);
      var rec := LoadCompositeScore(d.selectRec, st.handler.current.composites);
      Success(Step(Query(ViewText(name, d.materialized, cols, d.selectText), ExpressionErrors, true),
                   st.(pending := Some(Table(name, cols, [], true)), handler := st.handler.(current := rec))))
  }

  /** The delta is a view with one or more columns `c0` .. `c<n-1>` of pairwise
      different names; whatever the SELECT recorded, the composite scores end as
      they were, and the node scores are the SELECT's. */
  lemma GenerateView(st: GlobalState, ctx: Context, d: ViewDraws)
    requires Generate(st, ctx, d).Success?
    ensures var r := Generate(st, ctx, d).value;
            var u := r.st.pending.value;
            && u.isView && u.indexes == [] && u.name == ViewName(st, ctx, d)
            && |u.columns| == d.small + 1 >= 1
            && (forall k :: 0 <= k < |u.columns| ==> u.columns[k].name == ColumnName(k))
            && (forall a, b :: 0 <= a < b < |u.columns| ==> u.columns[a].name != u.columns[b].name)
            && r.st.handler.current.composites == st.handler.current.composites
            && r.st.handler.current.nodes == d.selectRec.nodes
  {
    var u := Generate(st, ctx, d).value.st.pending.value;
    ColumnsShape(ctx, |st.typeState.names|, d.types, 0, d.small + 1);
    ColumnNamesDistinct(u.columns);
  }

  /** The statement is `CREATE `, then `MATERIALIZED ` exactly on the coin, then
      `VIEW <name>(c0, ..., c<n-1>) AS <select>`. */
  lemma ViewTextShape(name: string, materialized: bool, cols: seq<Column>, select: string)
    ensures var s := ViewText(name, materialized, cols, select);
            && StartsWith(s, "CREATE ")
            && (materialized ==> s == "CREATE MATERIALIZED " + ViewBody(name, cols, select))
            && (!materialized ==> s == "CREATE " + ViewBody(name, cols, select))
  {
    var s := ViewText(name, materialized, cols, select);
    var tail := (if materialized then "MATERIALIZED " else "") + ViewBody(name, cols, select);
    assert s == "CREATE " + tail;
    assert s[..7] == "CREATE ";
  }
}
