/** CREATE INDEX generation (`GeneralIndexGenerator`): an index, optionally
    UNIQUE, on a random table that is not a view, over a non-empty subset of its
    columns, with fragment holes after the table name, after every column and
    after the column list, and outside learn mode on a rare coin a WHERE clause.
    The index is named after the table and the number of indexes it has, and the
    pending delta is the table with that one index appended. */
module IndexGen {
  import opened Base
  import opened Text
  import opened Features
  import opened Controller
  import opened Fragments
  import opened Builder
  import opened Schema
  import opened Session
  import opened Queries
  import TableGen

  /** The message a UNIQUE index over duplicate data fails with. */
  const UniqueError := "Cant create unique index, table contains duplicate data on indexed column(s)"

  /** The draws of one `getQuery`: the UNIQUE coin, the table pick, the positions
      of the column subset, the rather-low coin for a WHERE clause with the text of
      its predicate, and the hole draws in statement order. */
  datatype IndexDraws = IndexDraws(unique: bool, tablePick: nat, columnPicks: seq<nat>, rareWhere: bool,
                                   condition: string, holes: seq<HoleDraw>)

  // ---------------------------------------------------------------------------
  // Names

  /** The name of the new index: the table as the statement shows it, then `i0`
      when the table has no index and `i<count>` otherwise, which is the same
      thing as `i` followed by the number of indexes. */
  function IndexName(shown: string, t: Table): (r: string)
    ensures r == shown + "i" + NatToString(|t.indexes|)
  {
    if |t.indexes| == 0 then shown + "i0" else shown + "i" + NatToString(|t.indexes|)
  }

  /** The indexes of a table all come from this generator: the j-th is named
      `<shown>i<j>`. */
  predicate NumberedIndexes(shown: string, t: Table) {
    forall j :: 0 <= j < |t.indexes| ==> t.indexes[j].name == shown + "i" + NatToString(j)
  }

  /** On a table whose indexes all come from this generator, the new name is not
      taken yet, and the table with the new index appended still has numbered
      indexes: indexes created one after another never share a name. */
  lemma IndexNameFresh(shown: string, t: Table)
    requires NumberedIndexes(shown, t)
    ensures forall j :: 0 <= j < |t.indexes| ==> t.indexes[j].name != IndexName(shown, t)
    ensures NumberedIndexes(shown, t.(indexes := t.indexes + [Index(IndexName(shown, t))]))
  {
    var n := |t.indexes|;
    forall j | 0 <= j < n ensures t.indexes[j].name != IndexName(shown, t) {
      var a, b := shown + "i" + NatToString(j), shown + "i" + NatToString(n);
      if a == b {
        assert a[|shown| + 1..] == NatToString(j) && b[|shown| + 1..] == NatToString(n);
        NatToStringInjective(j, n);
      }
    }
  }

  /** The table as the statement shows it: TEST_TABLE in learn mode. */
  function ShownTable(learn: bool, t: Table): string {
    if learn then "TEST_TABLE" else t.name
  }

  /** The WHERE predicate, present only on the rare coin and never in learn mode. */
  function Where(learn: bool, d: IndexDraws): (r: Option<string>)
    ensures learn ==> r.None?
    ensures r.Some? <==> d.rareWhere && !learn
  {
    if d.rareWhere && !learn then Some(d.condition) else None
  }

  // ---------------------------------------------------------------------------
  // The statement skeleton

  /** `CREATE [UNIQUE ]INDEX <index> ON <table> ` and hole 0. */
  function Head(unique: bool, index: string, table: string): (r: seq<Part>)
    ensures HoleCount(r) == 1
  {
    LitsThenHole(["CREATE "] + (if unique then ["UNIQUE "] else []) + ["INDEX ", index, " ON ", table + " "], 0)
  }

  /** The indexed columns from column `from` on: each name, a space and hole 1,
      separated by `, `. */
  function ColumnList(shown: seq<string>, from: nat): (r: seq<Part>)
    requires from <= |shown|
    ensures HoleCount(r) == |shown| - from
    decreases |shown| - from
  {
    if from == |shown| then []
    else
      var head := LitsThenHole((if from == 0 then [] else [", "]) + [shown[from], " "], 1);
      var rest := ColumnList(shown, from + 1);
      HoleCountAppend(head, rest);
      head + rest
  }

  /** `) `, hole 2, and the WHERE clause when there is one. */
  function Close(where: Option<string>): (r: seq<Part>)
    ensures HoleCount(r) == 1
  {
    var close := LitsThenHole([") "], 2);
    if where.Some? then
      HoleCountAppend(close, Lits([" WHERE ", where.value]));
      close + Lits([" WHERE ", where.value])
    else close
  }

  /** Everything after hole 0: the parenthesised column list and the close. */
  function Rest(shown: seq<string>, where: Option<string>): (r: seq<Part>)
    ensures HoleCount(r) == |shown| + 1
  {
    var open := Lits(["("]);
    HoleCountAppend(ColumnList(shown, 0), Close(where));
    HoleCountAppend(open, ColumnList(shown, 0) + Close(where));
    open + (ColumnList(shown, 0) + Close(where))
  }

  /** The whole skeleton of a CREATE INDEX statement. */
  function Skeleton(unique: bool, index: string, table: string, shown: seq<string>, where: Option<string>)
    : seq<Part>
  {
    Head(unique, index, table) + Rest(shown, where)
  }

  // ---------------------------------------------------------------------------
  // CREATE INDEX

  /** The errors a CREATE INDEX may raise without revealing a bug: anything, and
      by name the duplicate-data error of a UNIQUE index, `already exists!` and
      `Syntax`. */
  function IndexErrors(unique: bool): Errors {
    Errors(true, (if unique then [UniqueError] else []) + ["already exists!", "Syntax"], false, false)
  }

  /** CREATE_INDEX is scored, then UNIQUE_INDEX when the coin asks for it. */
  function Scored(rec: Record, unique: bool): (r: Record)
    ensures IndexNodes(rec, r, unique) && r.fragments == rec.fragments
  {
    var r1 := ScoreNode(rec, CREATE_INDEX);
    if unique then ScoreNode(r1, UNIQUE_INDEX) else r1
  }

  /** The node counts of a CREATE INDEX: CREATE_INDEX once more, UNIQUE_INDEX once
      more exactly for a unique index, nothing else, and no composite key. */
  predicate IndexNodes(before: Record, after: Record, unique: bool) {
    && CountOf(after.nodes, CREATE_INDEX) == CountOf(before.nodes, CREATE_INDEX) + 1
    && CountOf(after.nodes, UNIQUE_INDEX) == CountOf(before.nodes, UNIQUE_INDEX) + (if unique then 1 else 0)
    && (forall n :: n != CREATE_INDEX && n != UNIQUE_INDEX ==> CountOf(after.nodes, n) == CountOf(before.nodes, n))
    && after.composites == before.composites
  }

  /** The test objects while hole 0 is emitted: outside learn mode TEST_TABLE
      means the drawn table. */
  function TableObjects(st: GlobalState, t: Table): (r: TestObjects)
    requires ValidObjects(st.objects)
    ensures ValidObjects(r)
    ensures st.indexFragments.learn ==> r == st.objects
    ensures !st.indexFragments.learn ==> "TEST_TABLE" in r.names && r.names["TEST_TABLE"] == t.name
  {
    if st.indexFragments.learn then st.objects else SetTestObject(st.objects, "TEST_TABLE", t.name)
  }

  /** The delta: the drawn table, same name and columns, with the new index
      appended; never a view. */
  function Delta(t: Table, index: string): (r: Table)
    ensures r.name == t.name && r.columns == t.columns && !r.isView
    ensures r.indexes == t.indexes + [Index(index)]
  {
    Table(t.name, t.columns, t.indexes + [Index(index)], false)
  }

  /** `getQuery`. The table is drawn among those that are not views (none throws);
      in learn mode it shows as TEST_TABLE, otherwise TEST_TABLE is set to it. After
      hole 0 a non-empty column subset is drawn and each TEST_COLUMN<i> is set to
      the i-th column. The statement may fail with any error and may change the
      schema: the pending delta is the table with the new index. */
  function CreateIndex(st: GlobalState, ctx: Context, d: IndexDraws): (r: Result<Step>)
    requires Session.Valid(st)
    ensures RandomTable(st.tables, false, d.tablePick).Failure? ==> r == Failure(EmptyChoice)
    ensures r.Success? ==> RandomTable(st.tables, false, d.tablePick).Success?
    ensures r.Success? ==> SubsetPicks(d.columnPicks, |RandomTable(st.tables, false, d.tablePick).value.columns|)
    ensures r.Success? ==>
              var t := RandomTable(st.tables, false, d.tablePick).value;
              var index := IndexName(ShownTable(st.indexFragments.learn, t), t);
              && r.value.st.pending == Some(Delta(t, index))
              && r.value.query == Query(r.value.query.sql, IndexErrors(d.unique), true)
    ensures r.Success? ==> IndexNodes(st.handler.current, r.value.st.handler.current, d.unique)
    ensures r.Success? ==> r.value.st == st.(handler := st.handler.(current := r.value.st.handler.current),
                                            pending := r.value.st.pending, objects := r.value.st.objects)
    ensures r.Success? ==> Session.Valid(r.value.st)
  {
    var learn := st.indexFragments.learn;
    match RandomTable(st.tables, false, d.tablePick)
    case Failure(e) => Failure(e)
    case Success(t) =>
      var shown := ShownTable(learn, t);
      var objs := TableObjects(st, t);
      var rec := Scored(st.handler.current, d.unique);
      match Emit(NewBuilder, rec, Head(d.unique, IndexName(shown, t), shown), st.indexFragments, d.holes,
                 ctx.value, objs)
      case Failure(e) => Failure(e)
      case Success(e1) => IndexBody(st, ctx, d, t, e1)
  }

  /** `getQuery` after hole 0: the column subset, each TEST_COLUMN<i> set to the
      i-th column, the rest of the statement, and the delta. */
  function IndexBody(st: GlobalState, ctx: Context, d: IndexDraws, t: Table, e1: Emitted): (r: Result<Step>)
    requires Session.Valid(st)
    ensures r.Success? ==> SubsetPicks(d.columnPicks, |t.columns|)
    ensures r.Success? ==> r.value.query == Query(r.value.query.sql, IndexErrors(d.unique), true)
    ensures r.Success? ==> r.value.st.pending == Some(Delta(t, IndexName(ShownTable(st.indexFragments.learn, t), t)))
    ensures r.Success? ==> r.value.st.handler.current.nodes == e1.rec.nodes
                           && r.value.st.handler.current.composites == e1.rec.composites
    ensures r.Success? ==> r.value.st == st.(handler := st.handler.(current := r.value.st.handler.current),
                                            pending := r.value.st.pending, objects := r.value.st.objects)
    ensures r.Success? ==> Session.Valid(r.value.st)
  {
    var learn := st.indexFragments.learn;
    var shown := ShownTable(learn, t);
    match NonEmptySubset(t.columns, d.columnPicks)
    case Failure(e) => Failure(e)
    case Success(cols) =>
      var objs2 := ColumnObjects(TableObjects(st, t), TableGen.NamesOf(cols), 0);
      match Emit(e1.b, e1.rec, Rest(TableGen.ShownNames(learn, cols), Where(learn, d)), st.indexFragments,
                 e1.rest, ctx.value, objs2)
      case Failure(e) => Failure(e)
      case Success(e2) => Success(Indexed(st, t, IndexName(shown, t), d.unique, e2, objs2))
  }

  /** The end of `getQuery`: the emitted text with its errors, the record, the
      delta and the test objects as generation left them. */
  function Indexed(st: GlobalState, t: Table, index: string, unique: bool, e: Emitted, objs: TestObjects)
    : (r: Step)
    requires Session.Valid(st) && ValidObjects(objs)
    ensures r.query == Query(e.b.text, IndexErrors(unique), true)
    ensures r.st == st.(handler := st.handler.(current := e.rec), pending := Some(Delta(t, index)), objects := objs)
    ensures Session.Valid(r.st)
  {
    Step(Query(e.b.text, IndexErrors(unique), true),
         st.(handler := st.handler.(current := e.rec), pending := Some(Delta(t, index)), objects := objs))
  }

  /** A successful `getQuery` emits the head, draws the columns, emits the rest
      and records the index. */
  lemma CreateIndexUnfolds(st: GlobalState, ctx: Context, d: IndexDraws)
    requires Session.Valid(st) && CreateIndex(st, ctx, d).Success?
    ensures var learn := st.indexFragments.learn;
            var t := RandomTable(st.tables, false, d.tablePick).value;
            var shown := ShownTable(learn, t);
            var objs := TableObjects(st, t);
            var e1 := Emit(NewBuilder, Scored(st.handler.current, d.unique), Head(d.unique, IndexName(shown, t), shown),
                           st.indexFragments, d.holes, ctx.value, objs);
            var cols := NonEmptySubset(t.columns, d.columnPicks);
            && e1.Success? && cols.Success?
            && var objs2 := ColumnObjects(objs, TableGen.NamesOf(cols.value), 0);
               var e2 := Emit(e1.value.b, e1.value.rec, Rest(TableGen.ShownNames(learn, cols.value), Where(learn, d)),
                              st.indexFragments, e1.value.rest, ctx.value, objs2);
               && e2.Success?
               && CreateIndex(st, ctx, d).value == Indexed(st, t, IndexName(shown, t), d.unique, e2.value, objs2)
  {
  }

  /** The indexed columns are a non-empty subset of the table's columns, drawn at
      distinct positions, and afterwards each TEST_COLUMN<i> means the i-th of
      them; outside learn mode TEST_TABLE means the table. */
  lemma IndexColumns(st: GlobalState, ctx: Context, d: IndexDraws)
    requires Session.Valid(st) && CreateIndex(st, ctx, d).Success?
    ensures var t := RandomTable(st.tables, false, d.tablePick).value;
            var objs := CreateIndex(st, ctx, d).value.st.objects;
            && |t.columns| > 0 && SubsetPicks(d.columnPicks, |t.columns|)
            && (forall i :: 0 <= i < |d.columnPicks| ==>
                  TestColumn(i) in objs.names && objs.names[TestColumn(i)] == t.columns[d.columnPicks[i]].name)
  {
    var learn := st.indexFragments.learn;
    var t := RandomTable(st.tables, false, d.tablePick).value;
    var shown := ShownTable(learn, t);
    var objs := TableObjects(st, t);
    CreateIndexUnfolds(st, ctx, d);
    var cols := NonEmptySubset(t.columns, d.columnPicks).value;
    var names := TableGen.NamesOf(cols);
    var objs2 := ColumnObjects(objs, names, 0);
    assert CreateIndex(st, ctx, d).value.st.objects == objs2;
    forall i | 0 <= i < |d.columnPicks|
      ensures TestColumn(i) in objs2.names && objs2.names[TestColumn(i)] == t.columns[d.columnPicks[i]].name
    {
      assert names[i] == cols[i].name;
    }
  }

  // ---------------------------------------------------------------------------
  // The statement text

  /** In learn mode, with plain stand-ins, `getQuery` returns the sketch of the
      skeleton: TEST_TABLE, the index named after it, the column stand-ins, and no
      WHERE clause. */
  lemma IndexSketch(st: GlobalState, ctx: Context, d: IndexDraws)
    requires Session.Valid(st) && CreateIndex(st, ctx, d).Success?
    requires st.indexFragments.learn && PlainStandIns(st.objects)
    ensures var t := RandomTable(st.tables, false, d.tablePick).value;
            CreateIndex(st, ctx, d).value.query.sql
            == Sketch(Skeleton(d.unique, IndexName("TEST_TABLE", t), "TEST_TABLE",
                               TableGen.StandIns(|d.columnPicks|), None))
  {
    var t := RandomTable(st.tables, false, d.tablePick).value;
    var head := Head(d.unique, IndexName("TEST_TABLE", t), "TEST_TABLE");
    var rec := Scored(st.handler.current, d.unique);
    CreateIndexUnfolds(st, ctx, d);
    var cols := NonEmptySubset(t.columns, d.columnPicks).value;
    var objs2 := ColumnObjects(st.objects, TableGen.NamesOf(cols), 0);
    ColumnObjectsPlain(st.objects, TableGen.NamesOf(cols), 0);
    EmitSketchTwice(rec, head, Rest(TableGen.ShownNames(true, cols), None), st.indexFragments, d.holes, ctx.value,
                    st.objects, objs2, NewBuilder);
  }

  /** Outside learn mode, when no hole is taken, `getQuery` returns the bare
      skeleton: the table's name, the index named after it, the chosen columns'
      names, and the WHERE clause when the rare coin came up. */
  lemma IndexBare(st: GlobalState, ctx: Context, d: IndexDraws)
    requires Session.Valid(st) && CreateIndex(st, ctx, d).Success?
    requires !st.indexFragments.learn && NoCoins(d.holes)
    ensures var t := RandomTable(st.tables, false, d.tablePick).value;
            var cols := Select(t.columns, d.columnPicks);
            CreateIndex(st, ctx, d).value.query.sql
            == Bare(Skeleton(d.unique, IndexName(t.name, t), t.name, TableGen.NamesOf(cols), Where(false, d)))
  {
    var t := RandomTable(st.tables, false, d.tablePick).value;
    var head := Head(d.unique, IndexName(t.name, t), t.name);
    var objs := TableObjects(st, t);
    CreateIndexUnfolds(st, ctx, d);
    var cols := NonEmptySubset(t.columns, d.columnPicks).value;
    var objs2 := ColumnObjects(objs, TableGen.NamesOf(cols), 0);
    EmitBareTwice(Scored(st.handler.current, d.unique), head, Rest(TableGen.ShownNames(false, cols), Where(false, d)),
                  st.indexFragments, d.holes, ctx.value, objs, objs2, NewBuilder);
  }

  // ---------------------------------------------------------------------------
  // Validation of an index fragment

  /** A name made of TEST_TABLE, `i` and digits has no `{`. */
  lemma IndexNameBraceFree(t: Table)
    ensures '{' !in IndexName("TEST_TABLE", t)
  {
    var s := IndexName("TEST_TABLE", t);
    var digits := NatToString(|t.indexes|);
    forall i | 0 <= i < |s| ensures s[i] != '{' {
      if i >= 11 {
        assert s[i] == digits[i - 11];
      }
    }
  }

  /** The column list of brace-free names has no `{` in its text. */
  lemma {:induction false} ColumnListLiteral(shown: seq<string>, from: nat)
    requires from <= |shown| && BraceFree(shown)
    ensures Literal(ColumnList(shown, from))
    decreases |shown| - from
  {
    if from < |shown| {
      var texts := (if from == 0 then [] else [", "]) + [shown[from], " "];
      assert BraceFree(texts);
      LitsLiteral(texts, 1);
      ColumnListLiteral(shown, from + 1);
      LiteralAppend(LitsThenHole(texts, 1), ColumnList(shown, from + 1));
    }
  }

  /** The learn-mode skeleton has no `{` in its text. */
  lemma SketchSkeletonLiteral(unique: bool, t: Table, n: nat)
    ensures Literal(Skeleton(unique, IndexName("TEST_TABLE", t), "TEST_TABLE", TableGen.StandIns(n), None))
  {
    var index := IndexName("TEST_TABLE", t);
    var texts := ["CREATE "] + (if unique then ["UNIQUE "] else []) + ["INDEX ", index, " ON ", "TEST_TABLE" + " "];
    IndexNameBraceFree(t);
    TableGen.TestTableBraceFree();
    assert '{' !in "TEST_TABLE" + " ";
    assert BraceFree(texts);
    LitsLiteral(texts, 0);
    TableGen.StandInsBraceFree(n);
    ColumnListLiteral(TableGen.StandIns(n), 0);
    LitsLiteral([") "], 2);
    LitsLiteral(["("], 0);
    LiteralAppend(ColumnList(TableGen.StandIns(n), 0), Close(None));
    LiteralAppend(Lits(["("]), ColumnList(TableGen.StandIns(n), 0) + Close(None));
    LiteralAppend(Head(unique, index, "TEST_TABLE"), Rest(TableGen.StandIns(n), None));
  }

  /** Validating an index fragment (`genValStatements`): the one validation
      statement is the learned skeleton with the choice in hole `key` and the
      other holes empty. */
  lemma IndexValidation(st: GlobalState, ctx: Context, d: IndexDraws, key: string, choice: string)
    requires Session.Valid(st) && CreateIndex(st, ctx, d).Success?
    requires st.indexFragments.learn && PlainStandIns(st.objects)
    ensures var t := RandomTable(st.tables, false, d.tablePick).value;
            var skeleton := Skeleton(d.unique, IndexName("TEST_TABLE", t), "TEST_TABLE",
                                     TableGen.StandIns(|d.columnPicks|), None);
            ValStatements(CreateIndex(st, ctx, d).value.query.sql, key, choice) == [Validation(skeleton, key, choice)]
  {
    var t := RandomTable(st.tables, false, d.tablePick).value;
    var skeleton := Skeleton(d.unique, IndexName("TEST_TABLE", t), "TEST_TABLE",
                             TableGen.StandIns(|d.columnPicks|), None);
    IndexSketch(st, ctx, d);
    SketchSkeletonLiteral(d.unique, t, |d.columnPicks|);
    ValStatementsOfSketch(skeleton, key, choice);
  }
}
