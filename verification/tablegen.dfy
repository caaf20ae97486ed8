/** CREATE TABLE generation (`GeneralTableGenerator`): a fresh table name, two or
    more columns typed after the session's topic or at random, an optional primary
    key over a non-empty subset of all but the last column, and fragment holes
    after CREATE, after every column type, after the key and at the end. In learn
    mode the statement is a sketch, with stand-ins for the table and its columns
    and placeholders for the holes, from which the validation statement of a
    single fragment choice is derived. */
module TableGen {
  import opened Base
  import opened Text
  import opened Features
  import opened Controller
  import opened Fragments
  import opened Builder
  import opened Types
  import opened Schema
  import opened Session
  import opened Queries

  // ---------------------------------------------------------------------------
  // Columns

  /** The draws of one round of the column loop: `smallNumber()` for the loop
      test, the coin that sets the topic's type aside, and the draws of
      `getRandomWithoutNull`. */
  datatype ColumnDraw = ColumnDraw(small: nat, anyType: bool, pick: nat, idPick: nat, wide: bool)

  /** The type of a new column: the topic's type, unless the coin sets it aside or
      the topic names no type, and a random type without NULL otherwise. */
  function ColumnType(names: seq<string>, ctx: Context, d: ColumnDraw): Result<CompositeType> {
    RandomForTopic(names, ctx.topic, !d.anyType, ctx.weights, d.pick, d.idPick, d.wide)
  }

  /** Every type a column can get has a name, and with the weights `calcWeight`
      computes a type is always found. */
  lemma ColumnTypeNamed(names: seq<string>, ctx: Context, d: ColumnDraw)
    ensures ColumnType(names, ctx, d).Success? ==> TypeName(names, ColumnType(names, ctx, d).value).Some?
    ensures ctx.weights == Weights(|names|) ==> ColumnType(names, ctx, d).Success?
  {
    if ctx.weights == Weights(|names|) {
      WeightedDrawSupported(names, d.pick, d.idPick, d.wide);
    }
  }

  /** `getNewColumns` from round `i` on. The loop test draws `smallNumber()` afresh
      every round, so the loop ends at the first round `i` with
      `i >= small + 2`; each earlier round adds column `c<i>` of the drawn type,
      neither key nor nullable yet. */
  function NewColumns(names: seq<string>, ctx: Context, draws: seq<ColumnDraw>, i: nat)
    : (r: Result<seq<Column>>)
    ensures r.Success? ==> |r.value| < |draws| && i + |r.value| >= 2
    ensures r.Success? ==> !(i + |r.value| < draws[|r.value|].small + 2)
    ensures r.Failure? && ctx.weights == Weights(|names|) ==> r.error == OutOfChoices
    decreases |draws|
  {
    if |draws| == 0 then Failure(OutOfChoices)
    else if !(i < draws[0].small + 2) then Success([])
    else
      ColumnTypeNamed(names, ctx, draws[0]);
      match ColumnType(names, ctx, draws[0])
      case Failure(e) => Failure(e)
      case Success(ty) =>
        var rest := NewColumns(names, ctx, draws[1..], i + 1);
        if rest.Failure? then rest
        else Success([Column(ColumnName(i), ty, false, false)] + rest.value)
  }

  /** Round `i + k` of the rounds that ran passed the loop test and added column
      `c<i+k>`, neither key nor nullable, of the type its draws give. */
  lemma {:induction false} NewColumnAt(names: seq<string>, ctx: Context, draws: seq<ColumnDraw>, i: nat, k: nat)
    requires NewColumns(names, ctx, draws, i).Success? && k < |NewColumns(names, ctx, draws, i).value|
    ensures var c := NewColumns(names, ctx, draws, i).value[k];
            && i + k < draws[k].small + 2
            && c == Column(ColumnName(i + k), c.colType, false, false)
            && ColumnType(names, ctx, draws[k]) == Success(c.colType)
    decreases k
  {
    NewColumnsStep(names, ctx, draws, i);
    if k > 0 {
      var rest := NewColumns(names, ctx, draws[1..], i + 1).value;
      NewColumnAt(names, ctx, draws[1..], i + 1, k - 1);
      assert draws[k] == draws[1..][k - 1];
    }
  }

  /** A round that ran: its column heads the columns of the later rounds. */
  lemma NewColumnsStep(names: seq<string>, ctx: Context, draws: seq<ColumnDraw>, i: nat)
    requires NewColumns(names, ctx, draws, i).Success? && |NewColumns(names, ctx, draws, i).value| > 0
    ensures |draws| > 0 && i < draws[0].small + 2 && ColumnType(names, ctx, draws[0]).Success?
    ensures NewColumns(names, ctx, draws[1..], i + 1).Success?
    ensures var cols := NewColumns(names, ctx, draws, i).value;
            && cols[0] == Column(ColumnName(i), ColumnType(names, ctx, draws[0]).value, false, false)
            && cols[1..] == NewColumns(names, ctx, draws[1..], i + 1).value
  {
    var rest := NewColumns(names, ctx, draws[1..], i + 1).value;
    assert ([Column(ColumnName(i), ColumnType(names, ctx, draws[0]).value, false, false)] + rest)[1..] == rest;
  }

  /** The columns of the column loop: named `c0`, `c1`, ... in order, neither key
      nor nullable, every type named. */
  predicate LoopColumns(names: seq<string>, cols: seq<Column>) {
    forall k :: 0 <= k < |cols| ==>
      && cols[k] == Column(ColumnName(k), cols[k].colType, false, false)
      && TypeName(names, cols[k].colType).Some?
  }

  /** Every new column's type has a name, and a column whose coin kept the topic
      has the topic's type whenever the topic names one. */
  lemma NewColumnsTyped(names: seq<string>, ctx: Context, draws: seq<ColumnDraw>, i: nat)
    requires NewColumns(names, ctx, draws, i).Success?
    ensures var cols := NewColumns(names, ctx, draws, i).value;
            forall k :: 0 <= k < |cols| ==>
              && TypeName(names, cols[k].colType).Some?
              && (!draws[k].anyType && ByName(names, ctx.topic).Some? ==> cols[k].colType == ByName(names, ctx.topic).value)
  {
    var cols := NewColumns(names, ctx, draws, i).value;
    forall k | 0 <= k < |cols|
      ensures TypeName(names, cols[k].colType).Some?
      ensures !draws[k].anyType && ByName(names, ctx.topic).Some? ==> cols[k].colType == ByName(names, ctx.topic).value
    {
      NewColumnAt(names, ctx, draws, i, k);
      ColumnTypeNamed(names, ctx, draws[k]);
    }
  }

  /** The column loop run from round 0 yields the columns of a new table. */
  lemma NewColumnsLoop(names: seq<string>, ctx: Context, draws: seq<ColumnDraw>)
    requires NewColumns(names, ctx, draws, 0).Success?
    ensures LoopColumns(names, NewColumns(names, ctx, draws, 0).value)
  {
    var cols := NewColumns(names, ctx, draws, 0).value;
    forall k | 0 <= k < |cols|
      ensures cols[k] == Column(ColumnName(k), cols[k].colType, false, false)
      ensures TypeName(names, cols[k].colType).Some?
    {
      NewColumnAt(names, ctx, draws, 0, k);
      ColumnTypeNamed(names, ctx, draws[k]);
    }
  }

  /** The scores of one new column: COLUMN_NUM, and the composite key of its type. */
  function ScoreColumn(names: seq<string>, rec: Record, c: Column): Record {
    var tn := TypeName(names, c.colType);
    var rec1 := ScoreNode(rec, COLUMN_NUM);
    if tn.Some? then ScoreComposite(rec1, ColumnKey(tn.value)) else rec1
  }

  /** One new column scores the composite key of its type once. */
  lemma ScoreColumnComposite(names: seq<string>, rec: Record, c: Column, key: string)
    ensures CountOf(ScoreColumn(names, rec, c).composites, key) == CountOf(rec.composites, key) + TypeKeyUses(names, [c], key)
  {
    assert TypeKeyUses(names, [c], key) == TypeKeyUses(names, [c][..0], key) + (if TypeName(names, c.colType).Some? && ColumnKey(TypeName(names, c.colType).value) == key then 1 else 0) by {
      assert [c][1..] == [];
    }
  }

  /** The scores `getNewColumns` adds, column by column. */
  function ScoreColumns(names: seq<string>, rec: Record, cols: seq<Column>): (r: Record)
    ensures CountOf(r.nodes, COLUMN_NUM) == CountOf(rec.nodes, COLUMN_NUM) + |cols|
    ensures forall n :: n != COLUMN_NUM ==> CountOf(r.nodes, n) == CountOf(rec.nodes, n)
    ensures r.fragments == rec.fragments && r.status == rec.status && r.isQuery == rec.isQuery
    decreases |cols|
  {
    if |cols| == 0 then rec else ScoreColumns(names, ScoreColumn(names, rec, cols[0]), cols[1..])
  }

  /** How many of the columns score the composite key `k`. */
  function TypeKeyUses(names: seq<string>, cols: seq<Column>, k: string): nat {
    if |cols| == 0 then 0
    else
      var tn := TypeName(names, cols[0].colType);
      (if tn.Some? && ColumnKey(tn.value) == k then 1 else 0) + TypeKeyUses(names, cols[1..], k)
  }

  /** Every column scores the key of its type once: the composite counts grow by
      the number of columns of each type. */
  lemma {:induction false} ScoreColumnsComposites(names: seq<string>, rec: Record, cols: seq<Column>, key: string)
    ensures CountOf(ScoreColumns(names, rec, cols).composites, key) == CountOf(rec.composites, key) + TypeKeyUses(names, cols, key)
    decreases |cols|
  {
    if |cols| > 0 {
      var rec1 := ScoreColumn(names, rec, cols[0]);
      ScoreColumnComposite(names, rec, cols[0], key);
      ScoreColumnsComposites(names, rec1, cols[1..], key);
      assert TypeKeyUses(names, cols, key) == TypeKeyUses(names, [cols[0]], key) + TypeKeyUses(names, cols[1..], key);
    }
  }

  // ---------------------------------------------------------------------------
  // The statement skeleton

  /** The column list from column `from` on: each column's name, a space, its type
      followed by a space, and hole 1; columns are separated by `, `. */
  function ColumnParts(shown: seq<string>, types: seq<string>, from: nat): (r: seq<Part>)
    requires |shown| == |types| && from <= |shown|
    ensures HoleCount(r) == |shown| - from
    decreases |shown| - from
  {
    if from == |shown| then []
    else
      var sep := if from == 0 then [] else [", "];
      var head := LitsThenHole(sep + [shown[from], " ", types[from] + " "], 1);
      var rest := ColumnParts(shown, types, from + 1);
      HoleCountAppend(head, rest);
      head + rest
  }

  /** The statement up to its column list: `CREATE `, hole 0. */
  function Head(): (r: seq<Part>)
    ensures HoleCount(r) == 1
  {
    LitsThenHole(["CREATE "], 0)
  }

  /** From ` TABLE ` to the end of the column list. */
  function Middle(name: string, shown: seq<string>, types: seq<string>): (r: seq<Part>)
    requires |shown| == |types|
    ensures HoleCount(r) == |shown|
  {
    var lead := Lits([" TABLE ", " ", name, "("]);
    HoleCountAppend(lead, ColumnParts(shown, types, 0));
    lead + ColumnParts(shown, types, 0)
  }

  /** The optional primary key with hole 2, then `)` and hole 3. */
  function Tail(key: Option<string>): (r: seq<Part>)
    ensures HoleCount(r) == (if key.Some? then 2 else 1)
  {
    var close := LitsThenHole([")"], 3);
    if key.Some? then
      var k := LitsThenHole([", PRIMARY KEY(", key.value, ")"], 2);
      HoleCountAppend(k, close);
      k + close
    else close
  }

  /** The whole skeleton of a CREATE TABLE statement. */
  function Skeleton(name: string, shown: seq<string>, types: seq<string>, key: Option<string>): seq<Part>
    requires |shown| == |types|
  {
    Head() + (Middle(name, shown, types) + Tail(key))
  }

  // ---------------------------------------------------------------------------
  // CREATE TABLE

  /** The draws of one `getQuery`: the free-name search start, the column rounds,
      the rare coin that leaves the key out, the key column positions, and the
      hole draws in statement order. */
  datatype TableDraws = TableDraws(rare: bool, start: nat, columns: seq<ColumnDraw>, noKey: bool,
                                   keyPicks: seq<nat>, holes: seq<HoleDraw>)

  /** The names of the columns, in order. */
  function NamesOf(cols: seq<Column>): (r: seq<string>)
    ensures |r| == |cols| && forall k :: 0 <= k < |cols| ==> r[k] == cols[k].name
  {
    seq(|cols|, k requires 0 <= k < |cols| => cols[k].name)
  }

  /** The stand-ins `TEST_COLUMN0` .. `TEST_COLUMN<n-1>`. */
  function StandIns(n: nat): (r: seq<string>)
    ensures |r| == n && forall k :: 0 <= k < n ==> r[k] == TestColumn(k)
  {
    seq(n, k requires 0 <= k < n => TestColumn(k))
  }

  /** The columns as the statement shows them: their names, or in learn mode
      their stand-ins. */
  function ShownNames(learn: bool, cols: seq<Column>): (r: seq<string>)
    ensures |r| == |cols|
  {
    if learn then StandIns(|cols|) else NamesOf(cols)
  }

  /** The type texts of the columns (every column type has a name). */
  function TypeTexts(names: seq<string>, cols: seq<Column>): (r: seq<string>)
    ensures |r| == |cols|
    ensures forall k :: 0 <= k < |cols| && TypeName(names, cols[k].colType).Some? ==>
              r[k] == TypeName(names, cols[k].colType).value
  {
    seq(|cols|, k requires 0 <= k < |cols| =>
      var tn := TypeName(names, cols[k].colType); if tn.Some? then tn.value else "")
  }

  /** The positions `0 .. n-1`. */
  function Positions(n: nat): (r: seq<nat>)
    ensures |r| == n && forall k :: 0 <= k < n ==> r[k] == k
  {
    seq(n, k requires 0 <= k < n => k)
  }

  /** The key clause's column list: the shown names at the key positions, joined
      by `, `; none without a key. */
  function KeyText(shown: seq<string>, keyed: bool, picks: seq<nat>): Option<string> {
    if keyed then Some(Join(KeyNames(shown, picks), ", ")) else None
  }

  /** The shown names at the given positions (positions are drawn in range). */
  function KeyNames(shown: seq<string>, picks: seq<nat>): (r: seq<string>)
    ensures |r| == |picks|
    ensures forall j :: 0 <= j < |picks| && picks[j] < |shown| ==> r[j] == shown[picks[j]]
  {
    seq(|picks|, j requires 0 <= j < |picks| => if picks[j] < |shown| then shown[picks[j]] else "")
  }

  /** The table delta: the columns, those at the key positions flagged as primary
      key, none nullable. */
  function KeyedColumns(cols: seq<Column>, idx: seq<nat>): (r: seq<Column>)
    ensures |r| == |cols|
    ensures forall k :: 0 <= k < |cols| ==>
              r[k] == Column(cols[k].name, cols[k].colType, k in idx, false)
  {
    seq(|cols|, k requires 0 <= k < |cols| => Column(cols[k].name, cols[k].colType, k in idx, false))
  }

  /** The key columns of a keyed table: the primary-key flag is set exactly at the
      drawn positions, never on the last column, and on at least one column. */
  predicate KeyedAt(cols: seq<Column>, picks: seq<nat>) {
    && |cols| > 0
    && (forall j :: 0 <= j < |picks| ==> picks[j] < |cols| - 1)
    && (forall k :: 0 <= k < |cols| ==> (cols[k].isPrimaryKey <==> k in picks))
    && !cols[|cols| - 1].isPrimaryKey
    && (exists k :: 0 <= k < |cols| && cols[k].isPrimaryKey)
  }

  /** The name the new table gets outside learn mode differs from every table
      name in the schema: the free part is a suffix of it but of no existing name. */
  lemma QualifiedFresh(tables: seq<Table>, rare: bool, start: nat, opts: map<Node, bool>, ctx: Context)
    requires rare ==> start < 10
    ensures forall j :: 0 <= j < |tables| ==> Qualified(opts, ctx, FreeTableName(tables, rare, start)) != tables[j].name
  {
    var free := FreeTableName(tables, rare, start);
    var name := Qualified(opts, ctx, free);
    assert EndsWith(name, free) by {
      if !Enabled(opts, CREATE_DATABASE) {
        assert name[|name| - |free|..] == free;
      }
    }
    forall j | 0 <= j < |tables| ensures name != tables[j].name {
      assert !EndsWith(tables[j].name, free);
    }
  }

  /** The table delta with its key and the emitted rest of the statement. */
  datatype Keyed = Keyed(e: Emitted, delta: seq<Column>)

  /** The key part of `getQuery`: with a key, the positions are drawn among all but
      the last column, PRIMARY_KEY is scored and the key clause emitted; then `)`
      and hole 3. The delta flags exactly the drawn positions as primary key, and
      no column is nullable. */
  function KeyStage(cols: seq<Column>, shown: seq<string>, keyed: bool, picks: seq<nat>,
                    b: Builder, rec: Record, store: Store, holes: seq<HoleDraw>,
                    value: FragmentVar -> string, t: TestObjects): (r: Result<Keyed>)
    requires WellFormed(store) && ValidObjects(t)
    requires |cols| >= 2 && |shown| == |cols|
    ensures r.Success? ==> |r.value.delta| == |cols| && forall k :: 0 <= k < |cols| ==>
              r.value.delta[k].name == cols[k].name && r.value.delta[k].colType == cols[k].colType
              && !r.value.delta[k].isNullable
    ensures r.Success? && keyed ==> KeyedAt(r.value.delta, picks) && SubsetPicks(picks, |cols| - 1)
    ensures r.Success? && !keyed ==> forall k :: 0 <= k < |cols| ==> !r.value.delta[k].isPrimaryKey
    ensures r.Success? ==> r.value.e.rec.nodes == (if keyed then ScoreNode(rec, PRIMARY_KEY).nodes else rec.nodes)
    ensures r.Success? ==> r.value.e.rec.composites == rec.composites
    ensures r.Failure? ==> r.error == OutOfChoices
  {
    match KeyPositions(|cols| - 1, keyed, picks)
    case Failure(e) => Failure(e)
    case Success(idx) =>
      var rec1 := if keyed then ScoreNode(rec, PRIMARY_KEY) else rec;
      match Emit(b, rec1, Tail(KeyText(shown, keyed, idx)), store, holes, value, t)
      case Failure(e) => Failure(e)
      case Success(e) =>
        KeyedColumnsAt(cols, picks);
        Success(Keyed(e, KeyedColumns(cols, idx)))
  }

  /** Flagging the drawn positions of all but the last column gives a keyed table. */
  lemma KeyedColumnsAt(cols: seq<Column>, picks: seq<nat>)
    requires |cols| > 0
    ensures SubsetPicks(picks, |cols| - 1) ==> KeyedAt(KeyedColumns(cols, picks), picks)
  {
    if SubsetPicks(picks, |cols| - 1) {
      var delta := KeyedColumns(cols, picks);
      assert delta[picks[0]].isPrimaryKey;
    }
  }

  /** The key positions: with a key, `nonEmptySubset` of the positions of all but
      the last column; none without. */
  function KeyPositions(n: nat, keyed: bool, picks: seq<nat>): (r: Result<seq<nat>>)
    requires n > 0
    ensures r.Success? <==> !keyed || SubsetPicks(picks, n)
    ensures r.Success? ==> r.value == if keyed then picks else []
    ensures r.Failure? ==> r.error == OutOfChoices
  {
    if keyed then
      match NonEmptySubset(Positions(n), picks)
      case Failure(e) => Failure(e)
      case Success(idx) =>
        assert idx == picks;
        Success(idx)
    else Success([])
  }

  /** The columns of a new table: two or more, named `c0`, `c1`, ... in order,
      none nullable, every type named; with a key exactly the drawn positions are
      primary key, without one none is. */
  predicate NewTableColumns(names: seq<string>, cols: seq<Column>, keyed: bool, picks: seq<nat>) {
    && |cols| >= 2
    && (forall k :: 0 <= k < |cols| ==>
          cols[k].name == ColumnName(k) && !cols[k].isNullable && TypeName(names, cols[k].colType).Some?)
    && (keyed ==> KeyedAt(cols, picks))
    && (!keyed ==> forall k :: 0 <= k < |cols| ==> !cols[k].isPrimaryKey)
  }

  /** The node counts CREATE TABLE adds: one COLUMN_NUM per column, one
      PRIMARY_KEY with a key, nothing else. */
  predicate TableNodes(before: Record, after: Record, columns: nat, keyed: bool) {
    && CountOf(after.nodes, COLUMN_NUM) == CountOf(before.nodes, COLUMN_NUM) + columns
    && CountOf(after.nodes, PRIMARY_KEY) == CountOf(before.nodes, PRIMARY_KEY) + (if keyed then 1 else 0)
    && (forall n :: n != COLUMN_NUM && n != PRIMARY_KEY ==> CountOf(after.nodes, n) == CountOf(before.nodes, n))
  }

  /** The column list, the key and the close of the statement, for columns the
      column loop produced. */
  function AfterColumns(names: seq<string>, cols: seq<Column>, learn: bool, name: string, keyed: bool,
                        picks: seq<nat>, b: Builder, rec: Record, store: Store, holes: seq<HoleDraw>,
                        value: FragmentVar -> string, t: TestObjects): (r: Result<Keyed>)
    requires WellFormed(store) && ValidObjects(t) && |cols| >= 2
    ensures r.Success? ==> |r.value.delta| == |cols| && forall k :: 0 <= k < |cols| ==>
              r.value.delta[k].name == cols[k].name && r.value.delta[k].colType == cols[k].colType
              && !r.value.delta[k].isNullable
    ensures r.Success? && keyed ==> KeyedAt(r.value.delta, picks)
    ensures r.Success? && !keyed ==> forall k :: 0 <= k < |cols| ==> !r.value.delta[k].isPrimaryKey
    ensures r.Success? ==> r.value.e.rec.nodes == (if keyed then ScoreNode(rec, PRIMARY_KEY).nodes else rec.nodes)
    ensures r.Success? ==> r.value.e.rec.composites == rec.composites
    ensures r.Failure? ==> r.error == OutOfChoices
  {
    var objs := ColumnObjects(t, NamesOf(cols), 0);
    var shown := ShownNames(learn, cols);
    match Emit(b, rec, Middle(name, shown, TypeTexts(names, cols)), store, holes, value, objs)
    case Failure(e) => Failure(e)
    case Success(e2) =>
      var r := KeyStage(cols, shown, keyed, picks, e2.b, e2.rec, store, e2.rest, value, objs);
      assert e2.rec.nodes == rec.nodes;
      r
  }

  /** The columns of the new table, the key, and their part of the statement. */
  function Body(names: seq<string>, ctx: Context, d: TableDraws, learn: bool, name: string,
                b: Builder, rec: Record, store: Store, holes: seq<HoleDraw>, t: TestObjects): (r: Result<Keyed>)
    requires WellFormed(store) && ValidObjects(t)
    ensures r.Success? ==> NewTableColumns(names, r.value.delta, ctx.testIndexes && !d.noKey, d.keyPicks)
    ensures r.Success? ==> TableNodes(rec, r.value.e.rec, |r.value.delta|, ctx.testIndexes && !d.noKey)
    ensures r.Failure? && ctx.weights == Weights(|names|) ==> r.error == OutOfChoices
  {
    match NewColumns(names, ctx, d.columns, 0)
    case Failure(e) => Failure(e)
    case Success(cols) =>
      NewColumnsLoop(names, ctx, d.columns);
      var keyed := ctx.testIndexes && !d.noKey;
      var rec1 := ScoreColumns(names, rec, cols);
      AfterLoop(names, cols, learn, name, keyed, d.keyPicks, b, rec, store, holes, ctx.value, t);
      AfterColumns(names, cols, learn, name, keyed, d.keyPicks, b, rec1, store, holes, ctx.value, t)
  }

  /** After the column loop, the delta is the column list of a new table and the
      node counts grow by the columns and the key. */
  lemma AfterLoop(names: seq<string>, cols: seq<Column>, learn: bool, name: string, keyed: bool,
                  picks: seq<nat>, b: Builder, rec: Record, store: Store, holes: seq<HoleDraw>,
                  value: FragmentVar -> string, t: TestObjects)
    requires WellFormed(store) && ValidObjects(t) && |cols| >= 2 && LoopColumns(names, cols)
    ensures var rec1 := ScoreColumns(names, rec, cols);
            var r := AfterColumns(names, cols, learn, name, keyed, picks, b, rec1, store, holes, value, t);
            r.Success? ==> NewTableColumns(names, r.value.delta, keyed, picks)
                           && TableNodes(rec, r.value.e.rec, |r.value.delta|, keyed)
  {
    var rec1 := ScoreColumns(names, rec, cols);
    var r := AfterColumns(names, cols, learn, name, keyed, picks, b, rec1, store, holes, value, t);
    if r.Success? {
      LoopDelta(names, cols, r.value.delta, keyed, picks);
      KeyNodes(rec, rec1, r.value.e.rec, |cols|, keyed);
    }
  }

  /** The key stage keeps the loop's names and types and clears nullability, so
      its delta is the column list of a new table. */
  lemma LoopDelta(names: seq<string>, cols: seq<Column>, delta: seq<Column>, keyed: bool, picks: seq<nat>)
    requires LoopColumns(names, cols) && |cols| >= 2 && |delta| == |cols|
    requires forall k :: 0 <= k < |cols| ==>
               delta[k].name == cols[k].name && delta[k].colType == cols[k].colType && !delta[k].isNullable
    requires keyed ==> KeyedAt(delta, picks)
    requires !keyed ==> forall k :: 0 <= k < |cols| ==> !delta[k].isPrimaryKey
    ensures NewTableColumns(names, delta, keyed, picks)
  {
    forall k | 0 <= k < |cols|
      ensures delta[k].name == ColumnName(k) && TypeName(names, delta[k].colType).Some?
    {
      assert cols[k] == Column(ColumnName(k), cols[k].colType, false, false);
    }
  }

  /** The column loop's node counts followed by the key's. */
  lemma KeyNodes(before: Record, mid: Record, after: Record, columns: nat, keyed: bool)
    requires CountOf(mid.nodes, COLUMN_NUM) == CountOf(before.nodes, COLUMN_NUM) + columns
    requires forall n :: n != COLUMN_NUM ==> CountOf(mid.nodes, n) == CountOf(before.nodes, n)
    requires after.nodes == (if keyed then ScoreNode(mid, PRIMARY_KEY).nodes else mid.nodes)
    ensures TableNodes(before, after, columns, keyed)
  {
    forall n | n != COLUMN_NUM
      ensures CountOf(after.nodes, n) == CountOf(before.nodes, n) + (if keyed && n == PRIMARY_KEY then 1 else 0)
    {
      if keyed {
        assert CountOf(ScoreNode(mid, PRIMARY_KEY).nodes, n) == CountOf(mid.nodes, n) + (if n == PRIMARY_KEY then 1 else 0);
      }
    }
    assert CountOf(after.nodes, COLUMN_NUM) == CountOf(mid.nodes, COLUMN_NUM);
  }

  /** `getQuery`. The table name is a free one (qualified by the database unless
      every test case creates its own), or the stand-in TEST_TABLE in learn mode;
      the columns come from `getNewColumns`; with indexes tested and unless the rare
      coin says otherwise, a primary key over a non-empty subset of all but the last
      column follows. The statement may fail with any error, and a success makes
      the new table part of the schema; the test objects are cleaned afterwards. */
  function CreateTable(st: GlobalState, ctx: Context, d: TableDraws): (r: Result<Step>)
    requires Session.Valid(st)
    ensures r.Success? ==> r.value.query.errors == Errors(true, [], false, false) && r.value.query.couldAffectSchema
    ensures r.Success? ==> r.value.st == st.(handler := st.handler.(current := r.value.st.handler.current),
                                            pending := r.value.st.pending,
                                            creatingDatabase := false, objects := NoTestObjects)
    ensures r.Success? ==> Session.Valid(r.value.st) && r.value.st.pending.Some?
    ensures r.Success? ==> var t := r.value.st.pending.value;
              && !t.isView && t.indexes == []
              && (st.tableFragments.learn ==> t.name == "TEST_TABLE")
              && (!st.tableFragments.learn ==> forall j :: 0 <= j < |st.tables| ==> t.name != st.tables[j].name)
    ensures r.Failure? && ctx.weights == Weights(|st.typeState.names|) ==> r.error == OutOfChoices
  {
    var learn := st.tableFragments.learn;
    var name := NewTableName(st, ctx, d);
    var objs := TableObjects(st, name);
    match Emit(NewBuilder, st.handler.current, Head(), st.tableFragments, d.holes, ctx.value, objs)
    case Failure(e) => Failure(e)
    case Success(e1) =>
      match Body(st.typeState.names, ctx, d, learn, name, e1.b, e1.rec, st.tableFragments, e1.rest, objs)
      case Failure(e) => Failure(e)
      case Success(k) => Success(Created(st, name, k))
  }

  /** The new table's columns are those of `getNewColumns` with the drawn key, and
      the node counts grow by the columns and the key. */
  lemma CreateTableColumns(st: GlobalState, ctx: Context, d: TableDraws)
    requires Session.Valid(st) && CreateTable(st, ctx, d).Success?
    ensures var r := CreateTable(st, ctx, d).value;
            && r.st.pending.Some?
            && NewTableColumns(st.typeState.names, r.st.pending.value.columns, ctx.testIndexes && !d.noKey, d.keyPicks)
            && TableNodes(st.handler.current, r.st.handler.current, |r.st.pending.value.columns|,
                          ctx.testIndexes && !d.noKey)
  {
    var learn := st.tableFragments.learn;
    var name := NewTableName(st, ctx, d);
    var objs := TableObjects(st, name);
    var e1 := Emit(NewBuilder, st.handler.current, Head(), st.tableFragments, d.holes, ctx.value, objs).value;
    var k := Body(st.typeState.names, ctx, d, learn, name, e1.b, e1.rec, st.tableFragments, e1.rest, objs).value;
    assert CreateTable(st, ctx, d).value == Created(st, name, k);
    assert e1.rec.nodes == st.handler.current.nodes;
  }

  /** The test objects while the statement is built: in learn mode the stand-in
      TEST_TABLE stays a stand-in, otherwise it means the new table. */
  function TableObjects(st: GlobalState, name: string): (r: TestObjects)
    requires ValidObjects(st.objects)
    ensures ValidObjects(r)
  {
    if st.tableFragments.learn then st.objects else SetTestObject(st.objects, "TEST_TABLE", name)
  }

  /** The name of the new table: TEST_TABLE in learn mode, otherwise a free name
      that no table of the schema has. */
  function NewTableName(st: GlobalState, ctx: Context, d: TableDraws): (r: string)
    ensures st.tableFragments.learn ==> r == "TEST_TABLE"
    ensures !st.tableFragments.learn ==> forall j :: 0 <= j < |st.tables| ==> r != st.tables[j].name
  {
    var free := FreeTableName(st.tables, d.rare, d.start % 10);
    QualifiedFresh(st.tables, d.rare, d.start % 10, st.feedback.nodeOptions, ctx);
    if st.tableFragments.learn then "TEST_TABLE" else Qualified(st.feedback.nodeOptions, ctx, free)
  }

  /** The end of `getQuery`: the delta becomes the pending table, the flag and the
      test objects are reset, and the statement may fail with any error. */
  function Created(st: GlobalState, name: string, k: Keyed): (r: Step)
    requires Session.Valid(st)
    ensures r.query == Query(k.e.b.text, Errors(true, [], false, false), true)
    ensures r.st == st.(handler := st.handler.(current := k.e.rec), pending := Some(Table(name, k.delta, [], false)),
                        creatingDatabase := false, objects := NoTestObjects)
    ensures Session.Valid(r.st)
  {
    Step(Query(k.e.b.text, Errors(true, [], false, false), true),
         st.(handler := st.handler.(current := k.e.rec), pending := Some(Table(name, k.delta, [], false)),
             creatingDatabase := false, objects := NoTestObjects))
  }

  // ---------------------------------------------------------------------------
  // The statement text

  /** The key stage prints the tail skeleton: as a sketch in learn mode, bare when
      no hole is taken. */
  lemma KeyStageText(cols: seq<Column>, shown: seq<string>, keyed: bool, picks: seq<nat>,
                     b: Builder, rec: Record, store: Store, holes: seq<HoleDraw>,
                     value: FragmentVar -> string, t: TestObjects)
    requires WellFormed(store) && ValidObjects(t) && |cols| >= 2 && |shown| == |cols|
    requires KeyStage(cols, shown, keyed, picks, b, rec, store, holes, value, t).Success?
    ensures var e := KeyStage(cols, shown, keyed, picks, b, rec, store, holes, value, t).value.e;
            && (store.learn && PlainStandIns(t) ==> e.b.text == b.text + Sketch(Tail(KeyText(shown, keyed, picks))))
            && (!store.learn && b.couldRandom && NoCoins(holes) ==>
                  e.b.text == b.text + Bare(Tail(KeyText(shown, keyed, picks))))
  {
    var key := KeyText(shown, keyed, if keyed then picks else []);
    assert key == KeyText(shown, keyed, picks);
    var rec1 := if keyed then ScoreNode(rec, PRIMARY_KEY) else rec;
    assert Emit(b, rec1, Tail(key), store, holes, value, t).value
           == KeyStage(cols, shown, keyed, picks, b, rec, store, holes, value, t).value.e;
    if store.learn && PlainStandIns(t) {
      EmitSketch(b, rec1, Tail(key), store, holes, value, t);
    }
    if !store.learn && b.couldRandom && NoCoins(holes) {
      EmitBare(b, rec1, Tail(key), store, holes, value, t);
    }
  }

  /** `AfterColumns` emits the column list, then runs the key stage. */
  lemma AfterColumnsUnfolds(names: seq<string>, cols: seq<Column>, learn: bool, name: string, keyed: bool,
                            picks: seq<nat>, b: Builder, rec: Record, store: Store, holes: seq<HoleDraw>,
                            value: FragmentVar -> string, t: TestObjects)
    requires WellFormed(store) && ValidObjects(t) && |cols| >= 2
    requires AfterColumns(names, cols, learn, name, keyed, picks, b, rec, store, holes, value, t).Success?
    ensures var objs := ColumnObjects(t, NamesOf(cols), 0);
            var shown := ShownNames(learn, cols);
            var e2 := Emit(b, rec, Middle(name, shown, TypeTexts(names, cols)), store, holes, value, objs);
            && e2.Success?
            && AfterColumns(names, cols, learn, name, keyed, picks, b, rec, store, holes, value, t)
               == KeyStage(cols, shown, keyed, picks, e2.value.b, e2.value.rec, store, e2.value.rest, value, objs)
  {
  }

  /** In learn mode the column list, the key and the close print as their sketch. */
  lemma AfterColumnsSketch(names: seq<string>, cols: seq<Column>, name: string, keyed: bool,
                           picks: seq<nat>, b: Builder, rec: Record, store: Store, holes: seq<HoleDraw>,
                           value: FragmentVar -> string, t: TestObjects)
    requires WellFormed(store) && ValidObjects(t) && |cols| >= 2 && store.learn && PlainStandIns(t)
    requires AfterColumns(names, cols, true, name, keyed, picks, b, rec, store, holes, value, t).Success?
    ensures var e := AfterColumns(names, cols, true, name, keyed, picks, b, rec, store, holes, value, t).value.e;
            var shown := ShownNames(true, cols);
            e.b.text == b.text + Sketch(Middle(name, shown, TypeTexts(names, cols)) + Tail(KeyText(shown, keyed, picks)))
  {
    var objs := ColumnObjects(t, NamesOf(cols), 0);
    var shown := ShownNames(true, cols);
    var middle := Middle(name, shown, TypeTexts(names, cols));
    AfterColumnsUnfolds(names, cols, true, name, keyed, picks, b, rec, store, holes, value, t);
    var e2 := Emit(b, rec, middle, store, holes, value, objs).value;
    ColumnObjectsPlain(t, NamesOf(cols), 0);
    EmitSketch(b, rec, middle, store, holes, value, objs);
    KeyStageText(cols, shown, keyed, picks, e2.b, e2.rec, store, e2.rest, value, objs);
    SketchThen(b.text, middle, Tail(KeyText(shown, keyed, picks)));
  }

  /** Outside learn mode, when no hole is taken, the column list, the key and the
      close print bare. */
  lemma AfterColumnsBare(names: seq<string>, cols: seq<Column>, name: string, keyed: bool,
                         picks: seq<nat>, b: Builder, rec: Record, store: Store, holes: seq<HoleDraw>,
                         value: FragmentVar -> string, t: TestObjects)
    requires WellFormed(store) && ValidObjects(t) && |cols| >= 2 && !store.learn && b.couldRandom && NoCoins(holes)
    requires AfterColumns(names, cols, false, name, keyed, picks, b, rec, store, holes, value, t).Success?
    ensures var e := AfterColumns(names, cols, false, name, keyed, picks, b, rec, store, holes, value, t).value.e;
            var shown := ShownNames(false, cols);
            e.b.text == b.text + Bare(Middle(name, shown, TypeTexts(names, cols)) + Tail(KeyText(shown, keyed, picks)))
  {
    var objs := ColumnObjects(t, NamesOf(cols), 0);
    var shown := ShownNames(false, cols);
    var middle := Middle(name, shown, TypeTexts(names, cols));
    AfterColumnsUnfolds(names, cols, false, name, keyed, picks, b, rec, store, holes, value, t);
    var e2 := Emit(b, rec, middle, store, holes, value, objs).value;
    EmitBare(b, rec, middle, store, holes, value, objs);
    assert NoCoins(e2.rest);
    KeyStageText(cols, shown, keyed, picks, e2.b, e2.rec, store, e2.rest, value, objs);
    BareThen(b.text, middle, Tail(KeyText(shown, keyed, picks)));
  }

  /** The part of the statement after the head, as a sketch in learn mode and bare
      when no hole is taken, in terms of the new table's columns. */
  lemma BodyText(names: seq<string>, ctx: Context, d: TableDraws, learn: bool, name: string,
                 b: Builder, rec: Record, store: Store, holes: seq<HoleDraw>, t: TestObjects)
    requires WellFormed(store) && ValidObjects(t) && learn == store.learn
    requires Body(names, ctx, d, learn, name, b, rec, store, holes, t).Success?
    ensures var k := Body(names, ctx, d, learn, name, b, rec, store, holes, t).value;
            var shown := ShownNames(learn, k.delta);
            var parts := Middle(name, shown, TypeTexts(names, k.delta))
                         + Tail(KeyText(shown, ctx.testIndexes && !d.noKey, d.keyPicks));
            && (learn && PlainStandIns(t) ==> k.e.b.text == b.text + Sketch(parts))
            && (!learn && b.couldRandom && NoCoins(holes) ==> k.e.b.text == b.text + Bare(parts))
  {
    var cols := NewColumns(names, ctx, d.columns, 0).value;
    var keyed := ctx.testIndexes && !d.noKey;
    var rec1 := ScoreColumns(names, rec, cols);
    var k := AfterColumns(names, cols, learn, name, keyed, d.keyPicks, b, rec1, store, holes, ctx.value, t).value;
    BodyUnfolds(names, ctx, d, learn, name, b, rec, store, holes, t);
    if learn && PlainStandIns(t) {
      AfterColumnsSketch(names, cols, name, keyed, d.keyPicks, b, rec1, store, holes, ctx.value, t);
    }
    if !learn && b.couldRandom && NoCoins(holes) {
      AfterColumnsBare(names, cols, name, keyed, d.keyPicks, b, rec1, store, holes, ctx.value, t);
    }
    SameColumnsShown(names, learn, k.delta, cols);
    var shown := ShownNames(learn, cols);
    var parts := Middle(name, shown, TypeTexts(names, cols)) + Tail(KeyText(shown, keyed, d.keyPicks));
    assert parts == Middle(name, ShownNames(learn, k.delta), TypeTexts(names, k.delta))
                    + Tail(KeyText(ShownNames(learn, k.delta), keyed, d.keyPicks));
  }

  /** `Body` is the column loop followed by `AfterColumns`. */
  lemma BodyUnfolds(names: seq<string>, ctx: Context, d: TableDraws, learn: bool, name: string,
                    b: Builder, rec: Record, store: Store, holes: seq<HoleDraw>, t: TestObjects)
    requires WellFormed(store) && ValidObjects(t)
    requires Body(names, ctx, d, learn, name, b, rec, store, holes, t).Success?
    ensures NewColumns(names, ctx, d.columns, 0).Success?
    ensures var cols := NewColumns(names, ctx, d.columns, 0).value;
            Body(names, ctx, d, learn, name, b, rec, store, holes, t)
            == AfterColumns(names, cols, learn, name, ctx.testIndexes && !d.noKey, d.keyPicks,
                            b, ScoreColumns(names, rec, cols), store, holes, ctx.value, t)
  {
  }

  /** Columns of the same types score the same composite keys. */
  lemma {:induction false} SameTypeKeyUses(names: seq<string>, a: seq<Column>, b: seq<Column>, key: string)
    requires |a| == |b| && forall k :: 0 <= k < |a| ==> a[k].colType == b[k].colType
    ensures TypeKeyUses(names, a, key) == TypeKeyUses(names, b, key)
    decreases |a|
  {
    if |a| > 0 {
      SameTypeKeyUses(names, a[1..], b[1..], key);
    }
  }

  /** The body scores the composite key of every column type once per column and
      no other composite. */
  lemma BodyComposites(names: seq<string>, ctx: Context, d: TableDraws, learn: bool, name: string,
                       b: Builder, rec: Record, store: Store, holes: seq<HoleDraw>, t: TestObjects, key: string)
    requires WellFormed(store) && ValidObjects(t)
    requires Body(names, ctx, d, learn, name, b, rec, store, holes, t).Success?
    ensures var k := Body(names, ctx, d, learn, name, b, rec, store, holes, t).value;
            CountOf(k.e.rec.composites, key) == CountOf(rec.composites, key) + TypeKeyUses(names, k.delta, key)
  {
    var cols := NewColumns(names, ctx, d.columns, 0).value;
    BodyUnfolds(names, ctx, d, learn, name, b, rec, store, holes, t);
    ScoreColumnsComposites(names, rec, cols, key);
    var k := Body(names, ctx, d, learn, name, b, rec, store, holes, t).value;
    SameTypeKeyUses(names, k.delta, cols, key);
  }

  /** Columns with the same names and types print the same. */
  lemma SameColumnsShown(names: seq<string>, learn: bool, a: seq<Column>, b: seq<Column>)
    requires |a| == |b|
    requires forall k :: 0 <= k < |a| ==> a[k].name == b[k].name && a[k].colType == b[k].colType
    ensures ShownNames(learn, a) == ShownNames(learn, b)
    ensures TypeTexts(names, a) == TypeTexts(names, b)
  {
    assert NamesOf(a) == NamesOf(b);
  }

  /** `getQuery` scores the key `COLUMN-<type>` once for every new column of that
      type and no other composite key. */
  lemma CreateTableComposites(st: GlobalState, ctx: Context, d: TableDraws, key: string)
    requires Session.Valid(st) && CreateTable(st, ctx, d).Success?
    ensures var r := CreateTable(st, ctx, d).value;
            CountOf(r.st.handler.current.composites, key)
            == CountOf(st.handler.current.composites, key) + TypeKeyUses(st.typeState.names, r.st.pending.value.columns, key)
  {
    var name := NewTableName(st, ctx, d);
    var objs := TableObjects(st, name);
    CreateTableUnfolds(st, ctx, d);
    var e1 := Emit(NewBuilder, st.handler.current, Head(), st.tableFragments, d.holes, ctx.value, objs).value;
    BodyComposites(st.typeState.names, ctx, d, st.tableFragments.learn, name, e1.b, e1.rec, st.tableFragments,
                   e1.rest, objs, key);
  }

  /** A successful `getQuery` emits the head, then the body, and records the table. */
  lemma CreateTableUnfolds(st: GlobalState, ctx: Context, d: TableDraws)
    requires Session.Valid(st) && CreateTable(st, ctx, d).Success?
    ensures var name := NewTableName(st, ctx, d);
            var objs := TableObjects(st, name);
            var e1 := Emit(NewBuilder, st.handler.current, Head(), st.tableFragments, d.holes, ctx.value, objs);
            && e1.Success?
            && var k := Body(st.typeState.names, ctx, d, st.tableFragments.learn, name, e1.value.b, e1.value.rec,
                             st.tableFragments, e1.value.rest, objs);
               && k.Success?
               && CreateTable(st, ctx, d).value == Created(st, name, k.value)
  {
  }

  /** In learn mode, with stand-ins that are plain names, `getQuery` returns the
      sketch of the skeleton, with placeholders in the holes; the skeleton names
      TEST_TABLE and shows the column stand-ins, the column types and the key it
      drew. */
  lemma TableSketch(st: GlobalState, ctx: Context, d: TableDraws)
    requires Session.Valid(st) && CreateTable(st, ctx, d).Success?
    requires st.tableFragments.learn && PlainStandIns(st.objects)
    ensures var r := CreateTable(st, ctx, d).value;
            var t := r.st.pending.value;
            var shown := StandIns(|t.columns|);
            r.query.sql == Sketch(Skeleton("TEST_TABLE", shown, TypeTexts(st.typeState.names, t.columns),
                                           KeyText(shown, ctx.testIndexes && !d.noKey, d.keyPicks)))
  {
    var name := NewTableName(st, ctx, d);
    var objs := TableObjects(st, name);
    CreateTableUnfolds(st, ctx, d);
    var e1 := Emit(NewBuilder, st.handler.current, Head(), st.tableFragments, d.holes, ctx.value, objs).value;
    var k := Body(st.typeState.names, ctx, d, true, name, e1.b, e1.rec, st.tableFragments, e1.rest, objs).value;
    BodyText(st.typeState.names, ctx, d, true, name, e1.b, e1.rec, st.tableFragments, e1.rest, objs);
    EmitSketch(NewBuilder, st.handler.current, Head(), st.tableFragments, d.holes, ctx.value, objs);
    var shown := ShownNames(true, k.delta);
    SketchThen("", Head(), Middle(name, shown, TypeTexts(st.typeState.names, k.delta))
                           + Tail(KeyText(shown, ctx.testIndexes && !d.noKey, d.keyPicks)));
  }

  /** Outside learn mode, when no hole is taken, `getQuery` returns the bare
      skeleton: the new table's name, its columns with their types, and the key it
      drew. */
  lemma TableBare(st: GlobalState, ctx: Context, d: TableDraws)
    requires Session.Valid(st) && CreateTable(st, ctx, d).Success?
    requires !st.tableFragments.learn && NoCoins(d.holes)
    ensures var r := CreateTable(st, ctx, d).value;
            var t := r.st.pending.value;
            var shown := NamesOf(t.columns);
            r.query.sql == Bare(Skeleton(t.name, shown, TypeTexts(st.typeState.names, t.columns),
                                         KeyText(shown, ctx.testIndexes && !d.noKey, d.keyPicks)))
  {
    var name := NewTableName(st, ctx, d);
    var objs := TableObjects(st, name);
    CreateTableUnfolds(st, ctx, d);
    var e1 := Emit(NewBuilder, st.handler.current, Head(), st.tableFragments, d.holes, ctx.value, objs).value;
    var k := Body(st.typeState.names, ctx, d, false, name, e1.b, e1.rec, st.tableFragments, e1.rest, objs).value;
    EmitBare(NewBuilder, st.handler.current, Head(), st.tableFragments, d.holes, ctx.value, objs);
    assert NoCoins(e1.rest);
    BodyText(st.typeState.names, ctx, d, false, name, e1.b, e1.rec, st.tableFragments, e1.rest, objs);
    var shown := ShownNames(false, k.delta);
    BareThen("", Head(), Middle(name, shown, TypeTexts(st.typeState.names, k.delta))
                         + Tail(KeyText(shown, ctx.testIndexes && !d.noKey, d.keyPicks)));
  }

  // ---------------------------------------------------------------------------
  // Validation of a table fragment

  /** A stand-in is TEST_COLUMN followed by digits. */
  lemma StandInsBraceFree(n: nat)
    ensures BraceFree(StandIns(n))
  {
    forall k | 0 <= k < n ensures '{' !in TestColumn(k) {
      var s := TestColumn(k);
      var digits := NatToString(k);
      forall i | 0 <= i < |s| ensures s[i] != '{' {
        if i >= 11 {
          assert s[i] == digits[i - 11];
        }
      }
    }
  }

  /** The table stand-in has no `{`. */
  lemma TestTableBraceFree()
    ensures '{' !in "TEST_TABLE"
  {
    var s := "TEST_TABLE";
    forall i | 0 <= i < |s| ensures s[i] != '{' {
    }
  }

  /** Joining brace-free texts with a brace-free separator. */
  lemma {:induction false} JoinBraceFree(parts: seq<string>, sep: string)
    requires BraceFree(parts) && '{' !in sep
    ensures '{' !in Join(parts, sep)
    decreases |parts|
  {
    if |parts| >= 2 {
      JoinBraceFree(parts[1..], sep);
    }
  }

  /** The column list of brace-free names and types has no `{` in its text. */
  lemma {:induction false} ColumnPartsLiteral(shown: seq<string>, types: seq<string>, from: nat)
    requires |shown| == |types| && from <= |shown| && BraceFree(shown) && BraceFree(types)
    ensures Literal(ColumnParts(shown, types, from))
    decreases |shown| - from
  {
    if from < |shown| {
      var sep := if from == 0 then [] else [", "];
      var texts := sep + [shown[from], " ", types[from] + " "];
      assert BraceFree(texts);
      LitsLiteral(texts, 1);
      ColumnPartsLiteral(shown, types, from + 1);
      LiteralAppend(LitsThenHole(texts, 1), ColumnParts(shown, types, from + 1));
    }
  }

  /** A skeleton of brace-free names, types and key has no `{` in its text. */
  lemma SkeletonLiteral(name: string, shown: seq<string>, types: seq<string>, key: Option<string>)
    requires |shown| == |types| && '{' !in name && BraceFree(shown) && BraceFree(types)
    requires key.Some? ==> '{' !in key.value
    ensures Literal(Skeleton(name, shown, types, key))
  {
    LitsLiteral(["CREATE "], 0);
    LitsLiteral([" TABLE ", " ", name, "("], 0);
    ColumnPartsLiteral(shown, types, 0);
    LiteralAppend(Lits([" TABLE ", " ", name, "("]), ColumnParts(shown, types, 0));
    LitsLiteral([")"], 3);
    if key.Some? {
      LitsLiteral([", PRIMARY KEY(", key.value, ")"], 2);
      LiteralAppend(LitsThenHole([", PRIMARY KEY(", key.value, ")"], 2), LitsThenHole([")"], 3));
    }
    LiteralAppend(Middle(name, shown, types), Tail(key));
    LiteralAppend(Head(), Middle(name, shown, types) + Tail(key));
  }

  /** The key clause of brace-free names is brace-free. */
  lemma KeyTextBraceFree(shown: seq<string>, keyed: bool, picks: seq<nat>)
    requires BraceFree(shown)
    ensures keyed ==> '{' !in KeyText(shown, keyed, picks).value
  {
    if keyed {
      assert BraceFree(KeyNames(shown, picks));
      JoinBraceFree(KeyNames(shown, picks), ", ");
    }
  }

  /** Validating a table fragment (`genValStatements`): in learn mode, when no
      column type contains `{`, the one validation statement is the skeleton of
      the learned statement with the choice in hole `key` and the other holes
      empty. */
  lemma TableValidation(st: GlobalState, ctx: Context, d: TableDraws, key: string, choice: string)
    requires Session.Valid(st) && CreateTable(st, ctx, d).Success?
    requires st.tableFragments.learn && PlainStandIns(st.objects)
    requires BraceFree(TypeTexts(st.typeState.names, CreateTable(st, ctx, d).value.st.pending.value.columns))
    ensures var r := CreateTable(st, ctx, d).value;
            var t := r.st.pending.value;
            var shown := StandIns(|t.columns|);
            var skeleton := Skeleton("TEST_TABLE", shown, TypeTexts(st.typeState.names, t.columns),
                                     KeyText(shown, ctx.testIndexes && !d.noKey, d.keyPicks));
            ValStatements(r.query.sql, key, choice) == [Validation(skeleton, key, choice)]
  {
    var t := CreateTable(st, ctx, d).value.st.pending.value;
    var shown := StandIns(|t.columns|);
    var keyText := KeyText(shown, ctx.testIndexes && !d.noKey, d.keyPicks);
    var skeleton := Skeleton("TEST_TABLE", shown, TypeTexts(st.typeState.names, t.columns), keyText);
    TableSketch(st, ctx, d);
    StandInsBraceFree(|t.columns|);
    KeyTextBraceFree(shown, ctx.testIndexes && !d.noKey, d.keyPicks);
    TestTableBraceFree();
    SkeletonLiteral("TEST_TABLE", shown, TypeTexts(st.typeState.names, t.columns), keyText);
    ValStatementsOfSketch(skeleton, key, choice);
  }
}
