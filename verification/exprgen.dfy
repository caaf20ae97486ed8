/** The typed expression generator (`GeneralTypedExpressionGenerator`): a random
    expression of a requested type, built top-down. Below the depth limit a node
    may become a function call, a cast, a CASE, a learned binary operator or the
    shape of its primitive type; at the limit, or on a coin, it becomes a leaf (a
    compatible column or a constant). Along the way the generator credits the
    features it used to the current record, and a NULL constant suppresses the
    credit of the argument and return types that would otherwise be recorded.

    Every random decision is read from a `Plan`: one plan node per generated
    expression node, its `kids` holding the plans of the sub-expressions in the
    order the generator asks for them. A plan that runs out of children or draws
    makes the generation fail with `OutOfChoices`. */
module ExprGen {
  import opened Base
  import opened Text
  import opened Features
  import opened Controller
  import opened Templates
  import opened Fragments
  import opened Types
  import opened Schema
  import Functions
  import Operators

  // ---------------------------------------------------------------------------
  // Expressions

  /** An operator of an expression node: one of the fixed operator enums (named
      by its constant) or a learned binary operator (named by its text). */
  datatype Op = Builtin(name: string) | Learned(text: string)

  const Not := Builtin("NOT")
  const IsNullOp := Builtin("IS_NULL")
  const Concat := Builtin("CONCAT")

  /** The tree the generator builds. `NullCall` is the function applied to NULL
      constants that a NULL leaf may become; its arguments are not generated
      expressions. A `Chain` is an AND/OR chain, left-nested in the source. A
      binary node's operator is absent when the boolean operator draw found none. */
  datatype Expr =
    | ColumnRef(column: Column)
    | IntConst(intValue: int)
    | BoolConst(boolValue: bool)
    | StringConst(stringValue: string)
    | Literal(literal: string)
    | NullConst
    | NullCall(fn: Functions.Function, nrArgs: nat)
    | Call(callee: Functions.Function, args: seq<Expr>)
    | Cast(operand: Expr, target: CompositeType, castOp: Op)
    | Case(switchOn: Expr, conditions: seq<Expr>, results: seq<Expr>, otherwise: Option<Expr>)
    | Binary(left: Expr, right: Expr, op: Option<Op>)
    | Prefix(operand: Expr, prefixOp: Op)
    | Postfix(operand: Expr, postfixOp: Op)
    | Chain(first: Expr, links: seq<Link>)
    | InList(needle: Expr, list: seq<Expr>, negatedIn: bool)
    | Between(subject: Expr, low: Expr, high: Expr, negatedBetween: bool)

  /** One step of an AND/OR chain: the logical operator and its right operand. */
  datatype Link = Link(logicalOp: Op, right: Expr)

  /** The expressions `generateLeafNode` produces: columns and constants. */
  predicate IsLeaf(e: Expr) {
    e.ColumnRef? || e.IntConst? || e.BoolConst? || e.StringConst? || e.Literal?
    || e.NullConst? || e.NullCall?
  }

  function Max(a: nat, b: nat): nat {
    if a < b then b else a
  }

  /** The number of `generateExpression` levels that produced `e`: zero for a
      leaf, one more than the deepest sub-expression otherwise. */
  function Height(e: Expr): nat
    decreases e
  {
    match e
    case Call(_, args) => 1 + MaxHeight(args)
    case Cast(x, _, _) => 1 + Height(x)
    case Case(s, cs, rs, o) => 1 + Max(Height(s), Max(MaxHeight(cs), Max(MaxHeight(rs), OptionHeight(o))))
    case Binary(l, r, _) => 1 + Max(Height(l), Height(r))
    case Prefix(x, _) => 1 + Height(x)
    case Postfix(x, _) => 1 + Height(x)
    case Chain(f, links) => 1 + Max(Height(f), LinksHeight(links))
    case InList(x, list, _) => 1 + Max(Height(x), MaxHeight(list))
    case Between(x, lo, hi, _) => 1 + Max(Height(x), Max(Height(lo), Height(hi)))
    case _ => 0
  }

  function MaxHeight(es: seq<Expr>): nat
    decreases es
  {
    if |es| == 0 then 0 else Max(Height(es[0]), MaxHeight(es[1..]))
  }

  function OptionHeight(o: Option<Expr>): nat
    decreases o
  {
    match o
    case None => 0
    case Some(x) => Height(x)
  }

  function LinksHeight(links: seq<Link>): nat
    decreases links
  {
    if |links| == 0 then 0 else Max(LinkHeight(links[0]), LinksHeight(links[1..]))
  }

  function LinkHeight(l: Link): nat
    decreases l
  {
    Height(l.right)
  }

  /** Exactly the leaves are the expressions of height zero. */
  lemma HeightZeroIffLeaf(e: Expr)
    ensures Height(e) == 0 <==> IsLeaf(e)
  {
  }

  // ---------------------------------------------------------------------------
  // The generator's state

  /** What the generator reads from the global state: the depth limits, the
      table's columns, the controller's options, the function and operator
      tables with their iteration orders, the type store, the weights of the
      type draw, the learning topic, whether the database is being created, the
      text a fragment variable generates, and the weights of the boolean
      shapes: the sizes of the operator enums, and the size of the binary
      operator table when the shape enum was first loaded (the weight is
      computed once, in the enum's constructor). */
  datatype Env = Env(
    maxDepth: int,
    curDepth: int,
    columns: seq<Column>,
    nodeOpts: map<Node, bool>,
    compositeOpts: map<string, bool>,
    functions: map<string, int>,
    functionOrder: seq<string>,
    ops: map<string, Option<CompositeType>>,
    opOrder: seq<string>,
    types: TypeState,
    weights: seq<DataType>,
    topic: Option<string>,
    creatingDatabase: bool,
    value: FragmentVar -> string,
    prefixOps: nat,
    comparisonOps: nat,
    logicalOps: nat,
    operatorWeight: nat,
    postfixOps: nat)

  /** A type whose name can be printed. */
  predicate Spellable(names: seq<string>, t: CompositeType) {
    TypeName(names, t).Some?
  }

  /** The global state the generator runs in: both tables are enumerated by
      their orders, the type store is well formed and every column's type has
      a name. */
  predicate ValidEnv(env: Env) {
    && Enumerates(env.functionOrder, env.functions.Keys)
    && Enumerates(env.opOrder, env.ops.Keys)
    && WellFormed(env.types.store)
    && forall i :: 0 <= i < |env.columns| ==> Spellable(env.types.names, env.columns[i].colType)
  }

  /** The smaller of the configured maximum depth and the session's current depth. */
  function Limit(env: Env): int {
    if env.maxDepth < env.curDepth then env.maxDepth else env.curDepth
  }

  /** How many levels may still be generated at `depth`. */
  function Budget(env: Env, depth: int): nat {
    if depth >= Limit(env) then 0 else Limit(env) - depth
  }

  /** The record the features go to and the flag telling that a NULL constant was
      generated since the last function call. */
  datatype State = State(rec: Record, nullFlag: bool)

  datatype Gen = Gen(e: Expr, st: State)
  datatype Gens = Gens(es: seq<Expr>, st: State)
  datatype Arms = Arms(conditions: seq<Expr>, results: seq<Expr>, st: State, next: nat)
  datatype Links = Links(links: seq<Link>, st: State)

  /** `addScore` of a generator node. */
  function Score(st: State, n: Node): State {
    st.(rec := ScoreNode(st.rec, n))
  }

  /** A composite key credited only while no NULL constant has been generated. */
  function CreditUnlessNull(st: State, k: string): State {
    if st.nullFlag then st else st.(rec := ScoreComposite(st.rec, k))
  }

  /** The end of the function branch. */
  function FinishCall(st: State, f: string, typeName: string): State {
    var s := st.(rec := ScoreComposite(st.rec, FunctionKey(f)));
    CreditUnlessNull(s, ReturnKey(typeName, f)).(nullFlag := false)
  }

  /** The key is counted once more exactly when the flag is clear; nothing else
      changes. */
  lemma CreditUnlessNullCounts(st: State, k: string)
    ensures var r := CreditUnlessNull(st, k);
            && (forall x :: CountOf(r.rec.composites, x)
                  == CountOf(st.rec.composites, x) + (if x == k && !st.nullFlag then 1 else 0))
            && r.nullFlag == st.nullFlag && r.rec.nodes == st.rec.nodes && r.rec.fragments == st.rec.fragments
  {
  }

  /** After a call the function's own key is counted once more, the return-type
      key once more only when no argument produced a NULL, and the flag is clear. */
  lemma FinishCallCounts(st: State, f: string, typeName: string)
    ensures var r := FinishCall(st, f, typeName);
            && (forall x :: CountOf(r.rec.composites, x)
                  == CountOf(st.rec.composites, x)
                     + (if x == FunctionKey(f) then 1 else 0)
                     + (if x == ReturnKey(typeName, f) && !st.nullFlag then 1 else 0))
            && !r.nullFlag && r.rec.nodes == st.rec.nodes && r.rec.fragments == st.rec.fragments
  {
  }

  // ---------------------------------------------------------------------------
  // Random decisions

  /** One `getRandomType` draw: a rather-low coin for the type draw instead of a
      column, the column picked, and the arguments of the type draw. */
  datatype TypeDraw = TypeDraw(anyType: bool, column: nat, rare: bool, weight: nat, id: nat, wide: bool)

  /** The choice of an argument or operand type: a rather-low coin for
      `getRandomType` instead of the enabled types, the pick among those, and the
      `getRandomType` draw. */
  datatype SlotDraw = SlotDraw(rare: bool, pick: nat, fallback: TypeDraw)

  /** The random decisions of one expression node, and the plans of its
      sub-expressions in generation order. Loops that re-draw their bound each
      round read the bounds from `small`. */
  datatype Plan = Plan(
    leaf: bool,
    constant: bool,
    pick: nat,
    nullCoin: bool,
    callCoin: bool,
    draws: seq<Draw>,
    small: seq<nat>,
    intValue: int,
    boolValue: bool,
    text: string,
    tryFunction: bool,
    tryCast: bool,
    tryCase: bool,
    tryOperator: bool,
    arithmetic: bool,
    flag: bool,
    opDraws: seq<Draw>,
    types: seq<TypeDraw>,
    slots: seq<SlotDraw>,
    ops: seq<string>,
    kids: seq<Plan>)

  /** The `i`th entry of a list of draws, or `OutOfChoices`. */
  function At<T>(xs: seq<T>, i: nat): (r: Result<T>)
    ensures r.Success? <==> i < |xs|
    ensures r.Success? ==> r.value == xs[i]
  {
    if i < |xs| then Success(xs[i]) else Failure(OutOfChoices)
  }

  /** `getRandomType`: the type draw when there are no columns or on the coin,
      otherwise the type of a random column. The result always has a name. */
  function RandomType(env: Env, d: TypeDraw): (r: Result<CompositeType>)
    requires ValidEnv(env)
    ensures r.Success? ==> Spellable(env.types.names, r.value)
    ensures |env.columns| > 0 && !d.anyType ==>
              r.Success? && exists i :: 0 <= i < |env.columns| && r.value == env.columns[i].colType
  {
    var names := env.types.names;
    if |env.columns| == 0 || d.anyType then
      RandomForTopic(names, env.topic, d.rare, env.weights, d.weight, d.id, d.wide)
    else
      var i := d.column % |env.columns|;
      Success(env.columns[i].colType)
  }

  /** Where a type is being chosen: argument `index` of a function, or the
      operands of a learned binary operator. */
  datatype Slot = Argument(fn: string, index: nat) | Operand(op: string)

  /** The composite key that enables type `typeName` in `slot`. */
  function SlotKey(slot: Slot, typeName: string): string {
    match slot
    case Argument(f, i) => ArgKey(f, i, typeName)
    case Operand(op) => OperatorArgKey(op, typeName)
  }

  /** The types of `ts`, in order, that the controller has explicitly enabled for
      `slot` (an undecided key counts as disabled). */
  function Accepting(names: seq<string>, ts: seq<CompositeType>, opts: map<string, bool>, slot: Slot)
    : (r: seq<CompositeType>)
    ensures forall t :: t in r <==>
              t in ts && Spellable(names, t) && EnabledNullAsFalse(opts, SlotKey(slot, TypeName(names, t).value))
    decreases |ts|
  {
    if |ts| == 0 then []
    else
      var rest := Accepting(names, ts[1..], opts, slot);
      assert forall t :: t in ts <==> t == ts[0] || t in ts[1..];
      match TypeName(names, ts[0])
      case None => rest
      case Some(n) => if EnabledNullAsFalse(opts, SlotKey(slot, n)) then [ts[0]] + rest else rest
  }

  /** The supported types enabled for `slot`. */
  function SlotTypes(env: Env, slot: Slot): seq<CompositeType> {
    Accepting(env.types.names, SupportedTypes(|env.types.names|), env.compositeOpts, slot)
  }

  /** The type of an argument or operand: an enabled one unless none is enabled
      or the coin says otherwise, in which case `getRandomType` decides. */
  function SlotType(env: Env, slot: Slot, d: SlotDraw): (r: Result<CompositeType>)
    requires ValidEnv(env)
    ensures r.Success? ==> Spellable(env.types.names, r.value)
    ensures !d.rare && |SlotTypes(env, slot)| > 0 ==>
              r.Success? && r.value in SupportedTypes(|env.types.names|)
              && EnabledNullAsFalse(env.compositeOpts, SlotKey(slot, TypeName(env.types.names, r.value).value))
  {
    var avail := SlotTypes(env, slot);
    if |avail| == 0 || d.rare then RandomType(env, d.fallback)
    else
      assert avail[d.pick % |avail|] in avail;
      Success(avail[d.pick % |avail|])
  }

  /** `getNrArgs` at round `i` of the argument loop, which calls it again in
      every round: a variadic function re-draws its extra arguments each time. */
  function ArgBound(f: Functions.Function, small: seq<nat>, i: nat): (r: Result<nat>)
    ensures r.Success? ==> r.value >= f.nrArgs
    ensures !f.isVariadic ==> r == Success(f.nrArgs)
  {
    if !f.isVariadic then Success(f.nrArgs)
    else if i < |small| then Success(Functions.NrArgs(f, small[i]))
    else Failure(OutOfChoices)
  }

  /** Round `i` of a `for (i = 0; i < smallNumber() + 1; i++)` loop, whose bound
      is drawn again at every test, is entered. */
  function Continues(small: seq<nat>, i: nat): (r: Result<bool>)
    ensures i == 0 && r.Success? ==> r.value
  {
    if i < |small| then Success(i < small[i] + 1) else Failure(OutOfChoices)
  }

  // ---------------------------------------------------------------------------
  // Column compatibility

  /** `isTypeCompatible`: the same primitive type, and then either both strings
      (of any length) or the same printed name. */
  predicate Compatible(names: seq<string>, a: CompositeType, b: CompositeType) {
    a.dt == b.dt && (a.dt == STRING || TypeName(names, a) == TypeName(names, b))
  }

  /** Compatibility is an equivalence. */
  lemma CompatibleEquivalence(names: seq<string>, a: CompositeType, b: CompositeType, c: CompositeType)
    ensures Compatible(names, a, a)
    ensures Compatible(names, a, b) ==> Compatible(names, b, a)
    ensures Compatible(names, a, b) && Compatible(names, b, c) ==> Compatible(names, a, c)
  {
  }

  /** Types of one primitive with different ids: all strings and all integers
      are compatible, two learned types only when their names agree ignoring case. */
  lemma CompatibleByPrimitive(names: seq<string>, a: CompositeType, b: CompositeType)
    requires a.dt == b.dt
    ensures a.dt in {STRING, INT, BOOLEAN, DataType.NULL} ==> Compatible(names, a, b)
    ensures a.dt == VARTYPE && 0 <= a.id < |names| && 0 <= b.id < |names| ==>
              (Compatible(names, a, b) <==> Upper(names[a.id]) == Upper(names[b.id]))
  {
  }

  /** The columns compatible with `t`, in table order. */
  function CompatibleColumns(names: seq<string>, cols: seq<Column>, t: CompositeType): (r: seq<Column>)
    ensures |r| <= |cols|
    ensures forall c :: c in r <==> c in cols && Compatible(names, c.colType, t)
    decreases |cols|
  {
    if |cols| == 0 then []
    else
      var rest := CompatibleColumns(names, cols[1..], t);
      assert forall c :: c in cols <==> c == cols[0] || c in cols[1..];
      if Compatible(names, cols[0].colType, t) then [cols[0]] + rest else rest
  }

  /** `canGenerateColumnOfType`. */
  predicate CanGenerateColumn(env: Env, t: CompositeType) {
    exists i :: 0 <= i < |env.columns| && Compatible(env.types.names, env.columns[i].colType, t)
  }

  /** A column whose type is learned, whose printing a type without a name would
      have to be compared against. */
  predicate HasLearnedColumn(env: Env) {
    exists i :: 0 <= i < |env.columns| && env.columns[i].colType.dt == VARTYPE
  }

  /** `generateColumn`: a random column compatible with `t`; none to draw from
      when no column is compatible. */
  function GenColumn(env: Env, t: CompositeType, pick: nat): (r: Result<Column>)
    ensures r.Success? <==> CanGenerateColumn(env, t)
    ensures r.Success? ==> r.value in env.columns && Compatible(env.types.names, r.value.colType, t)
    ensures r.Failure? ==> r.error == EmptyChoice
  {
    var cands := CompatibleColumns(env.types.names, env.columns, t);
    if |cands| == 0 then
      assert forall i :: 0 <= i < |env.columns| ==> env.columns[i] in env.columns;
      Failure(EmptyChoice)
    else
      assert cands[pick % |cands|] in cands;
      assert cands[0] in cands;
      Success(cands[pick % |cands|])
  }

  /** Every compatible column can be drawn. */
  lemma GenColumnReaches(env: Env, t: CompositeType, c: Column) returns (pick: nat)
    requires c in env.columns && Compatible(env.types.names, c.colType, t)
    ensures GenColumn(env, t, pick) == Success(c)
  {
    var cands := CompatibleColumns(env.types.names, env.columns, t);
    assert c in cands;
    pick :| 0 <= pick < |cands| && cands[pick] == c;
    GenColumnIs(env, t, pick);
  }

  lemma GenColumnIs(env: Env, t: CompositeType, pick: nat)
    requires pick < |CompatibleColumns(env.types.names, env.columns, t)|
    ensures GenColumn(env, t, pick) == Success(CompatibleColumns(env.types.names, env.columns, t)[pick])
  {
    var cands := CompatibleColumns(env.types.names, env.columns, t);
    assert pick % |cands| == pick;
  }

  // ---------------------------------------------------------------------------
  // Constants and leaves

  /** The learned-type literal came from the "NULL" fallback of the type store:
      not in sketch mode, and the id has no registered name, the name has no
      formats, or the type is unavailable. */
  predicate FallbackLiteral(ts: TypeState, id: int) {
    && !ts.store.learn
    && (|| !(0 <= id < |ts.names|)
        || ts.names[id] !in ts.store.fragments
        || (ts.names[id] in ts.available && !ts.available[ts.names[id]]))
  }

  /** `generateVartypeConstant` as written: the text is compared with "NULL" by
      reference, so only the store's own fallback constant sets the flag; a
      learned format that renders as NULL is a fresh string and does not. */
  function VartypeConstantAsWritten(ts: TypeState, creatingDatabase: bool, value: FragmentVar -> string,
                                    t: CompositeType, pick: nat, st: State): (r: Result<Gen>)
    requires WellFormed(ts.store)
    ensures r.Success? ==> r.value.e.Literal?
    ensures r.Success? ==> (r.value.st.nullFlag <==> st.nullFlag || FallbackLiteral(ts, t.id))
  {
    match TypeLiteralAt(ts, t.id, pick, value, st.rec, creatingDatabase)
    case Failure(e) => Failure(e)
    case Success(lit) =>
      Success(Gen(Literal(lit.0), State(lit.1, st.nullFlag || FallbackLiteral(ts, t.id))))
  }

  /** `generateVartypeConstant` with the text compared by value: a literal that
      reads NULL sets the flag, whichever way it was produced. */
  function VartypeConstant(ts: TypeState, creatingDatabase: bool, value: FragmentVar -> string,
                           t: CompositeType, pick: nat, st: State): (r: Result<Gen>)
    requires WellFormed(ts.store)
    ensures r.Success? ==> r.value.e.Literal?
    ensures r.Success? ==> (r.value.st.nullFlag <==> st.nullFlag || r.value.e.literal == "NULL")
    ensures r.Success? && FallbackLiteral(ts, t.id) ==> r.value.e.literal == "NULL"
  {
    match TypeLiteralAt(ts, t.id, pick, value, st.rec, creatingDatabase)
    case Failure(e) => Failure(e)
    case Success(lit) => Success(Gen(Literal(lit.0), State(lit.1, st.nullFlag || lit.0 == "NULL")))
  }

  /** The two agree except on a learned literal that reads NULL. */
  lemma VartypeConstantAgrees(ts: TypeState, creatingDatabase: bool, value: FragmentVar -> string,
                              t: CompositeType, pick: nat, st: State)
    requires WellFormed(ts.store)
    ensures var w := VartypeConstantAsWritten(ts, creatingDatabase, value, t, pick, st);
            var c := VartypeConstant(ts, creatingDatabase, value, t, pick, st);
            (w.Failure? <==> c.Failure?)
            && (w.Success? ==> w.value.e == c.value.e && w.value.st.rec == c.value.st.rec)
            && (w.Success? && (FallbackLiteral(ts, t.id) || w.value.e.literal != "NULL") ==> w == c)
  {
  }

  /** A learned type `T` whose only format is the text NULL: as written the
      literal NULL leaves the flag clear, so a function around it would still be
      credited with the argument and return types; compared by value it is set. */
  lemma LearnedNullLiteralMissed()
    ensures var ts := TypeState(Store(Named, false, map["T" := [FragmentChoice("NULL", [], "T")]], map[]),
                                ["T"], map["T" := true], map[]);
            var st := State(NewRecord, false);
            && WellFormed(ts.store)
            && VartypeConstantAsWritten(ts, false, v => "", CompositeType(VARTYPE, 0), 0, st)
               == Success(Gen(Literal("NULL"), st))
            && VartypeConstant(ts, false, v => "", CompositeType(VARTYPE, 0), 0, st)
               == Success(Gen(Literal("NULL"), State(NewRecord, true)))
  {
    var c := FragmentChoice("NULL", [], "T");
    var noArgs := seq(0, i requires 0 <= i < 0 => "");
    assert noArgs == [];
    PlainFormat("NULL");
    assert FormatAccepts("NULL", []);
    assert Render(c, v => "") == Some("NULL");
  }

  /** `generateConstant`: on the rather-low coin a NULL (set the flag), which on a
      further small coin is a function applied to NULLs; otherwise a constant of
      the type's primitive, a learned literal for a learned type. NULL has no
      constant. */
  function GenConstant(env: Env, t: CompositeType, p: Plan, st: State): (r: Result<Gen>)
    requires ValidEnv(env)
    ensures r.Success? ==> IsLeaf(r.value.e) && !r.value.e.ColumnRef?
    ensures r.Success? && (r.value.e.NullConst? || r.value.e.NullCall?) ==> r.value.st.nullFlag
    ensures p.nullCoin && r.Success? ==> r.value.st.nullFlag && (r.value.e.NullConst? || r.value.e.NullCall?)
    ensures !p.nullCoin ==>
              (r.Success? ==> r.value.st.nullFlag == (st.nullFlag || r.value.e == Literal("NULL")))
              && (t.dt in {INT, BOOLEAN, STRING} ==> r.Success? && r.value.st == st)
              && (t.dt == INT ==> r.value.e.IntConst?)
              && (t.dt == BOOLEAN ==> r.value.e.BoolConst?)
              && (t.dt == STRING ==> r.value.e.StringConst?)
              && (t.dt == DataType.NULL ==> r.Failure?)
    ensures r.Success? && r.value.e.NullCall? ==>
              r.value.e.fn.name in env.functions && Enabled(env.compositeOpts, FunctionKey(r.value.e.fn.name))
              && r.value.e.nrArgs >= r.value.e.fn.nrArgs
  {
    if p.nullCoin then
      var st1 := st.(nullFlag := true);
      if p.callCoin then
        match Functions.RandomByOptions(env.functions, env.functionOrder, env.compositeOpts, p.draws, st1.rec)
        case Failure(e) => Failure(e)
        case Success(None) => Failure(NullValue)
        case Success(Some(fr)) =>
          match ArgBound(fr.0, p.small, 0)
          case Failure(e) => Failure(e)
          case Success(n) => Success(Gen(NullCall(fr.0, n), st1.(rec := fr.1)))
      else Success(Gen(NullConst, st1))
    else
      match t.dt
      case INT => Success(Gen(IntConst(p.intValue), st))
      case BOOLEAN => Success(Gen(BoolConst(p.boolValue), st))
      case STRING => Success(Gen(StringConst(p.text), st))
      case VARTYPE => VartypeConstant(env.types, env.creatingDatabase, env.value, t, p.pick, st)
      case NULL => Failure(Assertion("NULL"))
  }

  /** `generateLeafNode`: a constant on the rather-low coin or when no column is
      compatible, otherwise a compatible column. A type without a name cannot
      be compared with a learned column's type. */
  function GenLeaf(env: Env, t: CompositeType, p: Plan, st: State): (r: Result<Gen>)
    requires ValidEnv(env)
    ensures r.Success? ==> IsLeaf(r.value.e) && Height(r.value.e) == 0
    ensures r.Success? && r.value.e.ColumnRef? ==>
              r.value.e.column in env.columns && Compatible(env.types.names, r.value.e.column.colType, t)
              && r.value.st == st
    ensures Spellable(env.types.names, t) && !p.constant && CanGenerateColumn(env, t) ==> r.Success? && r.value.e.ColumnRef?
  {
    if !Spellable(env.types.names, t) && HasLearnedColumn(env) then Failure(NullValue)
    else if p.constant || !CanGenerateColumn(env, t) then GenConstant(env, t, p, st)
    else
      match GenColumn(env, t, p.pick)
      case Failure(e) => Failure(e)
      case Success(c) => Success(Gen(ColumnRef(c), st))
  }

  // ---------------------------------------------------------------------------
  // Boolean shapes

  /** The kinds of boolean expression (`BooleanExpression`). */
  datatype Shape = PrefixShape | ComparisonShape | LogicalShape | OperatorShape | PostfixShape | InShape | BetweenShape

  /** The generator node each kind is scored and switched off under. */
  function ShapeNode(s: Shape): Node {
    match s
    case PrefixShape => UNARY_PREFIX
    case ComparisonShape => BINARY_COMPARISON
    case LogicalShape => BINARY_LOGICAL
    case OperatorShape => BINARY_OPERATOR
    case PostfixShape => UNARY_POSTFIX
    case InShape => IN
    case BetweenShape => BETWEEN
  }

  /** The weight of each kind: the size of its operator enum, the frozen size
      of the binary operator table, one for IN and BETWEEN. */
  function Proportion(env: Env, s: Shape): nat {
    match s
    case PrefixShape => env.prefixOps
    case ComparisonShape => env.comparisonOps
    case LogicalShape => env.logicalOps
    case OperatorShape => env.operatorWeight
    case PostfixShape => env.postfixOps
    case InShape => 1
    case BetweenShape => 1
  }

  function Repeat(s: Shape, n: nat): (r: seq<Shape>)
    ensures |r| == n
    ensures forall i :: 0 <= i < n ==> r[i] == s
  {
    seq(n, i => s)
  }

  lemma {:induction false} RepeatCount(s: Shape, n: nat, x: Shape)
    ensures multiset(Repeat(s, n))[x] == if x == s then n else 0
    decreases n
  {
    if n > 0 {
      RepeatCount(s, n - 1, x);
      assert Repeat(s, n) == Repeat(s, n - 1) + [s];
    }
  }

  /** `getOptionsByProportions`: every kind, in declaration order, as many times
      as its weight. */
  function ShapeOptions(env: Env): (r: seq<Shape>)
  {
    Repeat(PrefixShape, env.prefixOps) + Repeat(ComparisonShape, env.comparisonOps)
    + Repeat(LogicalShape, env.logicalOps) + Repeat(OperatorShape, env.operatorWeight)
    + Repeat(PostfixShape, env.postfixOps) + [InShape, BetweenShape]
  }

  /** Each kind occurs in the options exactly its weight times. */
  lemma ShapeOptionsCount(env: Env, s: Shape)
    ensures multiset(ShapeOptions(env))[s] == Proportion(env, s)
  {
    CountsOfOptions(env.prefixOps, env.comparisonOps, env.logicalOps, env.operatorWeight, env.postfixOps, s);
  }

  lemma CountsOfOptions(a: nat, b: nat, c: nat, d: nat, e: nat, s: Shape)
    ensures multiset(Repeat(PrefixShape, a) + Repeat(ComparisonShape, b) + Repeat(LogicalShape, c)
                     + Repeat(OperatorShape, d) + Repeat(PostfixShape, e) + [InShape, BetweenShape])[s]
            == match s
               case PrefixShape => a
               case ComparisonShape => b
               case LogicalShape => c
               case OperatorShape => d
               case PostfixShape => e
               case InShape => 1
               case BetweenShape => 1
  {
    RepeatCount(PrefixShape, a, s);
    RepeatCount(ComparisonShape, b, s);
    RepeatCount(LogicalShape, c, s);
    RepeatCount(OperatorShape, d, s);
    RepeatCount(PostfixShape, e, s);
  }

  datatype ShapeChoice = ShapeChoice(shape: Shape, rec: Record)

  /** `BooleanExpression.getRandomByOptions`: the first drawn kind whose node is
      enabled (on the small-probability coin), scored once. */
  function PickShape(env: Env, draws: seq<Draw>, rec: Record): (r: Result<ShapeChoice>)
    ensures r.Failure? ==> r.error == OutOfChoices
    ensures r.Success? ==>
              && r.value.shape in ShapeOptions(env)
              && Enabled(env.nodeOpts, ShapeNode(r.value.shape))
              && CountOf(r.value.rec.nodes, ShapeNode(r.value.shape)) == CountOf(rec.nodes, ShapeNode(r.value.shape)) + 1
              && (forall n :: n != ShapeNode(r.value.shape) ==> CountOf(r.value.rec.nodes, n) == CountOf(rec.nodes, n))
              && r.value.rec.composites == rec.composites
  {
    var options := ShapeOptions(env);
    PickEnabledMember(options, ShapeNode, env.nodeOpts, draws);
    match PickEnabled(options, ShapeNode, env.nodeOpts, draws)
    case Failure(e) => Failure(e)
    case Success(s) => Success(ShapeChoice(s, ScoreNode(rec, ShapeNode(s))))
  }

  /** Every enabled kind of positive weight can be drawn. */
  lemma PickShapeReaches(env: Env, s: Shape, rec: Record) returns (i: nat)
    requires Proportion(env, s) > 0 && Enabled(env.nodeOpts, ShapeNode(s))
    ensures PickShape(env, [Draw(i, true)], rec) == Success(ShapeChoice(s, ScoreNode(rec, ShapeNode(s))))
  {
    ShapeOptionsCount(env, s);
    var options := ShapeOptions(env);
    assert s in multiset(options);
    i :| 0 <= i < |options| && options[i] == s;
    PickEnabledReaches(options, ShapeNode, env.nodeOpts, i);
  }

  // ---------------------------------------------------------------------------
  // Generation

  const IntType := CompositeType(INT, 0)
  const BoolType := CompositeType(BOOLEAN, 0)
  const StringType := CompositeType(STRING, 0)

  /** The functions the function branch chooses from: those enabled on their own
      and for the printed return type. */
  function Candidates(env: Env, typeName: string): seq<Functions.Function>
    requires ValidEnv(env)
  {
    Functions.CompatibleFunctions(env.functions, env.functionOrder, env.compositeOpts, typeName)
  }

  /** `generateExpression(type, depth)`: a leaf at the depth limit or on the
      rather-low coin, an inner node otherwise. No expression is deeper than the
      levels left below the limit. */
  function GenExpr(env: Env, t: CompositeType, depth: int, p: Plan, st: State): (r: Result<Gen>)
    requires ValidEnv(env)
    ensures r.Success? ==> Height(r.value.e) <= Budget(env, depth)
    ensures r.Success? && depth >= Limit(env) ==> IsLeaf(r.value.e)
    decreases p, 8, 0
  {
    if depth >= env.maxDepth || depth >= env.curDepth || p.leaf then GenLeaf(env, t, p, st)
    else GenInner(env, t, depth, p, st)
  }

  /** The sub-expression generated from child plan `k`, one level down. */
  function Sub(env: Env, t: CompositeType, depth: int, p: Plan, k: nat, st: State): (r: Result<Gen>)
    requires ValidEnv(env)
    ensures r.Success? ==> Height(r.value.e) <= Budget(env, depth)
    decreases p, 0, 0
  {
    if k < |p.kids| then GenExpr(env, t, depth, p.kids[k], st) else Failure(OutOfChoices)
  }

  /** The branches tried in turn below the limit: a function, a cast, a CASE, a
      learned binary operator, then the shape of the primitive type. A branch
      whose coin came up is scored even when it finds nothing to generate. */
  function GenInner(env: Env, t: CompositeType, depth: int, p: Plan, st: State): (r: Result<Gen>)
    requires ValidEnv(env) && depth < Limit(env)
    ensures r.Success? ==> Height(r.value.e) <= Budget(env, depth)
    decreases p, 7, 0
  {
    var tryFunction := p.tryFunction && Enabled(env.nodeOpts, FUNC);
    var st1 := if tryFunction then Score(st, FUNC) else st;
    var name := TypeName(env.types.names, t);
    if tryFunction && name.Some? && |Candidates(env, name.value)| > 0 then
      GenCall(env, t, name.value, depth, p, st1)
    else if p.tryCast && Enabled(env.nodeOpts, CAST) then GenCast(env, t, depth, p, Score(st1, CAST))
    else if p.tryCase && Enabled(env.nodeOpts, CASE) then GenCase(env, t, depth, p, Score(st1, CASE))
    else if p.tryOperator && Enabled(env.nodeOpts, BINARY_OPERATOR) then
      var st2 := Score(st1, BINARY_OPERATOR);
      match Operators.RandomByType(env.ops, env.opOrder, t, env.compositeOpts, p.opDraws, st2.rec)
      case Failure(e) => Failure(e)
      case Success(None) => GenPrimitive(env, t, depth, p, st2)
      case Success(Some(o)) => GenOperator(env, depth, p, o.0, st2.(rec := o.1))
    else GenPrimitive(env, t, depth, p, st1)
  }

  /** The function branch: a compatible function with its arguments one level
      down, generated with the flag cleared. */
  function GenCall(env: Env, t: CompositeType, typeName: string, depth: int, p: Plan, st: State): (r: Result<Gen>)
    requires ValidEnv(env) && depth < Limit(env) && |Candidates(env, typeName)| > 0
    ensures r.Success? ==> Height(r.value.e) <= Budget(env, depth)
    ensures r.Success? ==> r.value.e.Call? && r.value.e.callee in Candidates(env, typeName) && !r.value.st.nullFlag
    ensures r.Success? ==> |r.value.e.args| >= r.value.e.callee.nrArgs
    ensures r.Success? && !r.value.e.callee.isVariadic ==> |r.value.e.args| == r.value.e.callee.nrArgs
    decreases p, 6, 0
  {
    var cands := Candidates(env, typeName);
    assert cands[p.pick % |cands|] in cands;
    CallOf(env, cands[p.pick % |cands|], typeName, depth, p, st)
  }

  /** A call of `f` with its arguments one level down, generated with the flag
      cleared, and the bookkeeping of the call. */
  function CallOf(env: Env, f: Functions.Function, typeName: string, depth: int, p: Plan, st: State): (r: Result<Gen>)
    requires ValidEnv(env) && depth < Limit(env)
    ensures r.Success? ==> Height(r.value.e) <= Budget(env, depth)
    ensures r.Success? ==> r.value.e.Call? && r.value.e.callee == f && !r.value.st.nullFlag
    ensures r.Success? ==> |r.value.e.args| >= f.nrArgs
    ensures r.Success? && !f.isVariadic ==> |r.value.e.args| == f.nrArgs
    decreases p, 2, 0
  {
    match GenArgs(env, f, depth + 1, p, 0, st.(nullFlag := false))
    case Failure(e) => Failure(e)
    case Success(args) => Success(Gen(Call(f, args.es), FinishCall(args.st, f.name, typeName)))
  }

  /** `generateFunctionExpressions` from argument `i` on: each argument's type is
      an enabled one or a random one, its expression is generated at `depth`, and
      its key credited. The bound is read again in every round. */
  function GenArgs(env: Env, f: Functions.Function, depth: int, p: Plan, i: nat, st: State): (r: Result<Gens>)
    requires ValidEnv(env)
    ensures r.Success? ==> MaxHeight(r.value.es) <= Budget(env, depth)
    ensures r.Success? ==> i + |r.value.es| >= f.nrArgs
    ensures r.Success? && !f.isVariadic && i <= f.nrArgs ==> i + |r.value.es| == f.nrArgs
    decreases p, 1, |p.kids| - i
  {
    match ArgBound(f, p.small, i)
    case Failure(e) => Failure(e)
    case Success(bound) =>
      if i >= bound then Success(Gens([], st))
      else if i >= |p.kids| || i >= |p.slots| then Failure(OutOfChoices)
      else
        match SlotType(env, Argument(f.name, i), p.slots[i])
        case Failure(e) => Failure(e)
        case Success(ty) =>
          match GenExpr(env, ty, depth, p.kids[i], st)
          case Failure(e) => Failure(e)
          case Success(g) =>
            var st1 := CreditUnlessNull(g.st, ArgKey(f.name, i, TypeName(env.types.names, ty).value));
            match GenArgs(env, f, depth, p, i + 1, st1)
            case Failure(e) => Failure(e)
            case Success(rest) =>
              assert ([g.e] + rest.es)[1..] == rest.es;
              Success(Gens([g.e] + rest.es, rest.st))
  }

  /** The cast branch: an expression of a random type, cast to the requested one. */
  function GenCast(env: Env, t: CompositeType, depth: int, p: Plan, st: State): (r: Result<Gen>)
    requires ValidEnv(env) && depth < Limit(env)
    ensures r.Success? ==> Height(r.value.e) <= Budget(env, depth)
    ensures r.Success? ==> r.value.e.Cast? && r.value.e.target == t
    decreases p, 6, 0
  {
    var d :- At(p.types, 0);
    var ty :- RandomType(env, d);
    var x :- Sub(env, ty, depth + 1, p, 0, st);
    var op :- At(p.ops, 0);
    Success(Gen(Cast(x.e, t, Builtin(op)), x.st))
  }

  /** The CASE branch: a switch of a random type, at least one condition of that
      type with a result of the requested type, and an else on a coin. */
  function GenCase(env: Env, t: CompositeType, depth: int, p: Plan, st: State): (r: Result<Gen>)
    requires ValidEnv(env) && depth < Limit(env)
    ensures r.Success? ==> Height(r.value.e) <= Budget(env, depth)
    ensures r.Success? ==> r.value.e.Case? && |r.value.e.conditions| == |r.value.e.results| >= 1
    ensures r.Success? ==> (r.value.e.otherwise.Some? <==> p.flag)
    decreases p, 6, 0
  {
    var d :- At(p.types, 0);
    var ct :- RandomType(env, d);
    var sw :- Sub(env, ct, depth + 1, p, 0, st);
    var arms :- GenArms(env, ct, t, depth + 1, p, 0, 1, sw.st);
    if p.flag then
      var other :- Sub(env, t, depth + 1, p, arms.next, arms.st);
      Success(Gen(Case(sw.e, arms.conditions, arms.results, Some(other.e)), other.st))
    else Success(Gen(Case(sw.e, arms.conditions, arms.results, None), arms.st))
  }

  /** The arms of a CASE from round `i` on, reading child plans from `next`. */
  function GenArms(env: Env, ct: CompositeType, t: CompositeType, depth: int, p: Plan, i: nat, next: nat,
                   st: State): (r: Result<Arms>)
    requires ValidEnv(env)
    ensures r.Success? ==> MaxHeight(r.value.conditions) <= Budget(env, depth)
                           && MaxHeight(r.value.results) <= Budget(env, depth)
    ensures r.Success? ==> |r.value.conditions| == |r.value.results| && r.value.next >= next
    ensures r.Success? && i == 0 ==> |r.value.conditions| >= 1
    decreases p, 1, |p.kids| - next
  {
    var go :- Continues(p.small, i);
    if !go then Success(Arms([], [], st, next))
    else if next + 1 >= |p.kids| then Failure(OutOfChoices)
    else
      var c :- GenExpr(env, ct, depth, p.kids[next], st);
      var v :- GenExpr(env, t, depth, p.kids[next + 1], c.st);
      var rest :- GenArms(env, ct, t, depth, p, i + 1, next + 2, v.st);
      assert ([c.e] + rest.conditions)[1..] == rest.conditions;
      assert ([v.e] + rest.results)[1..] == rest.results;
      Success(Arms([c.e] + rest.conditions, [v.e] + rest.results, rest.st, rest.next))
  }

  /** The binary operator branch: both operands of one type (enabled for the
      operator, or random), the operand type credited unless a NULL was seen. */
  function GenOperator(env: Env, depth: int, p: Plan, op: string, st: State): (r: Result<Gen>)
    requires ValidEnv(env) && depth < Limit(env)
    ensures r.Success? ==> Height(r.value.e) <= Budget(env, depth)
    ensures r.Success? ==> r.value.e.Binary? && r.value.e.op == Some(Learned(op))
    decreases p, 6, 0
  {
    var d :- At(p.slots, 0);
    var ty :- SlotType(env, Operand(op), d);
    var l :- Sub(env, ty, depth + 1, p, 0, st);
    var r :- Sub(env, ty, depth + 1, p, 1, l.st);
    var st1 := CreditUnlessNull(r.st, OperatorArgKey(op, TypeName(env.types.names, ty).value));
    Success(Gen(Binary(l.e, r.e, Some(Learned(op))), st1))
  }

  /** The shape of the primitive type: a boolean expression, an arithmetic or
      prefix integer expression, a string concatenation, or a leaf for a learned
      type. NULL has no shape. */
  function GenPrimitive(env: Env, t: CompositeType, depth: int, p: Plan, st: State): (r: Result<Gen>)
    requires ValidEnv(env) && depth < Limit(env)
    ensures r.Success? ==> Height(r.value.e) <= Budget(env, depth)
    ensures t.dt == DataType.NULL ==> r.Failure?
    ensures r.Success? && t.dt == VARTYPE ==> IsLeaf(r.value.e)
    ensures r.Success? && t.dt == STRING ==> r.value.e.Binary? && r.value.e.op == Some(Concat)
    decreases p, 6, 0
  {
    match t.dt
    case BOOLEAN => GenBoolean(env, depth, p, st)
    case INT =>
      if p.arithmetic then
        var l :- Sub(env, IntType, depth + 1, p, 0, st);
        var r :- Sub(env, IntType, depth + 1, p, 1, l.st);
        var op :- At(p.ops, 0);
        Success(Gen(Binary(l.e, r.e, Some(Builtin(op))), r.st))
      else
        var x :- Sub(env, IntType, depth + 1, p, 0, st);
        var op :- At(p.ops, 0);
        Success(Gen(Prefix(x.e, Builtin(op)), x.st))
    case STRING =>
      var l :- Sub(env, StringType, depth + 1, p, 0, st);
      var r :- Sub(env, StringType, depth + 1, p, 1, l.st);
      Success(Gen(Binary(l.e, r.e, Some(Concat)), r.st))
    case VARTYPE => GenLeaf(env, t, p, st)
    case NULL => Failure(Assertion("NULL"))
  }

  /** `generateBooleanExpression`: a kind is drawn and scored, then built. */
  function GenBoolean(env: Env, depth: int, p: Plan, st: State): (r: Result<Gen>)
    requires ValidEnv(env) && depth < Limit(env)
    ensures r.Success? ==> Height(r.value.e) <= Budget(env, depth)
    decreases p, 5, 0
  {
    var c :- PickShape(env, p.draws, st.rec);
    GenShape(env, c.shape, depth, p, st.(rec := c.rec))
  }

  /** The boolean expression of one kind. */
  function GenShape(env: Env, s: Shape, depth: int, p: Plan, st: State): (r: Result<Gen>)
    requires ValidEnv(env) && depth < Limit(env)
    ensures r.Success? ==> Height(r.value.e) <= Budget(env, depth)
    ensures r.Success? && s == PrefixShape ==> r.value.e.Prefix? && r.value.e.prefixOp == Not
    ensures r.Success? && s == LogicalShape ==> r.value.e.Chain? && |r.value.e.links| >= 1
    ensures r.Success? && s == InShape ==> r.value.e.InList? && |r.value.e.list| >= 1
    ensures r.Success? && s == BetweenShape ==> r.value.e.Between?
    decreases p, 4, 0
  {
    match s
    case PrefixShape =>
      var x :- Sub(env, BoolType, depth + 1, p, 0, st);
      Success(Gen(Prefix(x.e, Not), x.st))
    case ComparisonShape => GenComparison(env, depth, p, st)
    case LogicalShape => GenChain(env, depth, p, st)
    case PostfixShape => GenPostfix(env, depth, p, st)
    case OperatorShape => GenBooleanOperator(env, depth, p, st)
    case InShape => GenIn(env, depth, p, st)
    case BetweenShape => GenBetween(env, depth, p, st)
  }

  /** `getBinaryComparison`: two operands of one random type. */
  function GenComparison(env: Env, depth: int, p: Plan, st: State): (r: Result<Gen>)
    requires ValidEnv(env) && depth < Limit(env)
    ensures r.Success? ==> Height(r.value.e) <= Budget(env, depth)
    decreases p, 3, 0
  {
    var d :- At(p.types, 0);
    var ty :- RandomType(env, d);
    var l :- Sub(env, ty, depth + 1, p, 0, st);
    var r :- Sub(env, ty, depth + 1, p, 1, l.st);
    var op :- At(p.ops, 0);
    Success(Gen(Binary(l.e, r.e, Some(Builtin(op))), r.st))
  }

  /** `getAndOrChain`: a boolean operand followed by at least one more, each
      with its logical operator. */
  function GenChain(env: Env, depth: int, p: Plan, st: State): (r: Result<Gen>)
    requires ValidEnv(env) && depth < Limit(env)
    ensures r.Success? ==> Height(r.value.e) <= Budget(env, depth)
    ensures r.Success? ==> r.value.e.Chain? && |r.value.e.links| >= 1
    decreases p, 3, 0
  {
    var first :- Sub(env, BoolType, depth + 1, p, 0, st);
    var links :- GenLinks(env, depth + 1, p, 0, first.st);
    Success(Gen(Chain(first.e, links.links), links.st))
  }

  /** A postfix operator on an operand of a random type. */
  function GenPostfix(env: Env, depth: int, p: Plan, st: State): (r: Result<Gen>)
    requires ValidEnv(env) && depth < Limit(env)
    ensures r.Success? ==> Height(r.value.e) <= Budget(env, depth)
    decreases p, 3, 0
  {
    var d :- At(p.types, 0);
    var ty :- RandomType(env, d);
    var x :- Sub(env, ty, depth + 1, p, 0, st);
    var op :- At(p.ops, 0);
    Success(Gen(Postfix(x.e, Builtin(op)), x.st))
  }

  /** A learned boolean operator between operands of two random types; the
      operator is absent when no learned operator yields a boolean. */
  function GenBooleanOperator(env: Env, depth: int, p: Plan, st: State): (r: Result<Gen>)
    requires ValidEnv(env) && depth < Limit(env)
    ensures r.Success? ==> Height(r.value.e) <= Budget(env, depth)
    ensures r.Success? ==> r.value.e.Binary?
    ensures r.Success? && r.value.e.op.Some? ==>
              exists name :: r.value.e.op == Some(Learned(name)) && name in env.ops && env.ops[name] == Some(BoolType)
    decreases p, 3, 0
  {
    var d1 :- At(p.types, 0);
    var t1 :- RandomType(env, d1);
    var l :- Sub(env, t1, depth + 1, p, 0, st);
    var d2 :- At(p.types, 1);
    var t2 :- RandomType(env, d2);
    var r :- Sub(env, t2, depth + 1, p, 1, l.st);
    var o :- Operators.RandomByType(env.ops, env.opOrder, BoolType, env.compositeOpts, p.opDraws, r.st.rec);
    if o.None? then Success(Gen(Binary(l.e, r.e, None), r.st))
    else Success(Gen(Binary(l.e, r.e, Some(Learned(o.value.0))), r.st.(rec := o.value.1)))
  }

  /** `getInOperation`: an operand and a list of one more than a small number of
      expressions, all of one random type. */
  function GenIn(env: Env, depth: int, p: Plan, st: State): (r: Result<Gen>)
    requires ValidEnv(env) && depth < Limit(env)
    ensures r.Success? ==> Height(r.value.e) <= Budget(env, depth)
    ensures r.Success? ==> r.value.e.InList? && |r.value.e.list| >= 1
    decreases p, 3, 0
  {
    var d :- At(p.types, 0);
    var ty :- RandomType(env, d);
    var x :- Sub(env, ty, depth + 1, p, 0, st);
    var n :- At(p.small, 0);
    var list :- GenList(env, ty, depth + 1, p, 1, n + 2, x.st);
    Success(Gen(InList(x.e, list.es, p.flag), list.st))
  }

  /** BETWEEN: three operands of one random type. */
  function GenBetween(env: Env, depth: int, p: Plan, st: State): (r: Result<Gen>)
    requires ValidEnv(env) && depth < Limit(env)
    ensures r.Success? ==> Height(r.value.e) <= Budget(env, depth)
    ensures r.Success? ==> r.value.e.Between?
    decreases p, 3, 0
  {
    var d :- At(p.types, 0);
    var ty :- RandomType(env, d);
    var x :- Sub(env, ty, depth + 1, p, 0, st);
    var lo :- Sub(env, ty, depth + 1, p, 1, x.st);
    var hi :- Sub(env, ty, depth + 1, p, 2, lo.st);
    Success(Gen(Between(x.e, lo.e, hi.e, p.flag), hi.st))
  }

  /** The right operands of an AND/OR chain from round `i` on. */
  function GenLinks(env: Env, depth: int, p: Plan, i: nat, st: State): (r: Result<Links>)
    requires ValidEnv(env)
    ensures r.Success? ==> LinksHeight(r.value.links) <= Budget(env, depth)
    ensures r.Success? && i == 0 ==> |r.value.links| >= 1
    decreases p, 1, |p.kids| - i
  {
    var go :- Continues(p.small, i);
    if !go then Success(Links([], st))
    else if i + 1 >= |p.kids| then Failure(OutOfChoices)
    else
      var right :- GenExpr(env, BoolType, depth, p.kids[i + 1], st);
      var op :- At(p.ops, i);
      var rest :- GenLinks(env, depth, p, i + 1, right.st);
      assert ([Link(Builtin(op), right.e)] + rest.links)[1..] == rest.links;
      Success(Links([Link(Builtin(op), right.e)] + rest.links, rest.st))
  }

  /** `generateExpressions`: the expressions of child plans `k` up to `end`. */
  function GenList(env: Env, t: CompositeType, depth: int, p: Plan, k: nat, end: nat, st: State): (r: Result<Gens>)
    requires ValidEnv(env)
    ensures r.Success? ==> MaxHeight(r.value.es) <= Budget(env, depth)
    ensures r.Success? && k <= end ==> |r.value.es| == end - k
    decreases p, 1, end - k
  {
    if k >= end then Success(Gens([], st))
    else if k >= |p.kids| then Failure(OutOfChoices)
    else
      var g :- GenExpr(env, t, depth, p.kids[k], st);
      var rest :- GenList(env, t, depth, p, k + 1, end, g.st);
      assert ([g.e] + rest.es)[1..] == rest.es;
      Success(Gens([g.e] + rest.es, rest.st))
  }

  // ---------------------------------------------------------------------------
  // Predicates for the oracles and ORDER BY terms

  /** `negatePredicate`: the predicate under a NOT prefix. */
  function Negate(e: Expr): (r: Expr)
    ensures r.Prefix? && r.prefixOp == Not
    ensures Height(r) == Height(e) + 1
  {
    Prefix(e, Not)
  }

  /** `isNull`: the expression under an IS NULL postfix. */
  function IsNull(e: Expr): (r: Expr)
    ensures r.Postfix? && r.postfixOp == IsNullOp
    ensures Height(r) == Height(e) + 1
  {
    Postfix(e, IsNullOp)
  }

  /** The three partitions built from one predicate are pairwise different
      expressions, and each determines the predicate it was built from. */
  lemma PartitionsDistinct(p: Expr, q: Expr)
    ensures Negate(p) != p && IsNull(p) != p && Negate(p) != IsNull(q)
    ensures Negate(p) == Negate(q) <==> p == q
    ensures IsNull(p) == IsNull(q) <==> p == q
  {
    assert Height(Negate(p)) > Height(p);
    assert Height(IsNull(p)) > Height(p);
  }

  /** An ORDER BY term: the expression alone, or with a drawn ordering. */
  datatype OrderTerm = Plain(e: Expr) | Ordered(term: Expr, ascending: bool)

  function Unwrap(t: OrderTerm): Expr {
    match t
    case Plain(e) => e
    case Ordered(e, _) => e
  }

  /** Wraps each expression whose coin came up (`Some(ascending)`) in an
      ordering term; one draw per expression. */
  function OrderTerms(exprs: seq<Expr>, wraps: seq<Option<bool>>): (r: Result<seq<OrderTerm>>)
    ensures r.Success? <==> |wraps| >= |exprs|
    ensures r.Failure? ==> r.error == OutOfChoices
    ensures r.Success? ==> |r.value| == |exprs|
    ensures r.Success? ==> forall i :: 0 <= i < |exprs| ==>
              Unwrap(r.value[i]) == exprs[i] && (r.value[i].Ordered? <==> wraps[i].Some?)
    decreases |exprs|
  {
    if |exprs| == 0 then Success([])
    else if |wraps| == 0 then Failure(OutOfChoices)
    else
      var rest :- OrderTerms(exprs[1..], wraps[1..]);
      var head := if wraps[0].Some? then Ordered(exprs[0], wraps[0].value) else Plain(exprs[0]);
      Success([head] + rest)
  }

  /** `generateOrderBys`: the expressions generated upstream between the records
      `before` and `after`, wrapped in ordering terms; the composite counts are
      then restored to what they were before, so ORDER BY expressions earn no
      composite credit while node counts keep what they earned. */
  function OrderBys(before: Record, exprs: seq<Expr>, after: Record, wraps: seq<Option<bool>>)
    : (r: Result<(seq<OrderTerm>, Record)>)
    ensures r.Success? <==> |wraps| >= |exprs|
    ensures r.Success? ==> |r.value.0| == |exprs|
    ensures r.Success? ==> forall i :: 0 <= i < |exprs| ==> Unwrap(r.value.0[i]) == exprs[i]
    ensures r.Success? ==> r.value.1.composites == before.composites
    ensures r.Success? ==> r.value.1.nodes == after.nodes && r.value.1.fragments == after.fragments
  {
    var terms :- OrderTerms(exprs, wraps);
    Success((terms, LoadCompositeScore(after, before.composites)))
  }
}
