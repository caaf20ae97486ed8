/** The session state of the general provider (`GeneralGlobalState` and the
    action table of `GeneralProvider`): the schema with its pending delta, the
    feedback controller, the fragment stores the controller prunes, the test
    objects of the statement being generated, and the steps the test loop takes
    around every executed statement and at the end of every database. */
module Session {
  import opened Base
  import opened Text
  import opened Features
  import opened Controller
  import opened Fragments
  import opened Builder
  import opened Types
  import opened Schema

  // ---------------------------------------------------------------------------
  // Options

  /** The command-line options the session consults. */
  datatype ProviderOptions = ProviderOptions(
    maxInserts: nat,
    maxNumUpdates: nat,
    maxNumViews: nat,
    testIndexes: bool,
    enableErrorHandling: bool,
    enableFeedback: bool,
    enableExtraFeatures: bool,
    untypeExpr: bool,
    useDeduplicator: bool,
    maxDepth: int)

  // ---------------------------------------------------------------------------
  // Actions

  /** The statement kinds the provider can issue while filling a database. */
  datatype Action = Insert | CreateIndex | Vacuum | Analyze | Delete | Update
                  | GeneralCommand | AlterTable | CreateView

  /** The actions in declaration order. */
  const Actions: seq<Action> :=
    [Insert, CreateIndex, Vacuum, Analyze, Delete, Update, GeneralCommand, AlterTable, CreateView]

  /** The generator node of the same name, which switches the action on and off. */
  function ActionNode(a: Action): Node {
    match a
    case Insert => INSERT
    case CreateIndex => CREATE_INDEX
    case Vacuum => VACUUM
    case Analyze => ANALYZE
    case Delete => DELETE
    case Update => UPDATE
    case GeneralCommand => GENERAL_COMMAND
    case AlterTable => ALTER_TABLE
    case CreateView => CREATE_VIEW
  }

  /** Distinct actions are switched by distinct nodes. */
  lemma ActionNodeInjective(a: Action, b: Action)
    requires ActionNode(a) == ActionNode(b)
    ensures a == b
  {
  }

  /** The actions of `as`, in order, whose node is enabled. */
  function EnabledActions(acts: seq<Action>, opts: map<Node, bool>): (r: seq<Action>)
    ensures forall a :: a in r <==> a in acts && Enabled(opts, ActionNode(a))
    ensures |r| <= |acts|
    decreases |acts|
  {
    if |acts| == 0 then []
    else
      var rest := EnabledActions(acts[1..], opts);
      assert forall a :: a in acts <==> a == acts[0] || a in acts[1..];
      if Enabled(opts, ActionNode(acts[0])) then [acts[0]] + rest else rest
  }

  /** `getAvailableActions`: exactly the actions whose node the controller has not
      switched off, in declaration order. */
  function AvailableActions(opts: map<Node, bool>): (r: seq<Action>)
    ensures forall a :: a in r <==> Enabled(opts, ActionNode(a))
  {
    var r := EnabledActions(Actions, opts);
    forall a ensures a in Actions {
      EveryActionListed(a);
    }
    r
  }

  /** Position of an action in the declaration order. */
  function ActionIndex(a: Action): nat {
    match a
    case Insert => 0
    case CreateIndex => 1
    case Vacuum => 2
    case Analyze => 3
    case Delete => 4
    case Update => 5
    case GeneralCommand => 6
    case AlterTable => 7
    case CreateView => 8
  }

  lemma EveryActionListed(a: Action)
    ensures ActionIndex(a) < |Actions| && Actions[ActionIndex(a)] == a
  {
  }

  /** Order is kept: the filter of a list is a subsequence of it. */
  lemma {:induction false} EnabledActionsInOrder(acts: seq<Action>, opts: map<Node, bool>)
    ensures forall a :: a in acts && Enabled(opts, ActionNode(a)) ==> a in EnabledActions(acts, opts)
    ensures (forall a :: a in acts ==> Enabled(opts, ActionNode(a))) ==> EnabledActions(acts, opts) == acts
    decreases |acts|
  {
    if |acts| > 0 {
      EnabledActionsInOrder(acts[1..], opts);
      assert acts == [acts[0]] + acts[1..];
    }
  }

  /** With no decision taken yet every action is available, in declaration order. */
  lemma AllActionsAtStart()
    ensures AvailableActions(map[]) == Actions
  {
    EnabledActionsInOrder(Actions, map[]);
  }

  /** `Randomly.getInteger(lo, hi)`: a draw in `[lo, hi)`, and `lo` itself when the
      range is empty. */
  function Draw(lo: int, hi: int, pick: nat): (r: int)
    requires lo <= hi
    ensures lo < hi ==> lo <= r < hi
    ensures lo == hi ==> r == lo
  {
    if lo == hi then lo else lo + pick % (hi - lo)
  }

  /** The range of `mapActions` for an action, before the draw. */
  function ActionRange(a: Action, o: ProviderOptions): (r: (int, int))
    ensures r.0 <= r.1
  {
    match a
    case Insert => (0, o.maxInserts)
    case CreateIndex => if o.testIndexes then (1, o.maxNumUpdates + 1) else (0, 0)
    case Vacuum => (0, 2)
    case Analyze => (0, 2)
    case Update => (0, o.maxNumUpdates + 1)
    case Delete => (0, o.maxNumViews + 1)
    case AlterTable => (0, o.maxNumViews + 1)
    case CreateView => (0, o.maxNumViews + 1)
    case GeneralCommand => (5, 10)
  }

  /** `mapActions`: how many statements of a kind a database receives. */
  function MapActions(a: Action, o: ProviderOptions, pick: nat): (r: nat)
    ensures a == CreateIndex && !o.testIndexes ==> r == 0
    ensures a == CreateIndex && o.testIndexes ==> 1 <= r <= o.maxNumUpdates
                                                   || (o.maxNumUpdates == 0 && r == 1)
    ensures a == GeneralCommand ==> 5 <= r < 10
    ensures a == Insert ==> r < o.maxInserts || r == 0
    ensures a in {Vacuum, Analyze} ==> r < 2
    ensures a == Update ==> r <= o.maxNumUpdates
    ensures a in {Delete, AlterTable, CreateView} ==> r <= o.maxNumViews
  {
    var range := ActionRange(a, o);
    Draw(range.0, range.1, pick)
  }

  // ---------------------------------------------------------------------------
  // The session state

  /** `GeneralGlobalState`, with the static fragment stores the controller prunes. */
  datatype GlobalState = GlobalState(
    tables: seq<Table>,
    pending: Option<Table>,
    handler: Handler,
    feedback: Feedback,
    objects: TestObjects,
    creatingDatabase: bool,
    tableFragments: Store,
    indexFragments: Store,
    statementFragments: Store,
    typeState: TypeState)

  /** What every step keeps: aligned tallies, a consistent enumeration of the test
      objects, stores of validated choices, and types available only with literals. */
  predicate Valid(st: GlobalState) {
    && TalliesAligned(st.handler, st.feedback)
    && ValidObjects(st.objects)
    && WellFormed(st.tableFragments) && WellFormed(st.indexFragments) && WellFormed(st.statementFragments)
    && WellFormed(st.typeState.store) && Consistent(st.typeState)
  }

  /** `setTestObject`: the stand-in `k` now means `v`; a new stand-in is
      enumerated last. */
  function SetTestObject(t: TestObjects, k: string, v: string): (r: TestObjects)
    requires ValidObjects(t)
    ensures ValidObjects(r)
    ensures r.names == t.names[k := v]
    ensures k in t.names ==> r.order == t.order
  {
    if k in t.names then t.(names := t.names[k := v])
    else
      var r := TestObjects(t.names[k := v], t.order + [k]);
      assert forall i :: 0 <= i < |t.order| ==> r.order[i] == t.order[i];
      r
  }

  /** `cleanTestObject`. */
  const NoTestObjects: TestObjects := TestObjects(map[], [])

  /** Setting then cleaning leaves no stand-in, so the substitution is the identity. */
  lemma CleanedObjectsReplaceNothing(s: string)
    ensures ReplaceTestObject(s, NoTestObjects) == s
  {
  }

  /** The session's `replaceTestObject`. */
  function ReplaceObjects(st: GlobalState, s: string): (r: string)
    requires ValidObjects(st.objects)
    ensures |st.objects.names| == 0 ==> r == s
    ensures (forall k :: k in st.objects.names ==> |k| > 0 && !Contains(s, k)) ==> r == s
  {
    if |st.objects.names| > 0 then
      ReplaceTestObjectAbsentWhenFree(s, st.objects);
      ReplaceTestObject(s, st.objects)
    else s
  }

  /** Helper for `ReplaceObjects`: the absence case as an implication. */
  lemma ReplaceTestObjectAbsentWhenFree(s: string, t: TestObjects)
    requires ValidObjects(t)
    ensures (forall k :: k in t.names ==> |k| > 0 && !Contains(s, k)) ==> ReplaceTestObject(s, t) == s
  {
    if forall k :: k in t.names ==> |k| > 0 && !Contains(s, k) {
      ReplaceTestObjectAbsent(s, t);
    }
  }

  // ---------------------------------------------------------------------------
  // Around every statement

  /** `updateSchema`: the pending delta, if any, is applied and then dropped. */
  function ApplyPending(st: GlobalState): (r: GlobalState)
    ensures r.pending.None?
    ensures r.tables == UpdateSchema(st.tables, st.pending)
    ensures r == st.(tables := r.tables, pending := None)
  {
    st.(tables := UpdateSchema(st.tables, st.pending), pending := None)
  }

  /** `executeEpilogue`: the schema follows the pending delta only after a successful
      statement that could change it; otherwise the state, delta included, stays. */
  function ExecuteEpilogue(st: GlobalState, couldAffectSchema: bool, success: bool): (r: GlobalState)
    ensures couldAffectSchema && success ==> r.pending.None? && r.tables == UpdateSchema(st.tables, st.pending)
    ensures !(couldAffectSchema && success) ==> r == st
    ensures r.handler == st.handler && r.feedback == st.feedback
  {
    if couldAffectSchema && success then ApplyPending(st) else st
  }

  /** A successful schema-changing epilogue makes the delta's table the one listed
      under its name, and a second epilogue changes nothing more. */
  lemma EpilogueSettles(st: GlobalState, couldAffectSchema: bool)
    requires st.pending.Some?
    ensures var r := ExecuteEpilogue(st, true, true);
            TableNamed(r.tables, st.pending.value.name) == Some(st.pending.value)
            && ExecuteEpilogue(r, couldAffectSchema, true) == r
  {
    var r := ExecuteEpilogue(st, true, true);
    assert r.pending.None?;
  }

  /** How the database answered a statement: it threw, or it reported success or
      failure. */
  datatype Execution = Threw(message: string) | Reported(success: bool)

  /** `executeStatement`: the record being filled is closed as a non-query, failed if
      the database threw (and the exception travels on), with the database's verdict
      and the statement text otherwise. */
  function ExecuteStatement(st: GlobalState, e: Execution, sql: string): (r: (GlobalState, Result<bool>))
    ensures r.0.handler.table == st.handler.table + [st.handler.current.(status := e.Reported? && e.success, isQuery := false)]
    ensures r.0.handler.current == NewRecord
    ensures e.Threw? ==> r.1 == Failure(SqlFailure(e.message)) && r.0.feedback == st.feedback
    ensures e.Reported? ==> r.1 == Success(e.success)
    ensures e.Reported? && e.success ==> r.0.feedback == SetExample(st.feedback, st.handler.current, sql)
    ensures e.Reported? && !e.success ==> r.0.feedback == st.feedback
    ensures r.0.tables == st.tables && r.0.pending == st.pending
  {
    match e
    case Threw(msg) =>
      var hf := AppendScoreToTable(st.handler, st.feedback, false, false, None);
      (st.(handler := hf.0, feedback := hf.1), Failure(SqlFailure(msg)))
    case Reported(success) =>
      var hf := AppendScoreToTable(st.handler, st.feedback, success, false, Some(sql));
      (st.(handler := hf.0, feedback := hf.1), Success(success))
  }

  /** Executing keeps the session invariant. */
  lemma ExecuteStatementValid(st: GlobalState, e: Execution, sql: string)
    requires Valid(st)
    ensures Valid(ExecuteStatement(st, e, sql).0)
  {
  }

  // ---------------------------------------------------------------------------
  // At the end of every database

  /** The function registry and type names the function-option update consults. */
  datatype FunctionView = FunctionView(functions: map<string, int>, order: seq<string>, typeNames: seq<string>)

  predicate ValidView(v: FunctionView) {
    forall i :: 0 <= i < |v.order| ==> v.order[i] in v.functions
  }

  /** `updateFragments`: the three stores drop the choices the controller disabled. */
  function UpdateFragments(st: GlobalState): (r: GlobalState)
    ensures r.tableFragments == UpdateByFeedback(st.tableFragments, st.feedback.fragmentOptions)
    ensures r.indexFragments == UpdateByFeedback(st.indexFragments, st.feedback.fragmentOptions)
    ensures r.typeState == UpdateTypesByFeedback(st.typeState, st.feedback.fragmentOptions)
    ensures r.statementFragments == st.statementFragments
    ensures Valid(st) ==> Valid(r)
  {
    var opts := st.feedback.fragmentOptions;
    st.(tableFragments := UpdateByFeedback(st.tableFragments, opts),
        indexFragments := UpdateByFeedback(st.indexFragments, opts),
        typeState := UpdateTypesByFeedback(st.typeState, opts))
  }

  /** `calcAverageScore` on the session: only the controller's tallies and rates move. */
  function CalcStep(st: GlobalState): (r: GlobalState)
    requires TalliesAligned(st.handler, st.feedback)
    ensures TalliesAligned(r.handler, r.feedback)
    ensures r == st.(handler := r.handler, feedback := r.feedback)
    ensures r.feedback.nodeOptions == st.feedback.nodeOptions
    ensures r.feedback.fragmentOptions == st.feedback.fragmentOptions
    ensures r.feedback.history == st.feedback.history && r.feedback.depth == st.feedback.depth
    ensures r.feedback.executedDatabases == st.feedback.executedDatabases
  {
    var hf := CalcAverageScore(st.handler, st.feedback);
    st.(handler := hf.0, feedback := hf.1)
  }

  /** `updateGeneratorOptions` on the session: only the three option maps move, and a
      node switched on stays on. */
  function OptionsStep(st: GlobalState, v: FunctionView): (r: GlobalState)
    requires ValidView(v)
    ensures r == st.(feedback := st.feedback.(nodeOptions := r.feedback.nodeOptions,
                                              compositeOptions := r.feedback.compositeOptions,
                                              fragmentOptions := r.feedback.fragmentOptions))
    ensures forall n :: n != UNTYPE_EXPR && n in st.feedback.nodeOptions && st.feedback.nodeOptions[n]
                        ==> n in r.feedback.nodeOptions && r.feedback.nodeOptions[n]
  {
    st.(feedback := UpdateGeneratorOptions(st.feedback, v.functions, v.order, v.typeNames))
  }

  /** The `untypeExpr` option: UNTYPE_EXPR is switched on. */
  function ForceUntyped(st: GlobalState): (r: GlobalState)
    ensures r == st.(feedback := st.feedback.(nodeOptions := r.feedback.nodeOptions))
    ensures UNTYPE_EXPR in r.feedback.nodeOptions && r.feedback.nodeOptions[UNTYPE_EXPR]
    ensures forall n :: n != UNTYPE_EXPR ==> (n in r.feedback.nodeOptions <==> n in st.feedback.nodeOptions)
    ensures forall n :: n != UNTYPE_EXPR && n in st.feedback.nodeOptions ==>
                        r.feedback.nodeOptions[n] == st.feedback.nodeOptions[n]
  {
    st.(feedback := st.feedback.(nodeOptions := st.feedback.nodeOptions[UNTYPE_EXPR := true]))
  }

  /** The success branch of `updateHandler`: rates are recomputed; with feedback on
      the options are updated (and with extra features the stores pruned); with
      untyped expressions requested UNTYPE_EXPR is switched on last. */
  function LearnFromDatabase(st: GlobalState, o: ProviderOptions, v: FunctionView): (r: GlobalState)
    requires TalliesAligned(st.handler, st.feedback) && ValidView(v)
    ensures r.tables == st.tables && r.objects == st.objects
    ensures r.feedback.history == st.feedback.history && r.feedback.depth == st.feedback.depth
    ensures r.feedback.executedDatabases == st.feedback.executedDatabases
    ensures o.untypeExpr ==> UNTYPE_EXPR in r.feedback.nodeOptions && r.feedback.nodeOptions[UNTYPE_EXPR]
    ensures !o.enableFeedback && !o.untypeExpr ==> r.feedback.nodeOptions == st.feedback.nodeOptions
    ensures !(o.enableFeedback && o.enableExtraFeatures) ==>
              r.tableFragments == st.tableFragments && r.indexFragments == st.indexFragments
              && r.typeState == st.typeState
    ensures forall n :: n != UNTYPE_EXPR && n in st.feedback.nodeOptions && st.feedback.nodeOptions[n]
                        ==> n in r.feedback.nodeOptions && r.feedback.nodeOptions[n]
  {
    var s1 := CalcStep(st);
    var s2 := if o.enableFeedback then
                var s := OptionsStep(s1, v);
                if o.enableExtraFeatures then UpdateFragments(s) else s
              else s1;
    if o.untypeExpr then ForceUntyped(s2) else s2
  }

  /** The success branch keeps the session invariant. */
  lemma LearnKeepsValid(st: GlobalState, o: ProviderOptions, v: FunctionView)
    requires Valid(st) && ValidView(v)
    ensures Valid(LearnFromDatabase(st, o, v))
  {
    var s1 := CalcStep(st);
    assert Valid(s1);
    if o.enableFeedback {
      var s := OptionsStep(s1, v);
      assert Valid(s);
      if o.enableExtraFeatures {
        assert Valid(UpdateFragments(s));
      }
    }
  }

  /** The first half of `updateHandler`: the database is counted, then a bug is
      remembered (which fails on an empty table) or the controller learns. */
  function CloseDatabase(st: GlobalState, o: ProviderOptions, v: FunctionView, status: bool, database: string)
    : (r: Result<GlobalState>)
    requires TalliesAligned(st.handler, st.feedback) && ValidView(v)
    ensures r.Success? <==> status || |st.handler.table| > 0
    ensures r.Success? ==> r.value.feedback.executedDatabases == st.feedback.executedDatabases + 1
    ensures r.Success? ==> r.value.feedback.depth == st.feedback.depth
    ensures !status && r.Success? ==>
              r.value.feedback.history == st.feedback.history[database := st.handler.table[|st.handler.table| - 1]]
              && r.value.feedback.nodeOptions == st.feedback.nodeOptions
              && r.value.handler == st.handler
    ensures status ==> r == Success(LearnFromDatabase(st, o, v).(feedback := LearnFromDatabase(st, o, v).feedback.(
                          executedDatabases := st.feedback.executedDatabases + 1)))
  {
    if !status then
      var fb :- AppendHistory(st.handler, st.feedback, database);
      Success(st.(feedback := fb.(executedDatabases := st.feedback.executedDatabases + 1)))
    else
      var l := LearnFromDatabase(st, o, v);
      Success(l.(feedback := l.feedback.(executedDatabases := st.feedback.executedDatabases + 1)))
  }

  /** The second half of `updateHandler`: the database's expression depth grows by
      one while it is below the maximum. */
  function DeepenStep(st: GlobalState, o: ProviderOptions, database: string): (r: Result<GlobalState>)
    ensures r.Success? <==> CurDepth(st.feedback, database).Success?
    ensures r.Success? ==> r.value == st.(feedback := st.feedback.(depth := r.value.feedback.depth))
    ensures r.Success? ==>
              var before := CurDepth(st.feedback, database).value;
              CurDepth(r.value.feedback, database) == Success(if before < o.maxDepth then before + 1 else before)
  {
    var depth :- CurDepth(st.feedback, database);
    if depth < o.maxDepth then
      match IncrementCurDepth(st.feedback, database)
      case Failure(e) => Failure(e)
      case Success(fb) => Success(st.(feedback := fb))
    else Success(st)
  }

  /** `updateHandler` with error handling on: the database counter goes up; a
      database that ended in a bug has its latest record remembered, any other one
      feeds the controller; then the expression depth of the database grows by one
      while it is below the maximum. Error handling off leaves the state alone. */
  function UpdateHandler(st: GlobalState, o: ProviderOptions, v: FunctionView, status: bool, database: string)
    : (r: Result<GlobalState>)
    requires TalliesAligned(st.handler, st.feedback) && ValidView(v)
    ensures !o.enableErrorHandling ==> r == Success(st)
    ensures o.enableErrorHandling ==>
              (r.Success? <==> (status || |st.handler.table| > 0) && CurDepth(st.feedback, database).Success?)
    ensures o.enableErrorHandling && r.Success? ==>
              r.value.feedback.executedDatabases == st.feedback.executedDatabases + 1
    ensures o.enableErrorHandling && !status && r.Success? ==>
              r.value.feedback.history == st.feedback.history[database := st.handler.table[|st.handler.table| - 1]]
              && r.value.feedback.nodeOptions == st.feedback.nodeOptions
              && r.value.handler == st.handler
    ensures o.enableErrorHandling && r.Success? ==>
              var before := CurDepth(st.feedback, database).value;
              CurDepth(r.value.feedback, database) == Success(if before < o.maxDepth then before + 1 else before)
  {
    if !o.enableErrorHandling then Success(st)
    else
      var closed :- CloseDatabase(st, o, v, status, database);
      assert CurDepth(closed.feedback, database) == CurDepth(st.feedback, database);
      DeepenStep(closed, o, database)
  }

  /** Closing a database keeps the session invariant. */
  lemma CloseDatabaseValid(st: GlobalState, o: ProviderOptions, v: FunctionView, status: bool, database: string)
    requires Valid(st) && ValidView(v)
    requires CloseDatabase(st, o, v, status, database).Success?
    ensures Valid(CloseDatabase(st, o, v, status, database).value)
  {
    if status {
      LearnKeepsValid(st, o, v);
    }
  }

  /** `updateHandler` keeps the session invariant. */
  lemma UpdateHandlerValid(st: GlobalState, o: ProviderOptions, v: FunctionView, status: bool, database: string)
    requires Valid(st) && ValidView(v)
    requires UpdateHandler(st, o, v, status, database).Success?
    ensures Valid(UpdateHandler(st, o, v, status, database).value)
  {
    if o.enableErrorHandling {
      CloseDatabaseValid(st, o, v, status, database);
      var closed := CloseDatabase(st, o, v, status, database).value;
      var r := DeepenStep(closed, o, database).value;
      assert r.handler == closed.handler && r.feedback.allNodes == closed.feedback.allNodes;
    }
  }

  /** The session's `checkIfDuplicate`: never a duplicate with the deduplicator off. */
  function CheckIfDuplicateSession(st: GlobalState, o: ProviderOptions, order: seq<string>): (r: Result<bool>)
    requires Enumerates(order, st.feedback.history.Keys)
    ensures !o.useDeduplicator ==> r == Success(false)
    ensures o.useDeduplicator && r.Success? && r.value ==>
              |st.handler.table| > 0 &&
              exists i :: 0 <= i < |order| && DuplicateOf(st.handler.table[|st.handler.table| - 1], st.feedback.history[order[i]])
  {
    if !o.useDeduplicator then Success(false) else CheckIfDuplicate(st.handler, st.feedback, order)
  }

  /** A bug recorded by `updateHandler` is found again by the next duplicate check of
      the same record. */
  lemma RecordedBugIsDuplicate(st: GlobalState, o: ProviderOptions, v: FunctionView, database: string,
                               order: seq<string>)
    requires TalliesAligned(st.handler, st.feedback) && ValidView(v) && o.enableErrorHandling && o.useDeduplicator
    requires UpdateHandler(st, o, v, false, database).Success?
    requires var r := UpdateHandler(st, o, v, false, database).value;
             Enumerates(order, r.feedback.history.Keys)
    ensures var r := UpdateHandler(st, o, v, false, database).value;
            CheckIfDuplicateSession(r, o, order) != Success(false)
  {
    var r := UpdateHandler(st, o, v, false, database).value;
    var last := st.handler.table[|st.handler.table| - 1];
    assert r.handler == st.handler;
    assert r.feedback.history[database] == last;
    var i :| 0 <= i < |order| && order[i] == database;
    var hist := seq(|order|, j requires 0 <= j < |order| => r.feedback.history[order[j]]);
    RememberedIsDuplicate(last, hist, i);
  }

  // ---------------------------------------------------------------------------
  // Dropping tables and views

  /** `dropTable` / `dropView`: whatever the database says, the first schema entry
      with the name goes. */
  function DropObject(st: GlobalState, name: string): (r: GlobalState)
    ensures r.tables == DropByName(st.tables, name)
    ensures r == st.(tables := r.tables)
    ensures FindByName(st.tables, name).Some? ==> |r.tables| == |st.tables| - 1
  {
    st.(tables := DropByName(st.tables, name))
  }
}
