/** The feedback controller (`GeneralErrorHandler`): it records which generator
    features each executed statement or query used, tallies success per feature,
    turns the tallies into rates once a feature has been tried often enough, enables
    or disables features from those rates, keeps one example per feature, remembers
    the feature records of the bugs already reported and grows the expression depth
    of each database from run to run. */
module Controller {
  import opened Base
  import opened Text
  import opened Features
  import opened Templates

  // ---------------------------------------------------------------------------
  // Execution records

  /** Feature use counts of one statement or query, with the outcome of executing it. */
  datatype Record = Record(
    nodes: map<Node, nat>,
    composites: map<string, nat>,
    fragments: map<FragmentChoice, nat>,
    status: bool,
    isQuery: bool)

  /** A record nothing has been written to yet. */
  const NewRecord: Record := Record(map[], map[], map[], false, false)

  /** A map read with absent keys counting as zero. */
  function CountOf<K(!new)>(m: map<K, nat>, k: K): nat {
    if k in m then m[k] else 0
  }

  /** One more use of `k`. */
  function Bump<K(!new)>(m: map<K, nat>, k: K): (r: map<K, nat>)
    ensures r.Keys == m.Keys + {k}
    ensures CountOf(r, k) == CountOf(m, k) + 1
    ensures forall x :: x != k ==> CountOf(r, x) == CountOf(m, x)
  {
    m[k := CountOf(m, k) + 1]
  }

  /** `addScore(GeneratorNode)`. */
  function ScoreNode(rec: Record, n: Node): (r: Record)
    ensures CountOf(r.nodes, n) == CountOf(rec.nodes, n) + 1 && n in r.nodes
    ensures forall x :: x != n ==> CountOf(r.nodes, x) == CountOf(rec.nodes, x)
    ensures r.composites == rec.composites && r.fragments == rec.fragments
    ensures r.status == rec.status && r.isQuery == rec.isQuery
  {
    rec.(nodes := Bump(rec.nodes, n))
  }

  /** `addScore(String)`. */
  function ScoreComposite(rec: Record, k: string): (r: Record)
    ensures CountOf(r.composites, k) == CountOf(rec.composites, k) + 1 && k in r.composites
    ensures forall x :: x != k ==> CountOf(r.composites, x) == CountOf(rec.composites, x)
    ensures r.nodes == rec.nodes && r.fragments == rec.fragments
    ensures r.status == rec.status && r.isQuery == rec.isQuery
  {
    rec.(composites := Bump(rec.composites, k))
  }

  /** `addScore(GeneralFragmentChoice)`. */
  function ScoreFragment(rec: Record, c: FragmentChoice): (r: Record)
    ensures CountOf(r.fragments, c) == CountOf(rec.fragments, c) + 1 && c in r.fragments
    ensures forall x :: x != c ==> CountOf(r.fragments, x) == CountOf(rec.fragments, x)
    ensures r.nodes == rec.nodes && r.composites == rec.composites
    ensures r.status == rec.status && r.isQuery == rec.isQuery
  {
    rec.(fragments := Bump(rec.fragments, c))
  }

  /** `loadCompositeScore`: the composite counts become exactly `saved`. */
  function LoadCompositeScore(rec: Record, saved: map<string, nat>): (r: Record)
    ensures r.composites == saved
    ensures r.nodes == rec.nodes && r.fragments == rec.fragments
  {
    rec.(composites := saved)
  }

  // ---------------------------------------------------------------------------
  // Tallies

  /** Per-feature success units and attempts. */
  datatype Tally<K> = Tally(success: map<K, nat>, count: map<K, nat>)

  /** Every tallied feature has both a success and an attempt entry. */
  predicate Aligned<K(!new)>(t: Tally<K>) {
    t.success.Keys == t.count.Keys
  }

  /** `countSuccess`: each feature the record used gains one attempt, and its use
      count as success units when the record's execution succeeded. */
  function CountSuccess<K(!new)>(t: Tally<K>, score: map<K, nat>, status: bool): (r: Tally<K>)
    requires Aligned(t)
    ensures Aligned(r) && r.success.Keys == t.success.Keys + score.Keys
    ensures forall k :: CountOf(r.count, k) == CountOf(t.count, k) + (if k in score then 1 else 0)
    ensures forall k :: CountOf(r.success, k) == CountOf(t.success, k) + (if k in score && status then score[k] else 0)
  {
    var keys := t.success.Keys + score.Keys;
    Tally(map k | k in keys :: CountOf(t.success, k) + (if k in score && status then score[k] else 0),
          map k | k in keys :: CountOf(t.count, k) + (if k in score then 1 else 0))
  }

  /** The records (by position) whose selected score map mentions `k`. */
  function Users<K(!new)>(table: seq<Record>, sel: Record -> map<K, nat>, k: K): set<nat> {
    set i: nat | i < |table| && k in sel(table[i])
  }

  /** Success units `k` earned over the successful records of `table`. */
  function Earned<K(!new)>(table: seq<Record>, sel: Record -> map<K, nat>, k: K): nat {
    if |table| == 0 then 0
    else
      var last := table[|table| - 1];
      Earned(table[..|table| - 1], sel, k) + (if k in sel(last) && last.status then sel(last)[k] else 0)
  }

  /** The `calcNodeSuccess` / `calcCompositeSuccess` / `calcFragmentSuccess` loops:
      every record of the table, in order, tallied into `t`. */
  function TallyTable<K(!new)>(t: Tally<K>, table: seq<Record>, sel: Record -> map<K, nat>): (r: Tally<K>)
    requires Aligned(t)
    ensures Aligned(r)
  {
    if |table| == 0 then t
    else
      var last := table[|table| - 1];
      CountSuccess(TallyTable(t, table[..|table| - 1], sel), sel(last), last.status)
  }

  lemma UsersExtend<K(!new)>(table: seq<Record>, sel: Record -> map<K, nat>, k: K)
    requires |table| > 0
    ensures |Users(table, sel, k)| ==
            |Users(table[..|table| - 1], sel, k)| + (if k in sel(table[|table| - 1]) then 1 else 0)
  {
    var n := |table| - 1;
    var before := Users(table[..n], sel, k);
    if k in sel(table[n]) {
      assert Users(table, sel, k) == before + {n};
    } else {
      assert Users(table, sel, k) == before;
    }
  }

  /** Tallying a table adds, per feature, one attempt for every record that used it
      (however often) and the use counts of the successful records as successes. */
  lemma {:induction false} TallyTableCounts<K(!new)>(t: Tally<K>, table: seq<Record>, sel: Record -> map<K, nat>, k: K)
    requires Aligned(t)
    ensures CountOf(TallyTable(t, table, sel).count, k) == CountOf(t.count, k) + |Users(table, sel, k)|
    ensures CountOf(TallyTable(t, table, sel).success, k) == CountOf(t.success, k) + Earned(table, sel, k)
    decreases |table|
  {
    if |table| == 0 {
      assert Users(table, sel, k) == {};
    } else {
      TallyTableCounts(t, table[..|table| - 1], sel, k);
      UsersExtend(table, sel, k);
    }
  }

  // ---------------------------------------------------------------------------
  // Rates

  /** A success rate `success / count`, kept as the two integers it is computed from. */
  datatype Rate = Rate(success: nat, count: nat) {
    /** `rate > 0` */
    predicate Positive() { success > 0 }
    /** `rate > 0.5` */
    predicate AboveHalf() { 2 * success > count }
  }

  /** Comparing a quotient with a bound is comparing the dividend with the scaled bound. */
  lemma QuotientAbove(a: real, b: real, c: real)
    requires c > 0.0
    ensures a / c > b <==> a > b * c
  {
    var q := a / c;
    assert q * c == a;
    assert a - b * c == (q - b) * c;
  }

  /** The integer tests agree with the floating-point comparisons of the quotient. */
  lemma RateTests(r: Rate)
    requires r.count > 0
    ensures r.Positive() <==> (r.success as real) / (r.count as real) > 0.0
    ensures r.AboveHalf() <==> (r.success as real) / (r.count as real) > 0.5
  {
    QuotientAbove(r.success as real, 0.0, r.count as real);
    QuotientAbove(r.success as real, 0.5, r.count as real);
  }

  /** The first loop of `calcAverageScore`: the run tallies added into the all-time ones. */
  function Merge<K(!new)>(run: Tally<K>, all: Tally<K>): (r: Tally<K>)
    requires Aligned(run) && Aligned(all)
    ensures Aligned(r) && r.success.Keys == run.success.Keys + all.success.Keys
    ensures forall k :: CountOf(r.success, k) == CountOf(all.success, k) + CountOf(run.success, k)
    ensures forall k :: CountOf(r.count, k) == CountOf(all.count, k) + CountOf(run.count, k)
  {
    var keys := run.success.Keys + all.success.Keys;
    Tally(map k | k in keys :: CountOf(all.success, k) + CountOf(run.success, k),
          map k | k in keys :: CountOf(all.count, k) + CountOf(run.count, k))
  }

  /** The warm-up rule: a feature's rate is trusted once its attempts exceed
      `minCount`, or at once under quick start when it has any success. */
  predicate Trusted(success: nat, count: nat, minCount: nat, quickStart: bool) {
    count > minCount || (quickStart && success > 0)
  }

  /** The second loop of `calcAverageScore`: rates of the trusted features. */
  function Averages<K(!new)>(all: Tally<K>, minCount: nat, quickStart: bool): (avg: map<K, Rate>)
    requires Aligned(all)
    ensures forall k :: k in avg <==> k in all.success && Trusted(all.success[k], all.count[k], minCount, quickStart)
    ensures forall k :: k in avg ==> avg[k] == Rate(all.success[k], all.count[k])
  {
    map k | k in all.success.Keys && Trusted(all.success[k], all.count[k], minCount, quickStart)
          :: Rate(all.success[k], all.count[k])
  }

  // ---------------------------------------------------------------------------
  // Controller state

  /** The per-session part: the record being filled, the finished records of this
      session, and the session tallies (which keep accumulating across calls). */
  datatype Handler = Handler(
    current: Record,
    table: seq<Record>,
    runNodes: Tally<Node>,
    runComposites: Tally<string>,
    runFragments: Tally<FragmentChoice>)

  /** The process-wide part (the static fields). */
  datatype Feedback = Feedback(
    nodeOptions: map<Node, bool>,
    compositeOptions: map<string, bool>,
    fragmentOptions: map<FragmentChoice, bool>,
    disabledFragments: seq<string>,
    allNodes: Tally<Node>,
    allComposites: Tally<string>,
    allFragments: Tally<FragmentChoice>,
    nodeAverage: map<Node, Rate>,
    compositeAverage: map<string, Rate>,
    fragmentAverage: map<FragmentChoice, Rate>,
    nodeExamples: map<Node, string>,
    compositeExamples: map<string, string>,
    fragmentExamples: map<FragmentChoice, string>,
    history: map<string, Record>,
    depth: map<string, int>,
    executedDatabases: nat)

  predicate TalliesAligned(h: Handler, fb: Feedback) {
    && Aligned(h.runNodes) && Aligned(h.runComposites) && Aligned(h.runFragments)
    && Aligned(fb.allNodes) && Aligned(fb.allComposites) && Aligned(fb.allFragments)
  }

  const EmptyTallies: (Tally<Node>, Tally<string>, Tally<FragmentChoice>) :=
    (Tally(map[], map[]), Tally(map[], map[]), Tally(map[], map[]))

  /** Warm-up thresholds: nodes 100 with quick start, composites 200 without,
      fragments 10 with quick start. */
  const NodeMinCount: nat := 100
  const CompositeMinCount: nat := 200
  const FragmentMinCount: nat := 10

  function NodesOf(r: Record): map<Node, nat> { r.nodes }
  function CompositesOf(r: Record): map<string, nat> { r.composites }
  function FragmentsOf(r: Record): map<FragmentChoice, nat> { r.fragments }

  /** `calcAverageScore`: tally the session's table into the session tallies, merge
      those into the all-time tallies and recompute the three rate maps. */
  function CalcAverageScore(h: Handler, fb: Feedback): (r: (Handler, Feedback))
    requires TalliesAligned(h, fb)
    ensures TalliesAligned(r.0, r.1)
    ensures r.0.table == h.table && r.0.current == h.current
    ensures forall n :: CountOf(r.1.allNodes.count, n)
                        == CountOf(fb.allNodes.count, n) + CountOf(h.runNodes.count, n) + |Users(h.table, NodesOf, n)|
    ensures forall n :: CountOf(r.1.allNodes.success, n)
                        == CountOf(fb.allNodes.success, n) + CountOf(h.runNodes.success, n) + Earned(h.table, NodesOf, n)
    ensures forall k :: CountOf(r.1.allComposites.count, k)
                        == CountOf(fb.allComposites.count, k) + CountOf(h.runComposites.count, k) + |Users(h.table, CompositesOf, k)|
    ensures forall c :: CountOf(r.1.allFragments.count, c)
                        == CountOf(fb.allFragments.count, c) + CountOf(h.runFragments.count, c) + |Users(h.table, FragmentsOf, c)|
    ensures forall n :: n in r.1.nodeAverage <==>
              n in r.1.allNodes.success && Trusted(r.1.allNodes.success[n], r.1.allNodes.count[n], NodeMinCount, true)
    ensures forall k :: k in r.1.compositeAverage <==>
              k in r.1.allComposites.success
              && Trusted(r.1.allComposites.success[k], r.1.allComposites.count[k], CompositeMinCount, false)
    ensures forall c :: c in r.1.fragmentAverage <==>
              c in r.1.allFragments.success
              && Trusted(r.1.allFragments.success[c], r.1.allFragments.count[c], FragmentMinCount, true)
  {
    var runN := TallyTable(h.runNodes, h.table, NodesOf);
    var runC := TallyTable(h.runComposites, h.table, CompositesOf);
    var runF := TallyTable(h.runFragments, h.table, FragmentsOf);
    var allN := Merge(runN, fb.allNodes);
    var allC := Merge(runC, fb.allComposites);
    var allF := Merge(runF, fb.allFragments);
    forall n ensures CountOf(allN.count, n) == CountOf(fb.allNodes.count, n) + CountOf(h.runNodes.count, n) + |Users(h.table, NodesOf, n)|
                  && CountOf(allN.success, n) == CountOf(fb.allNodes.success, n) + CountOf(h.runNodes.success, n) + Earned(h.table, NodesOf, n)
    {
      TallyTableCounts(h.runNodes, h.table, NodesOf, n);
    }
    forall k ensures CountOf(allC.count, k) == CountOf(fb.allComposites.count, k) + CountOf(h.runComposites.count, k) + |Users(h.table, CompositesOf, k)|
    {
      TallyTableCounts(h.runComposites, h.table, CompositesOf, k);
    }
    forall c ensures CountOf(allF.count, c) == CountOf(fb.allFragments.count, c) + CountOf(h.runFragments.count, c) + |Users(h.table, FragmentsOf, c)|
    {
      TallyTableCounts(h.runFragments, h.table, FragmentsOf, c);
    }
    (h.(runNodes := runN, runComposites := runC, runFragments := runF),
     fb.(allNodes := allN, allComposites := allC, allFragments := allF,
         nodeAverage := Averages(allN, NodeMinCount, true),
         compositeAverage := Averages(allC, CompositeMinCount, false),
         fragmentAverage := Averages(allF, FragmentMinCount, true)))
  }

  // ---------------------------------------------------------------------------
  // Options

  /** `getOption`, `getCompositeOption`, `getFragmentOption`: a feature nobody has
      decided on is enabled. */
  predicate Enabled<K(!new)>(opts: map<K, bool>, k: K) {
    k !in opts || opts[k]
  }

  /** `getCompositeOptionNullAsFalse`: a feature nobody has decided on is disabled. */
  predicate EnabledNullAsFalse<K(!new)>(opts: map<K, bool>, k: K) {
    k in opts && opts[k]
  }

  /** The rejection loop of the `getRandomByOptions` selectors: the first drawn
      element whose feature `key` is enabled (on a true coin). */
  function PickEnabled<T, K(!new)>(xs: seq<T>, key: T -> K, opts: map<K, bool>, draws: seq<Draw>): (r: Result<T>)
    ensures |xs| == 0 ==> r == Failure(EmptyChoice)
    ensures r.Success? ==> Enabled(opts, key(r.value))
    ensures |xs| > 0 && r.Failure? ==> r.error == OutOfChoices
    decreases |draws|
  {
    if |xs| == 0 then Failure(EmptyChoice)
    else if |draws| == 0 then Failure(OutOfChoices)
    else if draws[0].pick < |xs| && draws[0].coin && Enabled(opts, key(xs[draws[0].pick]))
    then Success(xs[draws[0].pick])
    else PickEnabled(xs, key, opts, draws[1..])
  }

  /** `PickEnabled` is the generic rejection loop `PickFrom` with "the key is
      enabled" as its acceptance test. */
  lemma {:induction false} PickEnabledIsPickFrom<T, K(!new)>(xs: seq<T>, key: T -> K, opts: map<K, bool>, draws: seq<Draw>)
    ensures PickEnabled(xs, key, opts, draws) == PickFrom(xs, (x: T) => Enabled(opts, key(x)), draws)
    decreases |draws|
  {
    if |xs| > 0 && |draws| > 0 {
      PickEnabledIsPickFrom(xs, key, opts, draws[1..]);
    }
  }

  /** The element drawn is one of the candidates. */
  lemma {:induction false} PickEnabledMember<T, K(!new)>(xs: seq<T>, key: T -> K, opts: map<K, bool>, draws: seq<Draw>)
    ensures PickEnabled(xs, key, opts, draws).Success? ==> PickEnabled(xs, key, opts, draws).value in xs
    decreases |draws|
  {
    if |xs| > 0 && |draws| > 0 {
      PickEnabledMember(xs, key, opts, draws[1..]);
    }
  }

  /** Every element whose feature is enabled can be drawn. */
  lemma PickEnabledReaches<T, K(!new)>(xs: seq<T>, key: T -> K, opts: map<K, bool>, i: nat)
    requires i < |xs| && Enabled(opts, key(xs[i]))
    ensures PickEnabled(xs, key, opts, [Draw(i, true)]) == Success(xs[i])
  {
  }

  /** `getCompositeOption(o1, o2)`: the option named `o1-o2`. */
  predicate PairEnabled(opts: map<string, bool>, o1: string, o2: string) {
    Enabled(opts, o1 + "-" + o2)
  }

  /** `setOptionIfNonExist` and its composite twin: only an undecided feature is set. */
  function SetIfAbsent<K(!new)>(opts: map<K, bool>, k: K, v: bool): (r: map<K, bool>)
    ensures k in r && r[k] == (if k in opts then opts[k] else v)
    ensures forall x :: x != k ==> (x in r <==> x in opts) && (x in opts ==> r[x] == opts[x])
  {
    if k in opts then opts else opts[k := v]
  }

  /** `updateByLeastOnce`: a feature explicitly enabled stays enabled; every other
      feature with a rate becomes enabled exactly when its rate is positive; features
      without a rate keep whatever they had. */
  function UpdateByLeastOnce<K(!new)>(avg: map<K, Rate>, opts: map<K, bool>): (r: map<K, bool>)
    ensures r.Keys == opts.Keys + avg.Keys
    ensures forall k :: k in opts && opts[k] ==> r[k]
    ensures forall k :: k in avg && !(k in opts && opts[k]) ==> r[k] == avg[k].Positive()
    ensures forall k :: k in opts && k !in avg ==> r[k] == opts[k]
  {
    map k | k in opts.Keys + avg.Keys ::
      if k in opts && opts[k] then true
      else if k in avg then avg[k].Positive()
      else opts[k]
  }

  /** Applying the update twice with the same rates changes nothing more. */
  lemma UpdateByLeastOnceIdempotent<K(!new)>(avg: map<K, Rate>, opts: map<K, bool>)
    ensures UpdateByLeastOnce(avg, UpdateByLeastOnce(avg, opts)) == UpdateByLeastOnce(avg, opts)
  {
  }

  /** Argument `i` of `f` has no supported type whose composite option is enabled. */
  predicate ArgUnusable(opts: map<string, bool>, f: string, i: nat, typeNames: seq<string>) {
    forall j :: 0 <= j < |typeNames| ==> !PairEnabled(opts, f, NatToString(i) + typeNames[j])
  }

  /** Some argument position of `f` (arity `n`) is unusable. */
  predicate SomeArgUnusable(opts: map<string, bool>, f: string, n: int, typeNames: seq<string>) {
    exists i: nat :: i < n && ArgUnusable(opts, f, i, typeNames)
  }

  /** One function of `postUpdateFunctionOptions`. */
  function DisableIfUnusable(opts: map<string, bool>, f: string, n: int, typeNames: seq<string>): map<string, bool> {
    if SomeArgUnusable(opts, f, n, typeNames) then opts[FunctionKey(f) := false] else opts
  }

  /** `postUpdateFunctionOptions`: walking the function table in its iteration order,
      a function gets `FUNCTION-f` disabled when one of its argument positions has no
      enabled type. Nothing else changes and nothing is ever enabled. */
  function PostUpdateFunctionOptions(opts: map<string, bool>, functions: map<string, int>,
                                     order: seq<string>, typeNames: seq<string>): (r: map<string, bool>)
    requires forall i :: 0 <= i < |order| ==> order[i] in functions
    ensures opts.Keys <= r.Keys <= opts.Keys + set i | 0 <= i < |order| :: FunctionKey(order[i])
    ensures forall k :: k in r && (k !in opts || r[k] != opts[k]) ==>
              !r[k] && exists i :: 0 <= i < |order| && k == FunctionKey(order[i])
    decreases |order|
  {
    if |order| == 0 then opts
    else
      var f := order[|order| - 1];
      var prev := PostUpdateFunctionOptions(opts, functions, order[..|order| - 1], typeNames);
      var r := DisableIfUnusable(prev, f, functions[f], typeNames);
      assert forall i :: 0 <= i < |order| - 1 ==> order[..|order| - 1][i] == order[i];
      r
  }

  /** No `FUNCTION-g` key of one function is also an argument key of another, so the
      order in which the functions are visited cannot matter. */
  predicate KeysSeparate(functions: map<string, int>, order: seq<string>, typeNames: seq<string>) {
    forall g, f, i: nat, j :: g in functions && f in functions && i < functions[f] && 0 <= j < |typeNames| ==>
      FunctionKey(g) != f + "-" + (NatToString(i) + typeNames[j])
  }

  /** When keys are separate, the result is the original options with exactly the
      functions that had an unusable argument (judged on the original options)
      disabled: the iteration order of the function table does not matter. */
  lemma {:induction false} PostUpdateOrderFree(opts: map<string, bool>, functions: map<string, int>,
                                               order: seq<string>, typeNames: seq<string>, f: string)
    requires forall i :: 0 <= i < |order| ==> order[i] in functions
    requires KeysSeparate(functions, order, typeNames)
    requires f in functions
    ensures FunctionKey(f) in PostUpdateFunctionOptions(opts, functions, order, typeNames) &&
            !PostUpdateFunctionOptions(opts, functions, order, typeNames)[FunctionKey(f)]
            <==>
            (f in order && SomeArgUnusable(opts, f, functions[f], typeNames))
            || (FunctionKey(f) in opts && !opts[FunctionKey(f)])
    decreases |order|
  {
    if |order| > 0 {
      var g := order[|order| - 1];
      var front := order[..|order| - 1];
      assert forall i :: 0 <= i < |front| ==> front[i] == order[i];
      var prev := PostUpdateFunctionOptions(opts, functions, front, typeNames);
      assert PostUpdateFunctionOptions(opts, functions, order, typeNames) == DisableIfUnusable(prev, g, functions[g], typeNames);
      PostUpdateOrderFree(opts, functions, front, typeNames, f);
      ArgKeysUnchanged(opts, functions, front, typeNames, g);
      if FunctionKey(g) == FunctionKey(f) {
        assert g == f by { assert FunctionKey(g)[9..] == g; assert FunctionKey(f)[9..] == f; }
      }
      assert f in order <==> f in front || f == g;
    }
  }

  /** Before the pass reaches `g`, the argument keys of `g` still hold their original values. */
  lemma {:induction false} ArgKeysUnchanged(opts: map<string, bool>, functions: map<string, int>,
                                            order: seq<string>, typeNames: seq<string>, g: string)
    requires forall i :: 0 <= i < |order| ==> order[i] in functions
    requires KeysSeparate(functions, order, typeNames)
    requires g in functions
    ensures SomeArgUnusable(PostUpdateFunctionOptions(opts, functions, order, typeNames), g, functions[g], typeNames)
            <==> SomeArgUnusable(opts, g, functions[g], typeNames)
  {
    var r := PostUpdateFunctionOptions(opts, functions, order, typeNames);
    forall i: nat, j | i < functions[g] && 0 <= j < |typeNames|
      ensures PairEnabled(r, g, NatToString(i) + typeNames[j]) == PairEnabled(opts, g, NatToString(i) + typeNames[j])
    {
      var k := g + "-" + (NatToString(i) + typeNames[j]);
      assert forall x :: 0 <= x < |order| ==> k != FunctionKey(order[x]);
      assert k in r <==> k in opts;
    }
    assert forall i: nat :: i < functions[g] ==>
      (ArgUnusable(r, g, i, typeNames) <==> ArgUnusable(opts, g, i, typeNames));
  }

  /** `updateGeneratorOptions` as written: node, composite and function updates, then
      the fragment update, then an enabled UNTYPE_EXPR keeps itself only when its
      rate exceeds one half. Reading the UNTYPE_EXPR option or its rate when it is
      missing throws. */
  function UpdateGeneratorOptionsAsWritten(fb: Feedback, functions: map<string, int>,
                                           order: seq<string>, typeNames: seq<string>): (r: Result<Feedback>)
    requires forall i :: 0 <= i < |order| ==> order[i] in functions
    ensures r.Failure? <==>
              var n := UpdateByLeastOnce(fb.nodeAverage, fb.nodeOptions);
              UNTYPE_EXPR !in n || (n[UNTYPE_EXPR] && UNTYPE_EXPR !in fb.nodeAverage)
  {
    var n := UpdateByLeastOnce(fb.nodeAverage, fb.nodeOptions);
    var c := PostUpdateFunctionOptions(UpdateByLeastOnce(fb.compositeAverage, fb.compositeOptions),
                                       functions, order, typeNames);
    var f := UpdateByLeastOnce(fb.fragmentAverage, fb.fragmentOptions);
    if UNTYPE_EXPR !in n then Failure(NullValue)
    else if !n[UNTYPE_EXPR] then Success(fb.(nodeOptions := n, compositeOptions := c, fragmentOptions := f))
    else if UNTYPE_EXPR !in fb.nodeAverage then Failure(NullValue)
    else
      Success(fb.(nodeOptions := n[UNTYPE_EXPR := fb.nodeAverage[UNTYPE_EXPR].AboveHalf()],
                  compositeOptions := c, fragmentOptions := f))
  }

  /** `updateGeneratorOptions` with the UNTYPE_EXPR step guarded: an enabled
      UNTYPE_EXPR without a rate yet is left as it is. */
  function UpdateGeneratorOptions(fb: Feedback, functions: map<string, int>,
                                  order: seq<string>, typeNames: seq<string>): (r: Feedback)
    requires forall i :: 0 <= i < |order| ==> order[i] in functions
    ensures forall x :: x != UNTYPE_EXPR && x in fb.nodeOptions && fb.nodeOptions[x] ==> x in r.nodeOptions && r.nodeOptions[x]
    ensures UNTYPE_EXPR in fb.nodeOptions ==> UNTYPE_EXPR in r.nodeOptions
    ensures (UNTYPE_EXPR in r.nodeOptions && UNTYPE_EXPR in fb.nodeAverage && r.nodeOptions[UNTYPE_EXPR])
              ==> fb.nodeAverage[UNTYPE_EXPR].AboveHalf()
    ensures (UNTYPE_EXPR in fb.nodeOptions && fb.nodeOptions[UNTYPE_EXPR] && UNTYPE_EXPR !in fb.nodeAverage)
              ==> r.nodeOptions[UNTYPE_EXPR]
    ensures UpdateGeneratorOptionsAsWritten(fb, functions, order, typeNames).Success? ==>
              r == UpdateGeneratorOptionsAsWritten(fb, functions, order, typeNames).value
    ensures r == fb.(nodeOptions := r.nodeOptions, compositeOptions := r.compositeOptions,
                     fragmentOptions := r.fragmentOptions)
  {
    var n := UpdateByLeastOnce(fb.nodeAverage, fb.nodeOptions);
    var c := PostUpdateFunctionOptions(UpdateByLeastOnce(fb.compositeAverage, fb.compositeOptions),
                                       functions, order, typeNames);
    var f := UpdateByLeastOnce(fb.fragmentAverage, fb.fragmentOptions);
    if UNTYPE_EXPR in n && n[UNTYPE_EXPR] && UNTYPE_EXPR in fb.nodeAverage then
      fb.(nodeOptions := n[UNTYPE_EXPR := fb.nodeAverage[UNTYPE_EXPR].AboveHalf()],
          compositeOptions := c, fragmentOptions := f)
    else fb.(nodeOptions := n, compositeOptions := c, fragmentOptions := f)
  }

  /** The source fault: once UNTYPE_EXPR has been switched on, a session in which no
      record used it leaves it without a rate, and the update then throws. */
  lemma UntypedWithoutEvidenceThrows(h: Handler, fb: Feedback, functions: map<string, int>,
                                     order: seq<string>, typeNames: seq<string>)
    requires TalliesAligned(h, fb)
    requires forall i :: 0 <= i < |order| ==> order[i] in functions
    requires UNTYPE_EXPR in fb.nodeOptions && fb.nodeOptions[UNTYPE_EXPR]
    requires UNTYPE_EXPR !in fb.allNodes.success && UNTYPE_EXPR !in h.runNodes.success
    requires forall i :: 0 <= i < |h.table| ==> UNTYPE_EXPR !in h.table[i].nodes
    ensures UpdateGeneratorOptionsAsWritten(CalcAverageScore(h, fb).1, functions, order, typeNames).Failure?
  {
    var fb' := CalcAverageScore(h, fb).1;
    assert Users(h.table, NodesOf, UNTYPE_EXPR) == {};
    assert CountOf(fb'.allNodes.count, UNTYPE_EXPR) == 0;
    if UNTYPE_EXPR in fb'.nodeAverage {
      assert UNTYPE_EXPR in fb'.allNodes.success;
      TallyTableCounts(h.runNodes, h.table, NodesOf, UNTYPE_EXPR);
      EarnedWithoutUse(h.table, UNTYPE_EXPR);
      assert false;
    }
  }

  lemma {:induction false} EarnedWithoutUse(table: seq<Record>, n: Node)
    requires forall i :: 0 <= i < |table| ==> n !in table[i].nodes
    ensures Earned(table, NodesOf, n) == 0
    decreases |table|
  {
    if |table| > 0 {
      EarnedWithoutUse(table[..|table| - 1], n);
    }
  }

  /** The smallest instance: UNTYPE_EXPR switched on, nothing tallied. */
  lemma UntypedWithoutEvidenceExample()
    ensures UpdateGeneratorOptionsAsWritten(
              Feedback(map[UNTYPE_EXPR := true], map[], map[], [],
                       Tally(map[], map[]), Tally(map[], map[]), Tally(map[], map[]),
                       map[], map[], map[], map[], map[], map[], map[], map[], 0),
              map[], [], []).Failure?
  {
  }

  /** `initGeneratorOptions` without the file: UNTYPE_EXPR starts disabled unless decided. */
  function InitGeneratorOptions(fb: Feedback): (r: Feedback)
    ensures UNTYPE_EXPR in r.nodeOptions
    ensures UNTYPE_EXPR !in fb.nodeOptions ==> !r.nodeOptions[UNTYPE_EXPR]
    ensures forall n :: n in fb.nodeOptions ==> n in r.nodeOptions && r.nodeOptions[n] == fb.nodeOptions[n]
  {
    fb.(nodeOptions := SetIfAbsent(fb.nodeOptions, UNTYPE_EXPR, false))
  }

  /** The constructor: a fresh session; the shared options are initialised by the
      first session only. */
  function NewHandler(fb: Feedback): (r: (Handler, Feedback))
    ensures r.0.table == [] && r.0.current == NewRecord
    ensures r.0.runNodes.success == map[] && r.0.runComposites.count == map[]
    ensures |fb.nodeOptions| > 0 ==> r.1 == fb
    ensures |fb.nodeOptions| == 0 ==> r.1.nodeOptions == map[UNTYPE_EXPR := false]
  {
    var h := Handler(NewRecord, [], EmptyTallies.0, EmptyTallies.1, EmptyTallies.2);
    (h, if |fb.nodeOptions| == 0 then InitGeneratorOptions(fb) else fb)
  }

  /** `checkFragmentAvailability`: the choice's name is not on the disabled list.
      Only validated choices are ever checked, and those always have a name
      (`AcceptedHasName`). */
  predicate FragmentAvailable(disabled: seq<string>, c: FragmentChoice) {
    !(FragmentName(c).Some? && FragmentName(c).value in disabled)
  }

  // ---------------------------------------------------------------------------
  // Recording executions

  /** `setExample`: every feature of the record without an example gets `sql`;
      existing examples are never overwritten. */
  function SetExample(fb: Feedback, rec: Record, sql: string): (r: Feedback)
    ensures r.nodeExamples.Keys == fb.nodeExamples.Keys + rec.nodes.Keys
    ensures forall n :: n in fb.nodeExamples ==> r.nodeExamples[n] == fb.nodeExamples[n]
    ensures forall n :: n in rec.nodes && n !in fb.nodeExamples ==> r.nodeExamples[n] == sql
    ensures r.compositeExamples.Keys == fb.compositeExamples.Keys + rec.composites.Keys
    ensures forall k :: k in fb.compositeExamples ==> r.compositeExamples[k] == fb.compositeExamples[k]
    ensures forall k :: k in rec.composites && k !in fb.compositeExamples ==> r.compositeExamples[k] == sql
    ensures r.fragmentExamples.Keys == fb.fragmentExamples.Keys + rec.fragments.Keys
    ensures forall c :: c in fb.fragmentExamples ==> r.fragmentExamples[c] == fb.fragmentExamples[c]
    ensures forall c :: c in rec.fragments && c !in fb.fragmentExamples ==> r.fragmentExamples[c] == sql
    ensures r.nodeOptions == fb.nodeOptions && r.history == fb.history
  {
    fb.(nodeExamples := (map n | n in rec.nodes.Keys :: sql) + fb.nodeExamples,
        compositeExamples := (map k | k in rec.composites.Keys :: sql) + fb.compositeExamples,
        fragmentExamples := (map c | c in rec.fragments.Keys :: sql) + fb.fragmentExamples)
  }

  /** `appendScoreToTable`: the record being filled is closed with the execution's
      outcome, appended to the table and replaced by an empty one; a successful
      execution with SQL text (the three-argument form) also donates examples. */
  function AppendScoreToTable(h: Handler, fb: Feedback, status: bool, isQuery: bool, sql: Option<string>)
    : (r: (Handler, Feedback))
    ensures r.0.table == h.table + [h.current.(status := status, isQuery := isQuery)]
    ensures r.0.current == NewRecord
    ensures r.0.runNodes == h.runNodes && r.0.runComposites == h.runComposites
    ensures r.0.runFragments == h.runFragments
    ensures !(status && sql.Some?) ==> r.1 == fb
    ensures status && sql.Some? ==> r.1 == SetExample(fb, h.current, sql.value)
  {
    var fb' := if status && sql.Some? then SetExample(fb, h.current, sql.value) else fb;
    (h.(table := h.table + [h.current.(status := status, isQuery := isQuery)], current := NewRecord), fb')
  }

  /** The latest finished record; reading it from an empty table throws. */
  function LastRecord(h: Handler): (r: Result<Record>)
    ensures r.Success? <==> |h.table| > 0
    ensures r.Success? ==> r.value == h.table[|h.table| - 1]
  {
    if |h.table| == 0 then Failure(OutOfRange) else Success(h.table[|h.table| - 1])
  }

  /** `appendHistory`: the latest record is remembered as the database's bug record. */
  function AppendHistory(h: Handler, fb: Feedback, database: string): (r: Result<Feedback>)
    ensures r.Success? <==> |h.table| > 0
    ensures r.Success? ==> r.value.history == fb.history[database := h.table[|h.table| - 1]]
  {
    var last :- LastRecord(h);
    Success(fb.(history := fb.history[database := last]))
  }

  // ---------------------------------------------------------------------------
  // Deduplication

  /** The record's node set without the meta node UNTYPE_EXPR. */
  function PlainNodes(r: Record): set<Node> {
    r.nodes.Keys - {UNTYPE_EXPR}
  }

  /** The function features (`FUNCTION...` composites) of a record. */
  function FunctionFeatures(r: Record): set<string> {
    set k | k in r.composites.Keys && StartsWith(k, "FUNCTION")
  }

  /** Rule 1: both records used nothing but constants. */
  predicate ConstantOnlyMatch(cur: Record, prior: Record) {
    PlainNodes(prior) == {} && PlainNodes(cur) == {}
  }

  /** Rules 2 to 4, which apply only to a remembered record with some node:
      its nodes are all in the new record, or the two share a fragment choice or a
      function feature. */
  predicate FeatureMatch(cur: Record, prior: Record) {
    PlainNodes(prior) != {} &&
    (PlainNodes(prior) <= PlainNodes(cur)
     || (exists c :: c in cur.fragments && c in prior.fragments)
     || (exists f :: f in FunctionFeatures(cur) && f in prior.composites))
  }

  /** A remembered record of the same outcome that the new one duplicates. */
  predicate DuplicateOf(cur: Record, prior: Record) {
    cur.status == prior.status && (ConstantOnlyMatch(cur, prior) || FeatureMatch(cur, prior))
  }

  datatype Verdict = NotDuplicate | Duplicate | SkipTest

  /** The scan of `checkIfDuplicate` over the remembered records in iteration order:
      the first remembered record the new one duplicates decides. A duplicate found by
      the feature rules on a failed execution skips the test case. */
  function ScanHistory(cur: Record, history: seq<Record>): (v: Verdict)
    ensures v != NotDuplicate <==> exists i :: 0 <= i < |history| && DuplicateOf(cur, history[i])
    ensures v == SkipTest ==> !cur.status
    ensures v == SkipTest <==> exists i :: 0 <= i < |history| && FeatureMatch(cur, history[i])
                                  && cur.status == history[i].status && !cur.status
                                  && forall j :: 0 <= j < i ==> !DuplicateOf(cur, history[j])
  {
    if |history| == 0 then NotDuplicate
    else
      var prior := history[0];
      var rest := ScanHistory(cur, history[1..]);
      assert forall i :: 1 <= i < |history| ==> history[i] == history[1..][i - 1];
      if cur.status != prior.status then rest
      else if PlainNodes(prior) == {} then
        if PlainNodes(cur) == {} then Duplicate else rest
      else if FeatureMatch(cur, prior) then
        if !cur.status then SkipTest else Duplicate
      else rest
  }

  /** `checkIfDuplicate`: compare the latest record with every remembered bug record
      (in the map's iteration order). An empty table throws. */
  function CheckIfDuplicate(h: Handler, fb: Feedback, order: seq<string>): (r: Result<bool>)
    requires Enumerates(order, fb.history.Keys)
    ensures r.Success? ==> |h.table| > 0
    ensures |h.table| > 0 && r.Success? ==>
              (r.value <==> exists i :: 0 <= i < |order| && DuplicateOf(h.table[|h.table| - 1], fb.history[order[i]]))
    ensures r.Failure? && |h.table| > 0 ==> r.error == Ignore && !h.table[|h.table| - 1].status
  {
    var cur :- LastRecord(h);
    var hist := seq(|order|, i requires 0 <= i < |order| => fb.history[order[i]]);
    assert forall i :: 0 <= i < |order| ==> hist[i] == fb.history[order[i]];
    match ScanHistory(cur, hist)
    case NotDuplicate => Success(false)
    case Duplicate => Success(true)
    case SkipTest => Failure(Ignore)
  }

  /** A bug whose record is already remembered is always recognised again. */
  lemma RememberedIsDuplicate(cur: Record, history: seq<Record>, i: nat)
    requires i < |history| && history[i] == cur
    ensures ScanHistory(cur, history) != NotDuplicate
  {
    if PlainNodes(cur) == {} {
      assert ConstantOnlyMatch(cur, history[i]);
    } else {
      assert FeatureMatch(cur, history[i]);
    }
    assert DuplicateOf(cur, history[i]);
  }

  // ---------------------------------------------------------------------------
  // Expression depth per database

  /** `databaseName.split("_")[0]`: the text before the first underscore; a name of
      underscores only splits into nothing and indexing it throws. */
  function DatabaseKey(name: string): (r: Result<string>)
    ensures r.Success? ==> r.value == name[..IndexOf(name, '_')]
    ensures r.Failure? <==> name != "" && forall i :: 0 <= i < |name| ==> name[i] == '_'
  {
    var parts := Split(name, '_');
    if |parts| == 0 then Failure(OutOfRange) else Success(parts[0])
  }

  /** `getCurDepth`: the stored depth, 1 for a database not seen yet. */
  function CurDepth(fb: Feedback, name: string): Result<int> {
    var key :- DatabaseKey(name);
    Success(if key in fb.depth then fb.depth[key] else 1)
  }

  /** `setCurDepth`: it throws exactly where `getCurDepth` does, and only databases
      sharing the key before the first underscore see the new depth. */
  function SetCurDepth(fb: Feedback, name: string, d: int): (r: Result<Feedback>)
    ensures r.Success? <==> DatabaseKey(name).Success?
    ensures r.Success? ==> CurDepth(r.value, name) == Success(d)
    ensures r.Success? ==> r.value.(depth := fb.depth) == fb
    ensures r.Success? ==> forall other :: DatabaseKey(other).Success? && DatabaseKey(other) != DatabaseKey(name)
                                           ==> CurDepth(r.value, other) == CurDepth(fb, other)
  {
    var key :- DatabaseKey(name);
    Success(fb.(depth := fb.depth[key := d]))
  }

  /** `incrementCurDepth`: an unseen database starts at 2, a seen one goes up by one;
      either way the observed depth rises by exactly one, and only databases sharing
      the key before the first underscore are affected. */
  function IncrementCurDepth(fb: Feedback, name: string): (r: Result<Feedback>)
    ensures r.Success? <==> CurDepth(fb, name).Success?
    ensures r.Success? ==> CurDepth(r.value, name) == Success(CurDepth(fb, name).value + 1)
    ensures r.Success? ==> r.value.(depth := fb.depth) == fb
    ensures r.Success? ==> forall other :: DatabaseKey(other).Success? && DatabaseKey(other) != DatabaseKey(name)
                                           ==> CurDepth(r.value, other) == CurDepth(fb, other)
  {
    var key :- DatabaseKey(name);
    Success(fb.(depth := fb.depth[key := if key in fb.depth then fb.depth[key] + 1 else 2]))
  }
}
