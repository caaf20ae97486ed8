/** Generation of learned commands (`GeneralStatementGenerator`): statements
    that are neither table nor index DDL, such as settings, ANALYZE or DML on one
    table, learned as fragments of three holes. In learn mode the statement is a
    fixed script whose holes 0, 1 and 2 show as placeholders; otherwise it is one
    learned fragment and `;`, and nothing at all when the fragment is empty. The
    builder never skips a hole. */
module StatementGen {
  import opened Base
  import opened Text
  import opened Features
  import opened Controller
  import opened Fragments
  import opened Builder
  import opened Session
  import opened Queries

  /** The draws of one `getQuery`: the hole outside learn mode, and the hole
      draws in statement order. */
  datatype StatementDraws = StatementDraws(option: nat, holes: seq<HoleDraw>)

  /** What `getQuery` gives: no statement (`null`) or one, and the session state
      generation left behind. */
  datatype Command = Command(query: Option<Query>, st: GlobalState)

  // ---------------------------------------------------------------------------
  // Skeletons

  /** The hole indices of a skeleton, in order. */
  function HoleIndices(parts: seq<Part>): (r: seq<nat>)
    ensures |r| == HoleCount(parts)
  {
    if |parts| == 0 then []
    else (if parts[0].Hole? then [parts[0].index] else []) + HoleIndices(parts[1..])
  }

  /** Hole indices of concatenated skeletons. */
  lemma {:induction false} HoleIndicesAppend(a: seq<Part>, b: seq<Part>)
    ensures HoleIndices(a + b) == HoleIndices(a) + HoleIndices(b)
  {
    if |a| > 0 {
      assert (a + b)[1..] == a[1..] + b;
      assert (a + b)[0] == a[0];
      HoleIndicesAppend(a[1..], b);
    } else {
      assert a + b == b;
    }
  }

  const Setup := "CREATE TABLE TEST_TABLE (TEST_COLUMN INT);\n"
  const Insert := "INSERT INTO TEST_TABLE VALUES (1);\n"
  const Concrete := "; -- SQL command with concrete string representation\n"
  const OneTable := "; -- SQL command operating on one table\n"
  const Configuration := "; -- Cofiguration SQL statements for query execution and optimization\n"
  const Select := "SELECT * FROM TEST_TABLE;\n"

  /** A script of six texts with holes 0, 1 and 2 after the second, third and
      fourth. */
  function Script(a: string, b: string, c: string, d: string, e: string, f: string): (r: seq<Part>)
    ensures |r| == 9
  {
    [Lit(a)] + ([Lit(b)] + ([Hole(0)] + ([Lit(c)] + ([Hole(1)] + ([Lit(d)] + ([Hole(2)] + ([Lit(e)] + [Lit(f)])))))))
  }

  /** The hole indices and the sketch of a part followed by more parts. */
  lemma Cons(p: Part, rest: seq<Part>)
    ensures HoleIndices([p] + rest) == (if p.Hole? then [p.index] else []) + HoleIndices(rest)
    ensures Sketch([p] + rest) == SketchOf(p) + Sketch(rest)
  {
    assert ([p] + rest)[0] == p && ([p] + rest)[1..] == rest;
  }

  /** Such a script has holes 0, 1 and 2, in that order. */
  lemma ScriptHoles(a: string, b: string, c: string, d: string, e: string, f: string)
    ensures HoleIndices(Script(a, b, c, d, e, f)) == [0, 1, 2] && HoleCount(Script(a, b, c, d, e, f)) == 3
  {
    var s8 := [Lit(f)];
    var s7 := [Lit(e)] + s8;
    var s6 := [Hole(2)] + s7;
    var s5 := [Lit(d)] + s6;
    var s4 := [Hole(1)] + s5;
    var s3 := [Lit(c)] + s4;
    var s2 := [Hole(0)] + s3;
    var s1 := [Lit(b)] + s2;
    assert HoleIndices(s8) == [] by { assert s8[1..] == []; }
    Cons(Lit(e), s8);
    Cons(Hole(2), s7);
    Cons(Lit(d), s6);
    Cons(Hole(1), s5);
    Cons(Lit(c), s4);
    Cons(Hole(0), s3);
    Cons(Lit(b), s2);
    Cons(Lit(a), s1);
  }

  /** The placeholders of holes 0, 1 and 2. */
  lemma SmallPlaceHolders()
    ensures PlaceHolder(0) == "{0}" && PlaceHolder(1) == "{1}" && PlaceHolder(2) == "{2}"
  {
    assert NatToString(0) == "0" && NatToString(1) == "1" && NatToString(2) == "2";
    assert IntToString(0) == "0" && IntToString(1) == "1" && IntToString(2) == "2";
    assert "{" + "0" + "}" == "{0}" && "{" + "1" + "}" == "{1}" && "{" + "2" + "}" == "{2}";
  }

  /** The sketch of such a script: the texts with the placeholders of holes 0, 1
      and 2 between them. */
  lemma ScriptSketch(a: string, b: string, c: string, d: string, e: string, f: string)
    ensures Sketch(Script(a, b, c, d, e, f))
            == a + (b + (PlaceHolder(0) + (c + (PlaceHolder(1) + (d + (PlaceHolder(2) + (e + f)))))))
  {
    var s8 := [Lit(f)];
    var s7 := [Lit(e)] + s8;
    var s6 := [Hole(2)] + s7;
    var s5 := [Lit(d)] + s6;
    var s4 := [Hole(1)] + s5;
    var s3 := [Lit(c)] + s4;
    var s2 := [Hole(0)] + s3;
    var s1 := [Lit(b)] + s2;
    assert Sketch(s8) == f by { assert s8[1..] == []; assert f + "" == f; }
    Cons(Lit(e), s8);
    Cons(Hole(2), s7);
    Cons(Lit(d), s6);
    Cons(Hole(1), s5);
    Cons(Lit(c), s4);
    Cons(Hole(0), s3);
    Cons(Lit(b), s2);
    Cons(Lit(a), s1);
  }

  /** The learn-mode script: a table with one row, hole 0 for commands with
      concrete text, hole 1 for commands on one table, hole 2 for configuration
      statements, and a query of the table. (`append("", i)` is the hole alone.) */
  function LearnSkeleton(): (r: seq<Part>)
    ensures |r| == 9
  {
    Script(Setup, Insert, Concrete, OneTable, Configuration, Select)
  }

  /** The learn-mode script has holes 0, 1 and 2, in that order. */
  lemma LearnHoles()
    ensures HoleIndices(LearnSkeleton()) == [0, 1, 2] && HoleCount(LearnSkeleton()) == 3
  {
    ScriptHoles(Setup, Insert, Concrete, OneTable, Configuration, Select);
  }

  /** The learn-mode script as the learner sees it, holes as placeholders. */
  const LearnText := Setup + (Insert + ("{0}" + (Concrete + ("{1}" + (OneTable + ("{2}" + (Configuration + Select)))))))

  /** The sketch of the learn-mode script is that text. */
  lemma LearnSketchText()
    ensures Sketch(LearnSkeleton()) == LearnText
  {
    ScriptSketch(Setup, Insert, Concrete, OneTable, Configuration, Select);
    SmallPlaceHolders();
  }

  /** Outside learn mode: hole `option`, then `;`. */
  function CommandSkeleton(option: nat): (r: seq<Part>)
    ensures HoleCount(r) == 1 && HoleIndices(r) == [option]
  {
    var r := [Hole(option), Lit(";")];
    assert r[1..] == [Lit(";")] && r[1..][1..] == [];
    assert HoleCount(r[1..]) == 0 && HoleIndices(r[1..]) == [];
    r
  }

  /** `getInteger(0, 2)`: the hole used outside learn mode. */
  function HoleOf(d: StatementDraws): (r: nat)
    ensures r < 2
  {
    Session.Draw(0, 2, d.option)
  }

  // ---------------------------------------------------------------------------
  // getQuery

  /** The skeleton `getQuery` emits. */
  function SkeletonOf(learn: bool, d: StatementDraws): seq<Part> {
    if learn then LearnSkeleton() else CommandSkeleton(HoleOf(d))
  }

  /** The builder of `getQuery` (never skipping a hole) after emitting the
      skeleton. */
  function Printed(st: GlobalState, ctx: Context, d: StatementDraws): (r: Result<Emitted>)
    requires Session.Valid(st)
    ensures r.Success? <==> HoleCount(SkeletonOf(st.statementFragments.learn, d)) <= |d.holes|
    ensures r.Success? ==> !r.value.b.couldRandom
    ensures r.Success? ==> r.value.rec.nodes == st.handler.current.nodes
                           && r.value.rec.composites == st.handler.current.composites
  {
    Emit(NewBuilderWith(false), st.handler.current, SkeletonOf(st.statementFragments.learn, d),
         st.statementFragments, d.holes, ctx.value, st.objects)
  }

  /** `getQuery`. Only the expression errors are expected and the statement never
      changes the schema; a statement that is just `;` is not returned. Only the
      record moves: by the fragment choice drawn, if any. */
  function GetQuery(st: GlobalState, ctx: Context, d: StatementDraws): (r: Result<Command>)
    requires Session.Valid(st)
    ensures r.Success? <==> HoleCount(SkeletonOf(st.statementFragments.learn, d)) <= |d.holes|
    ensures r.Success? ==> r.value.st == st.(handler := st.handler.(current := r.value.st.handler.current))
    ensures r.Success? ==> r.value.st.handler.current.nodes == st.handler.current.nodes
                           && r.value.st.handler.current.composites == st.handler.current.composites
    ensures r.Success? ==> Session.Valid(r.value.st)
    ensures r.Success? && r.value.query.Some? ==>
              var q := r.value.query.value;
              q.sql != ";" && q.errors == ExpressionErrors && !q.couldAffectSchema
  {
    match Printed(st, ctx, d)
    case Failure(e) => Failure(e)
    case Success(e) =>
      var st' := st.(handler := st.handler.(current := e.rec));
      if e.b.text == ";" then Success(Command(None, st'))
      else Success(Command(Some(Query(e.b.text, ExpressionErrors, false)), st'))
  }

  /** In learn mode, with plain stand-ins, the statement is the script with the
      placeholders `{0}`, `{1}` and `{2}`, and nothing is recorded. */
  lemma LearnQuery(st: GlobalState, ctx: Context, d: StatementDraws)
    requires Session.Valid(st) && st.statementFragments.learn && PlainStandIns(st.objects) && 3 <= |d.holes|
    ensures GetQuery(st, ctx, d) == Success(Command(Some(Query(LearnText, ExpressionErrors, false)), st))
  {
    LearnHoles();
    EmitSketch(NewBuilderWith(false), st.handler.current, LearnSkeleton(), st.statementFragments, d.holes, ctx.value,
               st.objects);
    LearnSketchText();
    var e := Printed(st, ctx, d).value;
    assert e.b.text == LearnText && e.rec == st.handler.current;
    assert LearnText != ";" by {
      assert LearnText[0] == Setup[0] == 'C';
    }
    assert st.(handler := st.handler.(current := e.rec)) == st;
  }

  /** Outside learn mode the builder prints the fragment `get` hands out for hole
      0 or 1, after test-object substitution, then `;`, and records what `get`
      records. */
  lemma CommandText(st: GlobalState, ctx: Context, d: StatementDraws)
    requires Session.Valid(st) && !st.statementFragments.learn && 1 <= |d.holes|
    ensures var got := Get(st.statementFragments, HoleOf(d), d.holes[0].pick, ctx.value, st.handler.current);
            var e := Printed(st, ctx, d).value;
            && e.b.text == ReplaceTestObject(got.0, st.objects) + ";"
            && e.rec == got.1
  {
    var parts := CommandSkeleton(HoleOf(d));
    var b0 := NewBuilderWith(false);
    var store := st.statementFragments;
    var h := AppendHole(b0, "", HoleOf(d), store, d.holes[0].coin, d.holes[0].pick, ctx.value, st.handler.current,
                        st.objects);
    assert parts[1..] == [Lit(";")];
    assert parts[1..][1..] == [];
    assert h.0.text == ReplaceTestObject(Get(store, HoleOf(d), d.holes[0].pick, ctx.value, st.handler.current).0,
                                         st.objects);
  }

  /** Outside learn mode no statement is returned exactly when the fragment drawn
      is empty after substitution. */
  lemma NoCommandIffEmpty(st: GlobalState, ctx: Context, d: StatementDraws)
    requires Session.Valid(st) && !st.statementFragments.learn && 1 <= |d.holes|
    ensures var got := Get(st.statementFragments, HoleOf(d), d.holes[0].pick, ctx.value, st.handler.current);
            var r := GetQuery(st, ctx, d).value;
            && (r.query.None? <==> ReplaceTestObject(got.0, st.objects) == "")
            && (r.query.Some? ==> r.query.value.sql == ReplaceTestObject(got.0, st.objects) + ";")
            && r.st.handler.current == got.1
  {
    CommandText(st, ctx, d);
    var got := Get(st.statementFragments, HoleOf(d), d.holes[0].pick, ctx.value, st.handler.current);
    var s := ReplaceTestObject(got.0, st.objects);
    if s + ";" == ";" {
      assert |s| == 0;
    }
  }

  /** A hole without learned commands gives no statement and records nothing. */
  lemma EmptyHoleGivesNothing(st: GlobalState, ctx: Context, d: StatementDraws)
    requires Session.Valid(st) && !st.statementFragments.learn && 1 <= |d.holes| && PlainStandIns(st.objects)
    requires |Choices(st.statementFragments.fragments, IntToString(HoleOf(d)))| == 0
    ensures GetQuery(st, ctx, d) == Success(Command(None, st))
  {
    NoCommandIffEmpty(st, ctx, d);
    ReplaceTestObjectAbsent("", st.objects);
    assert st.(handler := st.handler.(current := st.handler.current)) == st;
  }

  // ---------------------------------------------------------------------------
  // Validation and loading

  /** `genValStatements`: a learned command is validated by no statement at all,
      whatever its hole and text. */
  function ValStatements(key: string, choice: string): (r: seq<string>)
    ensures |r| == 0
  {
    []
  }

  /** `validateFragment` of the statement family: a template that mentions
      CREATE, DROP or ALTER is rejected as DDL before any other check, and leaves
      its key's choices as they were; any other family never rejects a template
      as DDL. */
  lemma DdlRejected(s: Store, disabled: seq<string>, key: string, fmt: string, vars: seq<FragmentVar>)
    ensures var r := AddFragment(s, disabled, key, fmt, vars);
            s.family == Statement && !HasFormat(s.fragments, key, Trim(fmt)) && HasDdl(Trim(fmt)) ==>
              r.1 == Invalid(DdlFragment) && r.0.fragments[key] == Choices(s.fragments, key)
    ensures s.family != Statement ==> AddFragment(s, disabled, key, fmt, vars).1 != Invalid(DdlFragment)
  {
  }

  /** A statement template without DDL is judged like any numbered one: only its
      format and the disabled list decide. */
  lemma DdlFreeLikeNumbered(s: Store, disabled: seq<string>, key: string, fmt: string, vars: seq<FragmentVar>)
    requires s.family == Statement && !HasDdl(Trim(fmt))
    ensures AddFragment(s, disabled, key, fmt, vars).1 == AddFragment(s.(family := Numbered), disabled, key, fmt, vars).1
  {
  }
}
