/** What the statement generators share: the query they hand to the session, the
    sketch a generator prints in learn mode and the substitution that turns a
    sketch into the validation statement for one learned fragment, the random
    choice of a target table and of a column subset, and the test-object names. */
module Queries {
  import opened Base
  import opened Text
  import opened Features
  import opened Controller
  import opened Fragments
  import opened Builder
  import opened Types
  import opened Schema
  import opened Session

  // ---------------------------------------------------------------------------
  // Queries

  /** `ExpectedErrors` as the generators fill it: the catch-all pattern `.*`, the
      literal messages, and whether the shared expression or insert error lists
      were added (their contents are not part of this model). */
  datatype Errors = Errors(anything: bool, messages: seq<string>, expression: bool, insert: bool)

  const NoErrors: Errors := Errors(false, [], false, false)

  /** The errors of a statement whose only expected errors are the shared
      expression errors. */
  const ExpressionErrors: Errors := Errors(false, [], true, false)

  /** The errors of a statement whose only expected errors are the shared insert
      errors. */
  const InsertErrors: Errors := Errors(false, [], false, true)

  /** `SQLQueryAdapter`: the statement text, the errors that do not count as bugs,
      and whether a successful run may change the schema. */
  datatype Query = Query(sql: string, errors: Errors, couldAffectSchema: bool)

  /** A generated statement with the session state generation left behind. */
  datatype Step = Step(query: Query, st: GlobalState)

  /** What a generator reads from the session besides its state: the database
      name and table delimiter, whether indexes are tested, the static weights of
      the primitive types, the current topic, and the text each fragment variable
      renders to. */
  datatype Context = Context(
    database: string,
    delim: string,
    testIndexes: bool,
    weights: seq<DataType>,
    topic: Option<string>,
    value: FragmentVar -> string)

  /** The draw for one `append(obj, index)`: the coin that decides whether the
      hole is taken, and the position of the fragment handed out. */
  datatype HoleDraw = HoleDraw(coin: bool, pick: nat)

  /** The name a new table or view gets: the free name alone when every test case
      gets its own database, else prefixed by the database name and delimiter. */
  function Qualified(opts: map<Node, bool>, ctx: Context, free: string): (r: string)
    ensures Enabled(opts, CREATE_DATABASE) ==> r == free
    ensures !Enabled(opts, CREATE_DATABASE) ==> r == ctx.database + ctx.delim + free
  {
    if Enabled(opts, CREATE_DATABASE) then free else ctx.database + ctx.delim + free
  }

  // ---------------------------------------------------------------------------
  // Sketches

  /** A statement skeleton: literal text and numbered holes. */
  datatype Part = Lit(text: string) | Hole(index: nat)

  /** The text of a part in learn mode: a hole prints its placeholder `{i}`. */
  function SketchOf(p: Part): string {
    match p
    case Lit(s) => s
    case Hole(i) => PlaceHolder(i)
  }

  /** The learn-mode statement: the parts in order, holes as placeholders. */
  function Sketch(parts: seq<Part>): string {
    if |parts| == 0 then "" else SketchOf(parts[0]) + Sketch(parts[1..])
  }

  /** The text of a part in the validation statement for fragment `choice` of hole
      `key`: that hole shows the choice, every other hole vanishes. */
  function ValidationOf(p: Part, key: string, choice: string): string {
    match p
    case Lit(s) => s
    case Hole(i) => if NatToString(i) == key then choice else ""
  }

  /** The validation statement of a skeleton. */
  function Validation(parts: seq<Part>, key: string, choice: string): string {
    if |parts| == 0 then "" else ValidationOf(parts[0], key, choice) + Validation(parts[1..], key, choice)
  }

  /** The skeleton with every hole left empty: the statement when no hole is taken. */
  function Bare(parts: seq<Part>): string {
    if |parts| == 0 then "" else BareOf(parts[0]) + Bare(parts[1..])
  }

  /** The literal text of a part; a hole has none. */
  function BareOf(p: Part): string {
    if p.Lit? then p.text else ""
  }

  /** No literal text contains `{`, so every `{` of the sketch opens a placeholder. */
  predicate Literal(parts: seq<Part>) {
    forall i :: 0 <= i < |parts| ==> parts[i].Lit? ==> '{' !in parts[i].text
  }

  /** Sketches of consecutive skeletons concatenate. */
  lemma {:induction false} SketchAppend(a: seq<Part>, b: seq<Part>)
    ensures Sketch(a + b) == Sketch(a) + Sketch(b)
  {
    if |a| > 0 {
      var x := SketchOf(a[0]);
      assert (a + b)[1..] == a[1..] + b;
      assert (a + b)[0] == a[0];
      assert Sketch(a + b) == x + Sketch(a[1..] + b);
      SketchAppend(a[1..], b);
      assert x + (Sketch(a[1..]) + Sketch(b)) == (x + Sketch(a[1..])) + Sketch(b);
    } else {
      assert a + b == b;
    }
  }

  /** Bare skeletons of consecutive skeletons concatenate. */
  lemma {:induction false} BareAppend(a: seq<Part>, b: seq<Part>)
    ensures Bare(a + b) == Bare(a) + Bare(b)
  {
    if |a| > 0 {
      var x := BareOf(a[0]);
      assert (a + b)[1..] == a[1..] + b;
      assert (a + b)[0] == a[0];
      assert Bare(a + b) == x + Bare(a[1..] + b);
      BareAppend(a[1..], b);
      assert x + (Bare(a[1..]) + Bare(b)) == (x + Bare(a[1..])) + Bare(b);
    } else {
      assert a + b == b;
    }
  }

  // ---------------------------------------------------------------------------
  // Filling sketch holes (genValStatements of the table and index fragments)

  /** The number of decimal digits `s` starts with. */
  function DigitPrefix(s: string): (n: nat)
    ensures n <= |s|
    ensures forall i :: 0 <= i < n ==> IsDigit(s[i])
    ensures n < |s| ==> !IsDigit(s[n])
  {
    if |s| > 0 && IsDigit(s[0]) then 1 + DigitPrefix(s[1..]) else 0
  }

  /** The pattern `\{(\d+)\}` matches at the start of `s`. */
  predicate HoleAt(s: string) {
    |s| > 0 && s[0] == '{' && 0 < DigitPrefix(s[1..]) && DigitPrefix(s[1..]) + 1 < |s|
    && s[DigitPrefix(s[1..]) + 1] == '}'
  }

  /** The corrected substitution: scanning left to right, every match of
      `\{(\d+)\}` whose digits are `key` becomes `choice` and every other match
      becomes empty; the rest of the text is kept. The choice is inserted
      literally. */
  function FillHoles(s: string, key: string, choice: string): (r: string)
    ensures '{' !in s ==> r == s
    decreases |s|
  {
    if |s| == 0 then ""
    else if HoleAt(s) then
      var n := DigitPrefix(s[1..]);
      (if s[1..n + 1] == key then choice else "") + FillHoles(s[n + 2..], key, choice)
    else
      assert '{' !in s ==> '{' !in s[1..];
      [s[0]] + FillHoles(s[1..], key, choice)
  }

  /** `prefix` in front of a successful result. */
  function Then(prefix: string, rest: Result<string>): (r: Result<string>)
    ensures r.Success? <==> rest.Success?
    ensures r.Success? ==> r.value == prefix + rest.value
  {
    match rest
    case Success(t) => Success(prefix + t)
    case Failure(e) => Failure(e)
  }

  /** The number of `0` characters `s` starts with. */
  function Zeros(s: string): (n: nat)
    ensures n <= |s|
    ensures forall i :: 0 <= i < n ==> s[i] == '0'
    ensures n < |s| ==> s[n] != '0'
  {
    if |s| > 0 && s[0] == '0' then 1 + Zeros(s[1..]) else 0
  }

  /** The replacement text `Matcher.appendReplacement` writes for a match of a
      pattern with one group: a backslash makes the next character literal; `$`
      names a group by the longest digit run that is still a group number, so `$0`
      (and `$00`…) is the whole match, `$1` (and `$01`…) the group; a trailing
      backslash or `$`, a `$` before a non-digit, and a group number above 1 throw. */
  function Expand(rep: string, whole: string, group: string): (r: Result<string>)
    ensures r.Failure? ==> r.error == BadReplacement
    decreases |rep|
  {
    if |rep| == 0 then Success("")
    else if rep[0] == '\\' then
      if |rep| == 1 then Failure(BadReplacement) else Then([rep[1]], Expand(rep[2..], whole, group))
    else if rep[0] == '$' then
      if |rep| == 1 || !IsDigit(rep[1]) || rep[1] > '1' then Failure(BadReplacement)
      else if rep[1] == '1' then Then(group, Expand(rep[2..], whole, group))
      else
        var z := Zeros(rep[1..]);
        if z + 1 < |rep| && rep[z + 1] == '1' then Then(group, Expand(rep[z + 2..], whole, group))
        else Then(whole, Expand(rep[z + 1..], whole, group))
    else Then([rep[0]], Expand(rep[1..], whole, group))
  }

  /** The substitution as written: the choice goes through `appendReplacement`,
      which interprets `$` and backslashes in it (and may throw). */
  function FillHolesAsWritten(s: string, key: string, choice: string): (r: Result<string>)
    ensures r.Failure? ==> r.error == BadReplacement
    decreases |s|
  {
    if |s| == 0 then Success("")
    else if HoleAt(s) then
      var n := DigitPrefix(s[1..]);
      var rep := if s[1..n + 1] == key then choice else "";
      match Expand(rep, s[..n + 2], s[1..n + 1])
      case Failure(e) => Failure(e)
      case Success(t) => Then(t, FillHolesAsWritten(s[n + 2..], key, choice))
    else Then([s[0]], FillHolesAsWritten(s[1..], key, choice))
  }

  /** A replacement without `$` or backslash is copied as it is. */
  lemma {:induction false} ExpandPlain(rep: string, whole: string, group: string)
    requires '$' !in rep && '\\' !in rep
    ensures Expand(rep, whole, group) == Success(rep)
    decreases |rep|
  {
    if |rep| > 0 {
      assert '$' !in rep[1..] && '\\' !in rep[1..];
      ExpandPlain(rep[1..], whole, group);
      assert [rep[0]] + rep[1..] == rep;
    }
  }

  /** For a choice without `$` or backslash the code as written computes the
      corrected substitution. */
  lemma {:induction false} FillHolesAsWrittenAgrees(s: string, key: string, choice: string)
    requires '$' !in choice && '\\' !in choice
    ensures FillHolesAsWritten(s, key, choice) == Success(FillHoles(s, key, choice))
    decreases |s|
  {
    if |s| > 0 {
      if HoleAt(s) {
        var n := DigitPrefix(s[1..]);
        var rep := if s[1..n + 1] == key then choice else "";
        ExpandPlain(rep, s[..n + 2], s[1..n + 1]);
        FillHolesAsWrittenAgrees(s[n + 2..], key, choice);
      } else {
        FillHolesAsWrittenAgrees(s[1..], key, choice);
      }
    }
  }

  /** A learned fragment `$1` for hole 0 of the sketch `{0}` validates as the
      hole's own number instead of the fragment. */
  lemma GroupReferenceReplacesFragment()
    ensures FillHolesAsWritten("{0}", "0", "$1") == Success("0")
    ensures FillHoles("{0}", "0", "$1") == "$1"
  {
    var s := "{0}";
    assert DigitPrefix(s[1..]) == 1 by {
      assert s[1..][1..] == "}";
      assert DigitPrefix("}") == 0;
    }
    assert HoleAt(s);
    assert s[1..2] == "0" && s[..3] == "{0}" && s[3..] == "";
    var rep := "$1";
    assert rep[2..] == "";
    assert Expand("", "{0}", "0") == Success("");
    assert Expand(rep, "{0}", "0") == Then("0", Success(""));
    assert "0" + "" == "0";
  }

  /** A fragment ending in `$` for the hole makes the substitution throw. */
  lemma TrailingDollarThrows()
    ensures FillHolesAsWritten("{0}", "0", "a$").Failure?
    ensures FillHoles("{0}", "0", "a$") == "a$"
  {
    var s := "{0}";
    assert DigitPrefix(s[1..]) == 1 by {
      assert s[1..][1..] == "}";
      assert DigitPrefix("}") == 0;
    }
    assert HoleAt(s);
    assert s[1..2] == "0" && s[..3] == "{0}" && s[3..] == "";
    var rep := "a$";
    assert rep[1..] == "$";
    assert Expand("$", "{0}", "0").Failure?;
  }

  /** Literal text without `{` passes through the substitution unchanged. */
  lemma {:induction false} FillLiteral(lit: string, rest: string, key: string, choice: string)
    requires '{' !in lit
    ensures FillHoles(lit + rest, key, choice) == lit + FillHoles(rest, key, choice)
    decreases |lit|
  {
    if |lit| > 0 {
      var s := lit + rest;
      assert s[0] == lit[0] && !HoleAt(s);
      assert s[1..] == lit[1..] + rest;
      FillLiteral(lit[1..], rest, key, choice);
      assert [lit[0]] + lit[1..] == lit;
    } else {
      assert lit + rest == rest;
    }
  }

  /** A placeholder is one match, filled by the choice exactly when its number is
      the key. */
  lemma FillPlaceholder(i: nat, rest: string, key: string, choice: string)
    ensures FillHoles(PlaceHolder(i) + rest, key, choice)
            == (if NatToString(i) == key then choice else "") + FillHoles(rest, key, choice)
  {
    var d := NatToString(i);
    var s := PlaceHolder(i) + rest;
    assert s == "{" + d + "}" + rest;
    assert s[1..] == d + ("}" + rest);
    DigitRun(d, "}" + rest);
    assert DigitPrefix(s[1..]) == |d|;
    assert HoleAt(s);
    assert s[1..|d| + 1] == d;
    assert s[|d| + 2..] == rest;
  }

  /** The digit run of `d + t` is `d` when `t` does not start with a digit. */
  lemma {:induction false} DigitRun(d: string, t: string)
    requires AllDigits(d) && |t| > 0 && !IsDigit(t[0])
    ensures DigitPrefix(d + t) == |d|
    decreases |d|
  {
    if |d| > 0 {
      assert (d + t)[1..] == d[1..] + t;
      DigitRun(d[1..], t);
    } else {
      assert d + t == t;
    }
  }

  /** The validation statement for hole `key` is the learn-mode sketch with that
      hole filled by the choice and every other hole emptied. */
  lemma {:induction false} SketchValidation(parts: seq<Part>, key: string, choice: string)
    requires Literal(parts)
    ensures FillHoles(Sketch(parts), key, choice) == Validation(parts, key, choice)
  {
    if |parts| > 0 {
      assert Literal(parts[1..]) by {
        forall i | 0 <= i < |parts[1..]| ensures parts[1..][i].Lit? ==> '{' !in parts[1..][i].text {
          assert parts[1..][i] == parts[i + 1];
        }
      }
      SketchValidation(parts[1..], key, choice);
      match parts[0]
      case Lit(s) => FillLiteral(s, Sketch(parts[1..]), key, choice);
      case Hole(i) => FillPlaceholder(i, Sketch(parts[1..]), key, choice);
    }
  }

  /** Validating with an empty choice gives the bare skeleton. */
  lemma {:induction false} EmptyChoiceIsBare(parts: seq<Part>, key: string)
    ensures Validation(parts, key, "") == Bare(parts)
  {
    if |parts| > 0 {
      EmptyChoiceIsBare(parts[1..], key);
    }
  }

  /** `genValStatements` of the table and index fragments: one statement, the
      current sketch with hole `key` filled. */
  function ValStatements(sketch: string, key: string, choice: string): (r: seq<string>)
    ensures |r| == 1
  {
    [FillHoles(sketch, key, choice)]
  }

  /** For a sketch printed from a skeleton, the one validation statement shows
      the choice in hole `key` and nothing in the other holes. */
  lemma ValStatementsOfSketch(parts: seq<Part>, key: string, choice: string)
    requires Literal(parts)
    ensures ValStatements(Sketch(parts), key, choice) == [Validation(parts, key, choice)]
  {
    SketchValidation(parts, key, choice);
  }

  // ---------------------------------------------------------------------------
  // Target tables and column subsets

  /** A table a data or index statement may target: not a view and, when asked,
      with at least one column. */
  predicate Target(t: Table, needColumns: bool) {
    !t.isView && (needColumns ==> |t.columns| > 0)
  }

  /** The eligible tables, in schema order. */
  function Targets(tables: seq<Table>, needColumns: bool): (r: seq<Table>)
    ensures forall t :: t in r <==> t in tables && Target(t, needColumns)
  {
    if |tables| == 0 then []
    else (if Target(tables[0], needColumns) then [tables[0]] else []) + Targets(tables[1..], needColumns)
  }

  /** `getRandomTable(predicate)`: one of the eligible tables; drawing from none
      throws. */
  function RandomTable(tables: seq<Table>, needColumns: bool, pick: nat): (r: Result<Table>)
    ensures r.Success? <==> exists t :: t in tables && Target(t, needColumns)
    ensures r.Success? ==> r.value in tables && Target(r.value, needColumns)
    ensures r.Failure? ==> r.error == EmptyChoice
  {
    var ts := Targets(tables, needColumns);
    if |ts| == 0 then Failure(EmptyChoice)
    else
      assert ts[pick % |ts|] in ts;
      Success(ts[pick % |ts|])
  }

  /** `getRandomTableOrBailout(predicate)`: the same draw, but no eligible table
      discards the test case. */
  function RandomTableOrBailout(tables: seq<Table>, needColumns: bool, pick: nat): (r: Result<Table>)
    ensures r.Success? <==> exists t :: t in tables && Target(t, needColumns)
    ensures r.Success? ==> r.value in tables && Target(r.value, needColumns)
    ensures r.Failure? ==> r.error == Ignore
  {
    match RandomTable(tables, needColumns, pick)
    case Success(t) => Success(t)
    case Failure(_) => Failure(Ignore)
  }

  /** Every eligible table is drawn by some pick. */
  lemma RandomTableReaches(tables: seq<Table>, needColumns: bool, t: Table) returns (pick: nat)
    requires t in tables && Target(t, needColumns)
    ensures RandomTable(tables, needColumns, pick) == Success(t)
  {
    var ts := Targets(tables, needColumns);
    assert t in ts;
    var i :| 0 <= i < |ts| && ts[i] == t;
    pick := i;
    assert pick % |ts| == i;
  }

  /** Positions naming each element at most once, none past `n`, at least one. */
  predicate SubsetPicks(picks: seq<nat>, n: nat) {
    && |picks| > 0
    && (forall i :: 0 <= i < |picks| ==> picks[i] < n)
    && (forall i, j :: 0 <= i < j < |picks| ==> picks[i] != picks[j])
  }

  /** The elements at the given positions, in the order of the positions. */
  function Select<T>(xs: seq<T>, picks: seq<nat>): (r: seq<T>)
    requires forall i :: 0 <= i < |picks| ==> picks[i] < |xs|
    ensures |r| == |picks| && forall i :: 0 <= i < |picks| ==> r[i] == xs[picks[i]]
  {
    seq(|picks|, i requires 0 <= i < |picks| => xs[picks[i]])
  }

  /** `Randomly.nonEmptySubset` and `getRandomNonEmptyColumnSubset`: distinct
      elements in random order, at least one. Drawing from an empty list throws;
      positions that do not form such a subset are used-up draws. */
  function NonEmptySubset<T>(xs: seq<T>, picks: seq<nat>): (r: Result<seq<T>>)
    ensures |xs| == 0 ==> r == Failure(EmptyChoice)
    ensures r.Success? <==> |xs| > 0 && SubsetPicks(picks, |xs|)
    ensures r.Success? ==> 0 < |r.value| && r.value == Select(xs, picks)
    ensures r.Failure? && |xs| > 0 ==> r.error == OutOfChoices
  {
    if |xs| == 0 then Failure(EmptyChoice)
    else if SubsetPicks(picks, |xs|) then Success(Select(xs, picks))
    else Failure(OutOfChoices)
  }

  // ---------------------------------------------------------------------------
  // Names

  /** `String.format("c%d", i)`: the name of the i-th generated column. */
  function ColumnName(i: nat): string {
    "c" + NatToString(i)
  }

  /** The stand-in for the i-th column in learn mode. */
  function TestColumn(i: nat): string {
    "TEST_COLUMN" + NatToString(i)
  }

  /** Different positions give different names and stand-ins. */
  lemma NamesInjective(i: nat, j: nat)
    requires i != j
    ensures ColumnName(i) != ColumnName(j) && TestColumn(i) != TestColumn(j)
  {
    if NatToString(i) == NatToString(j) {
      NatToStringInjective(i, j);
    }
    assert ColumnName(i)[1..] == NatToString(i) && ColumnName(j)[1..] == NatToString(j);
    assert TestColumn(i)[11..] == NatToString(i) && TestColumn(j)[11..] == NatToString(j);
  }

  /** `setTestObject("TEST_COLUMN" + i, names[i])` for i from `from` up: afterwards
      every stand-in names its column, and every other stand-in keeps its object. */
  function ColumnObjects(t: TestObjects, names: seq<string>, from: nat): (r: TestObjects)
    requires ValidObjects(t) && from <= |names|
    ensures ValidObjects(r)
    ensures forall i :: from <= i < |names| ==> TestColumn(i) in r.names && r.names[TestColumn(i)] == names[i]
    ensures forall k :: k in t.names && (forall i :: from <= i < |names| ==> k != TestColumn(i)) ==>
              k in r.names && r.names[k] == t.names[k]
    decreases |names| - from
  {
    if from == |names| then t
    else
      var r := ColumnObjects(SetTestObject(t, TestColumn(from), names[from]), names, from + 1);
      forall i | from < i < |names| ensures TestColumn(from) != TestColumn(i) {
        NamesInjective(from, i);
      }
      r
  }
  // ---------------------------------------------------------------------------
  // Emitting a skeleton through the builder

  /** The number of holes in a skeleton. */
  function HoleCount(parts: seq<Part>): nat {
    if |parts| == 0 then 0 else (if parts[0].Hole? then 1 else 0) + HoleCount(parts[1..])
  }

  /** Every stand-in is named like TEST_TABLE and TEST_COLUMN<i>, starting with
      `T`, so none occurs inside a placeholder. */
  predicate PlainStandIns(t: TestObjects) {
    forall k :: k in t.names ==> |k| > 0 && k[0] == 'T'
  }

  /** Test-object substitution leaves placeholders alone. */
  lemma PlaceholderUntouched(i: nat, t: TestObjects)
    requires ValidObjects(t)
    ensures PlainStandIns(t) ==> ReplaceTestObject(PlaceHolder(i), t) == PlaceHolder(i)
  {
    if PlainStandIns(t) {
      var p := PlaceHolder(i);
      forall k | k in t.names ensures |k| > 0 && !Contains(p, k) {
      }
      ReplaceTestObjectAbsent(p, t);
    }
  }

  /** Every hole draw leaves its hole untaken on a builder that may skip holes. */
  predicate NoCoins(holes: seq<HoleDraw>) {
    forall k :: 0 <= k < |holes| ==> !holes[k].coin
  }

  /** What emitting left: the builder, the record, the unused hole draws. */
  datatype Emitted = Emitted(b: Builder, rec: Record, rest: seq<HoleDraw>)

  /** The builder calls a skeleton stands for, in order: `append(text)` for
      literal text, `append("", i)` for hole `i`, each hole taking the next draw.
      Holes only ever record fragment choices. */
  function Emit(b: Builder, rec: Record, parts: seq<Part>, store: Store, holes: seq<HoleDraw>,
                value: FragmentVar -> string, t: TestObjects): (r: Result<Emitted>)
    requires WellFormed(store) && ValidObjects(t)
    ensures r.Success? <==> HoleCount(parts) <= |holes|
    ensures r.Failure? ==> r.error == OutOfChoices
    ensures r.Success? ==> r.value.rest == holes[HoleCount(parts)..] && r.value.b.couldRandom == b.couldRandom
    ensures r.Success? ==> r.value.rec.nodes == rec.nodes && r.value.rec.composites == rec.composites
    decreases |parts|
  {
    if |parts| == 0 then Success(Emitted(b, rec, holes))
    else
      match parts[0]
      case Lit(s) => Emit(Append(b, s), rec, parts[1..], store, holes, value, t)
      case Hole(i) =>
        if |holes| == 0 then Failure(OutOfChoices)
        else
          var h := AppendHole(b, "", i, store, holes[0].coin, holes[0].pick, value, rec, t);
          var r := Emit(h.0, h.1, parts[1..], store, holes[1..], value, t);
          assert r.Success? ==> holes[1..][HoleCount(parts[1..])..] == holes[HoleCount(parts)..];
          r
  }

  /** In sketch mode every hole shows its placeholder: the emitted text is the
      skeleton's sketch and nothing is recorded. */
  lemma {:induction false} EmitSketch(b: Builder, rec: Record, parts: seq<Part>, store: Store, holes: seq<HoleDraw>,
                                      value: FragmentVar -> string, t: TestObjects)
    requires WellFormed(store) && ValidObjects(t) && store.learn && PlainStandIns(t)
    requires HoleCount(parts) <= |holes|
    ensures Emit(b, rec, parts, store, holes, value, t).value.b.text == b.text + Sketch(parts)
    ensures Emit(b, rec, parts, store, holes, value, t).value.rec == rec
    decreases |parts|
  {
    if |parts| > 0 {
      var tail := parts[1..];
      var next := if parts[0].Lit? then holes else holes[1..];
      var b' := Builder(b.text + SketchOf(parts[0]), b.couldRandom);
      assert HoleCount(parts) == (if parts[0].Hole? then 1 else 0) + HoleCount(tail);
      assert HoleCount(tail) <= |next|;
      EmitSketchStep(b, rec, parts, store, holes, value, t);
      EmitSketch(b', rec, tail, store, next, value, t);
      assert Sketch(parts) == SketchOf(parts[0]) + Sketch(tail);
      assert (b.text + SketchOf(parts[0])) + Sketch(tail) == b.text + Sketch(parts);
    }
  }

  /** One step of `EmitSketch`: a part in sketch mode appends its sketch. */
  lemma EmitSketchStep(b: Builder, rec: Record, parts: seq<Part>, store: Store, holes: seq<HoleDraw>,
                       value: FragmentVar -> string, t: TestObjects)
    requires WellFormed(store) && ValidObjects(t) && store.learn && PlainStandIns(t)
    requires |parts| > 0 && (parts[0].Hole? ==> |holes| > 0)
    ensures Emit(b, rec, parts, store, holes, value, t)
            == Emit(Builder(b.text + SketchOf(parts[0]), b.couldRandom), rec, parts[1..], store,
                    if parts[0].Lit? then holes else holes[1..], value, t)
  {
    var p := parts[0];
    if p.Hole? {
      PlaceholderUntouched(p.index, t);
      var h := AppendHole(b, "", p.index, store, holes[0].coin, holes[0].pick, value, rec, t);
      assert b.text + "" == b.text;
      assert h == (Builder(b.text + PlaceHolder(p.index), b.couldRandom), rec);
    }
  }

  /** Outside sketch mode, with every coin down on a random builder, no hole is
      taken: the emitted text is the bare skeleton and nothing is recorded. */
  lemma {:induction false} EmitBare(b: Builder, rec: Record, parts: seq<Part>, store: Store, holes: seq<HoleDraw>,
                                    value: FragmentVar -> string, t: TestObjects)
    requires WellFormed(store) && ValidObjects(t) && !store.learn && b.couldRandom
    requires HoleCount(parts) <= |holes|
    requires NoCoins(holes)
    ensures Emit(b, rec, parts, store, holes, value, t).value.b.text == b.text + Bare(parts)
    ensures Emit(b, rec, parts, store, holes, value, t).value.rec == rec
    decreases |parts|
  {
    if |parts| > 0 {
      match parts[0]
      case Lit(s) =>
        EmitBare(Append(b, s), rec, parts[1..], store, holes, value, t);
        assert (b.text + s) + Bare(parts[1..]) == b.text + Bare(parts);
      case Hole(i) =>
        assert !holes[0].coin;
        var h := AppendHole(b, "", i, store, holes[0].coin, holes[0].pick, value, rec, t);
        assert h.0.text == b.text + "" == b.text;
        EmitBare(h.0, h.1, parts[1..], store, holes[1..], value, t);
        assert Bare(parts[1..]) == Bare(parts);
    }
  }

  /** Emitting a head and then a rest from a fresh builder in sketch mode prints
      the sketch of the whole skeleton. */
  lemma EmitSketchTwice(rec: Record, head: seq<Part>, rest: seq<Part>, store: Store, holes: seq<HoleDraw>,
                        value: FragmentVar -> string, t1: TestObjects, t2: TestObjects, b0: Builder)
    requires WellFormed(store) && ValidObjects(t1) && ValidObjects(t2) && store.learn
    requires PlainStandIns(t1) && PlainStandIns(t2) && b0.text == ""
    requires Emit(b0, rec, head, store, holes, value, t1).Success?
    requires var e1 := Emit(b0, rec, head, store, holes, value, t1).value;
             Emit(e1.b, e1.rec, rest, store, e1.rest, value, t2).Success?
    ensures var e1 := Emit(b0, rec, head, store, holes, value, t1).value;
            var e2 := Emit(e1.b, e1.rec, rest, store, e1.rest, value, t2).value;
            e2.b.text == Sketch(head + rest) && e2.rec == rec
  {
    var e1 := Emit(b0, rec, head, store, holes, value, t1).value;
    EmitSketch(b0, rec, head, store, holes, value, t1);
    EmitSketch(e1.b, e1.rec, rest, store, e1.rest, value, t2);
    SketchThen("", head, rest);
  }

  /** Emitting a head and then a rest from a fresh random builder with every coin
      down prints the bare skeleton. */
  lemma EmitBareTwice(rec: Record, head: seq<Part>, rest: seq<Part>, store: Store, holes: seq<HoleDraw>,
                      value: FragmentVar -> string, t1: TestObjects, t2: TestObjects, b0: Builder)
    requires WellFormed(store) && ValidObjects(t1) && ValidObjects(t2) && !store.learn
    requires NoCoins(holes) && b0.text == "" && b0.couldRandom
    requires Emit(b0, rec, head, store, holes, value, t1).Success?
    requires var e1 := Emit(b0, rec, head, store, holes, value, t1).value;
             Emit(e1.b, e1.rec, rest, store, e1.rest, value, t2).Success?
    ensures var e1 := Emit(b0, rec, head, store, holes, value, t1).value;
            var e2 := Emit(e1.b, e1.rec, rest, store, e1.rest, value, t2).value;
            e2.b.text == Bare(head + rest) && e2.rec == rec
  {
    var e1 := Emit(b0, rec, head, store, holes, value, t1).value;
    EmitBare(b0, rec, head, store, holes, value, t1);
    assert NoCoins(e1.rest);
    EmitBare(e1.b, e1.rec, rest, store, e1.rest, value, t2);
    BareThen("", head, rest);
  }

  /** The number of holes of concatenated skeletons adds up. */
  lemma {:induction false} HoleCountAppend(a: seq<Part>, b: seq<Part>)
    ensures HoleCount(a + b) == HoleCount(a) + HoleCount(b)
  {
    if |a| > 0 {
      assert (a + b)[1..] == a[1..] + b;
      assert (a + b)[0] == a[0];
      HoleCountAppend(a[1..], b);
    } else {
      assert a + b == b;
    }
  }

  /** Literal parts, one per text. */
  function Lits(ss: seq<string>): (r: seq<Part>)
    ensures |r| == |ss| && forall i :: 0 <= i < |ss| ==> r[i] == Lit(ss[i])
    ensures HoleCount(r) == 0
  {
    var r := seq(|ss|, i requires 0 <= i < |ss| => Lit(ss[i]));
    NoHoleCount(r);
    r
  }

  /** Literal parts followed by hole `i`. */
  function LitsThenHole(ss: seq<string>, i: nat): (r: seq<Part>)
    ensures r == Lits(ss) + [Hole(i)]
    ensures HoleCount(r) == 1
  {
    HoleCountAppend(Lits(ss), [Hole(i)]);
    Lits(ss) + [Hole(i)]
  }

  /** Texts none of which contains `{`. */
  predicate BraceFree(ss: seq<string>) {
    forall i :: 0 <= i < |ss| ==> '{' !in ss[i]
  }

  /** Skeletons without `{` in their text concatenate to one. */
  lemma LiteralAppend(a: seq<Part>, b: seq<Part>)
    requires Literal(a) && Literal(b)
    ensures Literal(a + b)
  {
    forall i | 0 <= i < |a + b| && (a + b)[i].Lit? ensures '{' !in (a + b)[i].text {
      if i >= |a| {
        assert (a + b)[i] == b[i - |a|];
      }
    }
  }

  /** Literal parts of brace-free texts, with or without a hole after them. */
  lemma LitsLiteral(ss: seq<string>, i: nat)
    requires BraceFree(ss)
    ensures Literal(Lits(ss)) && Literal(LitsThenHole(ss, i))
  {
    LiteralAppend(Lits(ss), [Hole(i)]);
  }

  /** Literal text alone has no holes. */
  lemma {:induction false} NoHoleCount(parts: seq<Part>)
    requires forall i :: 0 <= i < |parts| ==> parts[i].Lit?
    ensures HoleCount(parts) == 0
  {
    if |parts| > 0 {
      NoHoleCount(parts[1..]);
    }
  }

  /** The column stand-ins are plain: setting them keeps every stand-in plain. */
  lemma {:induction false} ColumnObjectsPlain(t: TestObjects, names: seq<string>, from: nat)
    requires ValidObjects(t) && from <= |names| && PlainStandIns(t)
    ensures PlainStandIns(ColumnObjects(t, names, from))
    decreases |names| - from
  {
    if from < |names| {
      var t' := SetTestObject(t, TestColumn(from), names[from]);
      assert TestColumn(from)[0] == 'T';
      ColumnObjectsPlain(t', names, from + 1);
    }
  }

  /** Printing two skeletons one after the other prints their concatenation. */
  lemma SketchThen(x: string, a: seq<Part>, b: seq<Part>)
    ensures (x + Sketch(a)) + Sketch(b) == x + Sketch(a + b)
  {
    SketchAppend(a, b);
  }

  /** The same for the bare text. */
  lemma BareThen(x: string, a: seq<Part>, b: seq<Part>)
    ensures (x + Bare(a)) + Bare(b) == x + Bare(a + b)
  {
    BareAppend(a, b);
  }
}
