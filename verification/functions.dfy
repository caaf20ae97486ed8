/** The SQL functions the generator may call (`GeneralFunction`): a table from
    function names to signed arities, filled from learned fragments whose hole key
    is the arity; the rejection-loop draw of an enabled function, the functions
    that may produce a given type, the sketch the learner completes and the
    statements that validate a learned name. */
module Functions {
  import opened Base
  import opened Text
  import opened Features
  import opened Controller
  import opened Fragments
  import opened Builder

  /** A callable function: its argument count, whether more may follow, and its name. */
  datatype Function = Function(nrArgs: nat, isVariadic: bool, name: string)

  /** `GeneralFunction(int, String)`: the table stores a variadic function with
      its minimum argument count negated. */
  function NewFunction(n: int, name: string): (f: Function)
    ensures f.name == name && f.nrArgs as int == (if n < 0 then -n else n)
    ensures f.isVariadic <==> n < 0
  {
    Function(if n < 0 then -n else n, n < 0, name)
  }

  /** The signed count the table stores for a function. */
  function SignedArity(f: Function): int {
    if f.isVariadic then -(f.nrArgs as int) else f.nrArgs as int
  }

  /** The table entry a function was built from can be read back from it. */
  lemma SignedArityRoundTrip(n: int, name: string)
    ensures SignedArity(NewFunction(n, name)) == n
    ensures NewFunction(SignedArity(NewFunction(n, name)), name) == NewFunction(n, name)
  {
  }

  /** `getNrArgs`: a fixed function takes exactly its count; a variadic one takes
      its minimum plus a small drawn number. */
  function NrArgs(f: Function, small: nat): (r: nat)
    ensures !f.isVariadic ==> r == f.nrArgs
    ensures f.isVariadic ==> r >= f.nrArgs && r - f.nrArgs == small
  {
    if f.isVariadic then small + f.nrArgs else f.nrArgs
  }

  // ---------------------------------------------------------------------------
  // Drawing functions

  /** `getRandomByOptions`: no function when the table is empty; otherwise the
      first drawn name whose `FUNCTION-name` key is enabled (on a true coin),
      recorded once in the current record. */
  function RandomByOptions(functions: map<string, int>, order: seq<string>, opts: map<string, bool>,
                           draws: seq<Draw>, rec: Record): (r: Result<Option<(Function, Record)>>)
    requires Enumerates(order, functions.Keys)
    ensures |functions| == 0 <==> r == Success(None)
    ensures r.Failure? ==> r.error == OutOfChoices
    ensures r.Success? && r.value.Some? ==>
              var f := r.value.value.0;
              && f.name in functions && f == NewFunction(functions[f.name], f.name)
              && Enabled(opts, FunctionKey(f.name))
              && r.value.value.1 == ScoreComposite(rec, FunctionKey(f.name))
  {
    if |functions| == 0 then Success(None)
    else
      assert |order| > 0 by {
        var k :| k in functions.Keys;
      }
      PickEnabledMember(order, FunctionKey, opts, draws);
      match PickEnabled(order, FunctionKey, opts, draws)
      case Failure(e) => Failure(e)
      case Success(name) =>
        Success(Some((NewFunction(functions[name], name), ScoreComposite(rec, FunctionKey(name)))))
  }

  /** Every enabled function can be drawn: the single draw that picks it on a true
      coin yields it and records its key. */
  lemma RandomByOptionsReaches(functions: map<string, int>, order: seq<string>, opts: map<string, bool>,
                               rec: Record, i: nat)
    requires Enumerates(order, functions.Keys) && i < |order| && Enabled(opts, FunctionKey(order[i]))
    ensures RandomByOptions(functions, order, opts, [Draw(i, true)], rec)
            == Success(Some((NewFunction(functions[order[i]], order[i]), ScoreComposite(rec, FunctionKey(order[i])))))
  {
    PickEnabledReaches(order, FunctionKey, opts, i);
  }

  /** The names `getRandomCompatibleFunctions` keeps: both `FUNCTION-f` and
      `<type>-f` are enabled. */
  function CompatibleNames(order: seq<string>, opts: map<string, bool>, typeName: string): (r: seq<string>)
    ensures forall f :: f in r <==> f in order && Enabled(opts, FunctionKey(f)) && Enabled(opts, ReturnKey(typeName, f))
  {
    assert forall f :: FunctionKey(f) == "FUNCTION" + "-" + f;
    FilterKeys(order, (f: string) => PairEnabled(opts, "FUNCTION", f) && PairEnabled(opts, typeName, f))
  }

  /** `getRandomCompatibleFunctions`: a function for every table entry whose name
      is enabled both on its own and for the printed return type. */
  function CompatibleFunctions(functions: map<string, int>, order: seq<string>, opts: map<string, bool>,
                               typeName: string): (r: seq<Function>)
    requires Enumerates(order, functions.Keys)
    ensures |r| == |CompatibleNames(order, opts, typeName)|
    ensures forall i :: 0 <= i < |r| ==> r[i].name in functions && r[i] == NewFunction(functions[r[i].name], r[i].name)
    ensures forall f :: (exists i :: 0 <= i < |r| && r[i].name == f) <==>
              f in functions && Enabled(opts, FunctionKey(f)) && Enabled(opts, ReturnKey(typeName, f))
  {
    var names := CompatibleNames(order, opts, typeName);
    assert forall i :: 0 <= i < |names| ==> names[i] in order;
    var r := seq(|names|, i requires 0 <= i < |names| => NewFunction(functions[names[i]], names[i]));
    forall f | f in names
      ensures exists i :: 0 <= i < |r| && r[i].name == f
    {
      var i :| 0 <= i < |names| && names[i] == f;
      assert r[i].name == f;
    }
    r
  }

  /** With no function or return-type key switched off, every function of the
      table is compatible, in the table's order. */
  lemma AllCompatibleWhenUndecided(functions: map<string, int>, order: seq<string>, opts: map<string, bool>,
                                   typeName: string)
    requires Enumerates(order, functions.Keys)
    requires forall k :: k in opts ==> opts[k]
    ensures CompatibleNames(order, opts, typeName) == order
  {
    FilterKeysAll(order, (f: string) => PairEnabled(opts, "FUNCTION", f) && PairEnabled(opts, typeName, f));
  }

  // ---------------------------------------------------------------------------
  // Sketch and validation

  /** The argument list of `i` NULLs, separated by ", ". */
  function NullArgs(i: nat): (r: string)
    decreases i
  {
    if i == 0 then "" else if i == 1 then "NULL" else NullArgs(i - 1) + ", NULL"
  }

  /** The argument list is the NULLs joined by ", ". */
  lemma {:induction false} NullArgsJoin(i: nat)
    ensures NullArgs(i) == Join(seq(i, _ => "NULL"), ", ")
    decreases i
  {
    if i >= 2 {
      NullArgsJoin(i - 1);
      JoinSnoc(seq(i - 1, _ => "NULL"), "NULL", ", ");
      assert seq(i, _ => "NULL") == seq(i - 1, _ => "NULL") + ["NULL"];
    }
  }

  /** Joining one more part adds the separator and the part. */
  lemma {:induction false} JoinSnoc(parts: seq<string>, last: string, sep: string)
    requires |parts| > 0
    ensures Join(parts + [last], sep) == Join(parts, sep) + sep + last
    decreases |parts|
  {
    if |parts| == 1 {
      assert (parts + [last])[1..] == [last];
    } else {
      JoinSnoc(parts[1..], last, sep);
      assert (parts + [last])[1..] == parts[1..] + [last];
    }
  }

  /** The hint that follows the call with `i` arguments. */
  function Hint(i: nat): string {
    " -- Hint: Function with " + NatToString(i) + " arguments\n"
  }

  /** The values of the variables in a sketch, where no variable is rendered. */
  function NoValue(v: FragmentVar): string {
    ""
  }

  /** One sketch line: `SELECT`, the hole for the name, and `i` NULL arguments. */
  function SketchLine(b: Builder, i: nat, store: Store, rec: Record, t: TestObjects): (r: (Builder, Record))
    requires WellFormed(store) && ValidObjects(t)
  {
    var h := AppendHole(b, "SELECT ", i, store, true, 0, NoValue, rec, t);
    (Append(h.0, CallArgs(i) + Hint(i)), h.1)
  }

  /** The lines for arities `i` to 3. */
  function SketchFrom(b: Builder, i: nat, store: Store, rec: Record, t: TestObjects): (r: (Builder, Record))
    requires WellFormed(store) && ValidObjects(t) && i <= 4
    decreases 4 - i
  {
    if i == 4 then (b, rec)
    else
      var line := SketchLine(b, i, store, rec, t);
      SketchFrom(line.0, i + 1, store, line.1, t)
  }

  /** `genLearnStatement` and `getQuery`: in sketch mode, one line per arity 0 to 3. */
  function LearnStatement(store: Store, rec: Record, t: TestObjects): (r: (string, Record))
    requires WellFormed(store) && ValidObjects(t)
  {
    var sketch := SketchFrom(NewBuilder, 0, store.(learn := true), rec, t);
    (sketch.0.text, sketch.1)
  }

  /** The argument list of `i` NULLs, closing the statement. */
  function CallArgs(i: nat): string {
    "(" + NullArgs(i) + ");"
  }

  /** What a sketch line shows: the hole `{i}` called with `i` NULLs. */
  function SketchText(i: nat): string {
    "SELECT " + PlaceHolder(i) + (CallArgs(i) + Hint(i))
  }

  /** The sketch lines for arities `i` to 3. */
  function SketchTexts(i: nat): string
    requires i <= 4
    decreases 4 - i
  {
    if i == 4 then "" else SketchText(i) + SketchTexts(i + 1)
  }

  /** Without test objects the sketch is the four lines for arities 0 to 3, and
      nothing is recorded. */
  lemma LearnStatementText(store: Store, rec: Record)
    requires WellFormed(store)
    ensures LearnStatement(store, rec, TestObjects(map[], [])) == (SketchTexts(0), rec)
  {
    SketchModeWellFormed(store);
    SketchFromText(NewBuilder, 0, store.(learn := true), rec);
    assert "" + SketchTexts(0) == SketchTexts(0);
  }

  /** Switching a store to sketch mode keeps it well formed. */
  lemma SketchModeWellFormed(store: Store)
    requires WellFormed(store)
    ensures WellFormed(store.(learn := true))
  {
  }

  /** The four lines, spelled out. */
  lemma SketchTextsFour()
    ensures SketchTexts(0) == SketchText(0) + SketchText(1) + SketchText(2) + SketchText(3)
  {
    var a, b, c, d := SketchText(0), SketchText(1), SketchText(2), SketchText(3);
    assert SketchTexts(3) == d + "";
    assert SketchTexts(0) == a + (b + (c + (d + "")));
    ConcatFour(a, b, c, d);
  }

  /** Concatenation regrouped to the left. */
  lemma ConcatFour(a: string, b: string, c: string, d: string)
    ensures a + (b + (c + (d + ""))) == a + b + c + d
  {
    assert d + "" == d;
  }

  /** In sketch mode without test objects the remaining lines add their text and
      record nothing. */
  lemma {:induction false} SketchFromText(b: Builder, i: nat, s: Store, rec: Record)
    requires WellFormed(s) && s.learn && i <= 4
    ensures SketchFrom(b, i, s, rec, TestObjects(map[], [])) == (Builder(b.text + SketchTexts(i), b.couldRandom), rec)
    decreases 4 - i
  {
    if i < 4 {
      var b' := Builder(b.text + SketchText(i), b.couldRandom);
      SketchFromStep(b, i, s, rec);
      SketchFromText(b', i + 1, s, rec);
      SketchTextsStep(b.text, i);
    } else {
      assert b.text + "" == b.text;
    }
  }

  /** One line of the sketch, then the rest. */
  lemma {:induction false} SketchFromStep(b: Builder, i: nat, s: Store, rec: Record)
    requires WellFormed(s) && s.learn && i < 4
    ensures SketchFrom(b, i, s, rec, TestObjects(map[], []))
            == SketchFrom(Builder(b.text + SketchText(i), b.couldRandom), i + 1, s, rec, TestObjects(map[], []))
  {
    SketchLineText(b, i, s, rec);
  }

  /** The remaining text is the next line and the text after it. */
  lemma SketchTextsStep(p: string, i: nat)
    requires i < 4
    ensures p + SketchText(i) + SketchTexts(i + 1) == p + SketchTexts(i)
  {
  }

  /** In sketch mode without test objects a line adds its text and records nothing. */
  lemma {:induction false} SketchLineText(b: Builder, i: nat, s: Store, rec: Record)
    requires WellFormed(s) && s.learn
    ensures SketchLine(b, i, s, rec, TestObjects(map[], [])) == (Builder(b.text + SketchText(i), b.couldRandom), rec)
  {
    SketchShowsPlaceholder(b, "SELECT ", i, s, true, 0, NoValue, rec);
    SketchTextSplit(b.text, i);
  }

  /** The line text regrouped the way the builder appends it. */
  lemma SketchTextSplit(p: string, i: nat)
    ensures p + "SELECT " + PlaceHolder(i) + (CallArgs(i) + Hint(i)) == p + SketchText(i)
  {
    ConcatThree(p, "SELECT " + PlaceHolder(i), CallArgs(i) + Hint(i));
  }

  /** Concatenation regrouped to the right. */
  lemma ConcatThree(a: string, b: string, c: string)
    ensures a + b + c == a + (b + c)
  {
  }

  /** `genValStatements`: the learned name called with as many NULLs as the key
      says, for the keys 0, 1 and 2; nothing for other counts; a key that is not a
      number throws. */
  function ValStatements(key: string, choice: string): (r: Result<seq<string>>)
    ensures r.Failure? <==> !IsInt(key)
    ensures r.Success? ==> |r.value| <= 1
    ensures r.Success? ==> (|r.value| == 1 <==> ParseInt(key).value in {0, 1, 2})
    ensures r.Success? && |r.value| == 1 ==>
              r.value[0] == "SELECT " + choice + CallArgs(ParseInt(key).value)
  {
    match ParseInt(key)
    case Failure(e) => Failure(e)
    case Success(n) =>
      if n == 0 then Success(["SELECT " + choice + "();"])
      else if n == 1 then Success(["SELECT " + choice + "(NULL);"])
      else if n == 2 then Success(["SELECT " + choice + "(NULL, NULL);"])
      else Success([])
  }

  /** The validation statement of a choice learned for arity `n` is the sketch
      line of that arity with the hole filled by the choice and the hint dropped. */
  lemma ValStatementFillsSketch(n: nat, choice: string)
    requires n <= 2
    ensures ValStatements(IntToString(n), choice) == Success(["SELECT " + choice + CallArgs(n)])
  {
    ParseIntRoundTrip(n);
  }

  // ---------------------------------------------------------------------------
  // Learning functions from fragments

  /** The entries one hole key contributes: each choice's upper-cased text with
      the key as arity. A key with choices that is not a number is an assertion
      error. */
  function KeyEntries(s: Store, key: string, value: FragmentVar -> string): (r: Result<seq<(string, int)>>)
  {
    var cs := Choices(s.fragments, key);
    if |cs| == 0 then Success([])
    else
      match ParseInt(key)
      case Failure(_) => Failure(Assertion("NumberFormatException"))
      case Success(n) => Success(seq(|cs|, i requires 0 <= i < |cs| => (Upper(Rendering(cs[i], value)), n)))
  }

  /** The entries of the listed keys, key by key. */
  function LearnedEntries(s: Store, keys: seq<string>, value: FragmentVar -> string): (r: Result<seq<(string, int)>>)
    decreases |keys|
  {
    if |keys| == 0 then Success([])
    else
      var first :- KeyEntries(s, keys[0], value);
      var rest :- LearnedEntries(s, keys[1..], value);
      Success(first + rest)
  }

  /** An entry of a choice: its upper-cased text and its key's number. */
  predicate EntryOf(s: Store, keys: seq<string>, value: FragmentVar -> string, e: (string, int)) {
    exists i, j :: 0 <= i < |keys| && 0 <= j < |Choices(s.fragments, keys[i])|
                   && ParseInt(keys[i]) == Success(e.1)
                   && e.0 == Upper(Rendering(Choices(s.fragments, keys[i])[j], value))
  }

  /** A key with choices that is not a number makes learning fail. */
  predicate BadKey(s: Store, keys: seq<string>) {
    exists i :: 0 <= i < |keys| && |Choices(s.fragments, keys[i])| > 0 && !IsInt(keys[i])
  }

  /** Learning fails exactly on a bad key. */
  lemma {:induction false} LearnedEntriesFail(s: Store, keys: seq<string>, value: FragmentVar -> string)
    ensures LearnedEntries(s, keys, value).Failure? <==> BadKey(s, keys)
    decreases |keys|
  {
    if |keys| > 0 {
      LearnedEntriesFail(s, keys[1..], value);
      if BadKey(s, keys[1..]) {
        var i :| 0 <= i < |keys[1..]| && |Choices(s.fragments, keys[1..][i])| > 0 && !IsInt(keys[1..][i]);
        assert keys[i + 1] == keys[1..][i];
      }
    }
  }

  /** Every learned entry is the entry of a choice. */
  lemma {:induction false} LearnedEntriesSound(s: Store, keys: seq<string>, value: FragmentVar -> string,
                                               e: (string, int))
    requires LearnedEntries(s, keys, value).Success? && e in LearnedEntries(s, keys, value).value
    ensures EntryOf(s, keys, value, e)
    decreases |keys|
  {
    var first := KeyEntries(s, keys[0], value).value;
    var rest := LearnedEntries(s, keys[1..], value).value;
    assert LearnedEntries(s, keys, value).value == first + rest;
    if e in first {
      var j :| 0 <= j < |first| && first[j] == e;
      assert e.0 == Upper(Rendering(Choices(s.fragments, keys[0])[j], value));
    } else {
      LearnedEntriesSound(s, keys[1..], value, e);
      var i, j :| 0 <= i < |keys[1..]| && 0 <= j < |Choices(s.fragments, keys[1..][i])|
                  && ParseInt(keys[1..][i]) == Success(e.1)
                  && e.0 == Upper(Rendering(Choices(s.fragments, keys[1..][i])[j], value));
      assert keys[1..][i] == keys[i + 1];
    }
  }

  /** The entry of every choice is learned. */
  lemma {:induction false} LearnedEntriesComplete(s: Store, keys: seq<string>, value: FragmentVar -> string,
                                                  i: nat, j: nat)
    requires LearnedEntries(s, keys, value).Success?
    requires i < |keys| && j < |Choices(s.fragments, keys[i])|
    ensures IsInt(keys[i])
    ensures (Upper(Rendering(Choices(s.fragments, keys[i])[j], value)), ParseInt(keys[i]).value)
            in LearnedEntries(s, keys, value).value
    decreases |keys|
  {
    var first := KeyEntries(s, keys[0], value).value;
    var rest := LearnedEntries(s, keys[1..], value).value;
    assert LearnedEntries(s, keys, value).value == first + rest;
    if i == 0 {
      assert first[j] in first;
    } else {
      assert keys[1..][i - 1] == keys[i];
      LearnedEntriesComplete(s, keys[1..], value, i - 1, j);
    }
  }

  /** `mergeFunctions`: the learned entries are put over the table. */
  function MergeFunctions(functions: map<string, int>, learned: map<string, int>): (r: map<string, int>)
    ensures r.Keys == functions.Keys + learned.Keys
    ensures forall k :: k in learned ==> r[k] == learned[k]
    ensures forall k :: k in functions && k !in learned ==> r[k] == functions[k]
  {
    functions + learned
  }

  /** Merging the same batch again changes nothing. */
  lemma MergeFunctionsIdempotent(functions: map<string, int>, learned: map<string, int>)
    ensures MergeFunctions(MergeFunctions(functions, learned), learned) == MergeFunctions(functions, learned)
  {
  }

  /** `loadFunctionsFromFragments`: every learned choice of every key, upper-cased,
      is put into the table with its key as arity (later choices overriding
      earlier ones of the same name), over the existing entries. */
  function LoadFunctionsFromFragments(functions: map<string, int>, s: Store, order: seq<string>,
                                      value: FragmentVar -> string): (r: Result<map<string, int>>)
    requires Enumerates(order, s.fragments.Keys)
  {
    match LearnedEntries(s, order, value)
    case Failure(e) => Failure(e)
    case Success(es) => Success(MergeFunctions(functions, PutAll(map[], es)))
  }

  /** Loading fails exactly when a key with choices is not a number. */
  lemma LoadFunctionsFails(functions: map<string, int>, s: Store, order: seq<string>,
                           value: FragmentVar -> string)
    requires Enumerates(order, s.fragments.Keys)
    ensures LoadFunctionsFromFragments(functions, s, order, value).Failure? <==> BadKey(s, order)
  {
    LearnedEntriesFail(s, order, value);
  }

  /** The names the learned entries put: exactly the upper-cased texts of the
      learned choices. */
  lemma LearnedNames(s: Store, order: seq<string>, value: FragmentVar -> string, name: string)
    requires LearnedEntries(s, order, value).Success?
    ensures name in PutAll(map[], LearnedEntries(s, order, value).value)
            <==> exists n :: EntryOf(s, order, value, (name, n))
  {
    var es := LearnedEntries(s, order, value).value;
    PutAllEntries(map[], es, name);
    if exists n :: EntryOf(s, order, value, (name, n)) {
      var n :| EntryOf(s, order, value, (name, n));
      var i, j :| 0 <= i < |order| && 0 <= j < |Choices(s.fragments, order[i])|
                  && ParseInt(order[i]) == Success(n)
                  && name == Upper(Rendering(Choices(s.fragments, order[i])[j], value));
      LearnedEntriesComplete(s, order, value, i, j);
      var k :| 0 <= k < |es| && es[k] == (name, n);
    }
    if name in PutAll(map[], es) {
      var i :| 0 <= i < |es| && es[i].0 == name;
      LearnedEntriesSound(s, order, value, es[i]);
    }
  }

  /** A successful load keeps every existing name and gains exactly the
      upper-cased texts of the learned choices. */
  lemma LoadFunctionsNames(functions: map<string, int>, s: Store, order: seq<string>,
                           value: FragmentVar -> string, name: string)
    requires Enumerates(order, s.fragments.Keys)
    requires LoadFunctionsFromFragments(functions, s, order, value).Success?
    ensures var r := LoadFunctionsFromFragments(functions, s, order, value).value;
            functions.Keys <= r.Keys && (name in r <==> name in functions || exists n :: EntryOf(s, order, value, (name, n)))
  {
    LearnedNames(s, order, value, name);
  }

  /** After a successful load, a name's arity is its old one when no choice
      renders to it, and otherwise the number of a key with a choice that does. */
  lemma LoadFunctionsArity(functions: map<string, int>, s: Store, order: seq<string>,
                           value: FragmentVar -> string, name: string)
    requires Enumerates(order, s.fragments.Keys)
    requires LoadFunctionsFromFragments(functions, s, order, value).Success?
    requires name in LoadFunctionsFromFragments(functions, s, order, value).value
    ensures var r := LoadFunctionsFromFragments(functions, s, order, value).value;
            (name in functions && r[name] == functions[name]) || EntryOf(s, order, value, (name, r[name]))
  {
    var es := LearnedEntries(s, order, value).value;
    PutAllEntries(map[], es, name);
    var learned := PutAll(map[], es);
    if name in learned {
      var i :| 0 <= i < |es| && es[i].0 == name;
      var last := LastEntry(es, name, i);
      assert es[last] == (name, learned[name]);
      LearnedEntriesSound(s, order, value, es[last]);
    }
  }
}
