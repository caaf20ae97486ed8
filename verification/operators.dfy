/** The binary operators the generator may place between two operands
    (`GeneralBinaryOperator`): a table from operator spellings to the type they
    produce, starting with eight boolean comparisons and connectives and grown
    from learned fragments; the rejection-loop draws of an enabled operator, in
    general or of one type; the sketch the learner completes and the statement
    that validates a learned operator. */
module Operators {
  import opened Base
  import opened Text
  import opened Features
  import opened Controller
  import opened Fragments
  import opened Builder
  import opened Types

  /** The spellings of the built-in operators. */
  const InitialNames: seq<string> := ["<>", "!=", "<", ">", "<=", ">=", "AND", "OR"]

  /** The type every built-in operator produces. */
  const Boolean: CompositeType := CompositeType(BOOLEAN, 0)

  /** `initOperators`: the eight built-in operators, all boolean. A table entry
      is none when a learned operator's key named no type. */
  function InitOperators(): (r: map<string, Option<CompositeType>>)
    ensures forall n :: n in r <==> n in InitialNames
    ensures forall n :: n in r ==> r[n] == Some(Boolean)
  {
    map n | n in InitialNames :: Some(Boolean)
  }

  // ---------------------------------------------------------------------------
  // Drawing operators

  /** `getRandomByOptions`: the first drawn operator whose `BINOP<op>` key is
      enabled (on a true coin), recorded once. The table is never empty in
      practice, but drawing from an empty one throws. */
  function RandomByOptions(ops: map<string, Option<CompositeType>>, order: seq<string>, opts: map<string, bool>,
                           draws: seq<Draw>, rec: Record): (r: Result<(string, Record)>)
    requires Enumerates(order, ops.Keys)
    ensures |ops| == 0 ==> r == Failure(EmptyChoice)
    ensures |ops| > 0 && r.Failure? ==> r.error == OutOfChoices
    ensures r.Success? ==>
              r.value.0 in ops && Enabled(opts, OperatorKey(r.value.0))
              && r.value.1 == ScoreComposite(rec, OperatorKey(r.value.0))
  {
    assert |ops| > 0 <==> |order| > 0 by {
      if |ops| > 0 {
        var k :| k in ops.Keys;
      }
      if |order| > 0 {
        assert order[0] in ops.Keys;
      }
    }
    PickEnabledMember(order, OperatorKey, opts, draws);
    match PickEnabled(order, OperatorKey, opts, draws)
    case Failure(e) => Failure(e)
    case Success(name) => Success((name, ScoreComposite(rec, OperatorKey(name))))
  }

  /** Every enabled operator can be drawn. */
  lemma RandomByOptionsReaches(ops: map<string, Option<CompositeType>>, order: seq<string>,
                               opts: map<string, bool>, rec: Record, i: nat)
    requires Enumerates(order, ops.Keys) && i < |order| && Enabled(opts, OperatorKey(order[i]))
    ensures RandomByOptions(ops, order, opts, [Draw(i, true)], rec)
            == Success((order[i], ScoreComposite(rec, OperatorKey(order[i]))))
  {
    PickEnabledReaches(order, OperatorKey, opts, i);
  }

  /** The operators of the table that produce type `t`, in table order. */
  function OfType(ops: map<string, Option<CompositeType>>, order: seq<string>, t: CompositeType): (r: seq<string>)
    ensures forall n :: n in r <==> n in order && n in ops && ops[n] == Some(t)
  {
    FilterKeys(order, (n: string) => n in ops && ops[n] == Some(t))
  }

  /** `getRandomByType` as written: every table entry's type is compared with
      `t` by calling `equals` on it, so an entry without a type throws; with
      none of those, no operator of type `t` gives none, and otherwise the loop
      draws among the operators of that type. */
  function RandomByTypeAsWritten(ops: map<string, Option<CompositeType>>, order: seq<string>, t: CompositeType,
                                 opts: map<string, bool>, draws: seq<Draw>, rec: Record)
    : (r: Result<Option<(string, Record)>>)
    requires Enumerates(order, ops.Keys)
    ensures (exists n :: n in ops && ops[n].None?) ==> r == Failure(NullValue)
  {
    if exists n :: n in ops && ops[n].None? then Failure(NullValue)
    else
      var avail := OfType(ops, order, t);
      if |avail| == 0 then Success(None)
      else
        PickEnabledMember(avail, OperatorKey, opts, draws);
        match PickEnabled(avail, OperatorKey, opts, draws)
        case Failure(e) => Failure(e)
        case Success(name) => Success(Some((name, ScoreComposite(rec, OperatorKey(name)))))
  }

  /** `getRandomByType` with the untyped entries passed over: none exactly when
      no operator produces `t`; otherwise an operator of type `t` whose key is
      enabled, recorded once. */
  function RandomByType(ops: map<string, Option<CompositeType>>, order: seq<string>, t: CompositeType,
                        opts: map<string, bool>, draws: seq<Draw>, rec: Record): (r: Result<Option<(string, Record)>>)
    requires Enumerates(order, ops.Keys)
    ensures r == Success(None) <==> forall n :: n in ops ==> ops[n] != Some(t)
    ensures r.Failure? ==> r.error == OutOfChoices
    ensures r.Success? && r.value.Some? ==>
              var name := r.value.value.0;
              && name in ops && ops[name] == Some(t) && Enabled(opts, OperatorKey(name))
              && r.value.value.1 == ScoreComposite(rec, OperatorKey(name))
  {
    var avail := OfType(ops, order, t);
    if |avail| == 0 then
      assert forall n :: n in ops ==> n in order;
      Success(None)
    else
      assert avail[0] in avail;
      PickEnabledMember(avail, OperatorKey, opts, draws);
      match PickEnabled(avail, OperatorKey, opts, draws)
      case Failure(e) => Failure(e)
      case Success(name) => Success(Some((name, ScoreComposite(rec, OperatorKey(name)))))
  }

  /** On a table where every operator has a type the two agree. */
  lemma RandomByTypeAgrees(ops: map<string, Option<CompositeType>>, order: seq<string>, t: CompositeType,
                           opts: map<string, bool>, draws: seq<Draw>, rec: Record)
    requires Enumerates(order, ops.Keys)
    requires forall n :: n in ops ==> ops[n].Some?
    ensures RandomByTypeAsWritten(ops, order, t, opts, draws, rec) == RandomByType(ops, order, t, opts, draws, rec)
  {
  }

  /** A table holding one learned operator without a type, next to the built-in
      `AND`: the draw of a boolean operator as written throws, while the
      corrected draw finds `AND`. */
  lemma UntypedOperatorThrows()
    ensures var ops := map["AND" := Some(Boolean), "~" := None];
            var order := ["AND", "~"];
            && RandomByTypeAsWritten(ops, order, Boolean, map[], [Draw(0, true)], NewRecord) == Failure(NullValue)
            && RandomByType(ops, order, Boolean, map[], [Draw(0, true)], NewRecord)
               == Success(Some(("AND", ScoreComposite(NewRecord, OperatorKey("AND")))))
  {
    var ops := map["AND" := Some(Boolean), "~" := None];
    var order := ["AND", "~"];
    assert ops["~"].None?;
    assert OfType(ops, order, Boolean) == ["AND"];
  }

  /** The built-in spellings enumerate the built-in table. */
  lemma InitialOrder()
    ensures Enumerates(InitialNames, InitOperators().Keys)
  {
    forall i, j | 0 <= i < j < |InitialNames|
      ensures InitialNames[i] != InitialNames[j]
    {
      assert InitialNames[i][0] != InitialNames[j][0] || |InitialNames[i]| != |InitialNames[j]|
             || InitialNames[i][1] != InitialNames[j][1];
    }
  }

  /** The built-in table offers every built-in operator for BOOLEAN. */
  lemma InitialTableBoolean()
    ensures OfType(InitOperators(), InitialNames, Boolean) == InitialNames
  {
    var ops := InitOperators();
    FilterKeysAll(InitialNames, (n: string) => n in ops && ops[n] == Some(Boolean));
  }

  /** The built-in table offers no operator for any type but BOOLEAN. */
  lemma InitialTableOthers(t: CompositeType)
    requires t != Boolean
    ensures OfType(InitOperators(), InitialNames, t) == []
  {
    var r := OfType(InitOperators(), InitialNames, t);
    assert forall n :: n !in r;
  }

  // ---------------------------------------------------------------------------
  // Sketch and validation

  /** `genValStatements`: the learned operator between two NULL operands. */
  function ValStatements(choice: string): (r: seq<string>)
    ensures |r| == 1 && StartsWith(r[0], "SELECT NULL ") && EndsWith(r[0], " NULL;")
    ensures |r[0]| == |choice| + 18 && r[0][12..|r[0]| - 6] == choice
  {
    var q := "SELECT NULL " + choice + " NULL;";
    assert q[..12] == "SELECT NULL " && q[|q| - 6..] == " NULL;" && q[12..|q| - 6] == choice;
    [q]
  }

  /** The text before the operator hole. */
  const SketchHead: string := "CREATE TABLE TEST_TABLE (a INT, b INT);"
  /** The hint after the second operand. */
  const SketchHint: string := " -- Hint: operator return a boolean value\n"

  /** `getQuery`: a test table and a query whose WHERE clause holds hole 0
      between the two columns. */
  function Sketch(store: Store, coin: bool, pick: nat, value: FragmentVar -> string, rec: Record, t: TestObjects)
    : (r: (string, Record))
    requires WellFormed(store) && ValidObjects(t)
  {
    var b := Append(NewBuilder, SketchHead);
    var h := AppendHole(b, "SELECT * FROM TEST_TABLE WHERE a ", 0, store, coin, pick, value, rec, t);
    (Append(Append(h.0, "b;"), SketchHint).text, h.1)
  }

  /** In sketch mode without test objects the operator sits at `{0}` and
      nothing is recorded. */
  lemma SketchText(store: Store, coin: bool, pick: nat, value: FragmentVar -> string, rec: Record)
    requires WellFormed(store) && store.learn
    ensures Sketch(store, coin, pick, value, rec, TestObjects(map[], []))
            == (SketchHead + "SELECT * FROM TEST_TABLE WHERE a " + PlaceHolder(0) + "b;" + SketchHint, rec)
  {
    var b := Append(NewBuilder, SketchHead);
    assert b.text == SketchHead;
    SketchShowsPlaceholder(b, "SELECT * FROM TEST_TABLE WHERE a ", 0, store, coin, pick, value, rec);
  }

  // ---------------------------------------------------------------------------
  // Learning operators from fragments

  /** The entries one key contributes: each choice's text with the type the key
      names (none when it names no type). */
  function KeyEntries(s: Store, key: string, names: seq<string>, value: FragmentVar -> string)
    : (r: seq<(string, Option<CompositeType>)>)
  {
    var cs := Choices(s.fragments, key);
    seq(|cs|, i requires 0 <= i < |cs| => (Rendering(cs[i], value), ByName(names, Some(key))))
  }

  /** The entries of the listed keys, key by key. */
  function LearnedEntries(s: Store, keys: seq<string>, names: seq<string>, value: FragmentVar -> string)
    : (r: seq<(string, Option<CompositeType>)>)
    decreases |keys|
  {
    if |keys| == 0 then [] else KeyEntries(s, keys[0], names, value) + LearnedEntries(s, keys[1..], names, value)
  }

  /** An entry of a choice: its text and the type its key names. */
  predicate EntryOf(s: Store, keys: seq<string>, names: seq<string>, value: FragmentVar -> string,
                    e: (string, Option<CompositeType>)) {
    exists i, j :: 0 <= i < |keys| && 0 <= j < |Choices(s.fragments, keys[i])|
                   && e == (Rendering(Choices(s.fragments, keys[i])[j], value), ByName(names, Some(keys[i])))
  }

  /** The learned entries are exactly the entries of the choices. */
  lemma {:induction false} LearnedEntriesExact(s: Store, keys: seq<string>, names: seq<string>,
                                               value: FragmentVar -> string, e: (string, Option<CompositeType>))
    ensures e in LearnedEntries(s, keys, names, value) <==> EntryOf(s, keys, names, value, e)
    decreases |keys|
  {
    if |keys| > 0 {
      LearnedEntriesExact(s, keys[1..], names, value, e);
      var first := KeyEntries(s, keys[0], names, value);
      if e in first {
        var j :| 0 <= j < |first| && first[j] == e;
        assert e == (Rendering(Choices(s.fragments, keys[0])[j], value), ByName(names, Some(keys[0])));
      }
      if EntryOf(s, keys[1..], names, value, e) {
        var i, j :| 0 <= i < |keys[1..]| && 0 <= j < |Choices(s.fragments, keys[1..][i])|
                    && e == (Rendering(Choices(s.fragments, keys[1..][i])[j], value), ByName(names, Some(keys[1..][i])));
        assert keys[1..][i] == keys[i + 1];
      }
      if EntryOf(s, keys, names, value, e) {
        var i, j :| 0 <= i < |keys| && 0 <= j < |Choices(s.fragments, keys[i])|
                    && e == (Rendering(Choices(s.fragments, keys[i])[j], value), ByName(names, Some(keys[i])));
        if i == 0 {
          assert first[j] == e;
        } else {
          assert keys[1..][i - 1] == keys[i];
        }
      }
    }
  }

  /** `loadOperatorsFromFragments`: every learned choice's text is put into the
      table with the type its key names, later choices overriding earlier ones
      and all of them overriding the table. */
  function LoadOperatorsFromFragments(ops: map<string, Option<CompositeType>>, s: Store, order: seq<string>,
                                      names: seq<string>, value: FragmentVar -> string)
    : (r: map<string, Option<CompositeType>>)
    requires Enumerates(order, s.fragments.Keys)
  {
    ops + PutAll(map[], LearnedEntries(s, order, names, value))
  }

  /** After loading, the table keeps its operators and gains exactly the learned
      texts; an operator no choice renders to keeps its type, and every other
      one has the type named by the key of a choice that renders to it. */
  lemma LoadOperatorsExact(ops: map<string, Option<CompositeType>>, s: Store, order: seq<string>,
                           names: seq<string>, value: FragmentVar -> string, op: string)
    requires Enumerates(order, s.fragments.Keys)
    ensures var r := LoadOperatorsFromFragments(ops, s, order, names, value);
            && ops.Keys <= r.Keys
            && (op in r <==> op in ops || exists ty :: EntryOf(s, order, names, value, (op, ty)))
            && (op in r && !(exists ty :: EntryOf(s, order, names, value, (op, ty))) ==> r[op] == ops[op])
            && (op in r && (exists ty :: EntryOf(s, order, names, value, (op, ty))) ==>
                  EntryOf(s, order, names, value, (op, r[op])))
  {
    var es := LearnedEntries(s, order, names, value);
    PutAllEntries(map[], es, op);
    var learned := PutAll(map[], es);
    if exists ty :: EntryOf(s, order, names, value, (op, ty)) {
      var ty :| EntryOf(s, order, names, value, (op, ty));
      LearnedEntriesExact(s, order, names, value, (op, ty));
      var i :| 0 <= i < |es| && es[i] == (op, ty);
      var last := LastEntry(es, op, i);
      assert es[last] == (op, learned[op]);
      LearnedEntriesExact(s, order, names, value, es[last]);
    } else if op in learned {
      var i :| 0 <= i < |es| && es[i].0 == op;
      LearnedEntriesExact(s, order, names, value, es[i]);
      assert false;
    }
  }
}
