/** The SQL types the generator knows (`GeneralSchema`'s type half): the built-in
    primitive types, the types learned as fragments and registered under a running
    counter, their printed names, the lookup from a name, the enumeration of the
    supported types, the weighted random draw, and the store of literal formats per
    learned type. */
module Types {
  import opened Base
  import opened Text
  import opened Templates
  import opened Controller
  import opened Fragments
  import Features

  /** `GeneralDataType`, in declaration order. */
  datatype DataType = INT | NULL | BOOLEAN | STRING | VARTYPE

  /** `values()`. */
  const DataTypes: seq<DataType> := [INT, DataType.NULL, BOOLEAN, STRING, VARTYPE]

  /** `GeneralCompositeDataType`: a primitive type with a size (INT), a length
      (STRING) or, for VARTYPE, the counter id of a learned type. Equality is
      field-wise, as the Java `equals` compares. */
  datatype CompositeType = CompositeType(dt: DataType, id: int)

  /** The registry of learned types. `names[i]` is the name registered with id `i`,
      so the counter is `|names|` (the hash map from ids to names has exactly the
      keys `0 .. typeCounter - 1`, which it enumerates in ascending order). The
      availability map tells whether a type's literals may be drawn; the
      type-to-function map collects the functions known to return each type. The
      store holds the literal formats, keyed by type name. */
  datatype TypeState = TypeState(
    store: Store,
    names: seq<string>,
    available: map<string, bool>,
    typeToFunction: map<string, seq<string>>)

  // ---------------------------------------------------------------------------
  // Names

  /** `toString`: the SQL spelling of a type. A VARTYPE id that was never
      registered has no name (the Java code dereferences null). */
  function TypeName(names: seq<string>, t: CompositeType): (r: Option<string>)
    ensures r.None? <==> t.dt == VARTYPE && !(0 <= t.id < |names|)
    ensures t.dt == INT ==> r == Some("INT")
    ensures t.dt == BOOLEAN ==> r == Some("BOOLEAN")
    ensures t.dt == DataType.NULL ==> r == Some("NULL")
    ensures t.dt == STRING && t.id == 0 ==> r == Some("VARCHAR")
    ensures t.dt == STRING && t.id != 0 ==> r.Some? && StartsWith(r.value, "VARCHAR(") && EndsWith(r.value, ")")
    ensures t.dt == VARTYPE && r.Some? ==> r.value == Upper(names[t.id])
  {
    match t.dt
    case INT => Some("INT")
    case STRING =>
      if t.id == 0 then Some("VARCHAR")
      else
        var s := "VARCHAR(" + IntToString(t.id) + ")";
        assert s[..8] == "VARCHAR(" && s[|s| - 1..] == ")";
        Some(s)
    case BOOLEAN => Some("BOOLEAN")
    case NULL => Some("NULL")
    case VARTYPE => if 0 <= t.id < |names| then Some(Upper(names[t.id])) else None
  }

  /** The names the lookup resolves before consulting the registry. */
  predicate BuiltinName(s: string) {
    s == "BOOLEAN" || s == "VARCHAR" || s == "INT"
  }

  /** The first registered id whose name is `s`. */
  function FirstId(names: seq<string>, s: string): (r: Option<nat>)
    ensures r.Some? ==> r.value < |names| && names[r.value] == s
    ensures r.Some? ==> forall j :: 0 <= j < r.value ==> names[j] != s
    ensures r.None? <==> s !in names
  {
    match FirstAccepted(names, (n: string) => n == s)
    case None => None
    case Some(i) => Some(i)
  }

  /** `getByName`: no name gives no type; the three built-in names give their id-0
      types; a registered name gives the learned type with its id; anything else
      gives none. */
  function ByName(names: seq<string>, s: Option<string>): (r: Option<CompositeType>)
    ensures s.None? ==> r.None?
    ensures s == Some("BOOLEAN") ==> r == Some(CompositeType(BOOLEAN, 0))
    ensures s == Some("VARCHAR") ==> r == Some(CompositeType(STRING, 0))
    ensures s == Some("INT") ==> r == Some(CompositeType(INT, 0))
    ensures s.Some? && !BuiltinName(s.value) ==>
              (r.Some? <==> s.value in names)
    ensures s.Some? && !BuiltinName(s.value) && r.Some? ==>
              r.value.dt == VARTYPE && 0 <= r.value.id < |names| && names[r.value.id] == s.value
  {
    if s.None? then None
    else if s.value == "BOOLEAN" then Some(CompositeType(BOOLEAN, 0))
    else if s.value == "VARCHAR" then Some(CompositeType(STRING, 0))
    else if s.value == "INT" then Some(CompositeType(INT, 0))
    else
      match FirstId(names, s.value)
      case None => None
      case Some(i) => Some(CompositeType(VARTYPE, i))
  }

  /** The built-in types read back from their names. */
  lemma BuiltinNameRoundTrip(names: seq<string>, t: CompositeType)
    requires t in [CompositeType(INT, 0), CompositeType(BOOLEAN, 0), CompositeType(STRING, 0)]
    ensures TypeName(names, t).Some? && ByName(names, TypeName(names, t)) == Some(t)
  {
  }

  /** Registered names are distinct (registration skips a known name). */
  predicate Distinct(names: seq<string>) {
    forall i, j :: 0 <= i < j < |names| ==> names[i] != names[j]
  }

  /** A learned type whose registered name is upper case and not a built-in name
      reads back from its printed name. */
  lemma LearnedNameRoundTrip(names: seq<string>, id: nat)
    requires Distinct(names) && id < |names|
    requires Upper(names[id]) == names[id] && !BuiltinName(names[id])
    ensures ByName(names, TypeName(names, CompositeType(VARTYPE, id))) == Some(CompositeType(VARTYPE, id))
  {
    var r := ByName(names, Some(names[id]));
    assert names[id] in names;
    assert r.Some? && names[r.value.id] == names[id];
  }

  // ---------------------------------------------------------------------------
  // Enumeration and random draws

  /** `getSupportedTypes`: every primitive except NULL, the fixed ones with id 0,
      then VARTYPE once per registered id. */
  function SupportedTypes(counter: nat): (r: seq<CompositeType>)
    ensures |r| == 3 + counter
    ensures forall t :: t in r <==>
              || t in [CompositeType(INT, 0), CompositeType(BOOLEAN, 0), CompositeType(STRING, 0)]
              || (t.dt == VARTYPE && 0 <= t.id < counter)
    ensures forall i :: 0 <= i < |r| ==> r[i].dt != DataType.NULL
  {
    var learned := seq(counter, i requires 0 <= i < counter => CompositeType(VARTYPE, i));
    var r := [CompositeType(INT, 0), CompositeType(BOOLEAN, 0), CompositeType(STRING, 0)] + learned;
    assert forall t: CompositeType :: t.dt == VARTYPE && 0 <= t.id < counter ==> t == learned[t.id];
    r
  }

  /** `calcWeight`: the primitive types a draw chooses from, VARTYPE repeated once
      per registered type so that every type is equally likely. */
  function Weights(counter: nat): (r: seq<DataType>)
    ensures multiset(r)[VARTYPE] == counter
    ensures multiset(r)[INT] == 1 && multiset(r)[BOOLEAN] == 1 && multiset(r)[STRING] == 1
    ensures DataType.NULL !in r
    ensures |r| == 3 + counter
  {
    var v := seq(counter, i => VARTYPE);
    assert multiset(v)[VARTYPE] == counter by { ConstantMultiset(counter, VARTYPE); }
    assert forall d :: d != VARTYPE ==> d !in v;
    [INT, BOOLEAN, STRING] + v
  }

  /** A sequence of one repeated value has that value `n` times. */
  lemma {:induction false} ConstantMultiset(n: nat, d: DataType)
    ensures multiset(seq(n, i => d))[d] == n
  {
    if n > 0 {
      ConstantMultiset(n - 1, d);
      assert seq(n, i => d) == seq(n - 1, i => d) + [d];
    }
  }

  /** `GeneralDataType.getRandomWithoutNull`: the first draw, among all primitive
      types, that is not NULL; no value when every draw is NULL. */
  function PrimitiveWithoutNull(draws: seq<nat>): (r: Option<DataType>)
    ensures r.Some? ==> r.value != DataType.NULL
    ensures r.None? <==> forall i :: 0 <= i < |draws| ==> DataTypes[draws[i] % 5] == DataType.NULL
  {
    match FirstAccepted(draws, (d: nat) => DataTypes[d % 5] != DataType.NULL)
    case None => None
    case Some(i) => Some(DataTypes[draws[i] % 5])
  }

  /** The sizes an INT may be drawn with. */
  const IntSizes: seq<int> := [1, 2, 4, 8]

  /** `GeneralCompositeDataType.getRandomWithoutNull()`: a primitive drawn from the
      weights, then an id for it: a size for INT, 0 or 500 for BOOLEAN and STRING,
      a registered id for VARTYPE. Drawing from empty weights (before the first
      `calcWeight`) or a VARTYPE with nothing registered throws; NULL is an
      assertion error. */
  function RandomWithoutNull(weights: seq<DataType>, counter: nat, pick: nat, idPick: nat, coin: bool)
    : (r: Result<CompositeType>)
    ensures |weights| == 0 ==> r == Failure(EmptyChoice)
    ensures r.Success? ==> r.value.dt in weights && r.value.dt != DataType.NULL
    ensures r.Success? && r.value.dt == INT ==> r.value.id in {1, 2, 4, 8}
    ensures r.Success? && r.value.dt in {BOOLEAN, STRING} ==> r.value.id in {0, 500}
    ensures r.Success? && r.value.dt == VARTYPE ==> 0 <= r.value.id < counter
    ensures r.Failure? && |weights| > 0 && DataType.NULL !in weights ==> counter == 0 && VARTYPE in weights
  {
    if |weights| == 0 then Failure(EmptyChoice)
    else
      var dt := weights[pick % |weights|];
      match dt
      case INT => Success(CompositeType(INT, IntSizes[idPick % 4]))
      case BOOLEAN => Success(CompositeType(BOOLEAN, if coin then 500 else 0))
      case STRING => Success(CompositeType(STRING, if coin then 500 else 0))
      case VARTYPE => if counter == 0 then Failure(EmptyChoice) else Success(CompositeType(VARTYPE, idPick % counter))
      case NULL => Failure(Assertion("NULL"))
  }

  /** With the weights `calcWeight` computes, a draw always succeeds and yields a
      type that has a name: VARTYPE is only in the weights when some type is
      registered, and its id is then a registered one. */
  lemma WeightedDrawSupported(names: seq<string>, pick: nat, idPick: nat, coin: bool)
    ensures var r := RandomWithoutNull(Weights(|names|), |names|, pick, idPick, coin);
            r.Success? && TypeName(names, r.value).Some?
  {
    var counter := |names|;
    var w := Weights(counter);
    var dt := w[pick % |w|];
    if counter == 0 {
      assert VARTYPE !in w by {
        assert multiset(w)[VARTYPE] == 0;
      }
    }
  }

  /** The draw that prefers the session's topic: on the rare coin, the topic's own
      type when the name resolves; otherwise the ordinary draw. */
  function RandomForTopic(names: seq<string>, topic: Option<string>, rare: bool,
                          weights: seq<DataType>, pick: nat, idPick: nat, coin: bool): (r: Result<CompositeType>)
    ensures rare && ByName(names, topic).Some? ==> r == Success(ByName(names, topic).value)
    ensures !(rare && ByName(names, topic).Some?) ==> r == RandomWithoutNull(weights, |names|, pick, idPick, coin)
    ensures r.Success? && weights == Weights(|names|) ==> r.value.dt != DataType.NULL
  {
    if rare && ByName(names, topic).Some? then Success(ByName(names, topic).value)
    else RandomWithoutNull(weights, |names|, pick, idPick, coin)
  }

  // ---------------------------------------------------------------------------
  // Functions per type

  /** `updateTypeToFunction`: a new type, or an overwrite, gets exactly the given
      list; a known type has the list appended to its own. */
  function UpdateTypeToFunction(m: map<string, seq<string>>, t: string, fns: seq<string>, overwrite: bool)
    : (r: map<string, seq<string>>)
    ensures r.Keys == m.Keys + {t}
    ensures forall k :: k in m && k != t ==> r[k] == m[k]
    ensures t !in m || overwrite ==> r[t] == fns
    ensures t in m && !overwrite ==> r[t] == m[t] + fns
  {
    if t !in m || overwrite then m[t := fns] else m[t := m[t] + fns]
  }

  /** Two appends in a row are one append of both lists. */
  lemma UpdateTypeToFunctionTwice(m: map<string, seq<string>>, t: string, a: seq<string>, b: seq<string>)
    ensures UpdateTypeToFunction(UpdateTypeToFunction(m, t, a, false), t, b, false)
            == UpdateTypeToFunction(m, t, a + b, false)
  {
    if t in m {
      assert m[t] + a + b == m[t] + (a + b);
    }
  }

  // ---------------------------------------------------------------------------
  // The type fragment store

  /** Every available type has literal formats to draw from. */
  predicate Consistent(ts: TypeState) {
    forall k :: k in ts.available && ts.available[k] ==> |Choices(ts.store.fragments, k)| > 0
  }

  /** The registration that follows a parsed type line. */
  function Register(ts: TypeState, key: string, available: bool): (r: TypeState)
    ensures key in ts.names ==> r == ts
    ensures key !in ts.names ==>
              && r.names == ts.names + [key]
              && r.available == ts.available[key := available]
              && r.typeToFunction == UpdateTypeToFunction(ts.typeToFunction, Upper(key), [], false)
              && r.store == ts.store
  {
    if key in ts.names then ts
    else
      ts.(names := ts.names + [key],
          available := ts.available[key := available],
          typeToFunction := UpdateTypeToFunction(ts.typeToFunction, Upper(key), [], false))
  }

  /** `GeneralTypeFragments.parseFragments` as written: the line goes through
      `addFragment`, and unless that threw, a new type name is registered with the
      next id and marked available, whether or not a literal was stored. */
  function ParseTypeAsWritten(ts: TypeState, disabled: seq<string>, key: string, content: string)
    : (r: (TypeState, Outcome))
    requires ts.store.family == Named
    ensures r.0.store == ParseFragments(ts.store, disabled, key, content).0
    ensures r.1 == ParseFragments(ts.store, disabled, key, content).1
    ensures r.1.Invalid? ==> r.0.names == ts.names && r.0.available == ts.available
    ensures !r.1.Invalid? && key !in ts.names ==>
              r.0.names == ts.names + [key] && key in r.0.available && r.0.available[key]
  {
    var p := ParseFragments(ts.store, disabled, key, content);
    var ts' := ts.(store := p.0);
    if p.1.Invalid? then (ts', p.1) else (Register(ts', key, true), p.1)
  }

  /** A disabled literal for a new type, whatever its name, leaves that type
      available without any literal, breaking the invariant the type draw relies on. */
  lemma DisabledTypeLiteralBreaksConsistency(name: string)
    ensures var ts := TypeState(Store(Named, false, map[], map[]), [], map[], map[]);
            var r := ParseTypeAsWritten(ts, ["1"], name, "1");
            && Consistent(ts) && r.1 == Disabled && !Consistent(r.0)
            && TypeLiteral(r.0, name, 0, x => "", NewRecord, false) == Failure(EmptyChoice)
  {
    var ts := TypeState(Store(Named, false, map[], map[]), [], map[], map[]);
    DisabledDigitParse(name);
    var r := ParseTypeAsWritten(ts, ["1"], name, "1");
    assert r.0.store.fragments[name] == [];
  }

  /** Parsing the disabled literal under a new key stores an empty list for it. */
  lemma DisabledDigitParse(key: string)
    ensures var p := ParseFragments(Store(Named, false, map[], map[]), ["1"], key, "1");
            p.1 == Disabled && key in p.0.fragments && p.0.fragments[key] == []
  {
    var s := Store(Named, false, map[], map[]);
    CompileDigitLine();
    DisabledDigitLiteral(key);
    NamedParseAdds(s, ["1"], key, "1", "1", []);
    NotAddedLeavesEmpty(s, ["1"], key, "1");
  }

  /** A named line whose content compiles goes straight to `addFragment`. */
  lemma NamedParseAdds(s: Store, disabled: seq<string>, key: string, content: string,
                       fmt: string, vars: seq<Features.FragmentVar>)
    requires s.family == Named && ParseTemplate(content) == Success((fmt, vars))
    ensures ParseFragments(s, disabled, key, content) == AddFragment(s, disabled, key, fmt, vars)
  {
  }

  /** A line that is parsed but not added leaves a new key with an empty list. */
  lemma NotAddedLeavesEmpty(s: Store, disabled: seq<string>, key: string, content: string)
    requires s.family == Named && key !in s.fragments
    requires ParseFragments(s, disabled, key, content).1 == Disabled
    ensures key in ParseFragments(s, disabled, key, content).0.fragments
    ensures ParseFragments(s, disabled, key, content).0.fragments[key] == []
  {
    var t := ParseTemplate(content);
    assert t.Success?;
    var a := AddFragment(s, disabled, key, t.value.0, t.value.1);
    assert ParseFragments(s, disabled, key, content) == a;
  }

  /** The line content "1" compiles to the format "1" without variables. */
  lemma CompileDigitLine()
    ensures ParseTemplate("1") == Success(("1", []))
    ensures Trim("1") == "1"
  {
    assert "1"[1..] == "";
    assert Tokenize("1") == [Lit('1')];
    assert [Lit('1')][1..] == [];
    assert Holes([Lit('1')]) == [] && FormatOf([Lit('1')]) == "1";
    assert TrimStart("1") == "1" && TrimEnd("1") == "1";
  }

  /** The format "1" named "1" is rejected by a disabled list holding "1". */
  lemma DisabledDigitLiteral(key: string)
    ensures AddFragment(Store(Named, false, map[], map[]), ["1"], key, "1", []).1 == Disabled
  {
    CompileDigitLine();
    var c := Features.FragmentChoice("1", [], key);
    assert Format("1", []) == Some("1");
    assert seq(0, i requires 0 <= i < 0 => "") == [];
    assert FormatAccepts("1", []);
    assert FragmentName(c) == Some("1");
    assert !FragmentAvailable(["1"], c);
    assert !HasFormat(map[], key, "1");
  }

  /** The registration as evidently intended: a newly registered type is available
      exactly when it has a literal to draw. */
  function ParseType(ts: TypeState, disabled: seq<string>, key: string, content: string)
    : (r: (TypeState, Outcome))
    requires ts.store.family == Named
    ensures r.0.store == ParseFragments(ts.store, disabled, key, content).0
    ensures r.1 == ParseFragments(ts.store, disabled, key, content).1
    ensures r.1.Invalid? ==> r.0.names == ts.names && r.0.available == ts.available
    ensures !r.1.Invalid? && key !in ts.names ==>
              && r.0.names == ts.names + [key] && key in r.0.available
              && (r.0.available[key] <==> |Choices(r.0.store.fragments, key)| > 0)
  {
    var p := ParseFragments(ts.store, disabled, key, content);
    var ts' := ts.(store := p.0);
    if p.1.Invalid? then (ts', p.1)
    else
      var nonEmpty := |Choices(p.0.fragments, key)| > 0;
      (Register(ts', key, nonEmpty), p.1)
  }

  /** The corrected registration keeps every available type drawable. */
  lemma ParseTypeConsistent(ts: TypeState, disabled: seq<string>, key: string, content: string)
    requires ts.store.family == Named && Consistent(ts)
    ensures Consistent(ParseType(ts, disabled, key, content).0)
  {
    var p := ParseFragments(ts.store, disabled, key, content);
    var r := ParseType(ts, disabled, key, content).0;
    forall k | k in r.available && r.available[k]
      ensures |Choices(r.store.fragments, k)| > 0
    {
      if k != key || key in ts.names || p.1.Invalid? {
        assert k in ts.available && ts.available[k];
        assert |Choices(ts.store.fragments, k)| > 0;
        assert ts.store.fragments[k] <= p.0.fragments[k];
      }
    }
  }

  /** `get(String key, state)`: the literal of an available type, drawn from its
      formats and rendered; "NULL" for a type that has no formats or is not
      available. The choice is scored only while the database is being created.
      An available type without formats fails the draw, and a stored type with no
      availability entry dereferences null. */
  function TypeLiteral(ts: TypeState, key: string, pick: nat, value: Features.FragmentVar -> string,
                       rec: Record, creatingDatabase: bool): (r: Result<(string, Record)>)
    requires WellFormed(ts.store)
    ensures key !in ts.store.fragments ==> r == Success(("NULL", rec))
    ensures key in ts.store.fragments && key in ts.available && !ts.available[key] ==> r == Success(("NULL", rec))
    ensures r.Failure? <==>
              key in ts.store.fragments && (key !in ts.available || (ts.available[key] && |ts.store.fragments[key]| == 0))
    ensures Consistent(ts) && key in ts.available ==> r.Success?
    ensures r.Success? && r.value.0 != "NULL" ==>
              key in ts.store.fragments && exists i :: 0 <= i < |ts.store.fragments[key]| && Render(ts.store.fragments[key][i], value) == Some(r.value.0)
    ensures r.Success? && !creatingDatabase ==> r.value.1 == rec
    ensures r.Success? && creatingDatabase && key in ts.store.fragments && key in ts.available && ts.available[key] ==>
              key in ts.store.fragments && exists i :: 0 <= i < |ts.store.fragments[key]| && r.value.1 == ScoreFragment(rec, ts.store.fragments[key][i])
  {
    if key !in ts.store.fragments then Success(("NULL", rec))
    else if key !in ts.available then Failure(NullValue)
    else if !ts.available[key] then Success(("NULL", rec))
    else if |ts.store.fragments[key]| == 0 then Failure(EmptyChoice)
    else
      var i := pick % |ts.store.fragments[key]|;
      var c := ts.store.fragments[key][i];
      RenderDefined(c, value);
      Success((Render(c, value).value, if creatingDatabase then ScoreFragment(rec, c) else rec))
  }

  /** `get(int index, state)`: in sketch mode the hole's placeholder; otherwise the
      literal of the type registered under that id, "NULL" for an unknown id. */
  function TypeLiteralAt(ts: TypeState, index: int, pick: nat, value: Features.FragmentVar -> string,
                         rec: Record, creatingDatabase: bool): (r: Result<(string, Record)>)
    requires WellFormed(ts.store)
    ensures ts.store.learn ==> r == Success((PlaceHolder(index), rec))
    ensures !ts.store.learn && !(0 <= index < |ts.names|) ==> r == Success(("NULL", rec))
    ensures !ts.store.learn && 0 <= index < |ts.names| ==>
              r == TypeLiteral(ts, ts.names[index], pick, value, rec, creatingDatabase)
  {
    if ts.store.learn then
      var g := Get(ts.store, index, pick, value, rec);
      Success(g)
    else if 0 <= index < |ts.names| then TypeLiteral(ts, ts.names[index], pick, value, rec, creatingDatabase)
    else Success(("NULL", rec))
  }

  /** `updateFragmentByFeedback` of the type store: the formats are pruned, then
      every stored type is available exactly when formats remain. */
  function UpdateTypesByFeedback(ts: TypeState, opts: map<Features.FragmentChoice, bool>): (r: TypeState)
    ensures r.store == UpdateByFeedback(ts.store, opts)
    ensures r.names == ts.names && r.typeToFunction == ts.typeToFunction
    ensures forall k :: k in ts.store.fragments ==>
              k in r.available && (r.available[k] <==> |r.store.fragments[k]| > 0)
    ensures forall k :: k !in ts.store.fragments && k in ts.available ==>
              k in r.available && r.available[k] == ts.available[k]
    ensures Consistent(ts) ==> Consistent(r)
  {
    var s := UpdateByFeedback(ts.store, opts);
    var avail := map k | k in ts.available.Keys + s.fragments.Keys ::
                   if k in s.fragments then |s.fragments[k]| > 0 else ts.available[k];
    ts.(store := s, available := avail)
  }

  // ---------------------------------------------------------------------------
  // Learned topic lines

  /** A string with its leading characters `c` removed. */
  function DropLeading(s: string, c: char): (r: string)
    ensures |r| <= |s| && r == s[|s| - |r|..]
    ensures |r| > 0 ==> r[0] != c
    ensures forall i :: 0 <= i < |s| - |r| ==> s[i] == c
  {
    if |s| > 0 && s[0] == c then DropLeading(s[1..], c) else s
  }

  /** A string with its trailing characters `c` removed. */
  function DropTrailing(s: string, c: char): (r: string)
    ensures |r| <= |s| && r == s[..|r|]
    ensures |r| > 0 ==> r[|r| - 1] != c
    ensures forall i :: |r| <= i < |s| ==> s[i] == c
  {
    if |s| > 0 && s[|s| - 1] == c then DropTrailing(s[..|s| - 1], c) else s
  }

  /** `replaceAll("^\"+|\"+$", "")`: the runs of double quotes at both ends are
      removed. */
  function StripQuotes(s: string): (r: string)
    ensures |r| <= |s|
    ensures |r| > 0 ==> r[0] != '"' && r[|r| - 1] != '"'
  {
    DropTrailing(DropLeading(s, '"'), '"')
  }

  /** What is removed is quotes only, and what stays is one piece of the text. */
  lemma StripQuotesRemovesOnlyQuotes(s: string)
    ensures exists i, j :: 0 <= i <= j <= |s| && StripQuotes(s) == s[i..j]
                           && (forall k :: 0 <= k < i ==> s[k] == '"')
                           && (forall k :: j <= k < |s| ==> s[k] == '"')
  {
    var a := DropLeading(s, '"');
    var b := DropTrailing(a, '"');
    var i := |s| - |a|;
    var j := |s| - |a| + |b|;
    assert b == s[i..j];
    assert forall k :: j <= k < |s| ==> s[k] == a[k - i];
  }

  /** Stripping twice strips nothing more. */
  lemma StripQuotesIdempotent(s: string)
    ensures StripQuotes(StripQuotes(s)) == StripQuotes(s)
  {
    var b := StripQuotes(s);
    assert DropLeading(b, '"') == b;
    assert DropTrailing(b, '"') == b;
  }

  /** The case a topic line's key selects: exactly the keys "0" to "5". */
  function TopicCase(key: string): (r: Option<nat>)
    ensures r.Some? <==> key in ["0", "1", "2", "3", "4", "5"]
    ensures r.Some? ==> r.value <= 5 && key == [DigitChar(r.value)]
  {
    if key == "0" then Some(0)
    else if key == "1" then Some(1)
    else if key == "2" then Some(2)
    else if key == "3" then Some(3)
    else if key == "4" then Some(4)
    else if key == "5" then Some(5)
    else None
  }

  /** The function-store key of case 1, 2 or 3: the arity, one less. */
  function ArityKey(n: nat): string
    requires 1 <= n <= 3
  {
    [DigitChar(n - 1)]
  }

  /** The three stores a topic line may add to. */
  datatype Stores = Stores(types: TypeState, functions: Store, operators: Store)

  /** The dispatch of a compiled topic line on its case. Case 0 is a literal of
      the topic type; cases 1, 2 and 3 are functions with 0, 1 and 2 arguments,
      and cases 1 and 2 also list the function under the topic type unless the
      format was rejected; case 4 is a boolean operator and case 5 an operator over
      the topic type. Function and operator stores receive `stripped`, the format
      without its surrounding quotes, while the type-to-function list records the
      format as compiled. */
  function AddSpecific(st: Stores, disabled: seq<string>, topic: string, n: nat,
                       fmt: string, stripped: string, vars: seq<Features.FragmentVar>): (r: Stores)
    requires n <= 5
    ensures n == 0 ==> r.functions == st.functions && r.operators == st.operators
                       && r.types.names == st.types.names && r.types.available == st.types.available
                       && r.types.typeToFunction == st.types.typeToFunction
    ensures 1 <= n <= 3 ==> r.types.store == st.types.store && r.operators == st.operators
                            && r.types.names == st.types.names && r.types.available == st.types.available
    ensures n >= 4 ==> r.types == st.types && r.functions == st.functions
    ensures 1 <= n <= 3 ==>
              forall k :: k in r.functions.fragments && k != ArityKey(n) ==>
                k in st.functions.fragments && r.functions.fragments[k] == st.functions.fragments[k]
    ensures n >= 4 ==>
              forall k :: k in r.operators.fragments && k != (if n == 4 then "BOOLEAN" else topic) ==>
                k in st.operators.fragments && r.operators.fragments[k] == st.operators.fragments[k]
    ensures n == 0 ==>
              forall k :: k in r.types.store.fragments && k != topic ==>
                k in st.types.store.fragments && r.types.store.fragments[k] == st.types.store.fragments[k]
  {
    if n == 0 then
      st.(types := st.types.(store := AddFragment(st.types.store, disabled, topic, fmt, vars).0))
    else if n <= 3 then
      var a := AddFragment(st.functions, disabled, ArityKey(n), stripped, vars);
      var fns := if n != 3 && !a.1.Invalid?
                 then UpdateTypeToFunction(st.types.typeToFunction, topic, [fmt], false)
                 else st.types.typeToFunction;
      st.(functions := a.0, types := st.types.(typeToFunction := fns))
    else
      st.(operators := AddFragment(st.operators, disabled, if n == 4 then "BOOLEAN" else topic,
                                   stripped, vars).0)
  }

  /** Cases 1 and 2 list an accepted function format under the topic type, at
      the end; a rejected format and case 3 leave the lists alone. */
  lemma AddSpecificListsFunction(st: Stores, disabled: seq<string>, topic: string, n: nat,
                                 fmt: string, stripped: string, vars: seq<Features.FragmentVar>)
    requires 1 <= n <= 3
    ensures var r := AddSpecific(st, disabled, topic, n, fmt, stripped, vars);
            var accepted := !AddFragment(st.functions, disabled, ArityKey(n), stripped, vars).1.Invalid?;
            && (n <= 2 && accepted ==>
                  && topic in r.types.typeToFunction
                  && |r.types.typeToFunction[topic]| > 0
                  && r.types.typeToFunction[topic][|r.types.typeToFunction[topic]| - 1] == fmt)
            && (n == 3 || !accepted ==> r.types.typeToFunction == st.types.typeToFunction)
  {
  }

  /** `parseSpecificFragments`: a line learned for the current topic type. A key
      that is not an integer drops the line, and so does content naming an unknown
      placeholder (the throw is swallowed); a key other than "0" to "5" changes
      nothing; otherwise the compiled line is dispatched on its key. */
  function ParseSpecific(st: Stores, disabled: seq<string>, topic: string, key: string, content: string)
    : (r: Stores)
    ensures !IsInt(key) || ParseTemplate(content).Failure? ==> r == st
    ensures TopicCase(key).None? ==> r == st
    ensures IsInt(key) && ParseTemplate(content).Success? && TopicCase(key).Some? ==>
              r == AddSpecific(st, disabled, topic, TopicCase(key).value, ParseTemplate(content).value.0,
                               StripQuotes(ParseTemplate(content).value.0), ParseTemplate(content).value.1)
  {
    if !IsInt(key) then st
    else
      match ParseTemplate(content)
      case Failure(_) => st
      case Success(t) =>
        match TopicCase(key)
        case None => st
        case Some(n) => AddSpecific(st, disabled, topic, n, t.0, StripQuotes(t.0), t.1)
  }
}
