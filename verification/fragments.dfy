/** The adaptive fragment store (`GeneralFragments` and its families): learned
    alternatives for the numbered holes of a statement sketch. Choices are read
    from `key;text` lines whose `<NAME>` placeholders become `%s` conversions,
    kept free of duplicate and disabled choices, drawn from at generation time
    and pruned by the controller's feedback. */
module Fragments {
  import opened Base
  import opened Text
  import opened Features
  import opened Templates
  import opened Controller

  /** How a family treats its lines. The numbered families (statement, table,
      index, function) require an integer key. The statement family also rejects
      DDL and rewrites test-object names while loading. The type and operator
      families key their choices by name. */
  datatype Family = Numbered | Statement | Named

  /** One store: its family, whether it is in sketch (learn) mode, the choices per
      hole key in insertion order, and the choices added since the learner last
      ran. */
  datatype Store = Store(
    family: Family,
    learn: bool,
    fragments: map<string, seq<FragmentChoice>>,
    added: map<string, seq<FragmentChoice>>)

  /** The choices under `key`, none when the key has no list yet. */
  function Choices(m: map<string, seq<FragmentChoice>>, key: string): seq<FragmentChoice> {
    if key in m then m[key] else []
  }

  /** Every stored choice sits under its own key and passed validation. */
  predicate WellFormed(s: Store) {
    forall k, i :: k in s.fragments && 0 <= i < |s.fragments[k]| ==>
      s.fragments[k][i].key == k && FormatAccepts(s.fragments[k][i].fmt, s.fragments[k][i].vars)
  }

  /** A template that would create, drop or alter schema objects. */
  predicate HasDdl(fmt: string) {
    Contains(fmt, "CREATE") || Contains(fmt, "DROP") || Contains(fmt, "ALTER")
  }

  /** `validateFragment`: statement fragments may not contain DDL, and every
      format must accept the variables' names as arguments. */
  predicate Valid(family: Family, fmt: string, vars: seq<FragmentVar>) {
    (family == Statement ==> !HasDdl(fmt)) && FormatAccepts(fmt, vars)
  }

  /** What `addFragment` (or the parse in front of it) did with a candidate. */
  datatype Outcome =
    | Added            // stored under its key
    | DuplicateFormat        // a choice with the same trimmed format is already stored
    | Disabled         // its fragment name is on the disabled list
    | Invalid(fault: Fault)  // validation or placeholder resolution threw
    | Skipped          // the key is not an integer; nothing happens

  /** A key list, created empty when missing. */
  function WithKey(m: map<string, seq<FragmentChoice>>, key: string): (r: map<string, seq<FragmentChoice>>)
    ensures r.Keys == m.Keys + {key} && r[key] == Choices(m, key)
    ensures forall k :: k in m ==> r[k] == m[k]
  {
    if key in m then m else m[key := []]
  }

  /** A stored choice under `key` already has format `fmt`. */
  predicate HasFormat(m: map<string, seq<FragmentChoice>>, key: string, fmt: string) {
    exists i :: 0 <= i < |Choices(m, key)| && Choices(m, key)[i].fmt == fmt
  }

  /** `addFragment`. Both key lists exist afterwards whatever happens, even when
      validation throws. The template is trimmed. A template whose trimmed format
      is already stored under the key is ignored, an invalid one is rejected, and
      a disabled one is dropped; anything else is appended to both lists. */
  function AddFragment(s: Store, disabled: seq<string>, key: string, fmt: string, vars: seq<FragmentVar>)
    : (r: (Store, Outcome))
    ensures r.0.family == s.family && r.0.learn == s.learn
    ensures r.0.fragments.Keys == s.fragments.Keys + {key} && r.0.added.Keys == s.added.Keys + {key}
    ensures forall k :: k in s.fragments && k != key ==> r.0.fragments[k] == s.fragments[k]
    ensures forall k :: k in s.added && k != key ==> r.0.added[k] == s.added[k]
    ensures r.1 == DuplicateFormat <==> HasFormat(s.fragments, key, Trim(fmt))
    ensures r.1.Invalid? <==> !HasFormat(s.fragments, key, Trim(fmt)) && !Valid(s.family, Trim(fmt), vars)
    ensures r.1 == Disabled <==>
              && !HasFormat(s.fragments, key, Trim(fmt)) && Valid(s.family, Trim(fmt), vars)
              && !FragmentAvailable(disabled, FragmentChoice(Trim(fmt), vars, key))
    ensures r.1 != Skipped && r.1 != Invalid(UnknownName)
    ensures r.1 == Added ==>
              && r.0.fragments[key] == Choices(s.fragments, key) + [FragmentChoice(Trim(fmt), vars, key)]
              && r.0.added[key] == Choices(s.added, key) + [FragmentChoice(Trim(fmt), vars, key)]
    ensures r.1 != Added ==>
              r.0.fragments[key] == Choices(s.fragments, key) && r.0.added[key] == Choices(s.added, key)
  {
    var f := Trim(fmt);
    var o := Classify(s, disabled, key, f, vars);
    (Store(s.family, s.learn, Stored(s.fragments, key, f, vars, o == Added),
           Stored(s.added, key, f, vars, o == Added)), o)
  }

  /** The verdict of `addFragment` on an already trimmed format `f`. */
  function Classify(s: Store, disabled: seq<string>, key: string, f: string, vars: seq<FragmentVar>): (o: Outcome)
    ensures o == DuplicateFormat <==> HasFormat(s.fragments, key, f)
    ensures o.Invalid? <==> !HasFormat(s.fragments, key, f) && !Valid(s.family, f, vars)
    ensures o == Disabled <==>
              && !HasFormat(s.fragments, key, f) && Valid(s.family, f, vars)
              && !FragmentAvailable(disabled, FragmentChoice(f, vars, key))
    ensures o != Skipped && o != Invalid(UnknownName)
  {
    if HasFormat(s.fragments, key, f) then DuplicateFormat
    else if s.family == Statement && HasDdl(f) then Invalid(DdlFragment)
    else if !FormatAccepts(f, vars) then Invalid(BadFormat)
    else if !FragmentAvailable(disabled, FragmentChoice(f, vars, key)) then Disabled
    else Added
  }

  /** A key list, created empty when missing, with the choice appended when `add`. */
  function Stored(m: map<string, seq<FragmentChoice>>, key: string, f: string, vars: seq<FragmentVar>, add: bool)
    : (r: map<string, seq<FragmentChoice>>)
    ensures r.Keys == m.Keys + {key}
    ensures forall k :: k in m && k != key ==> r[k] == m[k]
    ensures r[key] == Choices(m, key) + (if add then [FragmentChoice(f, vars, key)] else [])
  {
    var w := WithKey(m, key);
    if add then w[key := w[key] + [FragmentChoice(f, vars, key)]] else w
  }

  /** Only validated choices are ever stored under their own key. */
  lemma AddFragmentWellFormed(s: Store, disabled: seq<string>, key: string, fmt: string, vars: seq<FragmentVar>)
    ensures WellFormed(s) ==> WellFormed(AddFragment(s, disabled, key, fmt, vars).0)
  {
    var r := AddFragment(s, disabled, key, fmt, vars);
    forall k, i | WellFormed(s) && k in r.0.fragments && 0 <= i < |r.0.fragments[k]|
      ensures r.0.fragments[k][i].key == k && FormatAccepts(r.0.fragments[k][i].fmt, r.0.fragments[k][i].vars)
    {
      if k == key && r.1 == Added && i == |Choices(s.fragments, key)| {
        assert r.0.fragments[k][i] == FragmentChoice(Trim(fmt), vars, key);
      } else if k == key {
        assert r.0.fragments[k][i] == s.fragments[k][i];
      }
    }
  }

  // ---------------------------------------------------------------------------
  // Drawing a fragment

  /** `getPlaceHolder`: the sketch hole `{i}`. */
  function PlaceHolder(index: int): (r: string)
    ensures |r| == |IntToString(index)| + 2
    ensures r[0] == '{' && r[|r| - 1] == '}' && r[1..|r| - 1] == IntToString(index)
  {
    "{" + IntToString(index) + "}"
  }

  /** The hole a placeholder names can be read back from it. */
  lemma PlaceHolderInjective(a: int, b: int)
    requires PlaceHolder(a) == PlaceHolder(b)
    ensures a == b
  {
    assert PlaceHolder(a)[1..|PlaceHolder(a)| - 1] == IntToString(a);
    assert PlaceHolder(b)[1..|PlaceHolder(b)| - 1] == IntToString(b);
    if a >= 0 && b >= 0 {
      NatToStringInjective(a, b);
    } else if a < 0 && b < 0 {
      assert IntToString(a)[1..] == NatToString(-a);
      assert IntToString(b)[1..] == NatToString(-b);
      NatToStringInjective(-a, -b);
    }
  }

  /** `GeneralFragmentChoice.toString(state)`: the format filled with the text each
      variable's generator produced. A variable used twice gets the same text both
      times, as the variables are shared enum constants. */
  function Render(c: FragmentChoice, value: FragmentVar -> string): Option<string> {
    Format(c.fmt, seq(|c.vars|, i requires 0 <= i < |c.vars| => value(c.vars[i])))
  }

  /** The text of a choice, empty for one whose format does not render (no
      validated choice is such a one). */
  function Rendering(c: FragmentChoice, value: FragmentVar -> string): string {
    match Render(c, value)
    case Some(t) => t
    case None => ""
  }

  /** A validated choice always renders. */
  lemma RenderDefined(c: FragmentChoice, value: FragmentVar -> string)
    requires FormatAccepts(c.fmt, c.vars)
    ensures Render(c, value).Some?
  {
    FormatDefinedByArity(c.fmt, seq(|c.vars|, i requires 0 <= i < |c.vars| => VarName(c.vars[i])),
                         seq(|c.vars|, i requires 0 <= i < |c.vars| => value(c.vars[i])));
  }

  /** `get(index, state)`. In sketch mode the hole's placeholder comes back and
      nothing is recorded. Otherwise a hole without choices gives the empty text;
      a hole with choices gives the rendering of one of them (the one `pick`
      selects), and exactly that choice is recorded once in the current record. */
  function Get(s: Store, index: int, pick: nat, value: FragmentVar -> string, rec: Record): (r: (string, Record))
    requires WellFormed(s)
    ensures r.1.nodes == rec.nodes && r.1.composites == rec.composites
    ensures s.learn ==> r == (PlaceHolder(index), rec)
    ensures !s.learn && |Choices(s.fragments, IntToString(index))| == 0 ==> r == ("", rec)
    ensures !s.learn && |Choices(s.fragments, IntToString(index))| > 0 ==>
              exists i :: 0 <= i < |Choices(s.fragments, IntToString(index))|
                          && var c := Choices(s.fragments, IntToString(index))[i];
                          && c.key == IntToString(index)
                          && r.1 == ScoreFragment(rec, c)
                          && Render(c, value) == Some(r.0)
  {
    var key := IntToString(index);
    if s.learn then (PlaceHolder(index), rec)
    else if key !in s.fragments || |s.fragments[key]| == 0 then ("", rec)
    else
      var i := pick % |s.fragments[key]|;
      var c := s.fragments[key][i];
      RenderDefined(c, value);
      (Render(c, value).value, ScoreFragment(rec, c))
  }

  // ---------------------------------------------------------------------------
  // Loading

  /** `parseFragments`. Numbered families silently ignore a line whose key is not
      an integer. Each `<name>` becomes `%s` and contributes the variable named by
      its upper-cased content; an unknown name throws before anything is stored.
      The compiled template then goes through `addFragment` under the line's key. */
  function ParseFragments(s: Store, disabled: seq<string>, key: string, content: string): (r: (Store, Outcome))
    ensures r.1 == Skipped <==> s.family != Named && !IsInt(key)
    ensures r.1 == Skipped || r.1 == Invalid(UnknownName) ==> r.0 == s
    ensures r.1 == Invalid(UnknownName) <==> (s.family == Named || IsInt(key)) && ParseTemplate(content).Failure?
    ensures r.0.family == s.family && r.0.learn == s.learn
    ensures s.fragments.Keys <= r.0.fragments.Keys
    ensures forall k :: k in s.fragments ==> s.fragments[k] <= r.0.fragments[k]
    ensures forall k :: k in r.0.fragments && k !in s.fragments ==> k == key
    ensures WellFormed(s) ==> WellFormed(r.0)
  {
    if s.family != Named && !IsInt(key) then (s, Skipped)
    else
      var t := ParseTemplate(content);
      if t.Failure? then
        assert s.family == Named || IsInt(key);
        assert UnknownHole(content);
        (s, Invalid(UnknownName))
      else
        AddFragmentWellFormed(s, disabled, key, t.value.0, t.value.1);
        AddFragment(s, disabled, key, t.value.0, t.value.1)
  }

  /** A line is rejected for an unknown placeholder name exactly when it is not
      skipped and one of its placeholders names no variable. */
  lemma ParseRejectsUnknownName(s: Store, disabled: seq<string>, key: string, content: string)
    ensures ParseFragments(s, disabled, key, content).1 == Invalid(UnknownName) <==>
              (s.family == Named || IsInt(key))
              && exists i :: 0 <= i < |Holes(Tokenize(content))| && VarByName(Upper(Holes(Tokenize(content))[i])).None?
  {
    assert ParseTemplate(content).Failure? <==> UnknownHole(content);
  }

  /** An added choice is appended to its key's list; it has the compiled format,
      trimmed, and one variable per placeholder, in order, named by the
      placeholder's upper-cased content. */
  lemma ParseAddsCompiledChoice(s: Store, disabled: seq<string>, key: string, content: string)
    requires ParseFragments(s, disabled, key, content).1 == Added
    ensures var r := ParseFragments(s, disabled, key, content).0;
            key in r.fragments && |r.fragments[key]| == |Choices(s.fragments, key)| + 1 &&
            var c := r.fragments[key][|Choices(s.fragments, key)|];
            && r.fragments[key] == Choices(s.fragments, key) + [c]
            && c.key == key
            && c.fmt == Trim(FormatOf(Tokenize(content)))
            && |c.vars| == |Holes(Tokenize(content))|
            && forall j :: 0 <= j < |c.vars| ==> VarName(c.vars[j]) == Upper(Holes(Tokenize(content))[j])
  {
    var t := ParseTemplate(content);
    assert t.Success?;
    assert ParseFragments(s, disabled, key, content) == AddFragment(s, disabled, key, t.value.0, t.value.1);
  }

  /** `preprocessingLine`: the statement family rewrites the test-object names of
      the sketch into placeholders; the other families keep the line. */
  function Preprocess(family: Family, line: string): (r: string)
    ensures family != Statement ==> r == line
    ensures ';' in line ==> ';' in r
  {
    if family == Statement then
      RewriteKeepsSemicolon(line);
      Replace(Replace(line, "TEST_TABLE", "<RANDOM_TABLE>"), "TEST_COLUMN", "<RANDOM_COLUMN>")
    else line
  }

  lemma RewriteKeepsSemicolon(line: string)
    ensures ';' in line ==>
              ';' in Replace(Replace(line, "TEST_TABLE", "<RANDOM_TABLE>"), "TEST_COLUMN", "<RANDOM_COLUMN>")
  {
    if ';' in line {
      ReplaceKeepsChar(line, "TEST_TABLE", "<RANDOM_TABLE>", ';');
      ReplaceKeepsChar(Replace(line, "TEST_TABLE", "<RANDOM_TABLE>"), "TEST_COLUMN", "<RANDOM_COLUMN>", ';');
    }
  }

  /** A statement line that mentions no test object is loaded as written. */
  lemma PreprocessWithoutTestObjects(line: string)
    requires !Contains(line, "TEST_TABLE") && !Contains(line, "TEST_COLUMN")
    ensures Preprocess(Statement, line) == line
  {
    ReplaceAbsent(line, "TEST_TABLE", "<RANDOM_TABLE>");
    ReplaceAbsent(line, "TEST_COLUMN", "<RANDOM_COLUMN>");
  }

  /** A line cut at its first ';': the key before it and the content after it. */
  function SplitLine(line: string): (r: (string, string))
    requires ';' in line
    ensures line == r.0 + ";" + r.1
    ensures ';' !in r.0
  {
    var i := IndexOf(line, ';');
    assert line == line[..i] + [line[i]] + line[i + 1..];
    (line[..i], line[i + 1..])
  }

  /** One line of `loadFragmentsFromCSV`: a line without ';' is skipped; otherwise
      it is preprocessed, cut at its first ';' and parsed. A parse error is
      swallowed, and whatever the parse did to the store before throwing stays. */
  function LoadLine(s: Store, disabled: seq<string>, line: string): (r: Store)
    ensures ';' !in line ==> r == s
    ensures r.family == s.family && r.learn == s.learn
    ensures s.fragments.Keys <= r.fragments.Keys
    ensures forall k :: k in s.fragments ==> s.fragments[k] <= r.fragments[k]
    ensures WellFormed(s) ==> WellFormed(r)
  {
    if ';' !in line then s
    else
      var parts := SplitLine(Preprocess(s.family, line));
      ParseFragments(s, disabled, parts.0, parts.1).0
  }

  /** `loadFragmentsFromCSV` over the lines of a file, in order. Stored choices are
      never lost or reordered: each key's list only grows at its end. */
  function LoadCSV(s: Store, disabled: seq<string>, lines: seq<string>): (r: Store)
    ensures r.family == s.family && r.learn == s.learn
    ensures s.fragments.Keys <= r.fragments.Keys
    ensures forall k :: k in s.fragments ==> s.fragments[k] <= r.fragments[k]
    ensures WellFormed(s) ==> WellFormed(r)
    decreases |lines|
  {
    if |lines| == 0 then s
    else LoadCSV(LoadLine(s, disabled, lines[0]), disabled, lines[1..])
  }

  /** Loading two files one after the other is loading their concatenation. */
  lemma {:induction false} LoadCSVAppend(s: Store, disabled: seq<string>, a: seq<string>, b: seq<string>)
    ensures LoadCSV(s, disabled, a + b) == LoadCSV(LoadCSV(s, disabled, a), disabled, b)
    decreases |a|
  {
    if |a| == 0 {
      assert a + b == b;
    } else {
      assert (a + b)[0] == a[0] && (a + b)[1..] == a[1..] + b;
      LoadCSVAppend(LoadLine(s, disabled, a[0]), disabled, a[1..], b);
    }
  }

  /** Lines without a ';' leave the store as it was. */
  lemma {:induction false} LoadSkipsPlainLines(s: Store, disabled: seq<string>, lines: seq<string>)
    requires forall i :: 0 <= i < |lines| ==> ';' !in lines[i]
    ensures LoadCSV(s, disabled, lines) == s
    decreases |lines|
  {
    if |lines| > 0 {
      LoadSkipsPlainLines(s, disabled, lines[1..]);
    }
  }

  /** A line naming an unknown variable is swallowed without any trace, while a
      numbered line with a non-integer key leaves the store untouched too. */
  lemma UnknownVariableLineIgnored(s: Store, disabled: seq<string>, line: string)
    requires ';' in line
    requires var p := SplitLine(Preprocess(s.family, line));
             exists i :: 0 <= i < |Holes(Tokenize(p.1))| && VarByName(Upper(Holes(Tokenize(p.1))[i])).None?
    ensures LoadLine(s, disabled, line) == s
  {
    var p := SplitLine(Preprocess(s.family, line));
    assert UnknownHole(p.1);
    ParseRejectsUnknownName(s, disabled, p.0, p.1);
  }

  // ---------------------------------------------------------------------------
  // Feedback

  /** The choices the controller has not disabled, in their original order. */
  function KeepEnabled(cs: seq<FragmentChoice>, opts: map<FragmentChoice, bool>): (r: seq<FragmentChoice>)
    ensures forall c :: c in r <==> c in cs && Enabled(opts, c)
    ensures |r| <= |cs|
  {
    if |cs| == 0 then []
    else (if Enabled(opts, cs[0]) then [cs[0]] else []) + KeepEnabled(cs[1..], opts)
  }

  /** Filtering commutes with concatenation, so the kept choices stay in order. */
  lemma {:induction false} KeepEnabledAppend(a: seq<FragmentChoice>, b: seq<FragmentChoice>, opts: map<FragmentChoice, bool>)
    ensures KeepEnabled(a + b, opts) == KeepEnabled(a, opts) + KeepEnabled(b, opts)
    decreases |a|
  {
    if |a| == 0 {
      assert a + b == b;
    } else {
      assert (a + b)[0] == a[0] && (a + b)[1..] == a[1..] + b;
      KeepEnabledAppend(a[1..], b, opts);
    }
  }

  /** Nothing disabled means nothing removed. */
  lemma {:induction false} KeepEnabledAll(cs: seq<FragmentChoice>, opts: map<FragmentChoice, bool>)
    requires forall i :: 0 <= i < |cs| ==> Enabled(opts, cs[i])
    ensures KeepEnabled(cs, opts) == cs
    decreases |cs|
  {
    if |cs| > 0 {
      KeepEnabledAll(cs[1..], opts);
    }
  }

  /** `updateFragmentByFeedback`: every key keeps exactly its choices whose
      fragment option is enabled, in order; the keys themselves stay. */
  function UpdateByFeedback(s: Store, opts: map<FragmentChoice, bool>): (r: Store)
    ensures r.fragments.Keys == s.fragments.Keys
    ensures forall k :: k in s.fragments ==> r.fragments[k] == KeepEnabled(s.fragments[k], opts)
    ensures forall k, c :: k in s.fragments ==> (c in r.fragments[k] <==> c in s.fragments[k] && Enabled(opts, c))
    ensures r.added == s.added && r.family == s.family && r.learn == s.learn
    ensures WellFormed(s) ==> WellFormed(r)
  {
    var r := s.(fragments := map k | k in s.fragments :: KeepEnabled(s.fragments[k], opts));
    assert WellFormed(s) ==> WellFormed(r) by {
      if WellFormed(s) {
        forall k, i | k in r.fragments && 0 <= i < |r.fragments[k]|
          ensures r.fragments[k][i].key == k && FormatAccepts(r.fragments[k][i].fmt, r.fragments[k][i].vars)
        {
          var c := r.fragments[k][i];
          assert c in s.fragments[k];
          var j :| 0 <= j < |s.fragments[k]| && s.fragments[k][j] == c;
        }
      }
    }
    r
  }

  // ---------------------------------------------------------------------------
  // The variable help text

  /** One line of the help text: `<NAME>: description`. */
  function VariableLine(v: FragmentVar): string {
    "<" + VarName(v) + ">: " + VarDescription(v) + "\n"
  }

  /** The help lines of the given variables, in order, NULL left out. */
  function HelpLines(vs: seq<FragmentVar>): (r: seq<string>)
    ensures forall v :: v in vs && v != NULL ==> VariableLine(v) in r
    ensures |r| <= |vs|
  {
    if |vs| == 0 then []
    else (if vs[0] == NULL then [] else [VariableLine(vs[0])]) + HelpLines(vs[1..])
  }

  const VariablesNote: string := "Note: Please DO NOT include other variables or identifiers.\n"

  /** `getVariables`: a line per variable except NULL, then the closing note. */
  function Variables(): string {
    Join(HelpLines(AllVars), "") + VariablesNote
  }
}
