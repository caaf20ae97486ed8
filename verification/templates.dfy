/** Fragment templates: the `<NAME>` placeholder syntax of learned fragments, the
    `%s` format strings they are compiled to, and the fragment name under which a
    compiled choice is shown to the user and matched against the disabled list. */
module Templates {
  import opened Base
  import opened Text
  import opened Features

  /** The subset of `String.format` the fragments use: `%s` takes the next argument,
      `%%` prints a percent sign and `%n` a line break; any other conversion, a lone
      trailing `%` or a missing argument makes the format fail (None). */
  function Format(fmt: string, args: seq<string>): Option<string>
    decreases |fmt|
  {
    if |fmt| == 0 then Some("")
    else if fmt[0] != '%' then
      match Format(fmt[1..], args)
      case None => None
      case Some(rest) => Some([fmt[0]] + rest)
    else if |fmt| == 1 then None
    else if fmt[1] == 's' then
      if |args| == 0 then None
      else
        match Format(fmt[2..], args[1..])
        case None => None
        case Some(rest) => Some(args[0] + rest)
    else if fmt[1] == '%' || fmt[1] == 'n' then
      match Format(fmt[2..], args)
      case None => None
      case Some(rest) => Some((if fmt[1] == '%' then "%" else "\n") + rest)
    else None
  }

  /** Whether a format succeeds depends only on how many arguments it gets. */
  lemma {:induction false} FormatDefinedByArity(fmt: string, a: seq<string>, b: seq<string>)
    requires |a| == |b|
    ensures Format(fmt, a).Some? <==> Format(fmt, b).Some?
    decreases |fmt|
  {
    if |fmt| > 0 {
      if fmt[0] != '%' {
        FormatDefinedByArity(fmt[1..], a, b);
      } else if |fmt| > 1 {
        if fmt[1] == 's' && |a| > 0 {
          FormatDefinedByArity(fmt[2..], a[1..], b[1..]);
        } else if fmt[1] == '%' || fmt[1] == 'n' {
          FormatDefinedByArity(fmt[2..], a, b);
        }
      }
    }
  }

  /** A format without a percent sign prints itself and takes no argument. */
  lemma {:induction false} PlainFormat(s: string)
    requires '%' !in s
    ensures Format(s, []) == Some(s)
    decreases |s|
  {
    if |s| > 0 {
      assert s[0] in s;
      assert forall c :: c in s[1..] ==> c in s;
      PlainFormat(s[1..]);
      assert [s[0]] + s[1..] == s;
    }
  }

  /** A piece of fragment text: a literal character or a `<...>` placeholder. */
  datatype Token = Lit(c: char) | Hole(content: string)

  /** The matches of the pattern `<([^>]*)>` in `s`, scanned left to right: a `<`
      that has a `>` somewhere after it opens a placeholder ending at the first such
      `>` (the content may itself contain `<`); every other character is literal. */
  function Tokenize(s: string): (r: seq<Token>)
    decreases |s|
  {
    if |s| == 0 then []
    else if OpensHole(s) then [Hole(s[1..HoleEnd(s)])] + Tokenize(s[HoleEnd(s) + 1..])
    else [Lit(s[0])] + Tokenize(s[1..])
  }

  /** Position of the first `>` after the leading character, or `|s|` when there is none. */
  function HoleEnd(s: string): (r: nat)
    requires |s| > 0
    ensures 1 <= r <= |s|
    ensures r < |s| ==> s[r] == '>'
  {
    CloseFrom(s, 1)
  }

  /** Position of the first `>` at or after `i`, or `|s|`. */
  function CloseFrom(s: string, i: nat): (r: nat)
    requires i <= |s|
    ensures i <= r <= |s|
    ensures r < |s| ==> s[r] == '>'
    decreases |s| - i
  {
    if i == |s| || s[i] == '>' then i else CloseFrom(s, i + 1)
  }

  /** The text starts with `<` and a `>` follows somewhere. */
  predicate OpensHole(s: string) {
    |s| > 0 && s[0] == '<' && HoleEnd(s) < |s|
  }

  /** Text of a token sequence with each placeholder written back as `<content>`. */
  function Detokenize(toks: seq<Token>): string {
    if |toks| == 0 then ""
    else
      (match toks[0]
       case Lit(c) => [c]
       case Hole(n) => "<" + n + ">") + Detokenize(toks[1..])
  }

  lemma {:induction false} DetokenizeAppend(a: seq<Token>, b: seq<Token>)
    ensures Detokenize(a + b) == Detokenize(a) + Detokenize(b)
  {
    if |a| > 0 {
      assert (a + b)[0] == a[0];
      assert (a + b)[1..] == a[1..] + b;
      DetokenizeAppend(a[1..], b);
    } else {
      assert a + b == b;
    }
  }

  /** Tokenizing loses nothing: writing the tokens back gives the input text. */
  lemma {:induction false} TokenizeRoundTrip(s: string)
    ensures Detokenize(Tokenize(s)) == s
    decreases |s|
  {
    if |s| > 0 {
      if OpensHole(s) {
        var e := HoleEnd(s);
        var rest := s[e + 1..];
        assert Detokenize(Tokenize(s)) == "<" + s[1..e] + ">" + Detokenize(Tokenize(rest)) by {
          assert Tokenize(s) == [Hole(s[1..e])] + Tokenize(rest);
          assert Detokenize([Hole(s[1..e])]) == "<" + s[1..e] + ">" by {
            assert [Hole(s[1..e])][1..] == [];
          }
          DetokenizeAppend([Hole(s[1..e])], Tokenize(rest));
        }
        assert Detokenize(Tokenize(rest)) == rest by {
          TokenizeRoundTrip(rest);
        }
        assert s == "<" + s[1..e] + ">" + rest by {
          SplitHole(s, e);
        }
      } else {
        var rest := s[1..];
        assert Detokenize(Tokenize(s)) == [s[0]] + Detokenize(Tokenize(rest)) by {
          assert Tokenize(s) == [Lit(s[0])] + Tokenize(rest);
          assert Detokenize([Lit(s[0])]) == [s[0]] by {
            assert [Lit(s[0])][1..] == [];
          }
          DetokenizeAppend([Lit(s[0])], Tokenize(rest));
        }
        assert Detokenize(Tokenize(rest)) == rest by {
          TokenizeRoundTrip(rest);
        }
        assert s == [s[0]] + rest;
      }
    }
  }

  lemma SplitHole(s: string, e: nat)
    requires 0 < e < |s| && s[0] == '<' && s[e] == '>'
    ensures s == "<" + s[1..e] + ">" + s[e + 1..]
  {
  }

  /** The format string: each placeholder replaced by `%s`. */
  function FormatOf(toks: seq<Token>): string {
    if |toks| == 0 then ""
    else (match toks[0] case Lit(c) => [c] case Hole(_) => "%s") + FormatOf(toks[1..])
  }

  /** Placeholder contents in order of appearance. */
  function Holes(toks: seq<Token>): (r: seq<string>)
    ensures |r| <= |toks|
  {
    if |toks| == 0 then []
    else (match toks[0] case Lit(_) => [] case Hole(n) => [n]) + Holes(toks[1..])
  }

  /** The text with placeholder number `i` replaced by `args[i]`. */
  function Fill(toks: seq<Token>, args: seq<string>): string
    requires |args| == |Holes(toks)|
  {
    if |toks| == 0 then ""
    else
      match toks[0]
      case Lit(c) => [c] + Fill(toks[1..], args)
      case Hole(_) => args[0] + Fill(toks[1..], args[1..])
  }

  predicate NoPercent(toks: seq<Token>) {
    forall i :: 0 <= i < |toks| ==> toks[i] != Lit('%')
  }

  /** Formatting the compiled string substitutes the arguments for the placeholders,
      provided the literal text holds no `%` of its own. */
  lemma {:induction false} FormatOfFills(toks: seq<Token>, args: seq<string>)
    requires NoPercent(toks) && |args| == |Holes(toks)|
    ensures Format(FormatOf(toks), args) == Some(Fill(toks, args))
    decreases |toks|
  {
    if |toks| > 0 {
      var f := FormatOf(toks);
      match toks[0]
      case Lit(c) =>
        FormatOfFills(toks[1..], args);
        assert f == [c] + FormatOf(toks[1..]);
        assert f[1..] == FormatOf(toks[1..]);
      case Hole(_) =>
        FormatOfFills(toks[1..], args[1..]);
        assert f == "%s" + FormatOf(toks[1..]);
        assert f[2..] == FormatOf(toks[1..]);
    }
  }

  /** Resolve each placeholder (upper-cased) to a variable; the first unknown name
      fails the whole template, as `valueOf` throws. */
  function ResolveVars(holes: seq<string>): (r: Result<seq<FragmentVar>>)
    ensures r.Success? ==> |r.value| == |holes|
    ensures r.Success? ==> forall i :: 0 <= i < |holes| ==> VarName(r.value[i]) == Upper(holes[i])
  {
    if |holes| == 0 then Success([])
    else
      match VarByName(Upper(holes[0]))
      case None => Failure(UnknownName)
      case Some(v) =>
        var rest := ResolveVars(holes[1..]);
        ShiftedHoles(holes);
        if rest.Failure? then Failure(rest.error) else Success([v] + rest.value)
  }

  lemma ShiftedHoles(holes: seq<string>)
    requires |holes| > 0
    ensures forall i :: 1 <= i < |holes| ==> holes[i] == holes[1..][i - 1]
  {
  }

  /** Resolution fails exactly when some placeholder names no variable. */
  lemma {:induction false} ResolveVarsFails(holes: seq<string>)
    ensures ResolveVars(holes).Failure? <==> exists i :: 0 <= i < |holes| && VarByName(Upper(holes[i])).None?
    decreases |holes|
  {
    if |holes| > 0 && VarByName(Upper(holes[0])).Some? {
      ResolveVarsFails(holes[1..]);
      ShiftedHoles(holes);
      if ResolveVars(holes[1..]).Failure? {
        var i :| 0 <= i < |holes[1..]| && VarByName(Upper(holes[1..][i])).None?;
        assert VarByName(Upper(holes[i + 1])).None?;
      }
    }
  }

  /** Some placeholder of the text names no variable, even upper-cased. */
  predicate UnknownHole(s: string) {
    exists i :: 0 <= i < |Holes(Tokenize(s))| && VarByName(Upper(Holes(Tokenize(s))[i])).None?
  }

  /** Compile fragment text into a format string and its variables. */
  function ParseTemplate(s: string): (r: Result<(string, seq<FragmentVar>)>)
    ensures r.Success? ==> r.value.0 == FormatOf(Tokenize(s))
    ensures r.Success? ==> |r.value.1| == |Holes(Tokenize(s))|
    ensures r.Success? ==> forall i :: 0 <= i < |r.value.1| ==>
                             VarName(r.value.1[i]) == Upper(Holes(Tokenize(s))[i])
    ensures r.Failure? <==> UnknownHole(s)
  {
    ResolveVarsFails(Holes(Tokenize(s)));
    match ResolveVars(Holes(Tokenize(s)))
    case Failure(e) => Failure(e)
    case Success(vars) => Success((FormatOf(Tokenize(s)), vars))
  }

  /** `<NAME>` for each variable: what the fragment name shows in place of a value. */
  function PlaceholderNames(vars: seq<FragmentVar>): (r: seq<string>)
    ensures |r| == |vars|
    ensures forall i :: 0 <= i < |vars| ==> r[i] == "<" + VarName(vars[i]) + ">"
  {
    if |vars| == 0 then [] else ["<" + VarName(vars[0]) + ">"] + PlaceholderNames(vars[1..])
  }

  /** `getFragmentName`: the format with every variable printed as `<NAME>`; None
      when the format does not accept that many arguments. */
  function FragmentName(c: FragmentChoice): Option<string> {
    Format(c.fmt, PlaceholderNames(c.vars))
  }

  /** The check `validateFragment` makes: formatting with the variable names succeeds. */
  predicate FormatAccepts(fmt: string, vars: seq<FragmentVar>) {
    Format(fmt, seq(|vars|, i requires 0 <= i < |vars| => VarName(vars[i]))).Some?
  }

  /** A format that passed validation always has a fragment name. */
  lemma AcceptedHasName(c: FragmentChoice)
    requires FormatAccepts(c.fmt, c.vars)
    ensures FragmentName(c).Some?
  {
    FormatDefinedByArity(c.fmt, seq(|c.vars|, i requires 0 <= i < |c.vars| => VarName(c.vars[i])),
                         PlaceholderNames(c.vars));
  }

  /** The text with every placeholder's content upper-cased. */
  function UpperHoles(toks: seq<Token>): (r: seq<Token>)
    ensures |r| == |toks|
  {
    if |toks| == 0 then []
    else (match toks[0] case Lit(c) => [Lit(c)] case Hole(n) => [Hole(Upper(n))]) + UpperHoles(toks[1..])
  }

  lemma {:induction false} FillWithBracketed(toks: seq<Token>, names: seq<string>)
    requires |names| == |Holes(toks)|
    requires forall i :: 0 <= i < |names| ==> names[i] == "<" + Upper(Holes(toks)[i]) + ">"
    ensures Fill(toks, names) == Detokenize(UpperHoles(toks))
    decreases |toks|
  {
    if |toks| > 0 {
      var rest := UpperHoles(toks[1..]);
      match toks[0]
      case Lit(c) =>
        assert Holes(toks) == Holes(toks[1..]);
        FillWithBracketed(toks[1..], names);
        assert UpperHoles(toks) == [Lit(c)] + rest;
        assert ([Lit(c)] + rest)[1..] == rest;
      case Hole(n) =>
        var hs := Holes(toks[1..]);
        assert Holes(toks) == [n] + hs;
        assert forall i :: 0 <= i < |names[1..]| ==> names[1..][i] == "<" + Upper(hs[i]) + ">" by {
          forall i | 0 <= i < |names[1..]|
            ensures names[1..][i] == "<" + Upper(hs[i]) + ">"
          {
            assert names[i + 1] == "<" + Upper(Holes(toks)[i + 1]) + ">";
            assert Holes(toks)[i + 1] == hs[i];
          }
        }
        FillWithBracketed(toks[1..], names[1..]);
        assert UpperHoles(toks) == [Hole(Upper(n))] + rest;
        assert ([Hole(Upper(n))] + rest)[1..] == rest;
    }
  }

  /** Parsing a template and printing its fragment name gives the template back, with
      the placeholder names upper-cased, whenever the text holds no literal `%`. */
  lemma ParseThenNameRoundTrip(s: string, key: string)
    requires forall i :: 0 <= i < |s| ==> s[i] != '%'
    requires ParseTemplate(s).Success?
    ensures FragmentName(FragmentChoice(ParseTemplate(s).value.0, ParseTemplate(s).value.1, key))
            == Some(Detokenize(UpperHoles(Tokenize(s))))
  {
    var toks := Tokenize(s);
    var vars := ParseTemplate(s).value.1;
    TokenizeRoundTrip(s);
    TokensOfPercentFree(s);
    var names := PlaceholderNames(vars);
    FormatOfFills(toks, names);
    FillWithBracketed(toks, names);
  }

  /** No literal token of a `%`-free text is a `%`. */
  lemma {:induction false} TokensOfPercentFree(s: string)
    requires forall i :: 0 <= i < |s| ==> s[i] != '%'
    ensures NoPercent(Tokenize(s))
    decreases |s|
  {
    if |s| > 0 {
      if OpensHole(s) {
        TokensOfPercentFree(s[HoleEnd(s) + 1..]);
      } else {
        TokensOfPercentFree(s[1..]);
      }
    }
  }
}
