# SQLancer++ general provider: a Dafny model of its feedback-directed generation core

SQLancer++'s "general" provider tests a database system it knows nothing about in advance. It generates SQL statements from a small built-in grammar and from fragments learned at run time. Each fragment is a template with `<VARIABLE>` placeholders, stored under an integer hole key. Every generated statement records which generator nodes, composite features (functions, operators, column types) and fragment choices it used. After each database the recorded successes and attempts become per-feature rates, and the rates decide which features stay enabled. Bugs are deduplicated against earlier bug reports by the features they used.

This project models that core as pure functions over immutable datatypes:

- `base.dfy`: `Option`/`Result` and small sequence helpers.
- `text.dfy`: the Java string operations the core relies on. These are `trim`, `split` with trailing empties dropped, `indexOf`, `toUpperCase` on ASCII, `replace`, and `Integer.parseInt` with its 32-bit range. `parseInt` reads the decimal digits of every script, as `Character.digit` does, so full-width `１` is the digit one.
- `features.dfy`: generator nodes, fragment variables, fragment choices, composite-key spelling.
- `templates.dfy`: `String.format` restricted to `%s`, `%%` and `%n`, and the `<name>` placeholder compiler. The placeholder compiler covers tokenising, the `%s` format, the variable list and the fragment name.
- `controller.dfy`: `GeneralErrorHandler`. It covers score records, tallies, rates, option updates, function pruning, example recording, bug deduplication and per-database depth.
- `fragments.dfy`: `GeneralFragments`. It covers adding, parsing, CSV line loading, `get`, placeholders and feedback pruning.
- `builder.dfy`: `GeneralStringBuilder` and test-object substitution.
- `types.dfy`: `GeneralDataType`, `GeneralCompositeDataType` and `GeneralTypeFragments`.
- `schema.dfy`: tables, the free-table-name search, replace-or-append of a schema delta, and dropping.
- `session.dfy`: `GeneralGlobalState` and the provider's action logic.
- `functions.dfy`: `GeneralFunction`. It covers the function table, the rejection-loop draw, the compatible functions of a type, the learning sketch, the validation statements and loading learned functions.
- `operators.dfy`: `GeneralBinaryOperator`. It covers the operator table, the draws in general and by type, the learning sketch, the validation statement and loading learned operators.
- `joins.dfy`: `GeneralJoin`. It covers the join-type and outer-type selectors, join expressions, pairing tables into joins, joins with subqueries, and what each join records.
- `exprgen.dfy`: `GeneralTypedExpressionGenerator`. It covers the depth cut-off, the function, cast, CASE and binary-operator branches, the expressions of each primitive type, the weighted boolean kinds, column compatibility, constants, the NULL flag and its credit rules, negation, IS NULL, and ORDER BY terms. The random decisions of one expression node form a `Plan`, with one child plan per sub-expression.
- `queries.dfy`: what the statement generators share. It covers the query with its expected errors, statement skeletons with their learn-mode sketch and bare text, the substitution `genValStatements` applies to a sketch, emitting a skeleton through the string builder, the random target table, `nonEmptySubset`, and the column names and stand-ins.
- `indexgen.dfy`: `GeneralIndexGenerator`. It covers the index name, the UNIQUE coin, the column list, the WHERE coin, the schema delta, the statement as sketch and as bare text, and the validation statement of an index fragment.
- `statementgen.dfy`: `GeneralStatementGenerator`. It covers the learn-mode script with its three holes, the one-hole command outside learn mode, the empty command that yields no statement, the DDL check on learned commands, and their (empty) validation statements.
- `altergen.dfy`: `GeneralAlterTableGenerator`. It covers the three actions, the free column name, the removal of the columns of a name, and the delta with its new column list.
- `insertgen.dfy`: `GeneralInsertGenerator`. It covers the column subset, the row loop with its redrawn bound, the choice between untyped and typed constants, and the statement text.
- `updategen.dfy`: `GeneralUpdateGenerator`. It covers the SET list, the choice between expressions and constants, the expected errors, and the optional WHERE clause with its score.
- `deletegen.dfy`: `GeneralDeleteGenerator`: the target table and the optional WHERE clause.
- `viewgen.dfy`: `GeneralViewGenerator`. It covers the view name, the numbered columns, the MATERIALIZED coin, the delta, and the restored composite scores.
- `tablegen.dfy`: `GeneralTableGenerator`. It covers the column loop with its scores, the primary key over all but the last column, the new table's name, the statement as sketch and as bare text, and the validation statement of a table fragment.
- `learning.dfy`: `GeneralLearningManager` and `GeneralTemplateLearner.process`. It covers the SQL features a learner can be asked about, the topic pool and its initialisation, the refill of an empty type store, the rare-or-first-database choice of an unlearned topic, the topic recorded per database, and the cutting of a learner's answer into fragment lines.
- `selects.dfy`: `GeneralSelect` as the oracles build it: fetched items, FROM list, joins, WHERE clause and ORDER BY terms.
- `autoindex.dfy`: `AutoIndexSelectHelper`. It covers the view and index names, the column-count probe, the CREATE VIEW, CREATE INDEX, SELECT and DROP VIEW texts, the stripping of a trailing `.0..0` from values, the row cap, the fallback to the direct query, and the boolean and row counts through a view.
- `comparator.dfy`: `GeneralComparatorHelper`. It covers reading the first column directly or through an indexed view, and combining three partition queries as one UNION ALL or one by one.
- `norec.dfy`: `GeneralNoRECOracle`. It covers the unoptimized and optimized queries, the expression-generator choice, the two counts, the verdict with what it records, and the reproducer's replay. The lemma `NoREC.ConsistentPasses` states the oracle's principle: a DBMS that evaluates the condition the same way in both queries is not reported.
- `tlp.dfy`: `GeneralQueryPartitioningWhere`. It covers the baseline and the three partitions, the UNION ALL or one-by-one reading, the failure paths, the multiset comparison, and the reproducer's replay. The lemma `TLP.ConsistentPasses` states the principle: the partitions by P, NOT P and P IS NULL of a consistent DBMS add up to the baseline.

Randomness is an explicit parameter: a coin, a pick index, or a sequence of draws. A single pick index chooses `list[pick % |list|]`. A `do … while` rejection loop is a sequence of draws, each a pick and a coin: a round succeeds when the pick lies inside the list, the drawn element's option is enabled and the coin is true; other rounds are rejected, and running out of draws is a failure. Hash-map iteration order, where the result depends on it, is an explicit enumeration of the keys. Floating-point rates are kept as integer pairs `(success, count)`. "rate > 0" is `success > 0` and "rate > 0.5" is `2·success > count`. The lemma `Controller.RateTests` proves both equivalences against real division.

## Model

| member | source | states |
|---|---|---|
| Controller.Bump | src/sqlancer/general/GeneralErrorHandler.java:428-435 | one more use of a key: its count rises by exactly one, every other key's count is unchanged |
| Controller.ScoreNode | src/sqlancer/general/GeneralErrorHandler.java:428-435 | `addScore(node)` raises only the in-flight record's count for that node, by one, and touches neither the other maps nor status |
| Controller.ScoreComposite | src/sqlancer/general/GeneralErrorHandler.java:437-444 | `addScore(String)` raises only that composite key's count, by one |
| Controller.ScoreFragment | src/sqlancer/general/GeneralErrorHandler.java:446-453 | `addScore(choice)` raises only that fragment choice's count, by one |
| Controller.LoadCompositeScore | src/sqlancer/general/GeneralErrorHandler.java:463-466 | the composite scores become exactly the saved map; node and fragment scores are untouched |
| Controller.CountSuccess | src/sqlancer/general/GeneralErrorHandler.java:93-109 | each key the record used gains exactly one attempt, not its use count, and gains its use count as success only when the record succeeded |
| Controller.TallyTableCounts | src/sqlancer/general/GeneralErrorHandler.java:159-189 | after tallying a whole table, a key's attempts are the number of records that used it and its successes the uses summed over successful records |
| Controller.Merge | src/sqlancer/general/GeneralErrorHandler.java:191-202 | the run's tallies are added into the all-time tallies key by key |
| Controller.Averages | src/sqlancer/general/GeneralErrorHandler.java:203-209 | a key gets a rate iff its all-time count exceeds the threshold, or quick start is on and it has some success; the rate is its all-time success over count |
| Controller.RateTests | src/sqlancer/general/GeneralErrorHandler.java:295-343 | the integer tests `success > 0` and `2·success > count` agree with `success / count > 0` and `> 0.5` on reals |
| Controller.CalcAverageScore | src/sqlancer/general/GeneralErrorHandler.java:316-328 | all-time counts grow by the run's and the table's contributions; nodes are rated with threshold 100 and quick start, composites with 200 and without, fragments with 10 and with |
| Controller.SetIfAbsent | src/sqlancer/general/GeneralErrorHandler.java:649-659 | only an undecided option is set; a decided one keeps its value, and no other option changes |
| Controller.UpdateByLeastOnce | src/sqlancer/general/GeneralErrorHandler.java:295-308 | an option that is true stays true; every other rated key becomes (rate > 0); keys without a rate are left alone |
| Controller.UpdateByLeastOnceIdempotent | src/sqlancer/general/GeneralErrorHandler.java:295-308 | applying the update twice with the same rates is applying it once |
| Controller.PostUpdateFunctionOptions | src/sqlancer/general/GeneralErrorHandler.java:346-360 | only `FUNCTION-f` keys of listed functions can change, and only to false |
| Controller.PostUpdateOrderFree | src/sqlancer/general/GeneralErrorHandler.java:346-360 | `FUNCTION-f` ends false iff f was already disabled or some argument position of f has no supported type with `f-<i><type>` enabled, whatever the iteration order |
| Controller.ArgKeysUnchanged | src/sqlancer/general/GeneralErrorHandler.java:346-360 | disabling functions never changes which argument positions are unusable |
| Controller.UpdateGeneratorOptionsAsWritten | src/sqlancer/general/GeneralErrorHandler.java:331-344 | the update as written fails (a null dereference in Java) exactly when UNTYPE_EXPR ends enabled without a rate, or is missing |
| Controller.UntypedWithoutEvidenceThrows | src/sqlancer/general/GeneralErrorHandler.java:316-344 | an enabled UNTYPE_EXPR that no record ever used makes the update as written fail after a rate computation |
| Controller.UntypedWithoutEvidenceExample | src/sqlancer/general/GeneralErrorHandler.java:340-343 | a concrete state (UNTYPE_EXPR enabled, no rates) on which the update as written fails |
| Controller.UpdateGeneratorOptions | src/sqlancer/general/GeneralErrorHandler.java:331-344 | enabled nodes other than UNTYPE_EXPR stay enabled; an enabled UNTYPE_EXPR with a rate stays enabled only if its rate is above 0.5; it agrees with the version as written wherever that one succeeds |
| Controller.InitGeneratorOptions | src/sqlancer/general/GeneralErrorHandler.java:362-366 | UNTYPE_EXPR is decided afterwards, false unless it already had a value; other options keep their values |
| Controller.NewHandler | src/sqlancer/general/GeneralErrorHandler.java:257-264 | a fresh handler has an empty table and record; options are initialised only when none exist |
| Controller.SetExample | src/sqlancer/general/GeneralErrorHandler.java:670-687 | every feature of the record without an example gets this SQL; existing examples are never overwritten |
| Controller.AppendScoreToTable | src/sqlancer/general/GeneralErrorHandler.java:476-488 | the record is appended with its status and query flag, a fresh record starts, and examples are recorded only on success |
| Controller.LastRecord | src/sqlancer/general/GeneralErrorHandler.java:472-474 | the last record of the table, and a failure on an empty table |
| Controller.AppendHistory | src/sqlancer/general/GeneralErrorHandler.java:490-492 | the database's history entry becomes the last record; an empty table is a failure |
| Controller.ScanHistory | src/sqlancer/general/GeneralErrorHandler.java:519-594 | some verdict other than "not a duplicate" iff some remembered record of equal status matches by the four rules; the skip verdict only for failed records, decided by the first match |
| Controller.CheckIfDuplicate | src/sqlancer/general/GeneralErrorHandler.java:519-594 | true iff a remembered entry in iteration order is duplicated by the last record; a skip is only reported for a failed record |
| Controller.RememberedIsDuplicate | src/sqlancer/general/GeneralErrorHandler.java:519-594 | a record that is itself remembered is always found as a duplicate |
| Controller.DatabaseKey | src/sqlancer/general/GeneralErrorHandler.java:270-271 | the depth key is the database name up to the first `_`; a name made only of `_` has none (Java's split yields no element) |
| Controller.SetCurDepth | src/sqlancer/general/GeneralErrorHandler.java:280-283 | it throws exactly when the name has no key before an underscore; reading back gives the value set; every database with another key keeps its depth, and nothing but the depth map changes |
| Controller.IncrementCurDepth | src/sqlancer/general/GeneralErrorHandler.java:270-293 | the depth (default 1) rises by exactly one for this key and for no other key, and nothing but the depth map changes |
| Fragments.WithKey | src/sqlancer/general/learner/GeneralFragments.java:197-202 | the key's list exists afterwards, created empty when missing; other lists are untouched |
| Fragments.Classify | src/sqlancer/general/learner/GeneralFragments.java:203-224 | duplicate iff the trimmed format is stored under the key; invalid iff not a duplicate and validation fails; disabled iff valid but its name is on the disabled list |
| Fragments.Stored | src/sqlancer/general/learner/GeneralFragments.java:197-227 | the key's list gains the choice at its end exactly when it is added; other keys are untouched |
| Fragments.AddFragment | src/sqlancer/general/learner/GeneralFragments.java:196-228 | the key's list always exists afterwards; the trimmed choice is appended to both the fragment and new-fragment lists iff it is new, valid and not disabled; nothing else changes |
| Fragments.AddFragmentWellFormed | src/sqlancer/general/learner/GeneralFragments.java:196-228 | adding keeps every stored choice under its own key and validated |
| Fragments.PlaceHolder | src/sqlancer/general/learner/GeneralFragments.java:248-250 | the placeholder is `{`, the decimal index, `}` |
| Fragments.PlaceHolderInjective | src/sqlancer/general/learner/GeneralFragments.java:248-250 | distinct holes get distinct placeholders |
| Fragments.RenderDefined | src/sqlancer/general/learner/GeneralFragments.java:137-141 | a validated choice always renders with any variable values |
| Fragments.Get | src/sqlancer/general/learner/GeneralFragments.java:230-246 | sketch mode yields `{i}` and records nothing; a missing or empty list yields `""`; otherwise some stored choice of that key is rendered and exactly one score is recorded, for it |
| Fragments.ParseFragments | src/sqlancer/general/learner/GeneralFragments.java:315-342 | a non-integer key is skipped; an unknown placeholder name rejects the line without change; otherwise the compiled template goes through `addFragment`; lists only grow |
| Fragments.ParseRejectsUnknownName | src/sqlancer/general/learner/GeneralFragments.java:325-338 | a line is rejected for an unknown name iff it is not skipped and one of its placeholders names no variable after upper-casing |
| Fragments.ParseAddsCompiledChoice | src/sqlancer/general/learner/GeneralFragments.java:315-342 | an added line appends one choice whose format is the trimmed `%s` format and whose variables are the upper-cased placeholders in order |
| Fragments.Preprocess | src/sqlancer/general/gen/GeneralStatementGenerator.java:84-88 | only statement fragments are rewritten, and a line with `;` keeps one |
| Fragments.PreprocessWithoutTestObjects | src/sqlancer/general/gen/GeneralStatementGenerator.java:84-88 | a line without `TEST_TABLE`/`TEST_COLUMN` is not changed |
| Fragments.SplitLine | src/sqlancer/general/learner/GeneralFragments.java:283-285 | the line is split at its first `;`: key, `;`, content reassemble the line |
| Fragments.LoadLine | src/sqlancer/general/learner/GeneralFragments.java:279-296 | a line without `;` changes nothing; lists only grow; well-formedness is kept |
| Fragments.LoadCSVAppend | src/sqlancer/general/learner/GeneralFragments.java:274-301 | loading two chunks of lines is loading one after the other |
| Fragments.LoadSkipsPlainLines | src/sqlancer/general/learner/GeneralFragments.java:279-281 | lines without `;` load nothing |
| Fragments.UnknownVariableLineIgnored | src/sqlancer/general/learner/GeneralFragments.java:289-297 | a line whose content names an unknown variable is swallowed without effect |
| Fragments.KeepEnabled | src/sqlancer/general/learner/GeneralFragments.java:361-367 | a choice survives iff it was there and its option is enabled (absent counts as enabled) |
| Fragments.KeepEnabledAppend | src/sqlancer/general/learner/GeneralFragments.java:361-367 | the filter keeps order: it distributes over concatenation |
| Fragments.KeepEnabledAll | src/sqlancer/general/learner/GeneralFragments.java:361-367 | with every choice enabled the list is unchanged |
| Fragments.UpdateByFeedback | src/sqlancer/general/learner/GeneralFragments.java:361-367 | every list loses exactly its disabled choices and keeps the others in order; no key is added or removed |
| Fragments.HelpLines | src/sqlancer/general/learner/GeneralFragments.java:475-486 | every variable but NULL has its help line |
| Templates.FormatDefinedByArity | src/sqlancer/general/learner/GeneralFragments.java:303-309 | whether a format accepts its arguments depends only on how many there are |
| Templates.TokenizeRoundTrip | src/sqlancer/general/learner/GeneralFragments.java:321-338 | the placeholder scan loses nothing: printing its tokens back gives the input |
| Templates.ResolveVars | src/sqlancer/general/learner/GeneralFragments.java:331-335 | one variable per placeholder, named by its upper-cased content |
| Templates.ResolveVarsFails | src/sqlancer/general/learner/GeneralFragments.java:331-335 | resolution fails exactly when some placeholder, upper-cased, names no variable |
| Templates.ParseTemplate | src/sqlancer/general/learner/GeneralFragments.java:321-338 | the format is the text with each placeholder replaced by `%s`; the variables follow the placeholders in order; failure iff a name is unknown |
| Templates.FormatOfFills | src/sqlancer/general/learner/GeneralFragments.java:321-338 | formatting the compiled template with arguments puts them back where the placeholders were |
| Templates.PlaceholderNames | src/sqlancer/general/learner/GeneralFragments.java:157-159 | each variable is re-rendered as `<NAME>` |
| Templates.AcceptedHasName | src/sqlancer/general/learner/GeneralFragments.java:157-159 | a choice that passed validation always has a fragment name |
| Templates.ParseThenNameRoundTrip | src/sqlancer/general/learner/GeneralFragments.java:157-159 | for text without `%`, parsing and then naming restores the text with upper-cased placeholders |
| Builder.ReplaceTestObject | src/sqlancer/general/GeneralProvider.java:148-158 | the identity on an empty map; a single entry replaces every occurrence of its key |
| Builder.ReplaceTestObjectAbsent | src/sqlancer/general/GeneralProvider.java:148-158 | text mentioning none of the stand-ins is unchanged |
| Builder.ReplaceTestObjectSelf | src/sqlancer/general/GeneralProvider.java:148-158 | a stand-in that maps to itself changes nothing |
| Builder.NewBuilderWith | src/sqlancer/general/learner/GeneralStringBuilder.java:20-25 | the three-argument constructor starts empty with the given randomness flag |
| Builder.Append | src/sqlancer/general/learner/GeneralStringBuilder.java:27-33 | exactly the given text is added |
| Builder.AppendHole | src/sqlancer/general/learner/GeneralStringBuilder.java:35-43 | the object text always comes first; the hole's fragment, after test-object substitution, follows iff learn mode, no randomness, or the coin; only then can a score be recorded |
| Builder.SketchShowsPlaceholder | src/sqlancer/general/learner/GeneralStringBuilder.java:35-43 | in sketch mode a hole shows `{i}` and records nothing |
| Builder.FixedBuilderTakesEveryHole | src/sqlancer/general/learner/GeneralStringBuilder.java:20-40 | without randomness the coin does not matter |
| Types.TypeName | src/sqlancer/general/GeneralSchema.java:470-490 | INT, VARCHAR or VARCHAR(id), BOOLEAN, NULL, and the upper-cased registered name for a learned type |
| Types.FirstId | src/sqlancer/general/GeneralSchema.java:398-403 | the first registered id carrying a name, none iff the name is not registered |
| Types.ByName | src/sqlancer/general/GeneralSchema.java:386-407 | no name gives none; BOOLEAN, VARCHAR and INT give the id-0 built-ins; a registered name gives its learned type; anything else gives none |
| Types.BuiltinNameRoundTrip | src/sqlancer/general/GeneralSchema.java:386-407 | looking up a built-in type's printed name gives the type back |
| Types.LearnedNameRoundTrip | src/sqlancer/general/GeneralSchema.java:386-407 | an upper-case, non-built-in, uniquely registered name round-trips through printing and lookup |
| Types.SupportedTypes | src/sqlancer/general/GeneralSchema.java:409-424 | exactly INT, BOOLEAN and STRING with id 0 plus the learned ids below the counter; never NULL |
| Types.Weights | src/sqlancer/general/GeneralSchema.java:321-338 | NULL never, each built-in once, VARTYPE exactly counter times |
| Types.PrimitiveWithoutNull | src/sqlancer/general/GeneralSchema.java:313-319 | the redraw loop never returns NULL and runs out only if every draw was NULL |
| Types.RandomWithoutNull | src/sqlancer/general/GeneralSchema.java:437-467 | the type comes from the weights; ids are 1, 2, 4, 8 for INT, 0 or 500 for BOOLEAN and STRING, a registered id for learned types |
| Types.WeightedDrawSupported | src/sqlancer/general/GeneralSchema.java:437-467 | a draw from the computed weights always succeeds and names a printable type |
| Types.RandomForTopic | src/sqlancer/general/GeneralSchema.java:426-435 | on the rare coin a known topic type is returned; otherwise the weighted draw |
| Types.UpdateTypeToFunction | src/sqlancer/general/GeneralSchema.java:298-304 | a missing entry or overwrite replaces the list; otherwise functions are appended; other types untouched |
| Types.UpdateTypeToFunctionTwice | src/sqlancer/general/GeneralSchema.java:298-304 | two appends are one append of the concatenation |
| Types.Register | src/sqlancer/general/GeneralSchema.java:114-121 | a new type key gets the next id, availability and an empty function list; a known key changes nothing |
| Types.ParseTypeAsWritten | src/sqlancer/general/GeneralSchema.java:94-122 | the type is registered as available whenever no exception was raised, even when nothing was stored |
| Types.DisabledTypeLiteralBreaksConsistency | src/sqlancer/general/GeneralSchema.java:114-121 | for a new type of any name, a disabled literal leaves it available with no choice, so drawing a literal for it fails |
| Types.ParseType | src/sqlancer/general/GeneralSchema.java:94-122 | corrected: a new type is registered as available iff it has a stored choice |
| Types.ParseTypeConsistent | src/sqlancer/general/GeneralSchema.java:94-122 | with the correction, "available" always means "has a choice" |
| Types.TypeLiteral | src/sqlancer/general/GeneralSchema.java:133-147 | `"NULL"` for a missing or unavailable type; otherwise a rendering of one of its choices, scored only while the database is being created |
| Types.TypeLiteralAt | src/sqlancer/general/GeneralSchema.java:125-131 | sketch mode gives the placeholder; otherwise the literal of the type registered under that id |
| Types.UpdateTypesByFeedback | src/sqlancer/general/GeneralSchema.java:150-162 | the fragments are pruned and each type with fragments becomes available iff its list is non-empty |
| Types.StripQuotesRemovesOnlyQuotes | src/sqlancer/general/GeneralSchema.java:250 | the regex removes only leading and trailing double quotes |
| Types.StripQuotesIdempotent | src/sqlancer/general/GeneralSchema.java:250 | stripping twice is stripping once |
| Types.TopicCase | src/sqlancer/general/GeneralSchema.java:245-280 | exactly the keys 0 to 5 select a case |
| Types.AddSpecific | src/sqlancer/general/GeneralSchema.java:240-280 | key 0 adds a type literal, 1 to 3 add a function of arity 0 to 2, 4 a BOOLEAN operator, 5 an operator of the topic; each touches only its own store and key |
| Types.AddSpecificListsFunction | src/sqlancer/general/GeneralSchema.java:249-269 | keys 1 and 2 list the function under the topic's type when accepted; key 3 never does |
| Types.ParseSpecific | src/sqlancer/general/GeneralSchema.java:217-245 | a non-integer key or unknown placeholder name changes nothing; otherwise the case of the key is applied |
| Schema.Candidate | src/sqlancer/general/GeneralSchema.java:556 | the candidate name is `t` followed by the decimal index |
| Schema.OneCandidatePerName | src/sqlancer/general/GeneralSchema.java:549-561 | a name ends with at most one candidate |
| Schema.BlockingShrinks | src/sqlancer/general/GeneralSchema.java:549-561 | moving past a taken candidate lowers the number of names that can still block the search |
| Schema.FreeFrom | src/sqlancer/general/GeneralSchema.java:549-561 | the result is the first index from the start that no table name ends with |
| Schema.FreeTableName | src/sqlancer/general/GeneralSchema.java:549-561 | the name is `t<i>` with i at least the start and is not a suffix of any table name |
| Schema.FindByName | src/sqlancer/general/GeneralProvider.java:205-211 | the first table of that name, none iff no table has it |
| Schema.UpdateSchema | src/sqlancer/general/GeneralProvider.java:201-219 | a pending table replaces the first of its name, else is appended; no pending table changes nothing |
| Schema.UpdateSchemaIdempotent | src/sqlancer/general/GeneralProvider.java:201-219 | applying the same delta twice is applying it once |
| Schema.UpdateSchemaNames | src/sqlancer/general/GeneralProvider.java:201-219 | the names afterwards are the old names plus the delta's |
| Schema.DropByName | src/sqlancer/general/GeneralProvider.java:440-458 | the first table of that name is removed, whatever the DROP's outcome |
| Schema.DropUndoesAdd | src/sqlancer/general/GeneralProvider.java:201-219 | dropping a table that a delta just appended restores the schema |
| Schema.DropKeepsOthers | src/sqlancer/general/GeneralProvider.java:440-458 | every table of another name survives a drop |
| Session.ActionNodeInjective | src/sqlancer/general/GeneralProvider.java:57-84 | each action is switched by its own node |
| Session.EnabledActions | src/sqlancer/general/GeneralProvider.java:97-102 | an action is kept iff its node is enabled |
| Session.AvailableActions | src/sqlancer/general/GeneralProvider.java:97-102 | exactly the actions whose same-named node is enabled |
| Session.EnabledActionsInOrder | src/sqlancer/general/GeneralProvider.java:97-102 | with every node enabled all actions are available, in declaration order |
| Session.AllActionsAtStart | src/sqlancer/general/GeneralProvider.java:97-102 | with no option decided every action is available |
| Session.Draw | src/sqlancer/general/GeneralProvider.java:104-129 | a draw lies in [lo, hi), or is lo when the range is empty |
| Session.MapActions | src/sqlancer/general/GeneralProvider.java:104-129 | CREATE_INDEX repeats 0 times without index testing; GENERAL_COMMAND 5 to 9 times; the others within their configured bounds |
| Session.SetTestObject | src/sqlancer/general/GeneralProvider.java:160-162 | the map gains or overwrites the entry; its enumeration stays exact |
| Session.CleanedObjectsReplaceNothing | src/sqlancer/general/GeneralProvider.java:148-166 | after cleaning, substitution is the identity |
| Session.ReplaceObjects | src/sqlancer/general/GeneralProvider.java:148-158 | the identity on an empty map or on text without stand-ins |
| Session.ApplyPending | src/sqlancer/general/GeneralProvider.java:201-219 | the pending table is merged and cleared; nothing else changes |
| Session.ExecuteEpilogue | src/sqlancer/general/GeneralProvider.java:222-233 | the schema is updated iff the statement could affect it and succeeded |
| Session.EpilogueSettles | src/sqlancer/general/GeneralProvider.java:201-233 | after a successful update the table is in the schema and a second epilogue changes nothing |
| Session.ExecuteStatement | src/sqlancer/general/GeneralProvider.java:242-255 | an exception records (fail, non-query) and is rethrown; otherwise (success, non-query, sql) is recorded and the success returned |
| Session.ExecuteStatementValid | src/sqlancer/general/GeneralProvider.java:242-255 | executing keeps the state's invariants |
| Session.UpdateFragments | src/sqlancer/general/GeneralErrorHandler.java:310-314 | the table, index and type stores are pruned by fragment options; the statement store is not |
| Session.LearnFromDatabase | src/sqlancer/general/GeneralProvider.java:277-290 | rates and options change only with feedback on; the untyped flag forces UNTYPE_EXPR on; stores are pruned only with feedback and extra features; no enabled node other than UNTYPE_EXPR is disabled |
| Session.LearnKeepsValid | src/sqlancer/general/GeneralProvider.java:277-290 | learning keeps the state's invariants |
| Session.CloseDatabase | src/sqlancer/general/GeneralProvider.java:270-291 | the database counter rises by one; on a bug the last record is remembered and nothing else learned; otherwise the learning step runs |
| Session.DeepenStep | src/sqlancer/general/GeneralProvider.java:297-299 | the depth rises by one only while it is below the maximum |
| Session.UpdateHandler | src/sqlancer/general/GeneralProvider.java:257-303 | nothing happens without error handling; otherwise the database is closed and the depth deepened |
| Session.CloseDatabaseValid | src/sqlancer/general/GeneralProvider.java:270-291 | closing keeps the state's invariants |
| Session.UpdateHandlerValid | src/sqlancer/general/GeneralProvider.java:257-303 | the handler update keeps the state's invariants |
| Session.CheckIfDuplicateSession | src/sqlancer/general/GeneralProvider.java:305-311 | false whenever the deduplicator is off; a positive answer names a remembered duplicate |
| Session.RecordedBugIsDuplicate | src/sqlancer/general/GeneralProvider.java:257-311 | a bug just remembered by the handler is reported as a duplicate |
| Session.DropObject | src/sqlancer/general/GeneralProvider.java:404-420 | the first schema entry of that name is removed, nothing else changes |
| Text.JoinPieces | src/sqlancer/general/learner/GeneralFragments.java:283-284 | splitting at a character and joining with it gives the text back |
| Text.ParseIntRoundTrip | src/sqlancer/general/learner/GeneralFragments.java:318-323 | every 32-bit integer's decimal form parses back to it |
| Text.BlockZero | src/sqlancer/general/learner/GeneralFragments.java:319-319 | a code point lies in the Unicode decimal-digit block whose zero is returned, and that zero is one of the 37 blocks of the Basic Multilingual Plane; otherwise -1 |
| Text.DecimalDigit | src/sqlancer/general/learner/GeneralFragments.java:319-319 | `Character.digit(c, 10)`: a value from 0 to 9 that is the distance from the block's zero, the usual value for ASCII digits, and -1 for a non-digit |
| Text.ScriptDigitsParse | src/sqlancer/general/learner/GeneralFragments.java:319-319 | full-width `１` followed by Arabic-Indic `٣` parses to 13, a signed Devanagari zero to 0, and the superscript `²` is rejected |
| Text.NatToStringInjective | src/sqlancer/general/learner/GeneralFragments.java:231 | distinct indexes have distinct decimal keys |
| Text.UpperIdempotent | src/sqlancer/general/learner/GeneralFragments.java:334 | upper-casing twice is upper-casing once |
| Text.Split | src/sqlancer/general/GeneralErrorHandler.java:271 | Java's split: no piece contains the separator, the first piece runs to the first separator, and the result is empty iff the text is only separators |
| Features.VarByName | src/sqlancer/general/learner/GeneralFragments.java:334 | `valueOf` finds the constant with exactly that name, none iff there is none |
| Features.VarNameRoundTrip | src/sqlancer/general/learner/GeneralFragments.java:334 | every variable is found by its own name |
| Functions.NewFunction | src/sqlancer/general/ast/GeneralFunction.java:115-117 | a negative table entry means a variadic function whose minimum argument count is its magnitude |
| Functions.SignedArityRoundTrip | src/sqlancer/general/ast/GeneralFunction.java:27-32 | the table entry a function was built from is recovered from the function |
| Functions.NrArgs | src/sqlancer/general/ast/GeneralFunction.java:124-130 | a fixed function takes exactly its count; a variadic one its minimum plus the drawn small number |
| Functions.RandomByOptions | src/sqlancer/general/ast/GeneralFunction.java:186-202 | null iff the table is empty; otherwise a table function whose `FUNCTION-name` key is enabled, built from its entry, with that key scored once |
| Functions.RandomByOptionsReaches | src/sqlancer/general/ast/GeneralFunction.java:192-199 | every enabled function can be the one drawn |
| Functions.CompatibleNames | src/sqlancer/general/ast/GeneralFunction.java:206-211 | a name is kept iff it is in the table and both `FUNCTION-f` and `<type>-f` are enabled |
| Functions.CompatibleFunctions | src/sqlancer/general/ast/GeneralFunction.java:204-214 | one function per kept name, each built from its table entry, and a name appears iff it is kept |
| Functions.AllCompatibleWhenUndecided | src/sqlancer/general/ast/GeneralFunction.java:204-214 | with nothing switched off every function is compatible, in table order |
| Functions.NullArgsJoin | src/sqlancer/general/ast/GeneralFunction.java:139-144 | the argument list is `i` NULLs joined by `, ` |
| Functions.LearnStatementText | src/sqlancer/general/ast/GeneralFunction.java:132-149 | the learning sketch is four lines `SELECT {i}(NULL, …) -- Hint: …` for arities 0 to 3, and records nothing |
| Functions.SketchFromText | src/sqlancer/general/ast/GeneralFunction.java:135-147 | each remaining loop iteration appends exactly its line |
| Functions.ValStatements | src/sqlancer/general/ast/GeneralFunction.java:47-60 | a non-numeric key throws; keys 0, 1, 2 give one call of the choice with that many NULLs; other counts give nothing |
| Functions.ValStatementFillsSketch | src/sqlancer/general/ast/GeneralFunction.java:47-60 | the validation call of a learned name is its sketch line with the hole filled and the hint dropped |
| Functions.LearnedEntriesFail | src/sqlancer/general/ast/GeneralFunction.java:241-253 | learning fails iff some key with choices is not an integer |
| Functions.LearnedEntriesSound | src/sqlancer/general/ast/GeneralFunction.java:241-258 | every learned entry is an upper-cased rendered choice paired with its key's number |
| Functions.LearnedEntriesComplete | src/sqlancer/general/ast/GeneralFunction.java:241-258 | every choice of every key contributes its entry |
| Functions.MergeFunctions | src/sqlancer/general/ast/GeneralFunction.java:262-264 | the new entries override the table, old names are kept |
| Functions.MergeFunctionsIdempotent | src/sqlancer/general/ast/GeneralFunction.java:262-264 | merging the same batch twice is merging it once |
| Functions.LoadFunctionsFails | src/sqlancer/general/ast/GeneralFunction.java:241-260 | loading throws iff a key with choices is not an integer |
| Functions.LoadFunctionsNames | src/sqlancer/general/ast/GeneralFunction.java:241-260 | the names afterwards are the old names plus exactly the upper-cased learned choices |
| Functions.LoadFunctionsArity | src/sqlancer/general/ast/GeneralFunction.java:241-260 | a name keeps its arity unless a choice renders to it, in which case its arity is that choice's key |
| Operators.InitOperators | src/sqlancer/general/ast/GeneralBinaryOperator.java:167-179 | exactly the eight built-in spellings, all BOOLEAN |
| Operators.InitialOrder | src/sqlancer/general/ast/GeneralBinaryOperator.java:167-179 | the built-in spellings are distinct and enumerate the table |
| Operators.InitialTableBoolean | src/sqlancer/general/ast/GeneralBinaryOperator.java:167-179 | every built-in operator is offered for BOOLEAN |
| Operators.InitialTableOthers | src/sqlancer/general/ast/GeneralBinaryOperator.java:167-179 | no built-in operator is offered for any other type |
| Operators.RandomByOptions | src/sqlancer/general/ast/GeneralBinaryOperator.java:108-119 | an operator of the table whose `BINOP<op>` key is enabled, scored once; an empty table throws |
| Operators.RandomByOptionsReaches | src/sqlancer/general/ast/GeneralBinaryOperator.java:108-119 | every enabled operator can be the one drawn |
| Operators.OfType | src/sqlancer/general/ast/GeneralBinaryOperator.java:126-131 | exactly the operators whose type equals the requested one |
| Operators.RandomByTypeAsWritten | src/sqlancer/general/ast/GeneralBinaryOperator.java:121-143 | any table entry without a type makes the draw throw, whatever type is asked for |
| Operators.UntypedOperatorThrows | src/sqlancer/general/ast/GeneralBinaryOperator.java:127-128 | a table with `AND` and one untyped learned operator: the draw as written throws, the corrected one returns `AND` |
| Operators.RandomByType | src/sqlancer/general/ast/GeneralBinaryOperator.java:121-143 | corrected: null iff no operator has the type; otherwise an operator of that type with its key enabled, scored once |
| Operators.RandomByTypeAgrees | src/sqlancer/general/ast/GeneralBinaryOperator.java:121-143 | on a table where every operator has a type, the corrected draw is the draw as written |
| Operators.ValStatements | src/sqlancer/general/ast/GeneralBinaryOperator.java:44-49 | one statement, `SELECT NULL ` + the operator + ` NULL;`, from which the operator can be read back |
| Operators.SketchText | src/sqlancer/general/ast/GeneralBinaryOperator.java:158-165 | the learning sketch is the test table, then the WHERE clause with `{0}` between the columns, and records nothing |
| Operators.LearnedEntriesExact | src/sqlancer/general/ast/GeneralBinaryOperator.java:188-200 | the learned entries are exactly the rendered choices paired with the type their key names |
| Operators.LoadOperatorsExact | src/sqlancer/general/ast/GeneralBinaryOperator.java:181-202 | old operators are kept; the new names are exactly the learned ones; an operator no choice renders to keeps its type, the others take the type of a choice's key |
| Joins.NodesDistinct | src/sqlancer/general/ast/GeneralJoin.java:36-77 | each join type and outer type is switched by its own node |
| Joins.RandomJoinType | src/sqlancer/general/ast/GeneralJoin.java:36-46 | the join type drawn has its `<TYPE>_JOIN` node enabled |
| Joins.RandomJoinTypeWithoutNatural | src/sqlancer/general/ast/GeneralJoin.java:48-57 | the join type drawn is never NATURAL and has its node enabled |
| Joins.RandomOuterType | src/sqlancer/general/ast/GeneralJoin.java:67-77 | the outer type drawn has its `<OUTER>_NATURAL_JOIN` node enabled |
| Joins.SelectorsReach | src/sqlancer/general/ast/GeneralJoin.java:36-77 | every enabled type can be drawn by each selector that allows it |
| Joins.JoinExpression | src/sqlancer/general/ast/GeneralJoin.java:138-166 | the join keeps the given sides; running out of draws is the only failure |
| Joins.JoinExpressionShaped | src/sqlancer/general/ast/GeneralJoin.java:138-166 | a natural join has an enabled outer type and no ON; the others carry the generated ON; a subquery is never joined naturally |
| Joins.RecordJoinCounts | src/sqlancer/general/ast/GeneralJoin.java:36-77 | recording a join raises its type's node, its outer type's node and, for a subquery, SUBQUERY by one each, and nothing else |
| Joins.RecordJoinsCounts | src/sqlancer/general/ast/GeneralJoin.java:121-197 | recording a list of joins adds up what each join records and changes only node counts |
| Joins.SubqueryUses | src/sqlancer/general/ast/GeneralJoin.java:191-193 | SUBQUERY is counted once per subquery join and never for a table join |
| Joins.MakeJoins | src/sqlancer/general/ast/GeneralJoin.java:133-133 | one join per pair of sides, or a failure for lack of draws |
| Joins.MakeJoinsSides | src/sqlancer/general/ast/GeneralJoin.java:133-133 | join `i` joins the sides `i` |
| Joins.MakeJoinsShaped | src/sqlancer/general/ast/GeneralJoin.java:138-166 | every join built is shaped and has an enabled type |
| Joins.PairTables | src/sqlancer/general/ast/GeneralJoin.java:125-134 | the loop never takes more tables than there are, and takes none with JOIN disabled |
| Joins.PairTablesInOrder | src/sqlancer/general/ast/GeneralJoin.java:125-134 | pair `i` holds the tables at positions `2i` and `2i+1` |
| Joins.GetJoins | src/sqlancer/general/ast/GeneralJoin.java:121-136 | at most half the tables are paired, the rest stay in order, and JOIN disabled means no join |
| Joins.GetJoinsPairs | src/sqlancer/general/ast/GeneralJoin.java:121-136 | join `i` joins table `2i` with table `2i+1`, shaped and with an enabled type |
| Joins.SubqueryEnds | src/sqlancer/general/ast/GeneralJoin.java:179-194 | the subquery loop stops at its bound or when no table is left |
| Joins.SubqueryEndsInOrder | src/sqlancer/general/ast/GeneralJoin.java:179-194 | iteration `k` joins the next remaining table with `sub<k>` over the one base table |
| Joins.SubqueryBase | src/sqlancer/general/ast/GeneralJoin.java:177-178 | the base table is one of the tables not yet joined |
| Joins.SubqueryPhase | src/sqlancer/general/ast/GeneralJoin.java:174-194 | no subquery join when no table is left or the low-probability coin stops first |
| Joins.SubquerySides | src/sqlancer/general/ast/GeneralJoin.java:168-197 | pairs only when the first coin says so; pairs, subquery joins and the rest partition the table list in order |
| Joins.JoinsWithSubquery | src/sqlancer/general/ast/GeneralJoin.java:168-197 | the joins are built on those sides, the pairs first; the rest is what no join took |
| Joins.JoinsWithSubqueryPairs | src/sqlancer/general/ast/GeneralJoin.java:171-173 | pair `i` joins table `2i` with table `2i+1` |
| Joins.JoinsWithSubquerySources | src/sqlancer/general/ast/GeneralJoin.java:179-194 | subquery join `k` joins the next table after the pairs with `sub<k>` |
| Joins.JoinsWithSubqueryBase | src/sqlancer/general/ast/GeneralJoin.java:177-185 | every subquery selects from a table that was not paired |
| Joins.JoinsWithSubqueryShaped | src/sqlancer/general/ast/GeneralJoin.java:168-197 | no subquery join is natural, and every join is shaped with an enabled type |
| Joins.JoinsWithSubqueryRecordsSubquery | src/sqlancer/general/ast/GeneralJoin.java:191-193 | SUBQUERY is counted exactly once per subquery join |
| ExprGen.HeightZeroIffLeaf | src/sqlancer/general/gen/GeneralTypedExpressionGenerator.java:138-146 | an expression has height zero exactly when it is a column, a constant or a NULL call |
| ExprGen.CreditUnlessNullCounts | src/sqlancer/general/gen/GeneralTypedExpressionGenerator.java:128-131 | the argument key is counted once more exactly when no NULL constant was generated since the flag was last cleared; nothing else changes |
| ExprGen.FinishCallCounts | src/sqlancer/general/gen/GeneralTypedExpressionGenerator.java:160-167 | after a call `FUNCTION-f` is counted once more, `<type>-f` once more only when no argument produced a NULL, and the flag ends clear |
| ExprGen.RandomType | src/sqlancer/general/gen/GeneralTypedExpressionGenerator.java:380-386 | the type always has a printable name, and with columns present and the coin not drawn it is the type of one of the columns |
| ExprGen.Accepting | src/sqlancer/general/gen/GeneralTypedExpressionGenerator.java:114-116 | a supported type is offered for a slot iff its key `f-<i><type>` (or `BINOP<op>-<type>`) is explicitly enabled; an undecided key counts as disabled |
| ExprGen.SlotType | src/sqlancer/general/gen/GeneralTypedExpressionGenerator.java:117-123 | unless the coin or an empty list sends it to `getRandomType`, the type is a supported type whose slot key is enabled; it is always printable |
| ExprGen.ArgBound | src/sqlancer/general/gen/GeneralTypedExpressionGenerator.java:111-111 | the loop bound is read again every round: fixed for a plain function, at least the minimum for a variadic one |
| ExprGen.Continues | src/sqlancer/general/gen/GeneralTypedExpressionGenerator.java:182-182 | the first round of a `smallNumber() + 1` loop is always entered |
| ExprGen.CompatibleEquivalence | src/sqlancer/general/gen/GeneralTypedExpressionGenerator.java:396-405 | type compatibility is reflexive, symmetric and transitive |
| ExprGen.CompatibleByPrimitive | src/sqlancer/general/gen/GeneralTypedExpressionGenerator.java:396-405 | same-primitive strings, integers and booleans are always compatible; two learned types are compatible iff their names agree after upper-casing |
| ExprGen.CompatibleColumns | src/sqlancer/general/gen/GeneralTypedExpressionGenerator.java:457-458 | a column is kept iff its type is compatible with the requested one |
| ExprGen.GenColumn | src/sqlancer/general/gen/GeneralTypedExpressionGenerator.java:456-463 | a compatible column from the table, and a failure iff no column is compatible |
| ExprGen.GenColumnReaches | src/sqlancer/general/gen/GeneralTypedExpressionGenerator.java:456-463 | every compatible column can be the one drawn |
| ExprGen.VartypeConstantAsWritten | src/sqlancer/general/gen/GeneralTypedExpressionGenerator.java:443-449 | as written, the flag is set only by the store's own fallback literal, not by a learned literal that reads NULL |
| ExprGen.LearnedNullLiteralMissed | src/sqlancer/general/gen/GeneralTypedExpressionGenerator.java:443-449 | a learned type whose one format is `NULL`: the literal as written leaves the flag clear, compared by value it sets it |
| ExprGen.VartypeConstant | src/sqlancer/general/gen/GeneralTypedExpressionGenerator.java:443-449 | corrected: the flag is set iff it was set or the literal reads NULL; the store's fallback always reads NULL |
| ExprGen.VartypeConstantAgrees | src/sqlancer/general/gen/GeneralTypedExpressionGenerator.java:443-449 | the corrected constant is the one as written except for the flag on a learned literal that reads NULL |
| ExprGen.GenConstant | src/sqlancer/general/gen/GeneralTypedExpressionGenerator.java:413-436 | on the NULL coin a NULL or a call of an enabled function on NULLs, with the flag set; otherwise a constant of the primitive type, or a learned literal; NULL has no constant |
| ExprGen.GenLeaf | src/sqlancer/general/gen/GeneralTypedExpressionGenerator.java:143-146 | a leaf: a compatible column from the table when one exists and the constant coin is not drawn, a constant otherwise |
| ExprGen.RepeatCount | src/sqlancer/general/gen/GeneralTypedExpressionGenerator.java:282-290 | a kind repeated n times occurs n times |
| ExprGen.ShapeOptionsCount | src/sqlancer/general/gen/GeneralTypedExpressionGenerator.java:282-290 | each kind of boolean expression occurs in the options exactly its weight times |
| ExprGen.PickShape | src/sqlancer/general/gen/GeneralTypedExpressionGenerator.java:292-301 | the kind drawn is among the options, its node is enabled and scored exactly once; nothing else is scored |
| ExprGen.PickShapeReaches | src/sqlancer/general/gen/GeneralTypedExpressionGenerator.java:292-301 | every enabled kind of positive weight can be the one drawn |
| ExprGen.GenExpr | src/sqlancer/general/gen/GeneralTypedExpressionGenerator.java:138-146 | no expression is higher than the levels left below the depth limit, and at the limit it is a leaf |
| ExprGen.GenInner | src/sqlancer/general/gen/GeneralTypedExpressionGenerator.java:148-247 | below the limit the branches keep the height within the levels left |
| ExprGen.GenCall | src/sqlancer/general/gen/GeneralTypedExpressionGenerator.java:148-169 | the call is of a function compatible with the requested type, with at least its minimum number of arguments (exactly its count if not variadic), and the flag ends clear |
| ExprGen.CallOf | src/sqlancer/general/gen/GeneralTypedExpressionGenerator.java:159-168 | the call is of the chosen function with as many arguments as the bound allows, one level deeper, and the flag ends clear |
| ExprGen.GenArgs | src/sqlancer/general/gen/GeneralTypedExpressionGenerator.java:108-135 | at least the function's minimum number of arguments, exactly its count if it is not variadic, each within the levels left |
| ExprGen.GenCast | src/sqlancer/general/gen/GeneralTypedExpressionGenerator.java:171-175 | a cast to the requested type |
| ExprGen.GenCase | src/sqlancer/general/gen/GeneralTypedExpressionGenerator.java:176-191 | a CASE with at least one condition, one result per condition, and an ELSE exactly on the coin |
| ExprGen.GenArms | src/sqlancer/general/gen/GeneralTypedExpressionGenerator.java:182-185 | as many results as conditions, at least one when the loop starts |
| ExprGen.GenOperator | src/sqlancer/general/gen/GeneralTypedExpressionGenerator.java:193-213 | a binary node carrying the learned operator that was drawn |
| ExprGen.GenPrimitive | src/sqlancer/general/gen/GeneralTypedExpressionGenerator.java:216-247 | NULL has no expression (an assertion error); a learned type gets a leaf; a string gets a concatenation |
| ExprGen.GenBoolean | src/sqlancer/general/gen/GeneralTypedExpressionGenerator.java:321-324 | a boolean expression within the levels left |
| ExprGen.GenShape | src/sqlancer/general/gen/GeneralTypedExpressionGenerator.java:325-361 | NOT for the prefix kind, an AND/OR chain of at least two operands, an IN with a non-empty list, or a BETWEEN |
| ExprGen.GenChain | src/sqlancer/general/gen/GeneralTypedExpressionGenerator.java:363-371 | a chain with at least one logical link |
| ExprGen.GenLinks | src/sqlancer/general/gen/GeneralTypedExpressionGenerator.java:365-369 | at least one link when the loop starts |
| ExprGen.GenBooleanOperator | src/sqlancer/general/gen/GeneralTypedExpressionGenerator.java:340-343 | a binary node whose operator, when present, is a learned one of BOOLEAN type |
| ExprGen.GenIn | src/sqlancer/general/gen/GeneralTypedExpressionGenerator.java:373-377 | an IN with at least one expression in its list |
| ExprGen.GenList | src/sqlancer/general/gen/GeneralTypedExpressionGenerator.java:376-376 | exactly the requested number of expressions |
| ExprGen.GenBetween | src/sqlancer/general/gen/GeneralTypedExpressionGenerator.java:346-351 | a BETWEEN within the levels left |
| ExprGen.Negate | src/sqlancer/general/gen/GeneralTypedExpressionGenerator.java:471-474 | NOT applied to the predicate, one level higher |
| ExprGen.IsNull | src/sqlancer/general/gen/GeneralTypedExpressionGenerator.java:476-479 | IS NULL applied to the expression, one level higher |
| ExprGen.PartitionsDistinct | src/sqlancer/general/gen/GeneralTypedExpressionGenerator.java:471-479 | the predicate, its negation and its IS NULL form are three different expressions, and each determines the predicate |
| ExprGen.OrderTerms | src/sqlancer/general/gen/GeneralTypedExpressionGenerator.java:90-96 | one term per expression, in order, each wrapping its expression, with an ordering exactly when its coin was drawn |
| ExprGen.OrderBys | src/sqlancer/general/gen/GeneralTypedExpressionGenerator.java:84-100 | the ORDER BY terms wrap the expressions in order; the composite counts are restored to their value before, node and fragment counts keep what generation earned |
| Queries.FillHoles | src/sqlancer/general/gen/GeneralTableGenerator.java:57-68 | corrected substitution: text without `{` is returned unchanged; with Queries.SketchValidation, the sketch of a skeleton becomes that skeleton with the choice in hole `key` and the other holes empty |
| Queries.FillHolesAsWritten | src/sqlancer/general/gen/GeneralTableGenerator.java:57-68 | as written, the choice goes through `appendReplacement`; the only way it fails is a malformed replacement |
| Queries.Expand | src/sqlancer/general/gen/GeneralTableGenerator.java:66-66 | `appendReplacement`'s reading of the replacement text: the only failure is a malformed replacement (a trailing `\` or `$`, a `$` before a non-digit, a group above 1) |
| Queries.ExpandPlain | src/sqlancer/general/gen/GeneralTableGenerator.java:66-66 | a replacement without `$` or backslash is copied unchanged |
| Queries.FillHolesAsWrittenAgrees | src/sqlancer/general/gen/GeneralTableGenerator.java:57-68 | for a choice without `$` or backslash the code as written gives the corrected result |
| Queries.GroupReferenceReplacesFragment | src/sqlancer/general/gen/GeneralTableGenerator.java:57-68 | the fragment `$1` for hole 0 of `{0}` validates as `0` as written, and as `$1` corrected |
| Queries.TrailingDollarThrows | src/sqlancer/general/gen/GeneralTableGenerator.java:57-68 | the fragment `a$` makes the substitution as written fail, while the corrected one inserts it |
| Queries.SketchValidation | src/sqlancer/general/gen/GeneralTableGenerator.java:57-69 | filling hole `key` of a sketch printed from a brace-free skeleton gives the skeleton with the choice in that hole and every other hole empty |
| Queries.EmptyChoiceIsBare | src/sqlancer/general/gen/GeneralTableGenerator.java:62-66 | validating with the empty choice gives the bare skeleton |
| Queries.ValStatements | src/sqlancer/general/gen/GeneralTableGenerator.java:48-71 | `genValStatements` yields exactly one statement |
| Queries.ValStatementsOfSketch | src/sqlancer/general/gen/GeneralTableGenerator.java:48-71 | for a sketch printed from a brace-free skeleton, the one statement is the skeleton's validation for `key` and `choice` |
| Queries.Targets | src/sqlancer/general/gen/GeneralIndexGenerator.java:105-105 | a table is eligible exactly when it is in the schema, is not a view and, when asked, has a column |
| Queries.RandomTable | src/sqlancer/general/gen/GeneralIndexGenerator.java:105-105 | succeeds iff some eligible table exists, and then returns an eligible table of the schema; otherwise the draw from nothing fails |
| Queries.RandomTableOrBailout | src/sqlancer/general/gen/GeneralDeleteGenerator.java:19-19 | the same draw, but with no eligible table the test case is discarded (`Ignore`) |
| Queries.RandomTableReaches | src/sqlancer/general/gen/GeneralIndexGenerator.java:105-105 | every eligible table is returned by some draw |
| Queries.NonEmptySubset | src/sqlancer/general/gen/GeneralTableGenerator.java:132-133 | succeeds iff the list is non-empty and the positions name at least one element, each at most once; the result is the elements at those positions; an empty list fails |
| Queries.NamesInjective | src/sqlancer/general/gen/GeneralTableGenerator.java:115-125 | different positions give different column names and different stand-ins |
| Queries.ColumnObjects | src/sqlancer/general/gen/GeneralTableGenerator.java:115-117 | afterwards every stand-in TEST_COLUMN<i> names column i, and every other stand-in keeps its object |
| Queries.PlaceholderUntouched | src/sqlancer/general/learner/GeneralStringBuilder.java:38-39 | test-object substitution leaves a placeholder `{i}` unchanged when every stand-in starts with `T` |
| Queries.Emit | src/sqlancer/general/learner/GeneralStringBuilder.java:27-42 | emitting a skeleton succeeds iff there is a draw for every hole, consumes one draw per hole, and changes no node or composite count |
| Queries.EmitSketch | src/sqlancer/general/learner/GeneralStringBuilder.java:35-42 | in learn mode the builder prints the sketch of the skeleton, holes as placeholders, and scores nothing |
| Queries.EmitBare | src/sqlancer/general/learner/GeneralStringBuilder.java:35-42 | outside learn mode, when no hole's coin comes up, the builder prints the bare skeleton and scores nothing |
| Queries.LiteralAppend | src/sqlancer/general/gen/GeneralTableGenerator.java:57-57 | two skeletons without `{` in their text concatenate to one |
| TableGen.ColumnTypeNamed | src/sqlancer/general/gen/GeneralTableGenerator.java:170-173 | every type a column can get has a name, and with the weights computed from the type list a type is always found |
| TableGen.NewColumns | src/sqlancer/general/gen/GeneralTableGenerator.java:165-179 | the loop stops at the first round whose re-drawn bound it has reached: at least two columns in all, fewer columns than draws, and under the computed weights only running out of draws fails |
| TableGen.NewColumnsStep | src/sqlancer/general/gen/GeneralTableGenerator.java:167-176 | a round that ran passed the loop test and its column heads the columns of the later rounds |
| TableGen.NewColumnAt | src/sqlancer/general/gen/GeneralTableGenerator.java:167-176 | round `i + k` passed the loop test and added column `c<i+k>`, neither key nor nullable, of the type its draws give |
| TableGen.NewColumnsLoop | src/sqlancer/general/gen/GeneralTableGenerator.java:165-179 | from round 0 the columns are `c0`, `c1`, ... in order, neither key nor nullable, every type named |
| TableGen.NewColumnsTyped | src/sqlancer/general/gen/GeneralTableGenerator.java:170-173 | every column's type has a name, and a column that did not set the topic aside has the topic's type whenever the topic names one |
| TableGen.ScoreColumns | src/sqlancer/general/gen/GeneralTableGenerator.java:169-175 | COLUMN_NUM rises by the number of new columns; no other node count and no fragment count changes |
| TableGen.ScoreColumnComposite | src/sqlancer/general/gen/GeneralTableGenerator.java:175-175 | one column scores the composite key of its type once |
| TableGen.ScoreColumnsComposites | src/sqlancer/general/gen/GeneralTableGenerator.java:175-175 | each composite key `COLUMN-<type>` rises by the number of new columns of that type |
| TableGen.KeyPositions | src/sqlancer/general/gen/GeneralTableGenerator.java:131-133 | succeeds iff no key is wanted or the positions form a non-empty subset of all but the last column; with a key the positions are the ones drawn |
| TableGen.KeyedColumnsAt | src/sqlancer/general/gen/GeneralTableGenerator.java:145-147 | flagging the drawn positions gives flags at exactly those positions, never on the last column, on at least one column |
| TableGen.KeyStage | src/sqlancer/general/gen/GeneralTableGenerator.java:130-151 | the delta keeps names and types and is not nullable; with a key exactly the drawn positions are primary key and PRIMARY_KEY is scored once; without one no column is; composites unchanged |
| TableGen.AfterColumns | src/sqlancer/general/gen/GeneralTableGenerator.java:118-151 | the column list and the key keep every column's name and type, clear nullability, and flag the key as drawn |
| TableGen.LoopDelta | src/sqlancer/general/gen/GeneralTableGenerator.java:145-149 | a delta that keeps the loop's names and types and clears nullability is the column list of a new table |
| TableGen.KeyNodes | src/sqlancer/general/gen/GeneralTableGenerator.java:134-134 | the column loop's COLUMN_NUM counts followed by one PRIMARY_KEY with a key are all the node counts that change |
| TableGen.AfterLoop | src/sqlancer/general/gen/GeneralTableGenerator.java:118-151 | after the loop the delta is a new table's column list and the node counts grow by the columns and the key |
| TableGen.Body | src/sqlancer/general/gen/GeneralTableGenerator.java:112-151 | two or more columns `c0`, `c1`, ..., none nullable, every type named, the key exactly at the drawn positions (not on the last column) or none; COLUMN_NUM and PRIMARY_KEY counts grow accordingly |
| TableGen.BodyComposites | src/sqlancer/general/gen/GeneralTableGenerator.java:165-179 | the composite key of each column type is scored once per column of that type, and no other composite |
| TableGen.QualifiedFresh | src/sqlancer/general/gen/GeneralTableGenerator.java:94-99 | the new table's name outside learn mode differs from every table name in the schema |
| TableGen.NewTableName | src/sqlancer/general/gen/GeneralTableGenerator.java:94-105 | TEST_TABLE in learn mode, otherwise a name no table of the schema has |
| TableGen.CreateTable | src/sqlancer/general/gen/GeneralTableGenerator.java:89-159 | any error is expected and the statement may change the schema; the pending table is a new base table without indexes named TEST_TABLE in learn mode and fresh otherwise; the flag and the test objects are reset and the session stays valid |
| TableGen.CreateTableColumns | src/sqlancer/general/gen/GeneralTableGenerator.java:112-155 | the pending table has the columns of a new table with the drawn key; COLUMN_NUM rises by the columns, PRIMARY_KEY by one with a key, no other node count changes |
| TableGen.CreateTableComposites | src/sqlancer/general/gen/GeneralTableGenerator.java:165-179 | each composite key `COLUMN-<type>` rises by the number of the new table's columns of that type |
| TableGen.KeyStageText | src/sqlancer/general/gen/GeneralTableGenerator.java:130-151 | the key clause and the close print as their sketch in learn mode and bare when no hole is taken |
| TableGen.AfterColumnsSketch | src/sqlancer/general/gen/GeneralTableGenerator.java:118-151 | in learn mode the columns, key and close print as the sketch with stand-ins for the column names |
| TableGen.AfterColumnsBare | src/sqlancer/general/gen/GeneralTableGenerator.java:118-151 | outside learn mode, with no hole taken, the columns, key and close print bare with the column names |
| TableGen.BodyText | src/sqlancer/general/gen/GeneralTableGenerator.java:112-151 | the part after the head prints as the sketch or the bare skeleton of the new table's columns and key |
| TableGen.TableSketch | src/sqlancer/general/gen/GeneralTableGenerator.java:101-151 | in learn mode the statement is the sketch of `CREATE {0} TABLE  TEST_TABLE(TEST_COLUMN0 <type> {1}, ...[, PRIMARY KEY(...){2}]){3}` for the new table's columns and key |
| TableGen.TableBare | src/sqlancer/general/gen/GeneralTableGenerator.java:106-151 | outside learn mode, with no hole taken, the statement is the bare skeleton with the new table's name, columns, types and key |
| TableGen.SkeletonLiteral | src/sqlancer/general/gen/GeneralTableGenerator.java:106-151 | a skeleton of brace-free names, types and key has no `{` in its text |
| TableGen.TableValidation | src/sqlancer/general/gen/GeneralTableGenerator.java:47-71 | in learn mode, when no column type contains `{`, the validation statement for hole `key` is the learned statement's skeleton with the choice in that hole and the other holes empty |
| Queries.EmitSketchTwice | src/sqlancer/general/learner/GeneralStringBuilder.java:35-42 | in learn mode a head and then a rest emitted from a fresh builder print the sketch of the whole skeleton and score nothing |
| Queries.EmitBareTwice | src/sqlancer/general/learner/GeneralStringBuilder.java:35-42 | outside learn mode, with no hole taken, a head and then a rest print the bare whole skeleton and score nothing |
| IndexGen.IndexName | src/sqlancer/general/gen/GeneralIndexGenerator.java:115-115 | the index name is the shown table name, `i`, and the number of indexes the table has (`i0` for none) |
| IndexGen.IndexNameFresh | src/sqlancer/general/gen/GeneralIndexGenerator.java:115-115 | on a table whose indexes were all named this way, the new name differs from every existing index name, and the extended table is still numbered the same way |
| IndexGen.Where | src/sqlancer/general/gen/GeneralIndexGenerator.java:139-144 | a WHERE clause exactly on the rather-low coin outside learn mode, never in learn mode |
| IndexGen.Scored | src/sqlancer/general/gen/GeneralIndexGenerator.java:97-103 | CREATE_INDEX rises by one, UNIQUE_INDEX by one exactly for a unique index, nothing else changes |
| IndexGen.TableObjects | src/sqlancer/general/gen/GeneralIndexGenerator.java:109-114 | in learn mode the test objects stay as they are; otherwise TEST_TABLE names the drawn table |
| IndexGen.Delta | src/sqlancer/general/gen/GeneralIndexGenerator.java:149-155 | the delta keeps the table's name and columns, is not a view, and has the new index appended to its indexes |
| IndexGen.CreateIndex | src/sqlancer/general/gen/GeneralIndexGenerator.java:93-157 | no non-view table throws; on success the column picks form a non-empty subset, the errors are anything plus the UNIQUE duplicate message (for a unique index), `already exists!` and `Syntax`, the statement may change the schema, the pending delta is the table with the new index, only CREATE_INDEX and UNIQUE_INDEX are scored, and the session stays valid |
| IndexGen.IndexBody | src/sqlancer/general/gen/GeneralIndexGenerator.java:120-155 | the column picks form a non-empty subset, the delta is the table with the new index, no node or composite is scored, and only the handler, delta and test objects change |
| IndexGen.Indexed | src/sqlancer/general/gen/GeneralIndexGenerator.java:145-156 | the query keeps the emitted text with the index errors and may change the schema; the delta becomes pending and the session stays valid |
| IndexGen.IndexColumns | src/sqlancer/general/gen/GeneralIndexGenerator.java:120-123 | the indexed columns are a non-empty subset at distinct positions, and each TEST_COLUMN<i> names the i-th of them |
| IndexGen.IndexSketch | src/sqlancer/general/gen/GeneralIndexGenerator.java:96-138 | in learn mode the statement is the sketch of `CREATE [UNIQUE ]INDEX TEST_TABLEi<n> ON TEST_TABLE {0}(TEST_COLUMN0 {1}, ...) {2}` |
| IndexGen.IndexBare | src/sqlancer/general/gen/GeneralIndexGenerator.java:96-144 | outside learn mode, with no hole taken, the statement is the bare skeleton with the table's name, the index named after it, the chosen columns and the optional WHERE clause |
| IndexGen.IndexNameBraceFree | src/sqlancer/general/gen/GeneralIndexGenerator.java:111-115 | the learn-mode index name has no `{` |
| IndexGen.ColumnListLiteral | src/sqlancer/general/gen/GeneralIndexGenerator.java:124-137 | a column list of brace-free names has no `{` in its text |
| IndexGen.SketchSkeletonLiteral | src/sqlancer/general/gen/GeneralIndexGenerator.java:96-138 | the learn-mode skeleton has no `{` in its text |
| IndexGen.IndexValidation | src/sqlancer/general/gen/GeneralIndexGenerator.java:51-74 | the validation statement for hole `key` is the learned skeleton with the choice in that hole and the other holes empty |
| StatementGen.HoleIndicesAppend | src/sqlancer/general/gen/GeneralStatementGenerator.java:97-111 | the holes of two skeletons in a row are the holes of the first, then those of the second |
| StatementGen.LearnHoles | src/sqlancer/general/gen/GeneralStatementGenerator.java:97-106 | the learn-mode script uses holes 0, 1 and 2, once each, in that order |
| StatementGen.LearnSketchText | src/sqlancer/general/gen/GeneralStatementGenerator.java:97-106 | the learn-mode sketch is the script text with `{0}`, `{1}` and `{2}` where the holes are |
| StatementGen.CommandSkeleton | src/sqlancer/general/gen/GeneralStatementGenerator.java:107-111 | outside learn mode the skeleton has exactly one hole, the drawn option |
| StatementGen.HoleOf | src/sqlancer/general/gen/GeneralStatementGenerator.java:108-108 | the drawn option is hole 0 or hole 1 |
| StatementGen.Printed | src/sqlancer/general/gen/GeneralStatementGenerator.java:95-112 | the builder, which never skips a hole, succeeds iff there is a draw for every hole, and records no node or composite score |
| StatementGen.GetQuery | src/sqlancer/general/gen/GeneralStatementGenerator.java:92-118 | succeeds iff every hole has a draw; only the record changes and the session stays valid; a returned statement is never `;`, expects only the expression errors and does not change the schema |
| StatementGen.LearnQuery | src/sqlancer/general/gen/GeneralStatementGenerator.java:95-117 | in learn mode the statement is the fixed learning script with placeholders `{0}`, `{1}` and `{2}`, and the session is unchanged |
| StatementGen.CommandText | src/sqlancer/general/gen/GeneralStatementGenerator.java:107-112 | outside learn mode the text is the fragment `get` returns for the drawn hole, after test-object substitution, followed by `;`, and the record is what `get` leaves |
| StatementGen.NoCommandIffEmpty | src/sqlancer/general/gen/GeneralStatementGenerator.java:112-117 | outside learn mode no statement is returned exactly when the substituted fragment is empty; otherwise the statement is that fragment and `;` |
| StatementGen.EmptyHoleGivesNothing | src/sqlancer/general/gen/GeneralStatementGenerator.java:107-117 | a hole with no learned commands yields no statement and leaves the session as it was |
| StatementGen.ValStatements | src/sqlancer/general/gen/GeneralStatementGenerator.java:42-45 | a learned command is validated by no statement at all |
| StatementGen.DdlRejected | src/sqlancer/general/gen/GeneralStatementGenerator.java:76-81 | a new command mentioning CREATE, DROP or ALTER is rejected as DDL and stores nothing; no other family rejects anything as DDL |
| StatementGen.DdlFreeLikeNumbered | src/sqlancer/general/gen/GeneralStatementGenerator.java:76-81 | a command without DDL is accepted or rejected exactly as a numbered fragment would be |
| AlterGen.FreeColumnFrom | src/sqlancer/general/gen/GeneralAlterTableGenerator.java:41-41 | the first `c<k>` from the start on that no column is called: every earlier candidate is taken |
| AlterGen.FreeColumnName | src/sqlancer/general/gen/GeneralAlterTableGenerator.java:41-41 | the new column's name is some `c<k>` from the drawn start on, and no column of the table has it |
| AlterGen.RemoveNamedMembers | src/sqlancer/general/gen/GeneralAlterTableGenerator.java:65-65 | exactly the columns of other names survive; the list shrinks when some column has the name and is unchanged otherwise |
| AlterGen.RemoveNamedAppend | src/sqlancer/general/gen/GeneralAlterTableGenerator.java:65-65 | removal keeps the order: removing from two lists in a row is removing from each |
| AlterGen.AddThenDrop | src/sqlancer/general/gen/GeneralAlterTableGenerator.java:39-66 | dropping a column just added under a free name gives back the original columns |
| AlterGen.NewType | src/sqlancer/general/gen/GeneralAlterTableGenerator.java:44-45 | the drawn type is never NULL and is spelled by its SQL name; with the computed weights the draw always succeeds |
| AlterGen.RandomColumn | src/sqlancer/general/gen/GeneralAlterTableGenerator.java:50-50 | the column altered or dropped is one of the table's |
| AlterGen.Using | src/sqlancer/general/gen/GeneralAlterTableGenerator.java:54-57 | the USING clause is present exactly on its coin |
| AlterGen.ChangeOf | src/sqlancer/general/gen/GeneralAlterTableGenerator.java:37-69 | DROP COLUMN always succeeds, and with the computed type weights every action does |
| AlterGen.AlterTable | src/sqlancer/general/gen/GeneralAlterTableGenerator.java:26-74 | no non-view table with columns bails out, and with the computed weights an eligible table always gives a statement; it starts with `ALTER TABLE <name> `, expects the expression errors, may change the schema exactly unless it alters a column, and leaves as its only change a delta with the table's name and indexes that is not a view |
| AlterGen.AlterUnfolds | src/sqlancer/general/gen/GeneralAlterTableGenerator.java:30-73 | the statement is `ALTER TABLE <name> ` followed by the action's text, and the delta carries the action's columns |
| AlterGen.AddAppendsFresh | src/sqlancer/general/gen/GeneralAlterTableGenerator.java:39-47 | ADD COLUMN appends exactly one column, not a key and not nullable, under a name no column has, and the text is `ADD COLUMN <name> <type>` |
| AlterGen.AlterKeepsColumns | src/sqlancer/general/gen/GeneralAlterTableGenerator.java:48-60 | ALTER COLUMN keeps the column list, and the text is `ALTER COLUMN <column> SET DATA TYPE <type>` with the optional USING clause |
| AlterGen.DropRemovesNamed | src/sqlancer/general/gen/GeneralAlterTableGenerator.java:61-66 | DROP COLUMN removes every column of the drawn name and nothing else, so the table loses at least one column |
| AlterGen.AlterReplacesTable | src/sqlancer/general/gen/GeneralAlterTableGenerator.java:70-73 | applied to the schema, the delta takes the place of the first table of its name and every other table stays |
| InsertGen.SourceOf | src/sqlancer/general/gen/GeneralInsertGenerator.java:66-75 | a value is untyped exactly when UNTYPE_EXPR is enabled or the small-probability coin is true, and is otherwise typed with the column's type |
| InsertGen.Row | src/sqlancer/general/gen/GeneralInsertGenerator.java:55-60 | a row is made exactly when there is a value draw for every column |
| InsertGen.RowValues | src/sqlancer/general/gen/GeneralInsertGenerator.java:55-60 | a row has one value per column, in column order, each from the generator its column and coin select |
| InsertGen.Rows | src/sqlancer/general/gen/GeneralInsertGenerator.java:49-63 | the loop stops at the first round whose freshly drawn bound fails the test, and every earlier round adds one row |
| InsertGen.AtLeastOneRow | src/sqlancer/general/gen/GeneralInsertGenerator.java:50-50 | the first round always passes its test, so there is at least one row |
| InsertGen.SteadyRows | src/sqlancer/general/gen/GeneralInsertGenerator.java:50-62 | when every round draws the same bound `n`, exactly `n + 1` rows are inserted |
| InsertGen.RowsValues | src/sqlancer/general/gen/GeneralInsertGenerator.java:49-75 | every row has one value per inserted column, untyped exactly when UNTYPE_EXPR is on or the coin is true, and otherwise typed with its column's type |
| InsertGen.Texts | src/sqlancer/general/gen/GeneralInsertGenerator.java:55-60 | the value texts of a row, one per value and in order |
| InsertGen.GenerateOn | src/sqlancer/general/gen/GeneralInsertGenerator.java:32-45 | the columns are a non-empty subset of the table, there is at least one row, the statement is `INSERT INTO <t>(<columns>) VALUES <rows>` with the insert errors, it does not change the schema, INSERT is scored and `creatingDatabase` ends off |
| InsertGen.Generate | src/sqlancer/general/gen/GeneralInsertGenerator.java:31-46 | no non-view table with columns bails out; otherwise the statement is built on an eligible table of the schema |
| UpdateGen.SettingOf | src/sqlancer/general/gen/GeneralUpdateGenerator.java:49-69 | a value is an expression exactly on the rather-low coin, names its column, and asks the typed generator for the column's type |
| UpdateGen.Settings | src/sqlancer/general/gen/GeneralUpdateGenerator.java:39-39 | the SET list has one setting per column, in column order, and is made exactly when there is a draw for every column |
| UpdateGen.UpdateErrors | src/sqlancer/general/gen/GeneralUpdateGenerator.java:35-65 | the insert errors are always expected, and the expression errors exactly when some value is an expression |
| UpdateGen.WhereText | src/sqlancer/general/gen/GeneralUpdateGenerator.java:40-42 | the WHERE clause is present exactly when UPDATE_WHERE is enabled and the coin is true |
| UpdateGen.WhereScored | src/sqlancer/general/gen/GeneralUpdateGenerator.java:40-44 | UPDATE_WHERE rises by one exactly when the WHERE clause is appended, and no other score moves |
| UpdateGen.GenerateOn | src/sqlancer/general/gen/GeneralUpdateGenerator.java:32-46 | the columns are a non-empty subset of the table, the statement is `UPDATE <t> SET <settings>` with the optional WHERE clause, and only the record changes |
| UpdateGen.Generate | src/sqlancer/general/gen/GeneralUpdateGenerator.java:31-47 | no non-view table with columns bails out; otherwise the statement is built on an eligible table of the schema |
| UpdateGen.GenerateSettings | src/sqlancer/general/gen/GeneralUpdateGenerator.java:33-69 | every chosen column is set once in order; typed values are asked for with the column's type; expression errors are expected exactly when some value is an expression |
| UpdateGen.GenerateWhere | src/sqlancer/general/gen/GeneralUpdateGenerator.java:40-46 | the WHERE clause is present exactly when UPDATE_WHERE is enabled and the coin is true; UPDATE_WHERE is scored exactly then; no other node is scored; the schema never changes |
| DeleteGen.WhereText | src/sqlancer/general/gen/GeneralDeleteGenerator.java:21-25 | the WHERE clause is present exactly on the coin and is always followed by the predicate |
| DeleteGen.Generate | src/sqlancer/general/gen/GeneralDeleteGenerator.java:16-28 | no non-view table with columns bails out, and otherwise the statement always succeeds; it is `DELETE FROM <t>` with the optional WHERE clause, expects the expression errors and leaves the session alone |
| DeleteGen.DeleteText | src/sqlancer/general/gen/GeneralDeleteGenerator.java:17-25 | every eligible table can be the target; the text starts with `DELETE FROM <t>` and is longer than that exactly when there is a WHERE clause |
| ViewGen.ViewName | src/sqlancer/general/gen/GeneralViewGenerator.java:31-33 | the free name is used as it is when CREATE_DATABASE is enabled, and after the database name and delimiter otherwise |
| ViewGen.Columns | src/sqlancer/general/gen/GeneralViewGenerator.java:38-45 | one column per round, as many as asked |
| ViewGen.ColumnsShape | src/sqlancer/general/gen/GeneralViewGenerator.java:38-45 | column `k` is `c<k>`, not a key and not nullable, of a type other than NULL |
| ViewGen.ColumnsSucceed | src/sqlancer/general/gen/GeneralViewGenerator.java:38-45 | with the computed weights and enough type draws the columns are always made; with too few they never are |
| ViewGen.ColumnNamesDistinct | src/sqlancer/general/gen/GeneralViewGenerator.java:42-44 | the columns `c0`, `c1`, ... have pairwise different names |
| ViewGen.Generate | src/sqlancer/general/gen/GeneralViewGenerator.java:24-58 | succeeds exactly when the columns are made; the statement expects the expression errors and may change the schema; the delta is the view with those columns; the composite scores are put back as before the SELECT |
| ViewGen.GenerateView | src/sqlancer/general/gen/GeneralViewGenerator.java:25-56 | the delta is a view, with no index, under the view name, with `smallNumber() + 1 >= 1` columns `c0`..`c<n-1>` of distinct names; the composite scores end as they began |
| ViewGen.ViewTextShape | src/sqlancer/general/gen/GeneralViewGenerator.java:26-50 | the text is `CREATE `, then `MATERIALIZED ` exactly on the coin, then `VIEW <name>(<columns>) AS <select>` |
| LearningManager.SubFeatures | src/sqlancer/general/GeneralLearningManager.java:23-47 | exactly COMMAND and CLAUSE are sub-features, and the five features have five different names |
| LearningManager.SetTopic | src/sqlancer/general/GeneralLearningManager.java:60-63 | the database is mapped to the topic and the topic is marked learned; every other database and topic keeps its entry, and the current topic is untouched |
| LearningManager.InitializePool | src/sqlancer/general/GeneralLearningManager.java:77-83 | an empty pool becomes every topic of the store, each unlearned; a non-empty pool is left as it is |
| LearningManager.Unknown | src/sqlancer/general/GeneralLearningManager.java:99-104 | the topics of a refilled store that the pool does not know yet, each unlearned |
| LearningManager.Prepare | src/sqlancer/general/GeneralLearningManager.java:86-105 | a non-empty store is kept with its availability; an empty one is replaced by the learner's; no pool entry is lost or changed, and the topics and current topic are untouched |
| LearningManager.PrepareFreshPool | src/sqlancer/general/GeneralLearningManager.java:77-105 | after preparing a fresh pool, the pool knows exactly the topics of the store, and none is learned |
| LearningManager.Unlearned | src/sqlancer/general/GeneralLearningManager.java:109-110 | a topic is a candidate exactly when it is in the pool and not learned |
| LearningManager.Recorded | src/sqlancer/general/GeneralLearningManager.java:65-67 | the current topic afterwards is the one recorded for the database, or none when nothing is recorded for it |
| LearningManager.KeepsTopic | src/sqlancer/general/GeneralLearningManager.java:107-133 | off the rare draw and after the first database, nothing is learned or recorded and the current topic is the recorded one |
| LearningManager.AllLearned | src/sqlancer/general/GeneralLearningManager.java:109-115 | when learning with every topic learned, the current topic becomes none and the pool and topics stay as they are |
| LearningManager.PicksUnlearned | src/sqlancer/general/GeneralLearningManager.java:116-126 | a picked topic was unlearned; afterwards it is learned, recorded for the database and current; the store is the one parsed from the learner's answer; it is available exactly as the store's formats allow, and every other topic keeps its availability |
| LearningManager.EveryUnlearnedReachable | src/sqlancer/general/GeneralLearningManager.java:109-121 | every unlearned topic of the store is the one picked for some draw |
| LearningManager.FirstLearnPicks | src/sqlancer/general/GeneralLearningManager.java:85-121 | the first database on a fresh pool never reads a missing topic, and it picks a topic exactly when the (possibly refilled) store has one |
| LearningManager.LearnedStaysLearned | src/sqlancer/general/GeneralLearningManager.java:85-133 | every topic known before stays in the pool, and a learned topic stays learned |
| TemplateLearner.Inner | src/sqlancer/general/learner/GeneralTemplateLearner.java:71-71 | the kept rows are the rows strictly between the first and the last, in order, and there are none for fewer than three rows |
| TemplateLearner.Process | src/sqlancer/general/learner/GeneralTemplateLearner.java:65-78 | an answer of fewer than three lines yields nothing; cutting the result at its newlines gives back the kept lines and a final empty piece |
| TemplateLearner.LinesPieces | src/sqlancer/general/learner/GeneralTemplateLearner.java:71-75 | lines without newlines, each followed by one, are recovered by cutting at the newlines |
| TemplateLearner.LinesLength | src/sqlancer/general/learner/GeneralTemplateLearner.java:71-75 | the result has the characters of the kept lines and one newline per line |
| TemplateLearner.KeepsSecondLine | src/sqlancer/general/learner/GeneralTemplateLearner.java:70-77 | an answer of three lines or more yields text that starts with its second line and ends with a newline |
| TemplateLearner.LinesEnd | src/sqlancer/general/learner/GeneralTemplateLearner.java:71-75 | a non-empty list of lines yields text that starts with the first line and ends with a newline |
| Selects.ColumnItems | src/sqlancer/general/oracle/GeneralNoRECOracle.java:196-197 | one column reference per column, in the columns' order |
| AutoIndex.NamesShareSuffix | src/sqlancer/general/gen/AutoIndexSelectHelper.java:77-79 | the view and index names end in the dash-free UUID and differ from each other; two UUIDs give the same names exactly when they agree without their dashes |
| AutoIndex.Aliases | src/sqlancer/general/gen/AutoIndexSelectHelper.java:240-248 | the `i`-th alias is `a` followed by `i + 1`, for exactly `n` aliases |
| AutoIndex.AliasesDistinct | src/sqlancer/general/gen/AutoIndexSelectHelper.java:240-248 | the view's column aliases are pairwise different |
| AutoIndex.KnownStatements | src/sqlancer/general/gen/AutoIndexSelectHelper.java:231-308 | for a known column count, CREATE VIEW declares the same alias list that CREATE INDEX covers and the view SELECT reads |
| AutoIndex.UnknownStatements | src/sqlancer/general/gen/AutoIndexSelectHelper.java:231-308 | for an unknown count the view has no column list, the index is the one a count of one gives (`a1`), and the SELECT reads `*` |
| AutoIndex.ProbeSql | src/sqlancer/general/gen/AutoIndexSelectHelper.java:215-220 | a query that mentions LIMIT in any case is probed as it is; any other gets ` LIMIT 0` appended |
| AutoIndex.ProbeHasLimit | src/sqlancer/general/gen/AutoIndexSelectHelper.java:217-220 | the probe always mentions LIMIT, so probing it again changes nothing |
| AutoIndex.TrailingZeros | src/sqlancer/general/gen/AutoIndexSelectHelper.java:128-128 | the count of the maximal run of `0` that ends the string |
| AutoIndex.DotZerosAt | src/sqlancer/general/gen/AutoIndexSelectHelper.java:128-128 | a `.` followed only by zeros can start at one place only, right before the trailing zeros |
| AutoIndex.StripZeros | src/sqlancer/general/gen/AutoIndexSelectHelper.java:126-129 | a changed value is a proper prefix of the original, and what was cut is a `.` followed by one or more zeros |
| AutoIndex.StripZerosChanges | src/sqlancer/general/gen/AutoIndexSelectHelper.java:128-128 | a value changes exactly when it ends in a `.` followed by one or more zeros |
| AutoIndex.StripAppended | src/sqlancer/general/gen/AutoIndexSelectHelper.java:128-128 | any string followed by `.` and one or more zeros reads back as that string |
| AutoIndex.Canonical | src/sqlancer/general/gen/AutoIndexSelectHelper.java:125-130 | NULL stays NULL, and a string is stripped of its trailing `.0..0` |
| AutoIndex.Capped | src/sqlancer/general/gen/AutoIndexSelectHelper.java:123-123 | the rows handed back are a prefix of the DBMS's rows, at most the cap, and reach the cap exactly when the DBMS has that many |
| AutoIndex.Collect | src/sqlancer/general/gen/AutoIndexSelectHelper.java:123-149 | a full page of rows is the error `Row limit exceeded`; otherwise every row is collected canonically and in order |
| AutoIndex.DirectQuery | src/sqlancer/general/gen/AutoIndexSelectHelper.java:183-210 | a failing query gives its message as the error, expected or not; otherwise its rows are collected under the cap |
| AutoIndex.ThroughView | src/sqlancer/general/gen/AutoIndexSelectHelper.java:72-153 | a statement that cannot be opened is an error; a failing CREATE VIEW falls back to the direct query, expected error or not; otherwise the rows come from the view |
| AutoIndex.ThroughViewRows | src/sqlancer/general/gen/AutoIndexSelectHelper.java:100-149 | routing succeeds exactly when the query finally read answers with fewer rows than the cap, and then yields every row canonically, in order, with NULL kept |
| AutoIndex.CountError | src/sqlancer/general/gen/AutoIndexSelectHelper.java:338-342 | the error form has count -1, keeps the message, and is a success exactly when it is not an error |
| AutoIndex.TrueCount | src/sqlancer/general/gen/AutoIndexSelectHelper.java:416-420 | the number of true rows is at most the number of rows |
| AutoIndex.TrueCountMultiset | src/sqlancer/general/gen/AutoIndexSelectHelper.java:416-420 | the true-row count equals the multiplicity of `true` among the rows |
| AutoIndex.CountFailure | src/sqlancer/general/gen/AutoIndexSelectHelper.java:390-439 | a count fails exactly when opening, CREATE VIEW or the SELECT fails, and then its count is -1 |
| AutoIndex.BooleanCount | src/sqlancer/general/gen/AutoIndexSelectHelper.java:366-440 | a failure gives the shared error; a full page of rows is an error without a message; otherwise the count of true rows, as a success |
| AutoIndex.RowCount | src/sqlancer/general/gen/AutoIndexSelectHelper.java:450-522 | a failure gives the shared error; a full page of rows is an error without a message; otherwise the number of rows, as a success |
| AutoIndex.CountsAgree | src/sqlancer/general/gen/AutoIndexSelectHelper.java:366-522 | both counts are non-negative exactly when every statement answered under the cap; then the boolean count is the number of true rows and at most the row count; a failing CREATE VIEW is a success exactly when its error is expected |
| Comparator.Classify | src/sqlancer/general/GeneralComparatorHelper.java:79-95 | routed rows are passed on; a routing error is a skipped test case when expected and an SQLException with its message otherwise |
| Comparator.CombinedResultSet | src/sqlancer/general/GeneralComparatorHelper.java:97-124 | in union mode the one UNION ALL query is read and recorded; otherwise the three queries succeed together with their rows concatenated in order and the three texts recorded, or the first failure is passed on with nothing recorded |
| Comparator.RoutingFollowsOption | src/sqlancer/general/GeneralComparatorHelper.java:33-77 | with the option off no result depends on the indexed routing, and with it on none depends on the direct reader |
| Comparator.RoutedFailures | src/sqlancer/general/GeneralComparatorHelper.java:87-92 | a routed failure is a skip exactly on an expected message and an SQLException with that message exactly on any other |
| TLP.Baseline | src/sqlancer/general/oracle/GeneralQueryPartitioningWhere.java:70-71 | the baseline has no WHERE clause and otherwise is the SELECT itself |
| TLP.PartitionsShape | src/sqlancer/general/oracle/GeneralQueryPartitioningWhere.java:89-98 | the partitions are the baseline, with the ORDER BY terms exactly on the coin, under P, NOT P and P IS NULL, three different WHERE clauses |
| TLP.Canonized | src/sqlancer/general/oracle/GeneralQueryPartitioningWhere.java:110-111 | each value is canonicalised in place, none added or lost |
| TLP.Rethrow | src/sqlancer/general/oracle/GeneralQueryPartitioningWhere.java:105-108 | a failing read is recorded as one failing query and its exception passed on, with no reproducer |
| TLP.Compare | src/sqlancer/general/oracle/GeneralQueryPartitioningWhere.java:109-120 | the attempt is recorded as a succeeding query with the first partition as example; it fails exactly when the canonical values differ as multisets, and then leaves the reproducer of the four texts |
| TLP.BaselineFailure | src/sqlancer/general/oracle/GeneralQueryPartitioningWhere.java:74-87 | a failing baseline read of a simple SELECT becomes an AssertionError with the note and records nothing; on any other SELECT it records a failing query and is passed on |
| TLP.PartitionVerdict | src/sqlancer/general/oracle/GeneralQueryPartitioningWhere.java:101-120 | after the baseline, a failed partition read records a failure and is passed on; two reads record a success with the first partition, and fail with a reproducer exactly when the canonical values differ as multisets |
| TLP.UnionWithoutOrderBy | src/sqlancer/general/oracle/GeneralQueryPartitioningWhere.java:89-104 | without ORDER BY the partitions are read as one UNION ALL query; with it they are read and recorded one by one |
| TLP.Escape | src/sqlancer/general/oracle/GeneralQueryPartitioningWhere.java:57-62 | an AssertionError during a replay shows the bug with its message, an SQLException does not, and any other exception escapes |
| TLP.ReplayAgrees | src/sqlancer/general/oracle/GeneralQueryPartitioningWhere.java:48-63 | on the same answers, the reproducer a failed check leaves shows the bug again with the mismatch message |
| TLP.PassNotReplayed | src/sqlancer/general/oracle/GeneralQueryPartitioningWhere.java:48-63 | on the same answers, a check that passed is not reported by replaying its texts |
| TLP.PartitionsPermute | src/sqlancer/general/oracle/GeneralQueryPartitioningWhere.java:93-98 | the rows where P is true, false and NULL together are a permutation of all rows |
| TLP.PartitionStep | src/sqlancer/general/oracle/GeneralQueryPartitioningWhere.java:93-98 | each row lands in exactly one of the three partitions |
| TLP.CanonAll | src/sqlancer/general/oracle/GeneralQueryPartitioningWhere.java:110-111 | canonicalising the values of all rows is taking the values of the canonicalised rows |
| TLP.CanonWhere | src/sqlancer/general/oracle/GeneralQueryPartitioningWhere.java:110-111 | canonicalising a partition's values is partitioning the canonicalised rows |
| TLP.PartitionsCover | src/sqlancer/general/oracle/GeneralQueryPartitioningWhere.java:109-111 | the comparison accepts the three partitions of a consistent evaluation against the baseline |
| TLP.ConsistentPasses | src/sqlancer/general/oracle/GeneralQueryPartitioningWhere.java:66-121 | a DBMS that evaluates P consistently is not reported: the check passes, leaves no reproducer and records a success with the first partition |
| NoREC.QueriesDiffer | src/sqlancer/general/oracle/GeneralNoRECOracle.java:150-209 | the two queries share tables, joins and order; the unoptimized one fetches only `P IS TRUE` without WHERE, the optimized one every column WHERE P |
| NoREC.ChooseGenerator | src/sqlancer/general/oracle/GeneralNoRECOracle.java:121-126 | the untyped generator is chosen exactly when UNTYPE_EXPR is enabled and the coin is true, and then only UNTYPE_EXPR is scored, once |
| NoREC.TrueCells | src/sqlancer/general/oracle/GeneralNoRECOracle.java:175-185 | the count fails exactly when some row cannot be read, and is otherwise at most the number of rows |
| NoREC.SecondCount | src/sqlancer/general/oracle/GeneralNoRECOracle.java:172-187 | no result set gives -1; otherwise the true rows are counted, failing when a row cannot be read |
| NoREC.Skip | src/sqlancer/general/oracle/GeneralNoRECOracle.java:136-139 | an inconclusive attempt is recorded as one failing query and the test case discarded, with no reproducer |
| NoREC.Check | src/sqlancer/general/oracle/GeneralNoRECOracle.java:116-148 | an unoptimized query that throws is an AssertionError with its text and records nothing; an unreadable row or a failing optimized query is skipped; otherwise the counts decide |
| NoREC.CheckVerdicts | src/sqlancer/general/oracle/GeneralNoRECOracle.java:136-147 | every verdict records the attempt once as a query: a failure when a count is missing, otherwise a success; equal counts pass with the optimized example, different ones fail with both counts and a reproducer |
| NoREC.MessageShowsCounts | src/sqlancer/general/oracle/GeneralNoRECOracle.java:142-143 | the mismatch message starts with the optimized query and its count and ends with the unoptimized count, and different counts print differently |
| NoREC.Replayed | src/sqlancer/general/oracle/GeneralNoRECOracle.java:67-112 | a throwing unoptimized query shows the bug with its message; a missing count, an unreadable row or a failing optimized query does not |
| NoREC.ReplayAgrees | src/sqlancer/general/oracle/GeneralNoRECOracle.java:67-147 | on the same answers a replay shows the bug exactly when the check left a reproducer, and with the check's message |
| NoREC.Evaluated | src/sqlancer/general/oracle/GeneralNoRECOracle.java:176-178 | each row reads as true exactly when P is true on it, NULL reading as false |
| NoREC.TrueCellsKept | src/sqlancer/general/oracle/GeneralNoRECOracle.java:175-219 | counting the true `P IS TRUE` values counts exactly the rows WHERE P keeps |
| NoREC.ConsistentPasses | src/sqlancer/general/oracle/GeneralNoRECOracle.java:133-147 | a DBMS that evaluates P the same way in both queries is not reported: the check passes and records a success with the optimized example |

## Left out

- JDBC execution, result-set reading, view and table validation, and file I/O are left out. Statement outcomes enter the model as parameters: an `Execution` is either an exception or a success flag.
- Concurrency (`volatile`, `synchronized`) is left out. There is one explicit controller state, threaded through the functions.
- Logging and statistics printing are left out.
- `Randomly` is left out. Every random choice is a parameter. A draw between `lo` and `hi` is taken as `[lo, hi)`, and as `lo` when the range is empty.
- Hash-map iteration order is a parameter. A `HashMap` leaves the position of a new key unspecified; placing a new test object last in the enumeration is a modelling choice.
- `String.format` is modelled only for `%s`, `%%` and `%n`; any other conversion counts as rejected. Upper-casing is ASCII only.
- Controller.UpdateGeneratorOptions: the Java code throws when UNTYPE_EXPR is enabled but has no rate. The corrected member keeps it unchanged in that case (see Findings).
- Fragments.Get requires a well-formed store. Every stored choice has passed validation, so rendering it cannot fail. Its variable renderer is a total parameter, so the IgnoreMeException of the variable generators is not modelled: RANDOM_COLUMN and RANDOM_EXPRESSION call `getRandomTableOrBailout` (src/sqlancer/general/learner/GeneralFragments.java lines 54 and 74), and RANDOM_TABLE draws from an empty list when every table is a view (line 64). In the source these are thrown after the choice was scored at line 241, so the score stays and the statement is abandoned.
- Types.TypeLiteral renders a stored literal through the same total variable renderer as Fragments.Get. The IgnoreMeException that `getRandomTableOrBailout` can throw while rendering a literal (src/sqlancer/general/learner/GeneralFragments.java lines 54 and 74) is therefore not modelled here either.
- Types.AddSpecific takes the quote-stripped format as a separate argument. Types.ParseSpecific supplies it.
- Schema.FreeFrom terminates because fewer names can block each further candidate. The Java loop has no bound.
- `GeneralFunction.initFunctions` and the `GeneralDBFunction` enum it reads are not part of this model. The function table is a parameter.
- `GeneralFunction.loadFunctionsFromFile` reads a file and is left out. Its merge step is Functions.MergeFunctions.
- `getExamples` of the function and operator sketches only builds prompt text for the learner and is left out.
- Functions.LoadFunctionsFromFragments upper-cases each choice as it is collected; the Java code collects raw texts and upper-cases the keys afterwards. The two differ only when two choices differ in case alone: then the Java result depends on hash-map order, and the model keeps the later choice in key order.
- The operator store parses lines like the other fragment stores but without the integer-key check. It is modelled by Fragments.ParseFragments on a store of the `Named` family.
- The expression generator that produces a join's ON predicate is not part of this module: the predicate is an opaque value of type `E`, one per join.
- `GeneralRandomQuerySynthesizer.generateSubquery` is not part of this model. A subquery is represented by its loop index (its name is `sub<index>`) and the table it selects from.
- Joins.SubqueryPhase: the Java loop re-draws `Randomly.smallNumber()` before every iteration. The model takes the number of iterations the re-drawn bounds allow as one parameter, which covers every way the loop can stop.
- Joins.RecordJoins: the Java code scores each node as its selector returns. The model records a join's nodes after building it, in the same order; the counts are the same.
- Joins.RandomJoinType: `JoinType.getRandom` and `OuterType.getRandom` are used only inside the rejection loops and are folded into them.
- Joins.RandomJoinType: when every `<TYPE>_JOIN` node is disabled, the rejection loop at src/sqlancer/general/ast/GeneralJoin.java lines 36-46 never ends, since no draw can pass its test. The model has a finite list of draws, so that case shows up as `OutOfChoices`, the same failure as running out of draws. The same holds for Joins.RandomJoinTypeWithoutNatural (lines 48-57).
- Joins.RandomOuterType: when every `<OUTER>_NATURAL_JOIN` node is disabled, the loop at lines 67-77 never ends. The model reports it as `OutOfChoices`.
- `TypedExpressionGenerator.generateLeafNode`, `generateExpressions` and the base `generateOrderBys` are not part of this model. ExprGen.GenLeaf takes a constant on the rather-low coin or when no column is compatible, and a column otherwise. ExprGen.GenList generates the requested number of expressions in order. The ORDER BY expressions are a parameter.
- The comparison, arithmetic, logical, prefix, postfix and cast operator enums are not part of this model. The operator drawn for them is a parameter, and the sizes of the enums that weigh the boolean kinds are parameters.
- The percentage draw against the arithmetic threshold is one coin, `arithmetic`.
- The try/catch around `getRandomCompatibleFunctions` only prints; ExprGen.Candidates cannot fail, so it is left out.
- ExprGen.GenConstant: the function applied to NULLs is one leaf; its NULL arguments are counted, not generated.
- ExprGen.GenExpr: running out of child plans or draws is a failure (`OutOfChoices`). The Java generator never runs out.
- ExprGen.GenLeaf fails (`NullValue`) on a type without a name when a learned column exists: printing that type gives null, and comparing it throws.
- TableGen.CreateTable: a failed statement returns no state, so the partial changes before the failure (the creating-database flag, the test objects) are not modelled. The intermediate `setUpdateTable` at line 114 is overwritten at line 155 and is left out.
- TableGen.ScoreColumns: the Java code scores COLUMN_NUM before it draws the column type; the model scores both after the loop. The counts are the same.
- TableGen.TableValidation requires that no column type contains `{`. A learned type name may contain one, and then the substitution would also see it.
- `getRandomCollate` is never called by the table generator and is left out; `genLearnStatement`'s debug printing is left out, and the cached `currentSketch` enters Queries.ValStatements as its sketch argument.
- IndexGen.CreateIndex: the WHERE predicate comes from `GeneralExpressionGenerator`, which is not part of this model. Its text is a draw, and the scores it records are not modelled.
- IndexGen.CreateIndex: the regular expression `.*` among the expected errors is the `anything` flag of the errors. A failed statement returns no state, so test objects set before the failure are not modelled.
- `genLearnStatement` of the index fragments first creates a table and updates the schema; the model takes the schema as given.
- `GeneralStatementFragments.getStatementType` and `getExamples` only build prompt text for the learner and are left out.
- StatementGen.HoleOf: `getInteger(0, 2)` excludes its upper bound, so hole 2 is used only by the learning script, never outside learn mode; the model keeps that bound.
- The `debugLogs` printing of the statement generator is left out.
- `AbstractTable.getFreeColumnName` is not part of this model. AlterGen.FreeColumnName searches from a drawn start for the first `c<k>` that no column is called, which is what the ADD COLUMN statement relies on.
- `AbstractTable.getRandomNonEmptyColumnSubset`, `getRandomColumn` and `AbstractSchema.getFreeViewName` are not part of this model. The first two are drawn as `nonEmptySubset` and a list pick. The free view name is a draw.
- The expressions and constants of the ALTER, INSERT, UPDATE and DELETE generators are drawn texts. The untyped ones and the expressions come from `GeneralExpressionGenerator` and `GeneralRandomQuerySynthesizer.getExpressionGenerator`, which are not part of this model. The typed constants of INSERT and UPDATE come from `GeneralTypedExpressionGenerator.generateConstant`, which ExprGen.GenConstant models, but these generators take their text as a draw too. The scores any of them record are not modelled. The UPDATE model takes as a draw whether the synthesizer hands out the typed generator.
- UpdateGen.Settings follows the `updateColumns` loop of `AbstractUpdateGenerator`, which is not part of this model: `<column>=<value>` pairs separated by `, `.
- ViewGen.Generate: the SELECT comes from `GeneralRandomQuerySynthesizer.generateSelect`, which is not part of this model. Its text and the record it leaves behind are draws. Only the composite restore that follows it is modelled.
- InsertGen.Generate: the INSERT score and `creatingDatabase := true` are set before the table is drawn, so in the source they survive a bailout. The model returns no state on failure and does not show this.
- Session.LearnFromDatabase uses the corrected Controller.UpdateGeneratorOptions (see Findings). When UNTYPE_EXPR is enabled but has no rate, the source throws while unboxing the missing rate and the database is never closed; the model leaves UNTYPE_EXPR as it is and goes on.
- Session.CloseDatabase goes through Session.LearnFromDatabase, so it also keeps going where the source throws on a missing UNTYPE_EXPR rate.
- Session.UpdateHandler goes through the same corrected update. It also leaves out the `enableLearning` branch (src/sqlancer/general/GeneralProvider.java lines 261-272): the four stores are dumped to files, and when the database ended without a bug and a coin holds, the table, index or statement store is updated from the learner. The learner is a call to an external language model, so the model has no such option.
- ExprGen.GenConstant uses the corrected ExprGen.VartypeConstant (see Findings). A learned type literal whose text is `NULL` sets the NULL flag here; the source compares references and leaves the flag clear.
- ExprGen.GenLeaf takes its constants from ExprGen.GenConstant, so it sets the NULL flag for a learned `NULL` literal where the source does not.
- ExprGen.GenInner draws its operator with the corrected Operators.RandomByType (see Findings). When a learned operator has no type, the source throws a NullPointerException; the model passes over that operator.
- ExprGen.GenBooleanOperator draws with the corrected Operators.RandomByType too, so it passes over a learned operator without a type where the source throws.
- ExprGen.GenExpr reaches the corrected ExprGen.VartypeConstant and Operators.RandomByType. It therefore never shows the source's NullPointerException on an untyped learned operator, nor its missed NULL flag.
- Queries.ValStatements fills the holes with the corrected Queries.FillHoles (see Findings), which inserts each choice literally. The source uses `Matcher.appendReplacement`, which turns `$1` into the first group and throws on a choice that ends in `$`.
- InsertGen.GenerateOn takes a typed constant as a drawn text. In the source it is `GeneralTypedExpressionGenerator.generateConstant` (src/sqlancer/general/gen/GeneralInsertGenerator.java lines 72-73), run while `creatingDatabase` is set, so a learned type literal's fragment choice and the composite keys it touches are scored. Those scores are not modelled; the only change the model records is the INSERT score.
- InsertGen.Generate inherits the scores InsertGen.GenerateOn does not record for typed constants.
- UpdateGen.GenerateOn takes the typed constants and expressions of its SET list as drawn texts (src/sqlancer/general/gen/GeneralUpdateGenerator.java lines 52-58). The scores they record are not modelled.
- LearningManager.Choose: after a topic is picked, the learner's answer on it is parsed into the type store (src/sqlancer/general/GeneralSchema.java lines 200-272), and the function and operator tables are reloaded from their stores. The learner is an external call: the parsed type store is the input `taught`, and the reload is the work of Functions.LoadFunctionsFromFragments and Operators.LoadOperatorsFromFragments, which Choose does not call.
- LearningManager.Choose: the pool and the topic map are static and shared between threads in the source; the model threads one manager through the calls.
- The learner's HTTP requests, prompts and the `debugLogs` printing of the learning manager are left out. Only `GeneralTemplateLearner.process`, which turns an answer into fragment lines, is modelled.
- The JDBC answers the oracles and the indexed-view routing read are inputs: each statement's exception message, or the rows it returns.
- The text a SELECT is sent as comes from `GeneralToStringVisitor`, which is not part of this model. Each oracle takes that text as a parameter, one per SELECT.
- `ComparatorHelper` of the SQLancer core is not part of this model. Its direct reading of the first column is an input to Comparator.FirstColumn. Its combination of three queries is taken to be the one written out for indexed views. `canonicalizeResultValue` and the message made by `assumeResultSetsAreEqual` are parameters of TLP.Check.
- TLP.Replayed reads through the direct reader whatever the `autoIndexSelects` option says, as the reproducer calls `ComparatorHelper` itself.
- TLP.Check: an IgnoreMeException from reading the baseline of a simple SELECT is caught like any exception and turned into an AssertionError. Its message then starts with the text `null`, as the exception has no message.
- AutoIndex.ThroughView: `tryDropView` ignores whatever DROP VIEW answers, and CREATE INDEX failures are ignored too, so neither answer is an input. The logging of the generated SQL is left out.
- AutoIndex.StripZeros takes values to hold no line terminators. Java's `$` also matches just before a final line terminator, which the model does not follow.
- AutoIndex.BooleanCount reads each row as a boolean. `getBoolean` reads SQL NULL as false; the model's rows are already booleans.
- AutoIndex.BooleanCount and AutoIndex.RowCount are not called by the oracles of this model; they are modelled for themselves.
- NoREC.Check takes the result-set and row-reading failures of `SQLQueryAdapter` as its answers. `Main.nrUnsuccessfulActions` and the logging are left out.

## Findings

| source | as written | input that shows it | evidently intended | confidence | as-written member | corrected member |
|---|---|---|---|---|---|---|
| src/sqlancer/general/GeneralErrorHandler.java:340-343 | `generatorAverage.get(UNTYPE_EXPR) > 0.5` unboxes a missing rate | UNTYPE_EXPR enabled in the options, never used by any record, so it has no rate | leave UNTYPE_EXPR as it is when it has no rate | not executed | Controller.UpdateGeneratorOptionsAsWritten, Controller.UntypedWithoutEvidenceExample | Controller.UpdateGeneratorOptions |
| src/sqlancer/general/GeneralSchema.java:114-121 | a new type is marked available even when `addFragment` stored nothing (its one literal is disabled) | type `T` whose only literal `1` is on the disabled list | mark a type available only when it has a choice | not executed | Types.ParseTypeAsWritten, Types.DisabledTypeLiteralBreaksConsistency | Types.ParseType, Types.ParseTypeConsistent |
| src/sqlancer/general/ast/GeneralBinaryOperator.java:127-128 | `operators.get(opName).equals(type)` is called on every entry, and an operator learned under a key that names no type is stored with a null type | a table with `AND` (BOOLEAN) and an operator `~` learned under a key naming no type, asked for a BOOLEAN operator | pass over entries without a type | not executed | Operators.RandomByTypeAsWritten, Operators.UntypedOperatorThrows | Operators.RandomByType, Operators.RandomByTypeAgrees |
| src/sqlancer/general/gen/GeneralTypedExpressionGenerator.java:443-449 | `varString == "NULL"` compares references, so only the store's own fallback constant sets the NULL flag | a learned type `T` whose only format is the text `NULL`, used as a function argument | compare the text with `equals`, so that every literal reading NULL sets the flag | not executed | ExprGen.VartypeConstantAsWritten, ExprGen.LearnedNullLiteralMissed | ExprGen.VartypeConstant, ExprGen.VartypeConstantAgrees |
| src/sqlancer/general/gen/GeneralTableGenerator.java:57-68 | the choice is passed to `Matcher.appendReplacement`, which reads `$` and backslashes in it as group references and escapes | a learned fragment `$1` for hole 0 of the sketch `{0}` | insert the choice literally (`Matcher.quoteReplacement`) | not executed | Queries.FillHolesAsWritten, Queries.GroupReferenceReplacesFragment | Queries.FillHoles, Queries.SketchValidation |
