/** The vocabulary the feedback loop scores: the fixed generator nodes, the composite
    keys built from function, operator and type names, and the learned fragment
    choices with the template variables they contain. */
module Features {
  import opened Base
  import opened Text

  /** Every fixed generator node the controller can score and switch off. */
  datatype Node =
    // meta
    | UNTYPE_EXPR
    // statements
    | CREATE_TABLE | CREATE_INDEX | INSERT | SELECT | UPDATE | DELETE | CREATE_VIEW | EXPLAIN
    | ANALYZE | VACUUM | ALTER_TABLE | CREATE_DATABASE | GENERAL_COMMAND
    // clauses
    | UNIQUE_INDEX | UPDATE_WHERE | PRIMARY_KEY | COLUMN_NUM | COLUMN_INT | COLUMN_BOOLEAN
    | COLUMN_STRING | JOIN | INNER_JOIN | LEFT_JOIN | RIGHT_JOIN | NATURAL_JOIN
    | LEFT_NATURAL_JOIN | RIGHT_NATURAL_JOIN | FULL_NATURAL_JOIN | SUBQUERY
    // expressions
    | UNARY_POSTFIX | UNARY_PREFIX | BINARY_COMPARISON | BINARY_LOGICAL | BINARY_ARITHMETIC
    | CAST | FUNC | BETWEEN | CASE | IN | COLLATE | LIKE_ESCAPE | UNTYPE_FUNC | CAST_FUNC
    | CAST_COLON | IS_NULL | IS_NOT_NULL | IS_TRUE | IS_FALSE | IS_NOT_UNKNOWN | BINARY_OPERATOR
    // unary prefix operators
    | UNOT | UPLUS | UMINUS | USQT_ROOT | UABS_VAL | UBIT_NOT | UCUBE_ROOT
    // comparison operators
    | EQUALS | GREATER | GREATER_EQUALS | SMALLER | SMALLER_EQUALS | NOT_EQUALS | NOT_EQUALS2
    | LIKE | NOT_LIKE | DISTINCT | NOT_DISTINCT | IS | IS_NOT | EQUALS2
    // arithmetic operators
    | OPADD | OPSUB | OPMULT | OPDIV | OPMOD | OPCONCAT | OPAND | OPOR | OPLSHIFT | OPRSHIFT
    | OPDIV_STR | OPMOD_STR | OPBITWISE_XOR
    // logical operators
    | LOPAND | LOPOR
    // oracles
    | WHERE | NOREC | HAVING

  /** The placeholders a learned fragment may contain, `<RANDOM_INT>` and so on. */
  datatype FragmentVar =
    | RANDOM_INT | RANDOM_STRING | RANDOM_COLUMN | RANDOM_TABLE | RANDOM_EXPRESSION
    | RANDOM_POSITIVE_INT | RANDOM_DATE | RANDOM_TIMESTAMP | NULL

  /** The enum constant's name, as `name()` returns it. */
  function VarName(v: FragmentVar): string {
    match v
    case RANDOM_INT => "RANDOM_INT"
    case RANDOM_STRING => "RANDOM_STRING"
    case RANDOM_COLUMN => "RANDOM_COLUMN"
    case RANDOM_TABLE => "RANDOM_TABLE"
    case RANDOM_EXPRESSION => "RANDOM_EXPRESSION"
    case RANDOM_POSITIVE_INT => "RANDOM_POSITIVE_INT"
    case RANDOM_DATE => "RANDOM_DATE"
    case RANDOM_TIMESTAMP => "RANDOM_TIMESTAMP"
    case NULL => "NULL"
  }

  /** `GeneralFragmentVariable.valueOf`: exact match on the constant's name. */
  function VarByName(s: string): (r: Option<FragmentVar>)
    ensures r.Some? ==> VarName(r.value) == s
    ensures r.None? ==> forall v: FragmentVar :: VarName(v) != s
  {
    if s == "RANDOM_INT" then Some(RANDOM_INT)
    else if s == "RANDOM_STRING" then Some(RANDOM_STRING)
    else if s == "RANDOM_COLUMN" then Some(RANDOM_COLUMN)
    else if s == "RANDOM_TABLE" then Some(RANDOM_TABLE)
    else if s == "RANDOM_EXPRESSION" then Some(RANDOM_EXPRESSION)
    else if s == "RANDOM_POSITIVE_INT" then Some(RANDOM_POSITIVE_INT)
    else if s == "RANDOM_DATE" then Some(RANDOM_DATE)
    else if s == "RANDOM_TIMESTAMP" then Some(RANDOM_TIMESTAMP)
    else if s == "NULL" then Some(NULL)
    else None
  }

  /** Looking a variable up by its own name finds that variable. */
  lemma VarNameRoundTrip(v: FragmentVar)
    ensures VarByName(VarName(v)) == Some(v)
  {
  }

  /** The help text shown to the language model (NULL has none). */
  function VarDescription(v: FragmentVar): string {
    match v
    case RANDOM_INT => "Get a random integer. e.g., 42"
    case RANDOM_STRING => "Get a random string without quotes. e.g., hello"
    case RANDOM_COLUMN => "Random column"
    case RANDOM_TABLE => "Random table"
    case RANDOM_EXPRESSION => "Random expression based on current or random table"
    case RANDOM_POSITIVE_INT => "Random positive integer"
    case RANDOM_DATE => "Get a random date. e.g., 2021-01-01"
    case RANDOM_TIMESTAMP => "Get a random timestamp. e.g., 2021-01-01 00:00:00"
    case NULL => ""
  }

  /** The variables in declaration order (`values()`). */
  const AllVars: seq<FragmentVar> :=
    [RANDOM_INT, RANDOM_STRING, RANDOM_COLUMN, RANDOM_TABLE, RANDOM_EXPRESSION,
     RANDOM_POSITIVE_INT, RANDOM_DATE, RANDOM_TIMESTAMP, NULL]

  /** One learned alternative for a hole: a format string with one `%s` per variable.
      Two choices are equal exactly when format, variables and key are equal, which
      is what the Java `equals` compares (the owning store is not part of it). */
  datatype FragmentChoice = FragmentChoice(fmt: string, vars: seq<FragmentVar>, key: string)

  // Composite keys. Functions, operators and per-type column choices are scored
  // under strings assembled from their names.

  /** Whether function `f` may be generated at all. */
  function FunctionKey(f: string): (k: string)
    ensures StartsWith(k, "FUNCTION")
  {
    "FUNCTION-" + f
  }

  /** Whether argument `i` of function `f` accepts values of the type printed `t`. */
  function ArgKey(f: string, i: nat, t: string): string {
    f + "-" + NatToString(i) + t
  }

  /** Whether function `f` may stand where the type printed `t` is expected. */
  function ReturnKey(t: string, f: string): string {
    t + "-" + f
  }

  /** Whether the learned binary operator `op` may be generated. */
  function OperatorKey(op: string): string {
    "BINOP" + op
  }

  /** Whether the learned binary operator `op` accepts operands of the type printed `t`. */
  function OperatorArgKey(op: string, t: string): string {
    "BINOP" + op + "-" + t
  }

  /** Whether a column of the type printed `t` was created. */
  function ColumnKey(t: string): string {
    "COLUMN-" + t
  }
}
