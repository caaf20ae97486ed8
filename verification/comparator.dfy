/** Reading result sets for the oracles (`GeneralComparatorHelper`): the first
    column of a query is read directly, or through an indexed view when the
    `autoIndexSelects` option is on; three partition queries are combined into
    one UNION ALL query, or run one by one and concatenated. The direct reader
    (`ComparatorHelper`) is not part of this model: its answer to a query is an
    input, and its combination of three queries is taken to be the same as the
    one written out here for indexed views. */
module Comparator {
  import opened Base
  import opened AutoIndex

  /** How queries are answered: the option, the direct reader's answer to each
      query text, the indexed routing's answer to each query text, and which
      error messages are expected. */
  datatype Backend = Backend(
    autoIndexSelects: bool,
    direct: string -> Result<seq<Value>>,
    routed: string -> Indexed,
    expected: string -> bool)

  /** `executeWithIndexedView`: the routed rows, or, for a failed routing, a
      discarded test case when its error is expected and an SQLException
      otherwise. */
  function Classify(r: Indexed, expected: string -> bool): (res: Result<seq<Value>>)
    ensures res.Success? <==> r.Collected?
    ensures res.Success? ==> res.value == r.results
    ensures r.IndexedError? ==> res.error == (if expected(r.message) then Ignore else SqlFailure(r.message))
  {
    match r
    case Collected(results) => Success(results)
    case IndexedError(m) => if expected(m) then Failure(Ignore) else Failure(SqlFailure(m))
  }

  /** `getResultSetFirstColumnAsString`. */
  function FirstColumn(b: Backend, query: string): Result<seq<Value>> {
    if b.autoIndexSelects then Classify(b.routed(query), b.expected) else b.direct(query)
  }

  /** `Q1 UNION ALL Q2 UNION ALL Q3`. */
  function UnionAll(q1: string, q2: string, q3: string): string {
    q1 + " UNION ALL " + q2 + " UNION ALL " + q3
  }

  /** The combined rows, and the query strings recorded for the report. */
  datatype Combined = Combined(values: Result<seq<Value>>, strings: seq<string>)

  /** `getCombinedResultSet`. In union mode the one combined query is recorded
      before it runs. Otherwise the three queries run in order, the first failure
      ends the reading, and the three strings are recorded only once all three
      have been read. */
  function CombinedResultSet(b: Backend, q1: string, q2: string, q3: string, asUnion: bool): (r: Combined)
    ensures asUnion ==> r.strings == [UnionAll(q1, q2, q3)] && r.values == FirstColumn(b, UnionAll(q1, q2, q3))
    ensures !asUnion ==>
              (r.values.Success? <==>
                 FirstColumn(b, q1).Success? && FirstColumn(b, q2).Success? && FirstColumn(b, q3).Success?)
    ensures !asUnion && r.values.Success? ==>
              && r.values.value == FirstColumn(b, q1).value + FirstColumn(b, q2).value + FirstColumn(b, q3).value
              && r.strings == [q1, q2, q3]
    ensures !asUnion && r.values.Failure? ==>
              && r.strings == []
              && r.values.error == (if FirstColumn(b, q1).Failure? then FirstColumn(b, q1).error
                                    else if FirstColumn(b, q2).Failure? then FirstColumn(b, q2).error
                                    else FirstColumn(b, q3).error)
  {
    if asUnion then
      var u := UnionAll(q1, q2, q3);
      Combined(FirstColumn(b, u), [u])
    else
      match FirstColumn(b, q1)
      case Failure(e) => Combined(Failure(e), [])
      case Success(v1) =>
        match FirstColumn(b, q2)
        case Failure(e) => Combined(Failure(e), [])
        case Success(v2) =>
          match FirstColumn(b, q3)
          case Failure(e) => Combined(Failure(e), [])
          case Success(v3) => Combined(Success(v1 + v2 + v3), [q1, q2, q3])
  }

  /** The indexed routing is consulted only when the option is on, and the direct
      reader only when it is off: changing the reader that is not in use changes
      no result, single or combined. */
  lemma RoutingFollowsOption(b: Backend, direct: string -> Result<seq<Value>>, routed: string -> Indexed,
                             q1: string, q2: string, q3: string, asUnion: bool)
    ensures !b.autoIndexSelects ==>
              && FirstColumn(b.(routed := routed), q1) == b.direct(q1)
              && CombinedResultSet(b.(routed := routed), q1, q2, q3, asUnion) == CombinedResultSet(b, q1, q2, q3, asUnion)
    ensures b.autoIndexSelects ==>
              && FirstColumn(b.(direct := direct), q1) == Classify(b.routed(q1), b.expected)
              && CombinedResultSet(b.(direct := direct), q1, q2, q3, asUnion) == CombinedResultSet(b, q1, q2, q3, asUnion)
  {
  }

  /** A routed query fails with a skip exactly on an expected error, and with an
      SQLException carrying the message on any other. */
  lemma RoutedFailures(b: Backend, query: string)
    requires b.autoIndexSelects && b.routed(query).IndexedError?
    ensures var m := b.routed(query).message;
            && (FirstColumn(b, query) == Failure(Ignore) <==> b.expected(m))
            && (FirstColumn(b, query) == Failure(SqlFailure(m)) <==> !b.expected(m))
  {
  }
}
