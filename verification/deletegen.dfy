/** DELETE generation (`GeneralDeleteGenerator`): `DELETE FROM` a random table that
    is not a view and has columns, with a WHERE clause on a coin. */
module DeleteGen {
  import opened Base
  import opened Text
  import opened Schema
  import opened Session
  import opened Queries

  /** The draws of one `generate`: the table, the WHERE coin and the text of its
      predicate. */
  datatype DeleteDraws = DeleteDraws(tablePick: nat, where: bool, whereText: string)

  /** The WHERE clause as text, empty without the coin. */
  function WhereText(d: DeleteDraws): (r: string)
    ensures r == "" <==> !d.where
    ensures d.where ==> StartsWith(r, " WHERE ") && r[7..] == d.whereText
  {
    if d.where then
      var r := " WHERE " + d.whereText;
      assert r[..7] == " WHERE ";
      r
    else ""
  }

  /** `generate`. A schema without a table that has columns and is not a view
      bails out. Otherwise the statement deletes from the drawn table, with the
      predicate after ` WHERE ` exactly on the coin; the expression errors are
      always expected, the schema does not change, and neither does the
      session. */
  function Generate(st: GlobalState, d: DeleteDraws): (r: Result<Step>)
    ensures (forall t :: t in st.tables ==> !Target(t, true)) ==> r == Failure(Ignore)
    ensures (exists t :: t in st.tables && Target(t, true)) ==> r.Success?
    ensures r.Success? ==>
              var t := RandomTableOrBailout(st.tables, true, d.tablePick).value;
              && t in st.tables && Target(t, true)
              && r.value.query == Query("DELETE FROM " + t.name + WhereText(d), ExpressionErrors, false)
              && r.value.st == st
  {
    match RandomTableOrBailout(st.tables, true, d.tablePick)
    case Failure(e) => Failure(e)
    case Success(t) => Success(Step(Query("DELETE FROM " + t.name + WhereText(d), ExpressionErrors, false), st))
  }

  /** The statement is `DELETE FROM <table>`, followed by ` WHERE <predicate>`
      exactly on the coin; every eligible table can be the target. */
  lemma DeleteText(st: GlobalState, d: DeleteDraws, t: Table)
    requires t in st.tables && Target(t, true)
    ensures exists pick: nat :: Generate(st, d.(tablePick := pick)).Success? &&
              Generate(st, d.(tablePick := pick)).value.query.sql == "DELETE FROM " + t.name + WhereText(d)
    ensures Generate(st, d).Success?
    ensures var s := Generate(st, d).value.query.sql;
            var head := "DELETE FROM " + RandomTableOrBailout(st.tables, true, d.tablePick).value.name;
            && StartsWith(s, head)
            && (d.where <==> |s| > |head|)
  {
    var pick := RandomTableReaches(st.tables, true, t);
    assert RandomTableOrBailout(st.tables, true, pick) == Success(t);
    assert Generate(st, d.(tablePick := pick)).Success?;
    var s := Generate(st, d).value.query.sql;
    var head := "DELETE FROM " + RandomTableOrBailout(st.tables, true, d.tablePick).value.name;
    assert s[..|head|] == head;
  }
}
