/** The schema the session keeps of the database under test (`GeneralSchema`'s
    table half and the schema bookkeeping of the session state): tables and views
    with their columns and indexes, the search for a free table name, the
    replace-or-append of a pending table delta, and the removal of a dropped table. */
module Schema {
  import opened Base
  import opened Text
  import opened Types

  /** `GeneralColumn`. */
  datatype Column = Column(name: string, colType: CompositeType, isPrimaryKey: bool, isNullable: bool)

  /** `TableIndex`: an index is known by its name only. */
  datatype Index = Index(name: string)

  /** `GeneralTable`: a table or a view. */
  datatype Table = Table(name: string, columns: seq<Column>, indexes: seq<Index>, isView: bool)

  // ---------------------------------------------------------------------------
  // Free table names

  /** The candidate `String.format("t%d", i)`. */
  function Candidate(i: nat): (r: string)
    ensures |r| == |NatToString(i)| + 1 && r[0] == 't' && r[1..] == NatToString(i)
  {
    "t" + NatToString(i)
  }

  /** Some existing name ends with the candidate. */
  predicate Taken(names: seq<string>, i: nat) {
    exists j :: 0 <= j < |names| && EndsWith(names[j], Candidate(i))
  }

  /** A name ends with at most one candidate: the candidate's digits must be the
      name's whole trailing digit run, as the character before them is `t`. */
  lemma {:induction false} OneCandidatePerName(s: string, a: nat, b: nat)
    requires EndsWith(s, Candidate(a)) && EndsWith(s, Candidate(b))
    ensures a == b
  {
    var ca, cb := Candidate(a), Candidate(b);
    if |ca| == |cb| {
      assert ca == s[|s| - |ca|..] == cb;
      assert NatToString(a) == ca[1..] == cb[1..] == NatToString(b);
      NatToStringInjective(a, b);
    }
  }

  /** The names still ending with a candidate at or beyond `i`: they bound the
      search for a free one. */
  ghost function Blocking(names: seq<string>, i: nat): set<nat> {
    set j | 0 <= j < |names| && exists k: nat :: k >= i && EndsWith(names[j], Candidate(k))
  }

  /** Moving past a taken candidate frees the name that took it. */
  lemma BlockingShrinks(names: seq<string>, i: nat)
    requires Taken(names, i)
    ensures |Blocking(names, i + 1)| < |Blocking(names, i)|
  {
    var j0 :| 0 <= j0 < |names| && EndsWith(names[j0], Candidate(i));
    assert j0 in Blocking(names, i);
    forall j | j in Blocking(names, i + 1)
      ensures j in Blocking(names, i) - {j0}
    {
      var k: nat :| k >= i + 1 && EndsWith(names[j], Candidate(k));
      if j == j0 {
        OneCandidatePerName(names[j], i, k);
      }
    }
    SubsetSmaller(Blocking(names, i + 1), Blocking(names, i) - {j0});
  }

  /** A subset is no larger than its superset. */
  lemma {:induction false} SubsetSmaller(a: set<nat>, b: set<nat>)
    requires a <= b
    ensures |a| <= |b|
    decreases |b|
  {
    if a != {} {
      var x :| x in a;
      SubsetSmaller(a - {x}, b - {x});
    }
  }

  /** The first candidate from `i` on that no name ends with. */
  function FreeFrom(names: seq<string>, i: nat): (r: nat)
    ensures r >= i && !Taken(names, r)
    ensures forall k :: i <= k < r ==> Taken(names, k)
    decreases |Blocking(names, i)|
  {
    if Taken(names, i) then
      BlockingShrinks(names, i);
      FreeFrom(names, i + 1)
    else i
  }

  /** `getFreeTableName`: the search starts at 0, or on the rare coin at a drawn
      start below 10, and returns the first `t<i>` that is not a suffix of any table
      name. */
  function FreeTableName(tables: seq<Table>, rare: bool, start: nat): (r: string)
    requires rare ==> start < 10
    ensures var names := seq(|tables|, j requires 0 <= j < |tables| => tables[j].name);
            exists i: nat :: r == Candidate(i) && (i >= (if rare then start else 0)) && !Taken(names, i)
    ensures forall j :: 0 <= j < |tables| ==> !EndsWith(tables[j].name, r)
  {
    var names := seq(|tables|, j requires 0 <= j < |tables| => tables[j].name);
    var i := FreeFrom(names, if rare then start else 0);
    assert forall j :: 0 <= j < |tables| ==> names[j] == tables[j].name;
    Candidate(i)
  }

  // ---------------------------------------------------------------------------
  // Schema deltas

  /** The position of the first table called `name`. */
  function FindByName(tables: seq<Table>, name: string): (r: Option<nat>)
    ensures r.Some? ==> r.value < |tables| && tables[r.value].name == name
    ensures r.Some? ==> forall j :: 0 <= j < r.value ==> tables[j].name != name
    ensures r.None? <==> forall j :: 0 <= j < |tables| ==> tables[j].name != name
  {
    match FirstAccepted(tables, (t: Table) => t.name == name)
    case None => None
    case Some(i) => Some(i)
  }

  /** The table the schema lists first under `name`. */
  function TableNamed(tables: seq<Table>, name: string): Option<Table> {
    match FindByName(tables, name)
    case None => None
    case Some(i) => Some(tables[i])
  }

  /** `updateSchema`: a pending table replaces the first table of the same name, or
      is appended when there is none; no pending table leaves the schema alone. */
  function UpdateSchema(tables: seq<Table>, pending: Option<Table>): (r: seq<Table>)
    ensures pending.None? ==> r == tables
    ensures pending.Some? ==> TableNamed(r, pending.value.name) == Some(pending.value)
    ensures pending.Some? && FindByName(tables, pending.value.name).None? ==> r == tables + [pending.value]
    ensures pending.Some? && FindByName(tables, pending.value.name).Some? ==>
              |r| == |tables| &&
              forall j :: 0 <= j < |r| && j != FindByName(tables, pending.value.name).value ==> r[j] == tables[j]
  {
    if pending.None? then tables
    else
      var u := pending.value;
      match FindByName(tables, u.name)
      case None =>
        var r := tables + [u];
        assert r[|tables|] == u;
        assert FindByName(r, u.name) == Some(|tables|);
        r
      case Some(i) =>
        var r := tables[i := u];
        assert r[i].name == u.name;
        assert forall j :: 0 <= j < i ==> r[j] == tables[j];
        assert FindByName(r, u.name) == Some(i);
        r
  }

  /** Applying the same delta twice is applying it once. */
  lemma UpdateSchemaIdempotent(tables: seq<Table>, pending: Option<Table>)
    ensures UpdateSchema(UpdateSchema(tables, pending), pending) == UpdateSchema(tables, pending)
  {
    if pending.Some? {
      var u := pending.value;
      var r := UpdateSchema(tables, pending);
      var i := FindByName(r, u.name).value;
      assert r[i] == u;
      assert r[i := u] == r;
    }
  }

  /** The names the schema lists. */
  function Names(tables: seq<Table>): set<string> {
    set j | 0 <= j < |tables| :: tables[j].name
  }

  /** The names after a delta: the old ones and the delta's. */
  lemma UpdateSchemaNames(tables: seq<Table>, u: Table)
    ensures Names(UpdateSchema(tables, Some(u))) == Names(tables) + {u.name}
  {
    var r := UpdateSchema(tables, Some(u));
    forall n | n in Names(tables)
      ensures n in Names(r)
    {
      var j :| 0 <= j < |tables| && tables[j].name == n;
      if FindByName(tables, u.name) == Some(j) {
        assert r[j].name == u.name == n;
      } else {
        assert r[j] == tables[j];
      }
    }
    var i := FindByName(r, u.name).value;
    assert u.name in Names(r);
    forall n | n in Names(r)
      ensures n in Names(tables) + {u.name}
    {
      var j :| 0 <= j < |r| && r[j].name == n;
      if j < |tables| && r[j] != u {
        assert r[j] == tables[j];
      }
    }
  }

  /** `dropTable` / `dropView`: the first table of that name leaves the schema,
      whether or not the DROP statement succeeded. */
  function DropByName(tables: seq<Table>, name: string): (r: seq<Table>)
    ensures FindByName(tables, name).None? ==> r == tables
    ensures FindByName(tables, name).Some? ==>
              var i := FindByName(tables, name).value;
              |r| == |tables| - 1 && r == tables[..i] + tables[i + 1..]
  {
    match FindByName(tables, name)
    case None => tables
    case Some(i) => tables[..i] + tables[i + 1..]
  }

  /** Dropping a table that a delta has just added restores the schema. */
  lemma DropUndoesAdd(tables: seq<Table>, u: Table)
    requires FindByName(tables, u.name).None?
    ensures DropByName(UpdateSchema(tables, Some(u)), u.name) == tables
  {
    var r := UpdateSchema(tables, Some(u));
    assert FindByName(r, u.name) == Some(|tables|);
    assert r[..|tables|] == tables;
  }

  /** Dropping removes one table of that name and keeps all other names. */
  lemma DropKeepsOthers(tables: seq<Table>, name: string, t: Table)
    requires t in tables && t.name != name
    ensures t in DropByName(tables, name)
  {
    var j :| 0 <= j < |tables| && tables[j] == t;
    if FindByName(tables, name).Some? {
      var i := FindByName(tables, name).value;
      if j < i {
        assert DropByName(tables, name)[j] == t;
      } else {
        assert j != i;
        assert DropByName(tables, name)[j - 1] == t;
      }
    }
  }
}
