/** The learning manager (`GeneralLearningManager`): the SQL features a learner
    can be asked about, and the topic pool that decides which learned type the
    next database is generated around. The pool maps every type topic to whether
    it has been learned; a database either keeps the topic recorded for it or,
    on its first run and on a rare draw, starts learning a topic not yet learned.
    The learner itself is outside this module: the store it fills when the pool
    is empty, and the type store after its answer on the picked topic has been
    parsed, are inputs. The function and operator tables reloaded afterwards
    are not part of this module. */
module LearningManager {
  import opened Base

  /** `SQLFeature`. */
  datatype Feature = COMMAND | DATATYPE | FUNCTION | CLAUSE | OPERATOR

  /** `toString`: the lower-case name given to the learner. */
  function FeatureName(f: Feature): string {
    match f
    case COMMAND => "command"
    case DATATYPE => "datatype"
    case FUNCTION => "function"
    case CLAUSE => "clause"
    case OPERATOR => "operator"
  }

  /** `isSubFeature`: statements and clauses are learned as parts of a larger
      feature; types, functions and operators stand on their own. */
  predicate IsSubFeature(f: Feature) {
    match f
    case COMMAND => true
    case CLAUSE => true
    case _ => false
  }

  /** Only COMMAND and CLAUSE are sub-features, and every feature has a name of
      its own, so the name identifies the feature. */
  lemma SubFeatures(f: Feature, g: Feature)
    ensures IsSubFeature(f) <==> f == COMMAND || f == CLAUSE
    ensures FeatureName(f) == FeatureName(g) <==> f == g
  {
  }

  /** The manager's state. `topics` (the topic recorded per database name) and
      `pool` (learned or not, per topic) are static in the source and shared by
      every manager; `curTopic` is the manager's own. */
  datatype Manager = Manager(curTopic: Option<string>, topics: map<string, string>, pool: map<string, bool>)

  /** What learning touches besides the manager: the type fragment store (the
      formats per type name) and the type availability map of the schema. */
  datatype World<F> = World(manager: Manager, fragments: map<string, seq<F>>, available: map<string, bool>)

  /** `setTopic`: the database now works on `topic`, and the topic counts as
      learned. */
  function SetTopic(m: Manager, db: string, topic: string): (r: Manager)
    ensures db in r.topics && r.topics[db] == topic
    ensures topic in r.pool && r.pool[topic]
    ensures r.curTopic == m.curTopic
    ensures r.topics.Keys == m.topics.Keys + {db} && r.pool.Keys == m.pool.Keys + {topic}
    ensures forall d :: d in m.topics && d != db ==> r.topics[d] == m.topics[d]
    ensures forall k :: k in m.pool && k != topic ==> r.pool[k] == m.pool[k]
  {
    m.(topics := m.topics[db := topic], pool := m.pool[topic := true])
  }

  /** `initializeTopicPool`: an empty pool gets every key of the store, none of
      them learned; a pool with entries is left as it is. */
  function InitializePool(pool: map<string, bool>, keys: set<string>): (r: map<string, bool>)
    ensures |pool| > 0 ==> r == pool
    ensures |pool| == 0 ==> r.Keys == keys && forall k :: k in r ==> !r[k]
  {
    if |pool| > 0 then pool else map k | k in keys :: false
  }

  /** The entries added for the keys of a store that the pool does not know
      yet, each with value `false`. */
  function Unknown(pool: map<string, bool>, keys: set<string>): (r: map<string, bool>)
    ensures r.Keys == keys - pool.Keys && forall k :: k in r ==> !r[k]
  {
    map k | k in keys && k !in pool :: false
  }

  /** The first half of `learnTypeByTopic`: the pool is initialised when empty,
      and an empty store is replaced by what the learner returns, whose new
      topics enter the pool unlearned and the availability map unavailable. */
  function Prepare<F>(w: World<F>, learned: map<string, seq<F>>): (r: World<F>)
    ensures r.manager.curTopic == w.manager.curTopic && r.manager.topics == w.manager.topics
    ensures |w.fragments| > 0 ==> r.fragments == w.fragments && r.available == w.available
    ensures |w.fragments| == 0 ==> r.fragments == learned
    ensures w.manager.pool.Keys <= r.manager.pool.Keys
    ensures forall k :: k in w.manager.pool ==> r.manager.pool[k] == w.manager.pool[k]
  {
    var pool := InitializePool(w.manager.pool, w.fragments.Keys);
    if |w.fragments| == 0 then
      var added := Unknown(pool, learned.Keys);
      World(w.manager.(pool := pool + added), learned, w.available + added)
    else
      World(w.manager.(pool := pool), w.fragments, w.available)
  }

  /** A fresh manager whose store is filled, or refilled by the learner, knows
      every topic of the store, and each one of them is unlearned. */
  lemma PrepareFreshPool<F>(w: World<F>, learned: map<string, seq<F>>)
    requires |w.manager.pool| == 0
    ensures var r := Prepare(w, learned);
            && r.manager.pool.Keys == r.fragments.Keys
            && forall k :: k in r.manager.pool ==> !r.manager.pool[k]
  {
  }

  /** The unlearned topics, in the pool's iteration order. */
  function Unlearned(pool: map<string, bool>, order: seq<string>): (r: seq<string>)
    ensures forall k :: k in r <==> k in order && k in pool && !pool[k]
  {
    FilterKeys(order, k => k in pool && !pool[k])
  }

  /** The draws of one call: the rare coin, the iteration order of the pool once
      prepared, and the position `Randomly.fromList` picks among its unlearned
      topics. */
  datatype Draws = Draws(rare: bool, order: seq<string>, pick: nat)

  /** Whether this call chooses a new topic: on the first database and on a
      rare draw. */
  predicate Learns(rare: bool, execDatabaseNum: int) {
    rare || execDatabaseNum == 0
  }

  /** The topic a database is generated around afterwards: the recorded one, or
      none (`topics.get` on an unknown database). */
  function Recorded(m: Manager, db: string): (r: Option<string>)
    ensures r.Some? <==> db in m.topics
    ensures r.Some? ==> r.value == m.topics[db]
  {
    if db in m.topics then Some(m.topics[db]) else None
  }

  /** The second half of `learnTypeByTopic`, on the prepared world. When it
      learns and no topic is left unlearned, the current topic becomes null and
      the call returns. Otherwise it picks an unlearned topic, makes it available
      when the store holds formats for it (a topic the store lacks is a
      NullPointerException), and records it for the database; the learner then
      answers on the topic, and `taught` is the type store once that answer is
      parsed. Either way the current topic becomes the one recorded. */
  function Choose<F>(p: World<F>, db: string, execDatabaseNum: int, d: Draws, taught: map<string, seq<F>>)
    : (r: Result<World<F>>)
    requires Enumerates(d.order, p.manager.pool.Keys)
  {
    if Learns(d.rare, execDatabaseNum) then
      var candidates := Unlearned(p.manager.pool, d.order);
      if |candidates| == 0 then
        Success(p.(manager := p.manager.(curTopic := None)))
      else
        var topic := candidates[d.pick % |candidates|];
        if topic !in p.fragments then Failure(NullValue)
        else
          var available := if |p.fragments[topic]| != 0 then p.available[topic := true] else p.available;
          var m := SetTopic(p.manager, db, topic).(curTopic := Some(topic));
          Success(World(m.(curTopic := Recorded(m, db)), taught, available))
    else
      Success(p.(manager := p.manager.(curTopic := Recorded(p.manager, db))))
  }

  /** `learnTypeByTopic`: prepare the pool and the store, then choose. */
  function LearnTypeByTopic<F>(w: World<F>, db: string, execDatabaseNum: int,
                               learned: map<string, seq<F>>, d: Draws, taught: map<string, seq<F>>)
    : Result<World<F>>
    requires Enumerates(d.order, Prepare(w, learned).manager.pool.Keys)
  {
    Choose(Prepare(w, learned), db, execDatabaseNum, d, taught)
  }

  /** When the call does not learn, nothing is recorded or marked learned, and
      the current topic is the one recorded for the database. */
  lemma KeepsTopic<F>(p: World<F>, db: string, execDatabaseNum: int, d: Draws, taught: map<string, seq<F>>)
    requires Enumerates(d.order, p.manager.pool.Keys)
    requires !Learns(d.rare, execDatabaseNum)
    ensures var r := Choose(p, db, execDatabaseNum, d, taught);
            && r.Success?
            && r.value.manager.topics == p.manager.topics
            && r.value.manager.pool == p.manager.pool
            && r.value.manager.curTopic == Recorded(p.manager, db)
  {
  }

  /** When the call learns and every topic is learned, the current topic is
      null, whatever is recorded for the database, and nothing else changes. */
  lemma AllLearned<F>(p: World<F>, db: string, execDatabaseNum: int, d: Draws, taught: map<string, seq<F>>)
    requires Enumerates(d.order, p.manager.pool.Keys)
    requires Learns(d.rare, execDatabaseNum)
    requires forall k :: k in p.manager.pool ==> p.manager.pool[k]
    ensures var r := Choose(p, db, execDatabaseNum, d, taught);
            && r.Success?
            && r.value.manager.curTopic.None?
            && r.value.manager.topics == p.manager.topics
            && r.value.manager.pool == p.manager.pool
  {
    NoneUnlearned(p.manager.pool, d.order);
  }

  lemma NoneUnlearned(pool: map<string, bool>, order: seq<string>)
    requires forall k :: k in pool ==> pool[k]
    ensures Unlearned(pool, order) == []
  {
    var u := Unlearned(pool, order);
    if |u| > 0 {
      LearnedNotUnlearned(pool, order, u[0]);
    }
  }

  lemma LearnedNotUnlearned(pool: map<string, bool>, order: seq<string>, k: string)
    requires k in pool && pool[k]
    ensures k !in Unlearned(pool, order)
  {
  }

  /** When the call learns a topic, that topic was unlearned in the prepared
      pool; it is now learned, recorded for the database and current; it is
      available when the store holds formats for it, and every other topic
      keeps its pool entry and its availability. */
  lemma PicksUnlearned<F>(p: World<F>, db: string, execDatabaseNum: int, d: Draws, taught: map<string, seq<F>>)
    requires Enumerates(d.order, p.manager.pool.Keys)
    requires Learns(d.rare, execDatabaseNum)
    ensures var r := Choose(p, db, execDatabaseNum, d, taught);
            r.Success? && r.value.manager.curTopic.Some? ==>
              var t := r.value.manager.curTopic.value;
              && t in p.manager.pool && !p.manager.pool[t]
              && r.value.manager.pool == p.manager.pool[t := true]
              && r.value.manager.topics == p.manager.topics[db := t]
              && t in p.fragments && r.value.fragments == taught
              && (|p.fragments[t]| != 0 ==> t in r.value.available && r.value.available[t])
              && (|p.fragments[t]| == 0 ==> r.value.available == p.available)
              && forall k :: k in p.available && k != t ==> k in r.value.available && r.value.available[k] == p.available[k]
  {
    var candidates := Unlearned(p.manager.pool, d.order);
    if |candidates| > 0 {
      var topic := candidates[d.pick % |candidates|];
      assert topic in candidates;
    }
  }

  /** Every unlearned topic of the store is picked by some draw. */
  lemma EveryUnlearnedReachable<F>(p: World<F>, db: string, execDatabaseNum: int, d: Draws, t: string,
                                   taught: map<string, seq<F>>)
    returns (pick: nat)
    requires Enumerates(d.order, p.manager.pool.Keys)
    requires Learns(d.rare, execDatabaseNum)
    requires t in p.manager.pool && !p.manager.pool[t] && t in p.fragments
    ensures var r := Choose(p, db, execDatabaseNum, d.(pick := pick), taught);
            r.Success? && r.value.manager.curTopic == Some(t)
  {
    var candidates := Unlearned(p.manager.pool, d.order);
    pick := Position(candidates, t);
    ChooseAt(p, db, execDatabaseNum, d.(pick := pick), t, taught);
  }

  lemma ChooseAt<F>(p: World<F>, db: string, execDatabaseNum: int, d: Draws, t: string,
                    taught: map<string, seq<F>>)
    requires Enumerates(d.order, p.manager.pool.Keys)
    requires Learns(d.rare, execDatabaseNum)
    requires d.pick < |Unlearned(p.manager.pool, d.order)| && Unlearned(p.manager.pool, d.order)[d.pick] == t
    requires t in p.fragments
    ensures var r := Choose(p, db, execDatabaseNum, d, taught);
            r.Success? && r.value.manager.curTopic == Some(t)
  {
    var candidates := Unlearned(p.manager.pool, d.order);
    assert d.pick % |candidates| == d.pick;
  }

  /** A position at which `t` occurs in `s`. */
  lemma Position(s: seq<string>, t: string) returns (i: nat)
    requires t in s
    ensures i < |s| && s[i] == t
  {
    i :| 0 <= i < |s| && s[i] == t;
  }

  /** The first learning call of a fresh pool never reads a topic the store
      lacks, and it picks a topic exactly when the (possibly refilled) store
      has one. */
  lemma FirstLearnPicks<F>(w: World<F>, db: string, learned: map<string, seq<F>>, d: Draws,
                           taught: map<string, seq<F>>)
    requires |w.manager.pool| == 0
    requires Enumerates(d.order, Prepare(w, learned).manager.pool.Keys)
    ensures var r := LearnTypeByTopic(w, db, 0, learned, d, taught);
            && r.Success?
            && (r.value.manager.curTopic.Some? <==> |Prepare(w, learned).fragments| > 0)
  {
    var p := Prepare(w, learned);
    PrepareFreshPool(w, learned);
    var candidates := Unlearned(p.manager.pool, d.order);
    if |p.fragments| > 0 {
      var k :| k in p.fragments;
      assert k in candidates;
      var topic := candidates[d.pick % |candidates|];
      assert topic in candidates;
    } else {
      AllLearned(p, db, 0, d, taught);
    }
  }

  /** Learning never forgets: every known topic stays in the pool, and a
      learned one stays learned. */
  lemma LearnedStaysLearned<F>(w: World<F>, db: string, execDatabaseNum: int,
                               learned: map<string, seq<F>>, d: Draws, k: string, taught: map<string, seq<F>>)
    requires Enumerates(d.order, Prepare(w, learned).manager.pool.Keys)
    requires k in w.manager.pool
    ensures var r := LearnTypeByTopic(w, db, execDatabaseNum, learned, d, taught);
            r.Success? ==> k in r.value.manager.pool && (w.manager.pool[k] ==> r.value.manager.pool[k])
  {
    ChooseKeepsLearned(Prepare(w, learned), db, execDatabaseNum, d, k, taught);
  }

  lemma ChooseKeepsLearned<F>(p: World<F>, db: string, execDatabaseNum: int, d: Draws, k: string,
                              taught: map<string, seq<F>>)
    requires Enumerates(d.order, p.manager.pool.Keys)
    requires k in p.manager.pool
    ensures var r := Choose(p, db, execDatabaseNum, d, taught);
            r.Success? ==> k in r.value.manager.pool && (p.manager.pool[k] ==> r.value.manager.pool[k])
  {
  }
}

/** `GeneralTemplateLearner.process`: the learner's reply is cut into lines,
    its first and last lines (the fences around the answer) are dropped, and
    every line in between is kept with a newline after it. */
module TemplateLearner {
  import opened Text

  /** Each line followed by a newline, in order. */
  function Lines(rows: seq<string>): string
    decreases |rows|
  {
    if |rows| == 0 then "" else rows[0] + "\n" + Lines(rows[1..])
  }

  /** The rows strictly between the first and the last. */
  function Inner(rows: seq<string>): (r: seq<string>)
    ensures |rows| < 3 ==> r == []
    ensures |rows| >= 2 ==> |r| == |rows| - 2 && forall i :: 0 <= i < |r| ==> r[i] == rows[i + 1]
  {
    if |rows| < 2 then [] else rows[1..|rows| - 1]
  }

  /** `process`, with the lines of `response.split("\n")`. */
  function Process(response: string): (r: string)
    ensures |Split(response, '\n')| < 3 ==> r == ""
    ensures Pieces(r, '\n') == Inner(Split(response, '\n')) + [""]
  {
    var rows := Inner(Split(response, '\n'));
    LinesPieces(rows);
    Lines(rows)
  }

  /** A line without newlines followed by one is found again as the first piece. */
  lemma FirstLine(a: string, rest: string)
    requires '\n' !in a
    ensures Pieces(a + "\n" + rest, '\n') == [a] + Pieces(rest, '\n')
  {
    var s := a + "\n" + rest;
    var i := IndexOf(s, '\n');
    assert s[|a|] == '\n';
    assert forall j :: 0 <= j < |a| ==> s[j] == a[j];
    assert i == |a|;
    PiecesUnfold(s, '\n');
    assert s[..i] == a;
    assert s[i + 1..] == rest;
  }

  lemma LinesCons(rows: seq<string>)
    requires |rows| > 0
    ensures Lines(rows) == rows[0] + "\n" + Lines(rows[1..])
  {
  }

  lemma ConsLast(rows: seq<string>)
    requires |rows| > 0
    ensures [rows[0]] + (rows[1..] + [""]) == rows + [""]
  {
    assert [rows[0]] + rows[1..] == rows;
  }

  /** Cutting the kept text at its newlines gives back the kept lines, in
      order, and the empty piece after the final newline. */
  lemma {:induction false} LinesPieces(rows: seq<string>)
    requires forall i :: 0 <= i < |rows| ==> '\n' !in rows[i]
    ensures Pieces(Lines(rows), '\n') == rows + [""]
    decreases |rows|
  {
    if |rows| > 0 {
      var rest := rows[1..];
      assert forall i :: 0 <= i < |rest| ==> rest[i] == rows[i + 1];
      LinesPieces(rest);
      LinesCons(rows);
      FirstLine(rows[0], Lines(rest));
      ConsLast(rows);
    }
  }

  /** The kept text has one character per character of the kept lines and one
      newline per kept line. */
  lemma {:induction false} LinesLength(rows: seq<string>)
    ensures |Lines(rows)| == |rows| + TotalLength(rows)
    decreases |rows|
  {
    if |rows| > 0 {
      LinesLength(rows[1..]);
    }
  }

  function TotalLength(rows: seq<string>): nat
    decreases |rows|
  {
    if |rows| == 0 then 0 else |rows[0]| + TotalLength(rows[1..])
  }

  /** A reply of three lines or more yields text that ends with a newline and
      holds the second line of the reply at its start. */
  lemma KeepsSecondLine(response: string)
    requires |Split(response, '\n')| >= 3
    ensures var r := Process(response);
            |r| > 0 && r[|r| - 1] == '\n' && r[..|Split(response, '\n')[1]|] == Split(response, '\n')[1]
  {
    var rows := Inner(Split(response, '\n'));
    LinesEnd(rows);
  }

  lemma {:induction false} LinesEnd(rows: seq<string>)
    requires |rows| > 0
    ensures var r := Lines(rows);
            |r| > 0 && r[|r| - 1] == '\n' && r[..|rows[0]|] == rows[0]
    decreases |rows|
  {
    if |rows| > 1 {
      LinesEnd(rows[1..]);
    }
  }
}
