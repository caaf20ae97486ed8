/** Failure-compatible wrappers shared by every component, the failure kinds the
    generator and the oracles raise, and the two generic shapes that recur in the
    source: a rejection loop over random draws and the enumeration order of a hash map. */
module Base {

  /** A value that may be missing; stands for a Java reference that may be null. */
  datatype Option<+T> = None | Some(value: T) {
    predicate IsFailure() { None? }

    function PropagateFailure<U>(): Option<U>
      requires None?
    {
      None
    }

    function Extract(): T
      requires Some?
    {
      value
    }
  }

  /** Why an operation did not produce a value, named after the Java exception it stands for. */
  datatype Fault =
    | NullValue            // a NullPointerException on a missing map entry
    | EmptyChoice          // Randomly.fromList on an empty list
    | OutOfRange           // List.get or an array index past the end
    | BadNumber            // NumberFormatException from Integer.parseInt
    | UnknownName          // IllegalArgumentException from an enum valueOf
    | BadFormat            // a fragment format String.format rejects
    | DdlFragment          // a statement fragment containing CREATE, DROP or ALTER
    | OutOfChoices         // the random draws were used up (fuel of the rejection loops)
    | BadReplacement       // Matcher.appendReplacement on a `$` or backslash it cannot interpret
    | Ignore               // IgnoreMeException: the test case is discarded
    | SqlFailure(msg: string)
    | Assertion(msg: string)

  datatype Result<+T> = Success(value: T) | Failure(error: Fault) {
    predicate IsFailure() { Failure? }

    function PropagateFailure<U>(): Result<U>
      requires Failure?
    {
      Failure(error)
    }

    function Extract(): T
      requires Success?
    {
      value
    }
  }

  /** Position of the first draw that the acceptance test lets through, or None when
      every draw is rejected (the draws are the fuel of a `while (true)` rejection loop). */
  function FirstAccepted<T>(draws: seq<T>, accept: T -> bool): (r: Option<nat>)
    ensures r.Some? ==> r.value < |draws| && accept(draws[r.value])
    ensures r.Some? ==> forall j :: 0 <= j < r.value ==> !accept(draws[j])
    ensures r.None? <==> forall i :: 0 <= i < |draws| ==> !accept(draws[i])
  {
    if |draws| == 0 then None
    else if accept(draws[0]) then Some(0)
    else
      match FirstAccepted(draws[1..], accept)
      case None => None
      case Some(i) => Some(i + 1)
  }

  /** `order` lists the keys of a hash map once each: the iteration order of the map. */
  predicate Enumerates<K(==,!new)>(order: seq<K>, keys: set<K>) {
    && (forall i :: 0 <= i < |order| ==> order[i] in keys)
    && (forall k :: k in keys ==> k in order)
    && (forall i, j :: 0 <= i < j < |order| ==> order[i] != order[j])
  }

  /** The keys of `m`, in the order given by `order`, that satisfy `p`. */
  function FilterKeys<K(==,!new)>(order: seq<K>, p: K -> bool): (r: seq<K>)
    ensures forall k :: k in r <==> k in order && p(k)
    ensures |r| <= |order|
  {
    if |order| == 0 then []
    else (if p(order[0]) then [order[0]] else []) + FilterKeys(order[1..], p)
  }

  /** A filter every key passes keeps the whole order. */
  lemma {:induction false} FilterKeysAll<K(!new)>(order: seq<K>, p: K -> bool)
    requires forall i :: 0 <= i < |order| ==> p(order[i])
    ensures FilterKeys(order, p) == order
  {
    if |order| > 0 {
      FilterKeysAll(order[1..], p);
      assert [order[0]] + order[1..] == order;
    }
  }

  /** One round of a rejection loop: the list position `Randomly.fromList` picks,
      and the small-probability coin the loop also demands. A position past the
      end of the list never comes up; the loop treats it as a rejected round. */
  datatype Draw = Draw(pick: nat, coin: bool)

  /** `do { x = Randomly.fromList(xs); } while (!ok(x) || !coin)`: the first
      candidate drawn that `ok` accepts on a true coin. Drawing from an empty list
      throws; running out of draws is running out of fuel. */
  function PickFrom<T>(xs: seq<T>, ok: T -> bool, draws: seq<Draw>): (r: Result<T>)
    ensures |xs| == 0 ==> r == Failure(EmptyChoice)
    ensures r.Success? ==> r.value in xs && ok(r.value)
    ensures |xs| > 0 && r.Failure? ==> r.error == OutOfChoices
    decreases |draws|
  {
    if |xs| == 0 then Failure(EmptyChoice)
    else if |draws| == 0 then Failure(OutOfChoices)
    else if draws[0].pick < |xs| && draws[0].coin && ok(xs[draws[0].pick]) then Success(xs[draws[0].pick])
    else PickFrom(xs, ok, draws[1..])
  }

  /** Whether a draw ends the loop: a true coin and an acceptable pick. */
  predicate Accepts<T>(xs: seq<T>, ok: T -> bool, d: Draw) {
    d.pick < |xs| && d.coin && ok(xs[d.pick])
  }

  /** The loop runs out of draws exactly when it accepts none of them, and
      otherwise yields the pick of the first draw it accepts. */
  lemma {:induction false} PickFromFirst<T>(xs: seq<T>, ok: T -> bool, draws: seq<Draw>)
    requires |xs| > 0
    ensures PickFrom(xs, ok, draws).Failure? <==> forall i :: 0 <= i < |draws| ==> !Accepts(xs, ok, draws[i])
    ensures forall i :: 0 <= i < |draws| && Accepts(xs, ok, draws[i])
                        && (forall j :: 0 <= j < i ==> !Accepts(xs, ok, draws[j])) ==>
                        PickFrom(xs, ok, draws) == Success(xs[draws[i].pick])
    decreases |draws|
  {
    if |draws| > 0 {
      PickFromFirst(xs, ok, draws[1..]);
      forall i | 1 <= i < |draws|
        ensures draws[1..][i - 1] == draws[i]
      {
      }
      if !Accepts(xs, ok, draws[0]) && forall i :: 1 <= i < |draws| ==> !Accepts(xs, ok, draws[i]) {
        assert forall i :: 0 <= i < |draws[1..]| ==> !Accepts(xs, ok, draws[1..][i]);
      }
    }
  }

  /** Every acceptable candidate can come out of the loop: a single draw that
      picks it on a true coin does. */
  lemma PickFromReaches<T>(xs: seq<T>, ok: T -> bool, i: nat)
    requires i < |xs| && ok(xs[i])
    ensures PickFrom(xs, ok, [Draw(i, true)]) == Success(xs[i])
  {
  }

  /** The state after applying `f` to each element in order. */
  function Fold<S, T>(s: S, xs: seq<T>, f: (S, T) -> S): S
    decreases |xs|
  {
    if |xs| == 0 then s else Fold(f(s, xs[0]), xs[1..], f)
  }

  /** Folding over two lists in turn is folding over their concatenation. */
  lemma {:induction false} FoldAppend<S, T>(s: S, a: seq<T>, b: seq<T>, f: (S, T) -> S)
    ensures Fold(Fold(s, a, f), b, f) == Fold(s, a + b, f)
    decreases |a|
  {
    if |a| == 0 {
      assert a + b == b;
    } else {
      FoldAppend(f(s, a[0]), a[1..], b, f);
      assert (a + b)[1..] == a[1..] + b;
    }
  }

  /** `putAll` of the entries in order: a later entry for a name overrides an
      earlier one and the map's own. */
  function PutAll<V>(m: map<string, V>, entries: seq<(string, V)>): (r: map<string, V>)
    decreases |entries|
  {
    if |entries| == 0 then m
    else PutAll(m, entries[..|entries| - 1])[entries[|entries| - 1].0 := entries[|entries| - 1].1]
  }

  /** The names after `putAll`: the map's and the entries'. The value of a name
      the entries do not mention is kept; the value of one they do is the value
      of its last entry. */
  lemma {:induction false} PutAllEntries<V>(m: map<string, V>, entries: seq<(string, V)>, k: string)
    ensures k in PutAll(m, entries) <==> k in m || exists i :: 0 <= i < |entries| && entries[i].0 == k
    ensures (forall i :: 0 <= i < |entries| ==> entries[i].0 != k) && k in m ==> PutAll(m, entries)[k] == m[k]
    ensures forall i :: (0 <= i < |entries| && entries[i].0 == k &&
                         forall j :: i < j < |entries| ==> entries[j].0 != k) ==> PutAll(m, entries)[k] == entries[i].1
    decreases |entries|
  {
    if |entries| > 0 {
      var n := |entries| - 1;
      PutAllEntries(m, entries[..n], k);
      assert forall i :: 0 <= i < n ==> entries[..n][i] == entries[i];
    }
  }

  /** The position of the last entry for `name`, at or after `i`. */
  lemma {:induction false} LastEntry<V>(es: seq<(string, V)>, name: string, i: nat) returns (last: nat)
    requires i < |es| && es[i].0 == name
    ensures i <= last < |es| && es[last].0 == name
    ensures forall j :: last < j < |es| ==> es[j].0 != name
    decreases |es| - i
  {
    if exists j :: i < j < |es| && es[j].0 == name {
      var j :| i < j < |es| && es[j].0 == name;
      last := LastEntry(es, name, j);
    } else {
      last := i;
    }
  }

  /** `putAll` of two batches is `putAll` of both in sequence. */
  lemma {:induction false} PutAllAppend<V>(m: map<string, V>, a: seq<(string, V)>, b: seq<(string, V)>)
    ensures PutAll(PutAll(m, a), b) == PutAll(m, a + b)
    decreases |b|
  {
    if |b| == 0 {
      assert a + b == a;
    } else {
      PutAllAppend(m, a, b[..|b| - 1]);
      assert (a + b)[..|a + b| - 1] == a + b[..|b| - 1];
    }
  }
}
