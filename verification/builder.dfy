/** Statement text assembly (`GeneralStringBuilder`) and the test-object
    substitution of the session state (`replaceTestObject`): sketch holes are
    filled from a fragment store, and the stand-in names of the sketch
    (`TEST_TABLE`, `TEST_COLUMN0`, ...) are replaced by the objects of the
    statement being generated. */
module Builder {
  import opened Base
  import opened Text
  import opened Features
  import opened Controller
  import opened Fragments

  /** The names the current statement stands in for, with the hash map's
      iteration order. */
  datatype TestObjects = TestObjects(names: map<string, string>, order: seq<string>)

  predicate ValidObjects(t: TestObjects) {
    Enumerates(t.order, t.names.Keys)
  }

  /** Every entry replaced in turn, in the given order. */
  function ReplaceAll(s: string, names: map<string, string>, order: seq<string>): string
    requires forall i :: 0 <= i < |order| ==> order[i] in names
    decreases |order|
  {
    if |order| == 0 then s
    else ReplaceAll(Replace(s, order[0], names[order[0]]), names, order[1..])
  }

  /** `replaceTestObject`: the text itself when no test object is set, otherwise
      the text with every occurrence of each stand-in replaced by its object, the
      stand-ins taken in iteration order. */
  function ReplaceTestObject(s: string, t: TestObjects): (r: string)
    requires ValidObjects(t)
    ensures |t.names| == 0 ==> r == s
    ensures t.order == [] ==> r == s
    ensures |t.order| == 1 ==> r == Replace(s, t.order[0], t.names[t.order[0]])
  {
    if |t.names| == 0 then s
    else
      var r := ReplaceAll(s, t.names, t.order);
      assert |t.order| == 1 ==>
        t.order[1..] == [] && r == ReplaceAll(Replace(s, t.order[0], t.names[t.order[0]]), t.names, []);
      r
  }

  /** Text mentioning none of the stand-ins is left exactly as it was. */
  lemma {:induction false} ReplaceAllAbsent(s: string, names: map<string, string>, order: seq<string>)
    requires forall i :: 0 <= i < |order| ==> order[i] in names && |order[i]| > 0 && !Contains(s, order[i])
    ensures ReplaceAll(s, names, order) == s
    decreases |order|
  {
    if |order| > 0 {
      ReplaceAbsent(s, order[0], names[order[0]]);
      ReplaceAllAbsent(s, names, order[1..]);
    }
  }

  /** `replaceTestObject` leaves a text without stand-ins unchanged. */
  lemma ReplaceTestObjectAbsent(s: string, t: TestObjects)
    requires ValidObjects(t)
    requires forall k :: k in t.names ==> |k| > 0 && !Contains(s, k)
    ensures ReplaceTestObject(s, t) == s
  {
    if |t.names| > 0 {
      ReplaceAllAbsent(s, t.names, t.order);
    }
  }

  /** A stand-in that is its own object changes nothing. */
  lemma ReplaceTestObjectSelf(s: string, k: string)
    requires |k| > 0
    ensures ReplaceTestObject(s, TestObjects(map[k := k], [k])) == s
  {
    ReplaceSelf(s, k);
  }

  // ---------------------------------------------------------------------------
  // The builder

  /** The text so far, and whether holes are filled only on a coin flip. */
  datatype Builder = Builder(text: string, couldRandom: bool)

  /** The two-argument constructor: holes are filled at random. */
  const NewBuilder: Builder := Builder("", true)

  /** The three-argument constructor. */
  function NewBuilderWith(couldRandom: bool): (b: Builder)
    ensures b.text == "" && b.couldRandom == couldRandom
  {
    Builder("", couldRandom)
  }

  /** `append(String)` and `append(Object)`: exactly the given text is added. */
  function Append(b: Builder, str: string): (r: Builder)
    ensures r.text == b.text + str && |r.text| == |b.text| + |str|
    ensures r.couldRandom == b.couldRandom
  {
    b.(text := b.text + str)
  }

  /** Whether a hole is filled: always in sketch mode or when randomness is off,
      otherwise on the coin. */
  predicate TakesHole(learn: bool, couldRandom: bool, coin: bool) {
    learn || !couldRandom || coin
  }

  /** `append(obj, index)`: the text `obj` comes first; then, if the hole is taken,
      the fragment the store hands out for the hole, after test-object
      substitution. Only a taken hole can record a fragment choice. */
  function AppendHole(b: Builder, obj: string, index: int, store: Store, coin: bool, pick: nat,
                      value: FragmentVar -> string, rec: Record, t: TestObjects): (r: (Builder, Record))
    requires WellFormed(store) && ValidObjects(t)
    ensures StartsWith(r.0.text, b.text + obj)
    ensures r.0.couldRandom == b.couldRandom
    ensures r.1.nodes == rec.nodes && r.1.composites == rec.composites
    ensures !TakesHole(store.learn, b.couldRandom, coin) ==> r.0.text == b.text + obj && r.1 == rec
    ensures TakesHole(store.learn, b.couldRandom, coin) ==>
              var got := Get(store, index, pick, value, rec);
              r.0.text == b.text + obj + ReplaceTestObject(got.0, t) && r.1 == got.1
  {
    var b' := Append(b, obj);
    if TakesHole(store.learn, b.couldRandom, coin) then
      var got := Get(store, index, pick, value, rec);
      assert (b.text + obj + ReplaceTestObject(got.0, t))[..|b.text + obj|] == b.text + obj;
      (Append(b', ReplaceTestObject(got.0, t)), got.1)
    else (b', rec)
  }

  /** In sketch mode with no test objects set, a hole always shows its own
      placeholder and nothing is recorded. */
  lemma SketchShowsPlaceholder(b: Builder, obj: string, index: int, store: Store, coin: bool, pick: nat,
                               value: FragmentVar -> string, rec: Record)
    requires WellFormed(store) && store.learn
    ensures AppendHole(b, obj, index, store, coin, pick, value, rec, TestObjects(map[], []))
            == (Builder(b.text + obj + PlaceHolder(index), b.couldRandom), rec)
  {
  }

  /** With randomness off every hole is taken, whatever the coin says. */
  lemma FixedBuilderTakesEveryHole(b: Builder, obj: string, index: int, store: Store, pick: nat,
                                   value: FragmentVar -> string, rec: Record, t: TestObjects)
    requires WellFormed(store) && ValidObjects(t) && !b.couldRandom
    ensures AppendHole(b, obj, index, store, true, pick, value, rec, t)
            == AppendHole(b, obj, index, store, false, pick, value, rec, t)
  {
  }
}
