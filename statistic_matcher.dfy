/** Comparison of the expected spread of types with the spread actually observed. */
module Matching {
  import opened Sequences
  import opened LinkedMaps
  import opened Messages

  /** Map.getOrDefault(t, 0). */
  function GetOrZero(m: map<MessageType, int>, t: MessageType): int
  {
    if t in m then m[t] else 0
  }

  /** How many more of `t` the expected spread asks for than were observed. */
  function Difference(expected: map<MessageType, int>, actual: map<MessageType, int>, t: MessageType): int
    requires t in expected
  {
    expected[t] - GetOrZero(actual, t)
  }

  /** The types of `order` whose difference is positive, in the order of `order`. */
  function Underserved(order: seq<MessageType>, expected: map<MessageType, int>, actual: map<MessageType, int>): (r: seq<MessageType>)
    requires forall t :: t in order ==> t in expected
    ensures forall t :: t in r ==> t in order && Difference(expected, actual, t) > 0
  {
    if order == [] then []
    else
      var init, t := order[..|order| - 1], order[|order| - 1];
      Underserved(init, expected, actual) + (if Difference(expected, actual, t) > 0 then [t] else [])
  }

  /** The types of `order` whose difference is not positive, in the order of `order`. */
  function Satisfied(order: seq<MessageType>, expected: map<MessageType, int>, actual: map<MessageType, int>): (r: seq<MessageType>)
    requires forall t :: t in order ==> t in expected
    ensures forall t :: t in r ==> t in order && Difference(expected, actual, t) <= 0
  {
    if order == [] then []
    else
      var init, t := order[..|order| - 1], order[|order| - 1];
      Satisfied(init, expected, actual) + (if Difference(expected, actual, t) > 0 then [] else [t])
  }

  /** An element is selected exactly when it is in `order` and under-served. */
  lemma {:induction false} UnderservedMembers(order: seq<MessageType>, expected: map<MessageType, int>, actual: map<MessageType, int>)
    requires forall t :: t in order ==> t in expected
    ensures forall t :: t in Underserved(order, expected, actual) <==> t in order && Difference(expected, actual, t) > 0
    ensures forall t :: t in Satisfied(order, expected, actual) <==> t in order && Difference(expected, actual, t) <= 0
  {
    if order != [] {
      var init, t := order[..|order| - 1], order[|order| - 1];
      assert order == init + [t];
      UnderservedMembers(init, expected, actual);
    }
  }

  /** UnderservedMembers for a single type. */
  lemma {:induction false} MemberOfParts(
    order: seq<MessageType>, expected: map<MessageType, int>, actual: map<MessageType, int>, t: MessageType)
    requires forall u :: u in order ==> u in expected
    ensures t in Underserved(order, expected, actual) <==> t in order && Difference(expected, actual, t) > 0
    ensures t in Satisfied(order, expected, actual) <==> t in order && Difference(expected, actual, t) <= 0
  {
    if order != [] {
      var init := order[..|order| - 1];
      assert order == init + [order[|order| - 1]];
      MemberOfParts(init, expected, actual, t);
    }
  }

  /** The two parts split `order`: together they are as long, and neither repeats an element. */
  lemma {:induction false} PartsPartition(order: seq<MessageType>, expected: map<MessageType, int>, actual: map<MessageType, int>)
    requires forall t :: t in order ==> t in expected
    ensures |Underserved(order, expected, actual)| + |Satisfied(order, expected, actual)| == |order|
    ensures Distinct(order) ==> Distinct(Underserved(order, expected, actual)) && Distinct(Satisfied(order, expected, actual))
  {
    if order != [] {
      var init, t := order[..|order| - 1], order[|order| - 1];
      assert order == init + [t];
      PartsPartition(init, expected, actual);
      if Distinct(order) {
        assert t !in init;
        assert Distinct(init);
      }
    }
  }

  /**
   * StatisticMatcher.calculate: for every type of the expected spread, in its
   * iteration order, put `expected - actual(default 0)` when that is positive.
   */
  method Calculate(expectedSpreading: LinkedMap<MessageType, int>, actualSpreading: map<MessageType, int>)
    returns (recommendation: LinkedMap<MessageType, int>)
    requires expectedSpreading.Valid()
    ensures recommendation.Valid()
    ensures recommendation.keys == Underserved(expectedSpreading.keys, expectedSpreading.entries, actualSpreading)
    ensures forall t :: t in recommendation.entries <==>
      t in expectedSpreading.entries && Difference(expectedSpreading.entries, actualSpreading, t) > 0
    ensures forall t :: t in recommendation.entries ==>
      recommendation.entries[t] == Difference(expectedSpreading.entries, actualSpreading, t) > 0
  {
    var keys, expected := expectedSpreading.keys, expectedSpreading.entries;
    recommendation := Empty();
    var i := 0;
    while i < |keys|
      invariant 0 <= i <= |keys|
      invariant SelectedSoFar(recommendation, keys, i, expected, actualSpreading)
    {
      var t := keys[i];
      var difference := Difference(expected, actualSpreading, t);
      var next := if difference > 0 then Put(recommendation, t, difference) else recommendation;
      SelectionStep(recommendation, next, keys, i, expected, actualSpreading);
      recommendation := next;
      i := i + 1;
    }
    SelectionDone(recommendation, keys, expected, actualSpreading);
  }

  /** The loop invariant of Calculate after the first `i` keys. */
  ghost predicate SelectedSoFar(
    r: LinkedMap<MessageType, int>, keys: seq<MessageType>, i: nat,
    expected: map<MessageType, int>, actual: map<MessageType, int>)
    requires i <= |keys|
    requires forall t :: t in keys ==> t in expected
  {
    && r.Valid()
    && r.keys == Underserved(keys[..i], expected, actual)
    && forall t :: t in r.entries ==> t in expected && r.entries[t] == Difference(expected, actual, t) > 0
  }

  lemma SelectionStep(
    r: LinkedMap<MessageType, int>, next: LinkedMap<MessageType, int>, keys: seq<MessageType>, i: nat,
    expected: map<MessageType, int>, actual: map<MessageType, int>)
    requires i < |keys| && Distinct(keys)
    requires forall t :: t in keys ==> t in expected
    requires SelectedSoFar(r, keys, i, expected, actual)
    requires next == if Difference(expected, actual, keys[i]) > 0
                     then Put(r, keys[i], Difference(expected, actual, keys[i])) else r
    ensures SelectedSoFar(next, keys, i + 1, expected, actual)
  {
    var t := keys[i];
    assert keys[..i + 1] == keys[..i] + [t];
    assert keys[..i + 1][..i] == keys[..i];
    assert t !in keys[..i];
  }

  lemma SelectionDone(
    r: LinkedMap<MessageType, int>, keys: seq<MessageType>,
    expected: map<MessageType, int>, actual: map<MessageType, int>)
    requires forall t :: t in keys ==> t in expected
    requires forall t :: t in expected ==> t in keys
    requires SelectedSoFar(r, keys, |keys|, expected, actual)
    ensures r.Valid()
    ensures r.keys == Underserved(keys, expected, actual)
    ensures forall t :: t in r.entries <==> t in expected && Difference(expected, actual, t) > 0
    ensures forall t :: t in r.entries ==> r.entries[t] == Difference(expected, actual, t) > 0
  {
    assert keys[..|keys|] == keys;
    UnderservedMembers(keys, expected, actual);
  }

  /** Observing exactly the expected spread leaves nothing to recommend. */
  lemma {:induction false} SameSpreadingRecommendsNothing(order: seq<MessageType>, expected: map<MessageType, int>)
    requires forall t :: t in order ==> t in expected
    ensures Underserved(order, expected, expected) == []
  {
    if order != [] {
      SameSpreadingRecommendsNothing(order[..|order| - 1], expected);
    }
  }

  /** Observing at least the expected count of every type leaves nothing to recommend. */
  lemma {:induction false} CoveredSpreadingRecommendsNothing(
    order: seq<MessageType>, expected: map<MessageType, int>, actual: map<MessageType, int>)
    requires forall t :: t in order ==> t in expected
    requires forall t :: t in expected ==> GetOrZero(actual, t) >= expected[t]
    ensures Underserved(order, expected, actual) == []
  {
    if order != [] {
      CoveredSpreadingRecommendsNothing(order[..|order| - 1], expected, actual);
    }
  }

  /** `s` lists its types by non-increasing weight. */
  ghost predicate NonIncreasing(s: seq<MessageType>, weights: map<MessageType, int>)
    requires forall t :: t in s ==> t in weights
  {
    forall i, j :: 0 <= i < j < |s| ==> weights[s[i]] >= weights[s[j]]
  }

  /** Both parts keep the weight order of `order`. */
  lemma {:induction false} PartsKeepWeightOrder(
    order: seq<MessageType>, expected: map<MessageType, int>, actual: map<MessageType, int>)
    requires forall t :: t in order ==> t in expected
    requires NonIncreasing(order, expected)
    ensures NonIncreasing(Underserved(order, expected, actual), expected)
    ensures NonIncreasing(Satisfied(order, expected, actual), expected)
  {
    if order != [] {
      var init, t := order[..|order| - 1], order[|order| - 1];
      assert order == init + [t];
      assert NonIncreasing(init, expected);
      PartsKeepWeightOrder(init, expected, actual);
      ExtendNonIncreasing(init, Underserved(init, expected, actual), t, expected);
      ExtendNonIncreasing(init, Satisfied(init, expected, actual), t, expected);
    }
  }

  /** Appending the lightest element of `order` to a selection from `order` keeps it non-increasing. */
  lemma ExtendNonIncreasing(init: seq<MessageType>, part: seq<MessageType>, t: MessageType, weights: map<MessageType, int>)
    requires forall u :: u in init + [t] ==> u in weights
    requires NonIncreasing(init + [t], weights)
    requires forall u :: u in part ==> u in init
    requires NonIncreasing(part, weights)
    ensures NonIncreasing(part + [t], weights)
  {
    var order := init + [t];
    forall i | 0 <= i < |part|
      ensures weights[part[i]] >= weights[t]
    {
      assert part[i] in part;
      assert part[i] in init;
      var k :| 0 <= k < |init| && init[k] == part[i];
      assert order[k] == part[i] && order[|order| - 1] == t;
    }
  }

  /**
   * With expected A 10, B 5, C 5 and observed A 11, B 3, C 5 only B is
   * recommended, with difference 2; with nothing observed for B and C both
   * get their full weight.
   */
  lemma MatcherExamples()
    ensures Underserved([MessageType("A"), MessageType("B"), MessageType("C")],
                        map[MessageType("A") := 10, MessageType("B") := 5, MessageType("C") := 5],
                        map[MessageType("A") := 11, MessageType("B") := 3, MessageType("C") := 5])
            == [MessageType("B")]
    ensures Difference(map[MessageType("A") := 10, MessageType("B") := 5, MessageType("C") := 5],
                       map[MessageType("A") := 11, MessageType("B") := 3, MessageType("C") := 5],
                       MessageType("B")) == 2
    ensures Underserved([MessageType("A"), MessageType("B"), MessageType("C")],
                        map[MessageType("A") := 10, MessageType("B") := 5, MessageType("C") := 5],
                        map[MessageType("A") := 11])
            == [MessageType("B"), MessageType("C")]
    ensures Difference(map[MessageType("A") := 10, MessageType("B") := 5, MessageType("C") := 5],
                       map[MessageType("A") := 11], MessageType("B")) == 5
    ensures Difference(map[MessageType("A") := 10, MessageType("B") := 5, MessageType("C") := 5],
                       map[MessageType("A") := 11], MessageType("C")) == 5
    ensures Underserved([MessageType("A"), MessageType("B"), MessageType("C")],
                        map[MessageType("A") := 10, MessageType("B") := 5, MessageType("C") := 5],
                        map[MessageType("A") := 11, MessageType("B") := 6, MessageType("C") := 5])
            == []
  {
    var a, b, c := MessageType("A"), MessageType("B"), MessageType("C");
    var order := [a, b, c];
    var expected := map[a := 10, b := 5, c := 5];
    assert order[..2] == [a, b];
    assert order[..2][..1] == [a];
    assert [a][..0] == [];
    var actual := map[a := 11, b := 3, c := 5];
    assert Underserved([a], expected, actual) == [];
    assert Underserved([a, b], expected, actual) == [b];
    var partial := map[a := 11];
    assert Underserved([a], expected, partial) == [];
    assert Underserved([a, b], expected, partial) == [b];
    var ahead := map[a := 11, b := 6, c := 5];
    assert Underserved([a], expected, ahead) == [];
    assert Underserved([a, b], expected, ahead) == [];
  }
}
