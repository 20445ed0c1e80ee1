/**
 * The weighted-fair recommender: the registered weights sorted by descending
 * weight, and a window of the most recently dispatched types whose capacity
 * is the sum of the weights.
 */
module Recommendation {
  import opened Wrappers
  import opened Sequences
  import opened LinkedMaps
  import opened Messages
  import opened Classification
  import opened Matching

  /** Why a recommender cannot be built from a configuration. */
  datatype ConfigurationError =
    | NoRegisteredTypes    // the weight map is empty: nothing to sum
    | NonPositiveCapacity  // the weights add up to zero or less: no window can be that size

  /** The sum of the weights of the types in `keys`. */
  function SumWeights(keys: seq<MessageType>, weights: map<MessageType, int>): int
    requires forall t :: t in keys ==> t in weights
  {
    if keys == [] then 0 else SumWeights(keys[..|keys| - 1], weights) + weights[keys[|keys| - 1]]
  }

  /** The sum of all weights of a map, independent of any iteration order. */
  ghost function MapSum(weights: map<MessageType, int>): int
    decreases |weights|
  {
    if weights == map[] then 0
    else
      var k :| k in weights;
      weights[k] + MapSum(weights - {k})
  }

  lemma {:induction false} MapSumRemove(weights: map<MessageType, int>, k: MessageType)
    requires k in weights
    ensures MapSum(weights) == weights[k] + MapSum(weights - {k})
    decreases |weights|
  {
    var j :| j in weights && MapSum(weights) == weights[j] + MapSum(weights - {j});
    if j != k {
      var rest := weights - {j} - {k};
      assert |weights - {j}| < |weights|;
      MapSumRemove(weights - {j}, k);
      assert |weights - {k}| < |weights|;
      MapSumRemove(weights - {k}, j);
      assert weights - {j} - {k} == weights - {k} - {j};
    }
  }

  lemma {:induction false} SumWeightsFrame(keys: seq<MessageType>, w1: map<MessageType, int>, w2: map<MessageType, int>)
    requires forall t :: t in keys ==> t in w1 && t in w2 && w1[t] == w2[t]
    ensures SumWeights(keys, w1) == SumWeights(keys, w2)
  {
    if keys != [] {
      SumWeightsFrame(keys[..|keys| - 1], w1, w2);
    }
  }

  /** Summing along any enumeration of the keys gives the sum of the map. */
  lemma {:induction false} SumWeightsIsMapSum(keys: seq<MessageType>, weights: map<MessageType, int>)
    requires Distinct(keys)
    requires forall t :: t in weights <==> t in keys
    ensures SumWeights(keys, weights) == MapSum(weights)
  {
    if keys != [] {
      var init, t := keys[..|keys| - 1], keys[|keys| - 1];
      var rest := weights - {t};
      assert Distinct(init) && forall u :: u in rest <==> u in init by {
        assert keys == init + [t];
        assert forall u :: u in init ==> u != t;
      }
      SumWeightsIsMapSum(init, rest);
      SumWeightsFrame(init, weights, rest);
      MapSumRemove(weights, t);
    }
  }

  /** A non-empty set of weighted types has a heaviest member. */
  lemma {:induction false} HeaviestExists(s: set<MessageType>, weights: map<MessageType, int>)
    requires s != {} && forall t :: t in s ==> t in weights
    ensures exists k :: k in s && forall j :: j in s ==> weights[j] <= weights[k]
    decreases |s|
  {
    var x :| x in s;
    if s != {x} {
      var rest := s - {x};
      HeaviestExists(rest, weights);
      var k :| k in rest && forall j :: j in rest ==> weights[j] <= weights[k];
      if weights[x] > weights[k] {
        assert forall j :: j in s ==> weights[j] <= weights[x];
      } else {
        assert forall j :: j in s ==> weights[j] <= weights[k];
      }
    }
  }

  /**
   * The constructor's sort: the entries of `weights` by descending weight.
   * The order among equal weights is left open, as the source sorts the
   * entries of a HashMap whose iteration order is unspecified.
   */
  method SortByWeightDescending(weights: map<MessageType, int>) returns (sorted: LinkedMap<MessageType, int>)
    ensures sorted.Valid()
    ensures sorted.entries == weights
    ensures NonIncreasing(sorted.keys, weights)
  {
    var keys: seq<MessageType> := [];
    var remaining := weights.Keys;
    while remaining != {}
      invariant remaining <= weights.Keys
      invariant Distinct(keys)
      invariant forall t :: t in keys <==> t in weights && t !in remaining
      invariant forall t :: t in keys ==> t in weights
      invariant NonIncreasing(keys, weights)
      invariant forall i, j :: 0 <= i < |keys| && j in remaining ==> weights[keys[i]] >= weights[j]
      decreases remaining
    {
      HeaviestExists(remaining, weights);
      var k :| k in remaining && forall j :: j in remaining ==> weights[j] <= weights[k];
      keys := keys + [k];
      remaining := remaining - {k};
    }
    sorted := LinkedMap(keys, weights);
  }

  /** The last `n` elements of `s`, or all of it when it is shorter. */
  function LastN(s: seq<MessageType>, n: nat): (r: seq<MessageType>)
    ensures |r| <= n && |r| <= |s|
  {
    if |s| <= n then s else s[|s| - n..]
  }

  /** Appending to a history moves its window the way a full ring buffer does. */
  lemma LastNSnoc(s: seq<MessageType>, x: MessageType, n: nat)
    requires n > 0
    ensures LastN(s + [x], n) == if |LastN(s, n)| == n then LastN(s, n)[1..] + [x] else LastN(s, n) + [x]
  {
    if |s| >= n {
      assert (s + [x])[|s + [x]| - n..] == s[|s| - n..][1..] + [x];
    }
  }

  /** The spread observed in a window: how often each type occurs in it. */
  ghost function Observed(window: seq<MessageType>): map<MessageType, int>
  {
    map t | t in window :: Count(window, t)
  }

  lemma ObservedIsCount(window: seq<MessageType>, t: MessageType)
    ensures GetOrZero(Observed(window), t) == Count(window, t)
  {
    CountPositiveIffPresent(window, t);
  }

  /**
   * The recommendation for a window: the types whose weight exceeds their
   * count in the window, then every other registered type, both in the order
   * of `order`.
   */
  ghost function Recommend(order: seq<MessageType>, weights: map<MessageType, int>, window: seq<MessageType>): seq<MessageType>
    requires forall t :: t in order ==> t in weights
  {
    Underserved(order, weights, Observed(window)) + Satisfied(order, weights, Observed(window))
  }

  /** How far `t` is behind its weight in `window`. */
  function Deficit(weights: map<MessageType, int>, window: seq<MessageType>, t: MessageType): int
    requires t in weights
  {
    weights[t] - Count(window, t)
  }

  /** The window after recording `t`: the oldest entry goes when the window is full. */
  function Slide(window: seq<MessageType>, t: MessageType, capacity: nat): (w: seq<MessageType>)
    requires 0 < capacity && |window| <= capacity
    ensures |w| == if |window| == capacity then capacity else |window| + 1
    ensures w[|w| - 1] == t
    ensures w[..|w| - 1] == if |window| == capacity then window[1..] else window
  {
    if |window| == capacity then window[1..] + [t] else window + [t]
  }

  class StatisticStorageRecommender {
    /** The window of dispatched types, oldest first (a CircularFifoQueue). */
    var statistics: seq<MessageType>
    /** The window's fixed capacity: the sum of the weights. */
    const capacity: nat
    /** The registered weights, iterated by non-increasing weight. */
    const expectedSpreading: LinkedMap<MessageType, int>
    /** Every type ever added, oldest first. */
    ghost var history: seq<MessageType>

    ghost predicate Valid()
      reads this
    {
      && expectedSpreading.Valid()
      && NonIncreasing(expectedSpreading.keys, expectedSpreading.entries)
      && capacity > 0
      && capacity == SumWeights(expectedSpreading.keys, expectedSpreading.entries)
      && statistics == LastN(history, capacity)
    }

    constructor FromSorted(sorted: LinkedMap<MessageType, int>, total: nat)
      requires sorted.Valid() && NonIncreasing(sorted.keys, sorted.entries)
      requires total > 0 && total == SumWeights(sorted.keys, sorted.entries)
      ensures Valid()
      ensures expectedSpreading == sorted && capacity == total
      ensures statistics == [] && history == []
    {
      expectedSpreading := sorted;
      capacity := total;
      statistics := [];
      history := [];
    }

    /**
     * The source's constructor: sort the registered weights, size the window
     * by their sum, and fail when there is nothing to sum or the sum is not
     * a valid capacity.
     */
    static method Create(registered: map<MessageType, int>) returns (r: Result<StatisticStorageRecommender, ConfigurationError>)
      ensures r == Failure(NoRegisteredTypes) <==> registered == map[]
      ensures r == Failure(NonPositiveCapacity) <==> registered != map[] && MapSum(registered) <= 0
      ensures r.Success? ==> fresh(r.value) && r.value.Valid()
      ensures r.Success? ==> r.value.expectedSpreading.entries == registered && r.value.capacity == MapSum(registered)
      ensures r.Success? ==> r.value.statistics == [] && r.value.history == []
    {
      var sorted := SortByWeightDescending(registered);
      SumWeightsIsMapSum(sorted.keys, registered);
      if sorted.keys == [] {
        assert registered == map[];
        return Failure(NoRegisteredTypes);
      }
      assert sorted.keys[0] in registered;
      var total := SumWeights(sorted.keys, sorted.entries);
      if total <= 0 {
        return Failure(NonPositiveCapacity);
      }
      var recommender := new StatisticStorageRecommender.FromSorted(sorted, total);
      return Success(recommender);
    }

    /** Record a dispatched type, evicting the oldest one when the window is full. */
    method Add(messageType: MessageType)
      requires Valid()
      modifies this
      ensures Valid()
      ensures history == old(history) + [messageType]
      ensures statistics == Slide(old(statistics), messageType, capacity)
      ensures |statistics| <= capacity
    {
      LastNSnoc(history, messageType, capacity);
      if |statistics| == capacity {
        statistics := statistics[1..] + [messageType];
      } else {
        statistics := statistics + [messageType];
      }
      history := history + [messageType];
    }

    /**
     * makeRecommendation: count the window, keep the under-served types in
     * weight order, then append the remaining registered types (putIfAbsent).
     */
    method MakeRecommendation() returns (recommendation: seq<MessageType>)
      requires Valid()
      ensures recommendation == Recommend(expectedSpreading.keys, expectedSpreading.entries, statistics)
    {
      recommendation := RecommendFor(expectedSpreading, statistics);
    }

    /** typeIsRegistered: `t` has a weight. */
    function TypeIsRegistered(t: MessageType): (registered: bool)
      reads this
      requires Valid()
      ensures registered <==> t in expectedSpreading.keys
    {
      t in expectedSpreading.entries
    }
  }

  /**
   * The steps of makeRecommendation on a given window: count the window,
   * keep the under-served types in weight order, then append the remaining
   * registered types (putIfAbsent).
   */
  method RecommendFor(expectedSpreading: LinkedMap<MessageType, int>, statistics: seq<MessageType>)
    returns (recommendation: seq<MessageType>)
    requires expectedSpreading.Valid()
    ensures recommendation == Recommend(expectedSpreading.keys, expectedSpreading.entries, statistics)
  {
    var keys, weights := expectedSpreading.keys, expectedSpreading.entries;
    var classified := CalculateClassifiedStatistics(statistics);
    ClassifiedIsObserved(classified, statistics);
    var recommendations := Calculate(expectedSpreading, classified.entries);
    CompletionStarts(recommendations, keys, weights, Observed(statistics));
    recommendations := PutAbsent(recommendations, keys, weights, Observed(statistics));
    CompletionEnds(recommendations, keys, weights, statistics);
    recommendation := recommendations.keys;
  }

  /** The putIfAbsent pass: append, in weight order, every registered type not yet recommended. */
  method PutAbsent(r: LinkedMap<MessageType, int>, keys: seq<MessageType>,
                   weights: map<MessageType, int>, ghost observed: map<MessageType, int>)
    returns (completed: LinkedMap<MessageType, int>)
    requires Distinct(keys) && forall t :: t in keys ==> t in weights
    requires CompletedSoFar(r, keys, 0, weights, observed)
    ensures CompletedSoFar(completed, keys, |keys|, weights, observed)
  {
    completed := r;
    var i := 0;
    while i < |keys|
      invariant 0 <= i <= |keys|
      invariant CompletedSoFar(completed, keys, i, weights, observed)
    {
      var next := if keys[i] in completed.entries then completed
                  else Put(completed, keys[i], weights[keys[i]]);
      CompletionStep(completed, next, keys, i, weights, observed);
      completed := next;
      i := i + 1;
    }
  }

  lemma ClassifiedIsObserved(classified: LinkedMap<MessageType, int>, window: seq<MessageType>)
    requires forall t :: t in classified.entries <==> t in window
    requires forall t :: t in classified.entries ==> classified.entries[t] == Count(window, t)
    ensures classified.entries == Observed(window)
  {
  }

  /** The loop invariant of MakeRecommendation's putIfAbsent pass after `i` keys. */
  ghost predicate CompletedSoFar(
    r: LinkedMap<MessageType, int>, keys: seq<MessageType>, i: nat,
    weights: map<MessageType, int>, observed: map<MessageType, int>)
    requires i <= |keys|
    requires forall t :: t in keys ==> t in weights
  {
    r.Valid() && r.keys == Underserved(keys, weights, observed) + Satisfied(keys[..i], weights, observed)
  }

  lemma CompletionStarts(
    r: LinkedMap<MessageType, int>, keys: seq<MessageType>,
    weights: map<MessageType, int>, observed: map<MessageType, int>)
    requires forall t :: t in keys ==> t in weights
    requires r.Valid() && r.keys == Underserved(keys, weights, observed)
    ensures CompletedSoFar(r, keys, 0, weights, observed)
  {
    assert keys[..0] == [];
    assert r.keys + [] == r.keys;
  }

  lemma CompletionEnds(r: LinkedMap<MessageType, int>, keys: seq<MessageType>,
                       weights: map<MessageType, int>, window: seq<MessageType>)
    requires forall t :: t in keys ==> t in weights
    requires CompletedSoFar(r, keys, |keys|, weights, Observed(window))
    ensures r.keys == Recommend(keys, weights, window)
  {
    assert keys[..|keys|] == keys;
  }

  lemma CompletionStep(
    r: LinkedMap<MessageType, int>, next: LinkedMap<MessageType, int>, keys: seq<MessageType>, i: nat,
    weights: map<MessageType, int>, observed: map<MessageType, int>)
    requires i < |keys| && Distinct(keys)
    requires forall t :: t in keys ==> t in weights
    requires CompletedSoFar(r, keys, i, weights, observed)
    requires next == if keys[i] in r.entries then r else Put(r, keys[i], weights[keys[i]])
    ensures CompletedSoFar(next, keys, i + 1, weights, observed)
  {
    var t, done := keys[i], keys[..i];
    var u := Underserved(keys, weights, observed);
    assert keys[..i + 1][..i] == done && keys[..i + 1][i] == t;
    assert t !in done;
    assert forall x :: x in done ==> x in keys;
    MemberOfParts(keys, weights, observed, t);
    if Difference(weights, observed, t) > 0 {
      assert t in u;
      assert Satisfied(keys[..i + 1], weights, observed) == Satisfied(done, weights, observed);
      assert next == r;
    } else {
      MemberOfParts(done, weights, observed, t);
      assert t !in r.keys;
      assert t !in r.entries;
      assert next == Put(r, t, weights[t]);
      assert Satisfied(keys[..i + 1], weights, observed) == Satisfied(done, weights, observed) + [t];
      AppendAssociative(u, Satisfied(done, weights, observed), [t]);
    }
  }

  /** The recommendation lists every registered type exactly once. */
  lemma RecommendListsEveryTypeOnce(order: seq<MessageType>, weights: map<MessageType, int>, window: seq<MessageType>)
    requires Distinct(order)
    requires forall t :: t in order ==> t in weights
    ensures |Recommend(order, weights, window)| == |order|
    ensures Distinct(Recommend(order, weights, window))
    ensures forall t :: t in Recommend(order, weights, window) <==> t in order
  {
    var observed := Observed(window);
    var u, s := Underserved(order, weights, observed), Satisfied(order, weights, observed);
    PartsPartition(order, weights, observed);
    UnderservedMembers(order, weights, observed);
    forall i, j | 0 <= i < j < |u + s|
      ensures (u + s)[i] != (u + s)[j]
    {
      if i < |u| && j >= |u| {
        assert (u + s)[i] in u && (u + s)[j] in s;
      }
    }
  }

  /**
   * Types behind their weight come first, and within each of the two groups
   * heavier types come before lighter ones.
   */
  lemma {:induction false} RecommendPrefersDeficits(order: seq<MessageType>, weights: map<MessageType, int>, window: seq<MessageType>)
    requires forall t :: t in order ==> t in weights
    requires NonIncreasing(order, weights)
    ensures forall t :: t in Recommend(order, weights, window) ==> t in weights
    ensures forall i, j :: 0 <= i < j < |Recommend(order, weights, window)| ==>
      var r := Recommend(order, weights, window);
      (Deficit(weights, window, r[j]) > 0 ==> Deficit(weights, window, r[i]) > 0)
    ensures forall i, j :: 0 <= i < j < |Recommend(order, weights, window)| ==>
      var r := Recommend(order, weights, window);
      (Deficit(weights, window, r[i]) > 0 <==> Deficit(weights, window, r[j]) > 0) ==> weights[r[i]] >= weights[r[j]]
  {
    var observed := Observed(window);
    var u, s := Underserved(order, weights, observed), Satisfied(order, weights, observed);
    var r := u + s;
    UnderservedMembers(order, weights, observed);
    PartsKeepWeightOrder(order, weights, observed);
    forall t | t in r
      ensures Deficit(weights, window, t) > 0 <==> t in u
    {
      ObservedIsCount(window, t);
    }
    forall i, j | 0 <= i < j < |r|
      ensures Deficit(weights, window, r[j]) > 0 ==> Deficit(weights, window, r[i]) > 0
      ensures (Deficit(weights, window, r[i]) > 0 <==> Deficit(weights, window, r[j]) > 0) ==> weights[r[i]] >= weights[r[j]]
    {
      assert r[i] in r && r[j] in r;
      if j < |u| {
        assert r[i] == u[i] && r[j] == u[j];
      } else if i >= |u| {
        assert r[i] == s[i - |u|] && r[j] == s[j - |u|];
      } else {
        assert r[i] in u && r[j] in s;
      }
    }
  }

  lemma {:induction false} AllBehindAreUnderserved(order: seq<MessageType>, weights: map<MessageType, int>, actual: map<MessageType, int>)
    requires forall t :: t in order ==> t in weights && Difference(weights, actual, t) > 0
    ensures Underserved(order, weights, actual) == order
    ensures Satisfied(order, weights, actual) == []
  {
    if order != [] {
      var init := order[..|order| - 1];
      assert order == init + [order[|order| - 1]];
      AllBehindAreUnderserved(init, weights, actual);
    }
  }

  /** With an empty window the recommendation is the descending-weight order itself. */
  lemma {:induction false} ColdStartFollowsWeights(order: seq<MessageType>, weights: map<MessageType, int>)
    requires forall t :: t in order ==> t in weights
    requires NonIncreasing(order, weights)
    ensures Recommend(order, weights, []) == order
  {
    var observed: map<MessageType, int> := map[];
    assert Observed([]) == observed;
    ColdStartParts(order, weights, observed);
  }

  lemma {:induction false} ColdStartParts(order: seq<MessageType>, weights: map<MessageType, int>, observed: map<MessageType, int>)
    requires forall t :: t in order ==> t in weights
    requires NonIncreasing(order, weights)
    requires observed == map[]
    ensures Underserved(order, weights, observed) + Satisfied(order, weights, observed) == order
  {
    if order != [] {
      var init, t := order[..|order| - 1], order[|order| - 1];
      assert order == init + [t];
      if weights[t] > 0 {
        forall u | u in order
          ensures Difference(weights, observed, u) > 0
        {
          var k :| 0 <= k < |order| && order[k] == u;
          assert weights[order[k]] >= weights[t];
        }
        AllBehindAreUnderserved(order, weights, observed);
      } else {
        assert NonIncreasing(init, weights);
        ColdStartParts(init, weights, observed);
        var u, s := Underserved(init, weights, observed), Satisfied(init, weights, observed);
        assert Difference(weights, observed, t) <= 0;
        assert Underserved(order, weights, observed) == u;
        assert Satisfied(order, weights, observed) == s + [t];
        AppendAssociative(u, s, [t]);
      }
    }
  }

  lemma TailsHaveSameMembers(a: seq<MessageType>, b: seq<MessageType>)
    requires Distinct(a) && Distinct(b) && a != [] && b != [] && a[0] == b[0]
    requires forall t :: t in a <==> t in b
    ensures forall t :: t in a[1..] <==> t in b[1..]
  {
    forall t | t in a[1..]
      ensures t in b[1..]
    {
      var k :| 0 <= k < |a| - 1 && a[1..][k] == t;
      assert a[k + 1] == t && t != a[0] && t in b;
      var m :| 0 <= m < |b| && b[m] == t;
      assert b[1..][m - 1] == t;
    }
    forall t | t in b[1..]
      ensures t in a[1..]
    {
      var k :| 0 <= k < |b| - 1 && b[1..][k] == t;
      assert b[k + 1] == t && t != b[0] && t in a;
      var m :| 0 <= m < |a| && a[m] == t;
      assert a[1..][m - 1] == t;
    }
  }

  lemma SameMembersSameEmptiness(a: seq<MessageType>, b: seq<MessageType>)
    requires forall t :: t in a <==> t in b
    ensures a == [] <==> b == []
  {
    if a != [] {
      assert a[0] in a;
    }
    if b != [] {
      assert b[0] in b;
    }
  }

  lemma HeadsAgree(a: seq<MessageType>, b: seq<MessageType>, weights: map<MessageType, int>)
    requires a != [] && b != []
    requires forall t :: t in a <==> t in b
    requires forall t :: t in a ==> t in weights
    requires forall s, t :: s in a && t in a && s != t ==> weights[s] != weights[t]
    requires NonIncreasing(a, weights) && NonIncreasing(b, weights)
    ensures a[0] == b[0]
  {
    assert a[0] in a && b[0] in b;
    var i :| 0 <= i < |a| && a[i] == b[0];
    var j :| 0 <= j < |b| && b[j] == a[0];
    assert weights[a[0]] >= weights[a[i]];
    assert weights[b[0]] >= weights[b[j]];
  }

  lemma TailStaysSorted(a: seq<MessageType>, weights: map<MessageType, int>)
    requires a != [] && Distinct(a)
    requires forall t :: t in a ==> t in weights
    requires NonIncreasing(a, weights)
    ensures forall t :: t in a[1..] ==> t in a
    ensures Distinct(a[1..]) && NonIncreasing(a[1..], weights)
  {
    assert forall t :: t in a[1..] ==> t in a;
    forall i, j | 0 <= i < j < |a| - 1
      ensures weights[a[1..][i]] >= weights[a[1..][j]] && a[1..][i] != a[1..][j]
    {
      assert a[1..][i] == a[i + 1] && a[1..][j] == a[j + 1];
    }
  }

  /**
   * When no two registered types share a weight, the descending order is
   * unique: any two sorted enumerations of the same types agree.
   */
  lemma {:induction false} SortedOrderIsUnique(a: seq<MessageType>, b: seq<MessageType>, weights: map<MessageType, int>)
    requires Distinct(a) && Distinct(b)
    requires forall t :: t in a <==> t in b
    requires forall t :: t in a ==> t in weights
    requires forall s, t :: s in a && t in a && s != t ==> weights[s] != weights[t]
    requires NonIncreasing(a, weights) && NonIncreasing(b, weights)
    ensures a == b
  {
    SameMembersSameEmptiness(a, b);
    if a != [] {
      HeadsAgree(a, b, weights);
      TailsHaveSameMembers(a, b);
      var a', b' := a[1..], b[1..];
      TailStaysSorted(a, weights);
      TailStaysSorted(b, weights);
      SortedOrderIsUnique(a', b', weights);
      assert a == [a[0]] + a' && b == [b[0]] + b';
    }
  }

  const VeryImportant := MessageType("VeryImportant")
  const NotVeryImportant := MessageType("NotVeryImportant")
  const Trivial := MessageType("Trivial")

  lemma ExampleWeightsSum(weights: map<MessageType, int>)
    requires weights == map[NotVeryImportant := 5, Trivial := 2, VeryImportant := 10]
    ensures SumWeights([VeryImportant, NotVeryImportant, Trivial], weights) == 17
  {
    var order := [VeryImportant, NotVeryImportant, Trivial];
    assert order[..2] == [VeryImportant, NotVeryImportant];
    assert [VeryImportant, NotVeryImportant][..1] == [VeryImportant];
    assert [VeryImportant][..0] == [];
    assert SumWeights([VeryImportant], weights) == 10;
    assert SumWeights([VeryImportant, NotVeryImportant], weights) == 15;
  }

  lemma ExampleOrderFacts(weights: map<MessageType, int>)
    requires weights == map[NotVeryImportant := 5, Trivial := 2, VeryImportant := 10]
    ensures forall t :: t in weights <==> t in [VeryImportant, NotVeryImportant, Trivial]
    ensures NonIncreasing([VeryImportant, NotVeryImportant, Trivial], weights)
    ensures Distinct([VeryImportant, NotVeryImportant, Trivial])
    ensures forall s, t :: s in weights && t in weights && s != t ==> weights[s] != weights[t]
  {
    assert weights[VeryImportant] == 10 && weights[NotVeryImportant] == 5 && weights[Trivial] == 2;
  }

  /**
   * Registering NotVeryImportant 5, Trivial 2 and VeryImportant 10 orders
   * them VeryImportant, NotVeryImportant, Trivial, and sizes the window 17.
   */
  lemma ConstructionExample(sorted: LinkedMap<MessageType, int>)
    requires sorted.Valid()
    requires sorted.entries == map[NotVeryImportant := 5, Trivial := 2, VeryImportant := 10]
    requires NonIncreasing(sorted.keys, sorted.entries)
    ensures sorted.keys == [VeryImportant, NotVeryImportant, Trivial]
    ensures MapSum(sorted.entries) == 17
  {
    var expected := [VeryImportant, NotVeryImportant, Trivial];
    var weights := sorted.entries;
    ExampleOrderFacts(weights);
    assert forall t :: t in sorted.keys <==> t in weights;
    SortedOrderIsUnique(sorted.keys, expected, weights);
    SumWeightsIsMapSum(expected, weights);
    ExampleWeightsSum(weights);
  }

  lemma WindowCounts(window: seq<MessageType>)
    requires window == [VeryImportant, NotVeryImportant, VeryImportant, VeryImportant]
    ensures Count(window, VeryImportant) == 3
    ensures Count(window, NotVeryImportant) == 1
    ensures Count(window, Trivial) == 0
  {
    var p1, p2, p3 := [VeryImportant], [VeryImportant, NotVeryImportant], [VeryImportant, NotVeryImportant, VeryImportant];
    assert window[..3] == p3 && p3[..2] == p2 && p2[..1] == p1 && p1[..0] == [];
    assert Count(p1, VeryImportant) == 1 && Count(p1, NotVeryImportant) == 0 && Count(p1, Trivial) == 0;
    assert Count(p2, VeryImportant) == 1 && Count(p2, NotVeryImportant) == 1 && Count(p2, Trivial) == 0;
    assert Count(p3, VeryImportant) == 2 && Count(p3, NotVeryImportant) == 1 && Count(p3, Trivial) == 0;
  }

  lemma ExampleParts(weights: map<MessageType, int>, observed: map<MessageType, int>)
    requires weights == map[NotVeryImportant := 2, Trivial := 1, VeryImportant := 3]
    requires GetOrZero(observed, VeryImportant) == 3
    requires GetOrZero(observed, NotVeryImportant) == 1
    requires GetOrZero(observed, Trivial) == 0
    ensures Underserved([VeryImportant, NotVeryImportant, Trivial], weights, observed) == [NotVeryImportant, Trivial]
    ensures Satisfied([VeryImportant, NotVeryImportant, Trivial], weights, observed) == [VeryImportant]
  {
    var p1, p2, p3 := [VeryImportant], [VeryImportant, NotVeryImportant], [VeryImportant, NotVeryImportant, Trivial];
    assert p3[..2] == p2 && p2[..1] == p1 && p1[..0] == [];
    assert Underserved([], weights, observed) == [] && Satisfied([], weights, observed) == [];
    assert Difference(weights, observed, VeryImportant) == 0;
    assert Underserved(p1, weights, observed) == [] && Satisfied(p1, weights, observed) == [VeryImportant];
    assert Underserved(p2, weights, observed) == [NotVeryImportant] && Satisfied(p2, weights, observed) == [VeryImportant];
  }

  /**
   * Weights VeryImportant 3, NotVeryImportant 2, Trivial 1 and the window
   * VeryImportant, NotVeryImportant, VeryImportant, VeryImportant recommend
   * NotVeryImportant, Trivial, VeryImportant; the empty window recommends
   * the weight order.
   */
  lemma RecommendationExample(weights: map<MessageType, int>, window: seq<MessageType>)
    requires weights == map[NotVeryImportant := 2, Trivial := 1, VeryImportant := 3]
    requires window == [VeryImportant, NotVeryImportant, VeryImportant, VeryImportant]
    ensures Recommend([VeryImportant, NotVeryImportant, Trivial], weights, window) == [NotVeryImportant, Trivial, VeryImportant]
    ensures Recommend([VeryImportant, NotVeryImportant, Trivial], weights, []) == [VeryImportant, NotVeryImportant, Trivial]
  {
    var order := [VeryImportant, NotVeryImportant, Trivial];
    WindowCounts(window);
    ObservedIsCount(window, VeryImportant);
    ObservedIsCount(window, NotVeryImportant);
    ObservedIsCount(window, Trivial);
    ExampleParts(weights, Observed(window));
    assert NonIncreasing(order, weights);
    ColdStartFollowsWeights(order, weights);
  }
}
