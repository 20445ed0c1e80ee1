/** Occurrence counts of the message types in the recommender's window. */
module Classification {
  import opened Sequences
  import opened LinkedMaps
  import opened Messages

  /** How often `t` occurs in `s`. */
  function Count(s: seq<MessageType>, t: MessageType): nat
  {
    if s == [] then 0
    else Count(s[..|s| - 1], t) + (if s[|s| - 1] == t then 1 else 0)
  }

  /** The distinct elements of `s`, each at the place of its first occurrence. */
  function FirstOccurrences(s: seq<MessageType>): seq<MessageType>
  {
    if s == [] then []
    else
      var p := FirstOccurrences(s[..|s| - 1]);
      if s[|s| - 1] in s[..|s| - 1] then p else p + [s[|s| - 1]]
  }

  /** The sum of the counts in `s` of the types listed in `keys`. */
  function SumCounts(keys: seq<MessageType>, s: seq<MessageType>): nat
  {
    if keys == [] then 0 else SumCounts(keys[..|keys| - 1], s) + Count(s, keys[|keys| - 1])
  }

  lemma {:induction false} CountPositiveIffPresent(s: seq<MessageType>, t: MessageType)
    ensures Count(s, t) > 0 <==> t in s
  {
    if s != [] {
      CountPositiveIffPresent(s[..|s| - 1], t);
      assert s == s[..|s| - 1] + [s[|s| - 1]];
    }
  }

  lemma {:induction false} FirstOccurrencesSound(s: seq<MessageType>)
    ensures Distinct(FirstOccurrences(s))
    ensures forall t :: t in FirstOccurrences(s) <==> t in s
  {
    if s != [] {
      var init := s[..|s| - 1];
      FirstOccurrencesSound(init);
      assert s == init + [s[|s| - 1]];
    }
  }

  lemma {:induction false} SumCountsSnoc(keys: seq<MessageType>, s: seq<MessageType>, x: MessageType)
    requires Distinct(keys)
    ensures SumCounts(keys, s + [x]) == SumCounts(keys, s) + (if x in keys then 1 else 0)
  {
    if keys != [] {
      var init := keys[..|keys| - 1];
      SumCountsSnoc(init, s, x);
      assert (s + [x])[..|s + [x]| - 1] == s;
      assert keys == init + [keys[|keys| - 1]];
    }
  }

  lemma {:induction false} SumCountsAppendKey(keys: seq<MessageType>, t: MessageType, s: seq<MessageType>)
    ensures SumCounts(keys + [t], s) == SumCounts(keys, s) + Count(s, t)
  {
    assert (keys + [t])[..|keys + [t]| - 1] == keys;
  }

  /** The counts over the distinct types add up to the length of the window. */
  lemma {:induction false} CountsSumToLength(s: seq<MessageType>)
    ensures SumCounts(FirstOccurrences(s), s) == |s|
  {
    if s != [] {
      var init, x := s[..|s| - 1], s[|s| - 1];
      CountsSumToLength(init);
      FirstOccurrencesSound(init);
      assert s == init + [x];
      var p := FirstOccurrences(init);
      SumCountsSnoc(p, init, x);
      if x !in init {
        SumCountsAppendKey(p, x, s);
        CountPositiveIffPresent(init, x);
      }
    }
  }

  /**
   * ClassifiedStatistic.calculateClassifiedStatistics: merge(type, 1, sum) for
   * every element into a fresh LinkedHashMap.
   */
  method CalculateClassifiedStatistics(statistics: seq<MessageType>) returns (r: LinkedMap<MessageType, int>)
    ensures r.Valid()
    ensures r.keys == FirstOccurrences(statistics)
    ensures forall t :: t in r.entries <==> t in statistics
    ensures forall t :: t in r.entries ==> r.entries[t] == Count(statistics, t) >= 1
    ensures SumCounts(r.keys, statistics) == |statistics|
  {
    r := Empty();
    var i := 0;
    while i < |statistics|
      invariant 0 <= i <= |statistics|
      invariant r.Valid()
      invariant r.keys == FirstOccurrences(statistics[..i])
      invariant forall t :: t in r.entries ==> r.entries[t] == Count(statistics[..i], t)
    {
      var t := statistics[i];
      assert statistics[..i + 1][..i] == statistics[..i];
      FirstOccurrencesSound(statistics[..i]);
      if t in r.entries {
        r := Put(r, t, r.entries[t] + 1);
      } else {
        CountPositiveIffPresent(statistics[..i], t);
        r := Put(r, t, 1);
      }
      assert forall u :: Count(statistics[..i + 1], u) == Count(statistics[..i], u) + (if u == t then 1 else 0);
      i := i + 1;
    }
    assert statistics[..i] == statistics;
    FirstOccurrencesSound(statistics);
    forall t | t in r.entries
      ensures r.entries[t] >= 1
    {
      CountPositiveIffPresent(statistics, t);
    }
    CountsSumToLength(statistics);
  }

  /** An empty window classifies to an empty map. */
  lemma EmptyWindowHasNoCounts()
    ensures FirstOccurrences([]) == []
    ensures forall t :: Count([], t) == 0
  {
  }
}
