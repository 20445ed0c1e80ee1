/**
 * The dispatch order of a cold start: three types weighted high 10,
 * medium 5 and trivial 1, three messages of each buffered while the channel
 * was busy, then a channel that always has a free slot. All high messages
 * go first, then all medium ones, then the trivial ones.
 */
module PriorityScenario {
  import opened Wrappers
  import opened Sequences
  import opened Messages
  import opened Classification
  import opened Matching
  import Recommendation
  import opened TypeBuffer
  import opened Dispatch
  import LinkedMaps
  import Expiration

  const High := MessageType("high")
  const Medium := MessageType("medium")
  const Trivial := MessageType("trivial")

  /** The configuration registers trivial 1, medium 5 and high 10; the window holds 16 types. */
  const Weights: map<MessageType, int> := map[Trivial := 1, Medium := 5, High := 10]
  const Order: seq<MessageType> := [High, Medium, Trivial]
  const Config: Policy := Policy(Order, Weights, 16)

  lemma TypesDiffer()
    ensures High != Medium && High != Trivial && Medium != Trivial
  {
    assert High.name[0] == 'h' && Medium.name[0] == 'm' && Trivial.name[0] == 't';
  }

  lemma ConfigIsValid()
    ensures PolicyValid(Config)
  {
    TypesDiffer();
    assert Weights[High] == 10 && Weights[Medium] == 5 && Weights[Trivial] == 1;
  }

  /**
   * While high is seen fewer than 10 times and medium fewer than 5 in the
   * window, both stay under-served and the recommendation is high, medium,
   * trivial, whether or not trivial has had its share.
   */
  lemma RecommendWhileBehind(window: seq<MessageType>)
    requires Count(window, High) < 10 && Count(window, Medium) < 5
    ensures Recommendation.Recommend(Order, Weights, window) == Order
  {
    TypesDiffer();
    var observed := Recommendation.Observed(window);
    Recommendation.ObservedIsCount(window, High);
    Recommendation.ObservedIsCount(window, Medium);
    assert Weights[High] == 10 && Weights[Medium] == 5;
    PartsWhileBehind(High, Medium, Trivial, Weights, observed);
  }

  lemma BothUnderserved(a: MessageType, b: MessageType, expected: map<MessageType, int>, observed: map<MessageType, int>)
    requires a in expected && b in expected
    requires Difference(expected, observed, a) > 0 && Difference(expected, observed, b) > 0
    ensures Underserved([a, b], expected, observed) == [a, b] && Satisfied([a, b], expected, observed) == []
  {
    assert [a, b][..1] == [a] && [a][..0] == [];
    assert Underserved([], expected, observed) == [] && Satisfied([], expected, observed) == [];
    assert Underserved([a], expected, observed) == [a] && Satisfied([a], expected, observed) == [];
  }

  /** With the first two of three types under-served, the recommendation keeps their order whatever the third. */
  lemma PartsWhileBehind(a: MessageType, b: MessageType, c: MessageType,
                         expected: map<MessageType, int>, observed: map<MessageType, int>)
    requires a in expected && b in expected && c in expected
    requires Difference(expected, observed, a) > 0 && Difference(expected, observed, b) > 0
    ensures Underserved([a, b, c], expected, observed) + Satisfied([a, b, c], expected, observed) == [a, b, c]
  {
    var p2, p3 := [a, b], [a, b, c];
    assert p3[..2] == p2;
    BothUnderserved(a, b, expected, observed);
    if Difference(expected, observed, c) > 0 {
      assert Underserved(p3, expected, observed) == p3 && Satisfied(p3, expected, observed) == [];
      assert p3 + [] == p3;
    } else {
      assert Underserved(p3, expected, observed) == p2 && Satisfied(p3, expected, observed) == [c];
    }
  }

  /** The buffered messages in the order the priorities ask for: high, then medium, then trivial. */
  function ByPriority<M, R>(e: Engine<M, R>): seq<MessageContainer<M>>
  {
    QueueIn(e.queues, High) + QueueIn(e.queues, Medium) + QueueIn(e.queues, Trivial)
  }

  /**
   * What keeps the recommendation fixed for the rest of the pass: every
   * message still buffered, once dispatched, leaves high below 10 and medium
   * below 5 in a window that never has to evict; and none of them expires.
   */
  ghost predicate Ready<M, R>(e: Engine<M, R>, now: int)
  {
    && EngineValid(e, Config)
    && Count(e.window, High) + |QueueIn(e.queues, High)| < 10
    && Count(e.window, Medium) + |QueueIn(e.queues, Medium)| < 5
    && |e.window| + |ByPriority(e)| <= 16
    && forall m :: m in ByPriority(e) ==> !m.IsExpired(now)
  }

  /** Only the three registered types have queues, so the buffer is empty exactly when the three queues are. */
  lemma PendingIsByPriority<M, R>(e: Engine<M, R>)
    requires EngineValid(e, Config)
    ensures Pending(e) == [] <==> ByPriority(e) == []
  {
    FlattenEmpty(e.types, e.queues);
    if ByPriority(e) == [] {
      forall t | t in e.types
        ensures e.queues[t] == []
      {
        assert t in Weights;
        assert QueueIn(e.queues, t) == [];
      }
    }
    if ByPriority(e) != [] {
      var t :| t in Order && QueueIn(e.queues, t) != [];
      assert t in e.types;
    }
  }

  /** Appending `t` to a window raises the count of `t` by one and no other count. */
  lemma CountSnoc(window: seq<MessageType>, t: MessageType, u: MessageType)
    ensures Count(window + [t], u) == Count(window, u) + (if t == u then 1 else 0)
  {
    assert (window + [t])[..|window|] == window;
  }

  /** The queues after taking the front of the queue of `t`. */
  lemma TakeFront<M, R>(e: Engine<M, R>, n: Engine<M, R>, t: MessageType)
    requires t in e.queues && e.queues[t] != [] && n.queues == e.queues[t := e.queues[t][1..]]
    ensures QueueIn(n.queues, t) == QueueIn(e.queues, t)[1..]
    ensures forall u :: u != t ==> QueueIn(n.queues, u) == QueueIn(e.queues, u)
  {
  }

  /** Taking the front of the first non-empty of three queues takes the front of their concatenation. */
  lemma PopFirstOfThree<T>(a: seq<T>, b: seq<T>, c: seq<T>, a': seq<T>, b': seq<T>, c': seq<T>, which: nat)
    requires which < 3
    requires which == 0 ==> a != [] && a' == a[1..] && b' == b && c' == c
    requires which == 1 ==> a == [] && a' == [] && b != [] && b' == b[1..] && c' == c
    requires which == 2 ==> a == [] && b == [] && a' == [] && b' == [] && c != [] && c' == c[1..]
    ensures a + b + c != []
    ensures (a + b + c)[0] == if which == 0 then a[0] else if which == 1 then b[0] else c[0]
    ensures a + b + c == [(a + b + c)[0]] + (a' + b' + c')
  {
    if which == 0 {
      assert a == [a[0]] + a';
      AppendAssociative([a[0]], a', b);
      AppendAssociative([a[0]], a' + b, c);
    } else if which == 1 {
      assert b == [b[0]] + b';
      AppendAssociative([b[0]], b', c);
    } else {
      assert c == [c[0]] + c';
    }
  }

  /** The step of a ready pass takes the front of ByPriority, and for a message that is not expired. */
  lemma StepTakesPriorityFront<M, R>(e: Engine<M, R>, now: int, outcome: ChannelOutcome<R>) returns (t: MessageType)
    requires Ready(e, now) && ByPriority(e) != []
    ensures t in e.queues && e.queues[t] != [] && e.queues[t][0] == ByPriority(e)[0]
    ensures !ByPriority(e)[0].IsExpired(now)
    ensures ByPriority(e) == [ByPriority(e)[0]] + ByPriority(Step(e, Config, now, outcome))
    ensures Step(e, Config, now, outcome) ==
      Engine(e.queues[t := e.queues[t][1..]], e.types, Recommendation.Slide(e.window, t, 16),
             e.resolutions[e.queues[t][0].promise := Resolve(outcome)], e.log + [e.queues[t][0]], e.issued)
  {
    TypesDiffer();
    PendingIsByPriority(e);
    RecommendWhileBehind(e.window);
    assert Recommended(e, Config) == Order;
    var k := FirstWaiting(Order, e.queues);
    assert k < 3;
    t := Order[k];
    StepUnfolds(e, Config, now, outcome, t);
    var n := Step(e, Config, now, outcome);
    TakeFront(e, n, t);
    PopFirstOfThree(QueueIn(e.queues, High), QueueIn(e.queues, Medium), QueueIn(e.queues, Trivial),
                    QueueIn(n.queues, High), QueueIn(n.queues, Medium), QueueIn(n.queues, Trivial), k);
  }

  /** One step of the pass dispatches the front of ByPriority and keeps the pass ready. */
  lemma StepByPriority<M, R>(e: Engine<M, R>, now: int, outcome: ChannelOutcome<R>)
    requires Ready(e, now) && ByPriority(e) != []
    ensures Ready(Step(e, Config, now, outcome), now)
    ensures Step(e, Config, now, outcome).log == e.log + [ByPriority(e)[0]]
    ensures ByPriority(e) == [ByPriority(e)[0]] + ByPriority(Step(e, Config, now, outcome))
  {
    var t := StepTakesPriorityFront(e, now, outcome);
    var n := Step(e, Config, now, outcome);
    assert |e.window| < 16;
    assert n.window == e.window + [t];
    TakeFront(e, n, t);
    CountSnoc(e.window, t, High);
    CountSnoc(e.window, t, Medium);
    assert forall m :: m in ByPriority(n) ==> m in ByPriority(e);
  }

  /**
   * A pass over a channel that always has a free slot, started ready,
   * hands the buffered messages to the channel in ByPriority's order.
   */
  lemma {:induction false} PriorityPass<M, R>(e: Engine<M, R>, now: int, freeSlot: nat -> bool,
                                             outcome: nat -> ChannelOutcome<R>, k: nat)
    requires Ready(e, now) && forall j :: freeSlot(j)
    ensures Pass(e, Config, now, freeSlot, outcome, k).0.log == e.log + ByPriority(e)
    decreases |ByPriority(e)|
  {
    PassUnfolds(e, Config, now, freeSlot, outcome, k);
    PendingIsByPriority(e);
    if ByPriority(e) != [] {
      var next := Step(e, Config, now, outcome(k));
      StepByPriority(e, now, outcome(k));
      PriorityPass(next, now, freeSlot, outcome, k + 1);
      AppendAssociative(e.log, [ByPriority(e)[0]], ByPriority(next));
    } else {
      assert e.log + ByPriority(e) == e.log;
    }
  }

  /** The window holds the sixteen types the weights add up to. */
  lemma WeightsSum()
    ensures Recommendation.SumWeights(Order, Weights) == 16
  {
    TypesDiffer();
    assert Weights[High] == 10 && Weights[Medium] == 5 && Weights[Trivial] == 1;
    var one, two := [High], [High, Medium];
    assert one[..0] == [] && two[..1] == one && Order[..2] == two;
    assert Recommendation.SumWeights(one, Weights) == 10;
    assert Recommendation.SumWeights(two, Weights) == 15;
  }

  /**
   * A recommender built from the weights of the test sorts them high,
   * medium, trivial and sizes its window 16, which is Config.
   */
  lemma CreatedConfiguration(sorted: LinkedMaps.LinkedMap<MessageType, int>, capacity: nat)
    requires sorted.Valid() && sorted.entries == Weights && NonIncreasing(sorted.keys, sorted.entries)
    requires capacity == Recommendation.SumWeights(sorted.keys, sorted.entries)
    ensures Policy(sorted.keys, sorted.entries, capacity) == Config
  {
    ConfigIsValid();
    TypesDiffer();
    assert Weights[High] == 10 && Weights[Medium] == 5 && Weights[Trivial] == 1;
    assert forall t :: t in sorted.keys <==> t in Order;
    Recommendation.SortedOrderIsUnique(sorted.keys, Order, Weights);
    WeightsSum();
  }

  /** One hour, the expiry the test gives every message. */
  const HourMs := 3_600_000

  /** The container `send` builds for `payload` at `sendTime` under `promise`, expiring in an hour. */
  function Buffered<M>(payload: M, promise: PromiseId, t: MessageType, sendTime: int): MessageContainer<M>
  {
    MessageContainer(sendTime, payload, promise, t, Expiration.ExpiresIn(HourMs, sendTime))
  }

  /**
   * The containers the sends of `items` buffer under type `u`, in order;
   * the i-th send gets the promise `first + i`.
   */
  function Arrivals<M>(items: seq<(M, MessageType)>, u: MessageType, first: nat, sendTime: int): seq<MessageContainer<M>>
  {
    if items == [] then []
    else
      var k := |items| - 1;
      Arrivals(items[..k], u, first, sendTime) + if items[k].1 == u then [Buffered(items[k].0, first + k, u, sendTime)] else []
  }

  /** The arrivals of two runs of sends, one after the other, are those of the first run followed by those of the second. */
  lemma {:induction false} ArrivalsAppend<M>(a: seq<(M, MessageType)>, b: seq<(M, MessageType)>, u: MessageType,
                                             first: nat, sendTime: int)
    ensures Arrivals(a + b, u, first, sendTime) == Arrivals(a, u, first, sendTime) + Arrivals(b, u, first + |a|, sendTime)
  {
    if b == [] {
      assert a + b == a;
    } else {
      var k := |b| - 1;
      assert (a + b)[..|a + b| - 1] == a + b[..k];
      ArrivalsAppend(a, b[..k], u, first, sendTime);
    }
  }

  /** Three sends of one type `t` buffer three containers under `t` and none under any other type. */
  lemma GroupArrivals<M>(x1: M, x2: M, x3: M, t: MessageType, u: MessageType, first: nat, sendTime: int)
    ensures Arrivals([(x1, t), (x2, t), (x3, t)], u, first, sendTime) ==
      if u == t then [Buffered(x1, first, t, sendTime), Buffered(x2, first + 1, t, sendTime), Buffered(x3, first + 2, t, sendTime)]
      else []
  {
    var three, b1, b2, b3 := [(x1, t), (x2, t), (x3, t)], Buffered(x1, first, t, sendTime),
      Buffered(x2, first + 1, t, sendTime), Buffered(x3, first + 2, t, sendTime);
    assert three[..2] == [(x1, t), (x2, t)] && three[..2][..1] == [(x1, t)] && three[..2][..1][..0] == [];
    assert Arrivals(three[..2][..1], u, first, sendTime) == if u == t then [b1] else [];
    assert Arrivals(three[..2], u, first, sendTime) == if u == t then [b1, b2] else [];
  }

  /**
   * The send loop of the test: each item is sent, in order, with an expiry
   * of one hour; each is accepted while Active and joins the queue of its
   * type under the next promise.
   */
  method SendAll<M, R>(multiplexer: MultiplexerWithPriority<M, R>, items: seq<(M, MessageType)>, sendTime: int)
    requires multiplexer.Valid() && multiplexer.state == Active
    requires forall i :: 0 <= i < |items| ==> multiplexer.recommender.TypeIsRegistered(items[i].1)
    modifies multiplexer, multiplexer.buffer
    ensures multiplexer.Valid() && multiplexer.state == Active && unchanged(multiplexer.recommender)
    ensures multiplexer.nextPromise == old(multiplexer.nextPromise) + |items|
    ensures forall u ::
              QueueIn(multiplexer.buffer.queues, u) ==
              old(QueueIn(multiplexer.buffer.queues, u)) + Arrivals(items, u, old(multiplexer.nextPromise), sendTime)
    ensures multiplexer.resolutions == old(multiplexer.resolutions) && multiplexer.channelLog == old(multiplexer.channelLog)
  {
    ghost var start := multiplexer.buffer.queues;
    var first := multiplexer.nextPromise;
    var i := 0;
    while i < |items|
      invariant 0 <= i <= |items|
      invariant multiplexer.Valid() && multiplexer.state == Active && unchanged(multiplexer.recommender)
      invariant multiplexer.nextPromise == first + i
      invariant forall u :: QueueIn(multiplexer.buffer.queues, u) == QueueIn(start, u) + Arrivals(items[..i], u, first, sendTime)
      invariant multiplexer.resolutions == old(multiplexer.resolutions) && multiplexer.channelLog == old(multiplexer.channelLog)
    {
      ghost var before := multiplexer.buffer.queues;
      ghost var n := multiplexer.nextPromise;
      var _ := multiplexer.Send(items[i].0, items[i].1, Expiration.ExpiresIn(HourMs, sendTime), sendTime);
      ArrivalsStep(items, i, first, n, sendTime, start, before, multiplexer.buffer.queues);
      i := i + 1;
    }
    assert items[..i] == items;
  }

  /** The arrivals of the first `i + 1` sends: those of the first `i`, and the `i`-th if it is of type `u`. */
  lemma ArrivalsSnoc<M>(items: seq<(M, MessageType)>, i: nat, u: MessageType, first: nat, promise: nat, sendTime: int)
    requires i < |items| && promise == first + i
    ensures Arrivals(items[..i + 1], u, first, sendTime) ==
      Arrivals(items[..i], u, first, sendTime) + if items[i].1 == u then [Buffered(items[i].0, promise, u, sendTime)] else []
  {
    assert items[..i + 1][..i] == items[..i];
  }

  /** One more send, with the next promise, extends the arrivals of the sends before it. */
  lemma ArrivalsStep<M>(items: seq<(M, MessageType)>, i: nat, first: nat, promise: nat, sendTime: int,
                        start: Queues<M>, before: Queues<M>, after: Queues<M>)
    requires i < |items| && promise == first + i
    requires forall u :: QueueIn(before, u) == QueueIn(start, u) + Arrivals(items[..i], u, first, sendTime)
    requires after == before[items[i].1 := QueueIn(before, items[i].1) +
      [MessageContainer(sendTime, items[i].0, promise, items[i].1, Expiration.ExpiresIn(HourMs, sendTime))]]
    ensures forall u :: QueueIn(after, u) == QueueIn(start, u) + Arrivals(items[..i + 1], u, first, sendTime)
  {
    forall u
      ensures QueueIn(after, u) == QueueIn(start, u) + Arrivals(items[..i + 1], u, first, sendTime)
    {
      ArrivalsSnoc(items, i, u, first, promise, sendTime);
      var added := if items[i].1 == u then [Buffered(items[i].0, promise, u, sendTime)] else [];
      assert QueueIn(after, u) == QueueIn(before, u) + added;
      AppendAssociative(QueueIn(start, u), Arrivals(items[..i], u, first, sendTime), added);
    }
  }

  /**
   * The cold start of the priority test: with the channel free for the
   * whole pass, nine buffered messages of which none is expired go out
   * high, high, high, medium, medium, medium, trivial, trivial, trivial,
   * the buffer ends empty and every promise is settled.
   */
  lemma ColdStartDispatchOrder<M, R>(e: Engine<M, R>,
                                     t1: MessageContainer<M>, t2: MessageContainer<M>, t3: MessageContainer<M>,
                                     h1: MessageContainer<M>, h2: MessageContainer<M>, h3: MessageContainer<M>,
                                     m1: MessageContainer<M>, m2: MessageContainer<M>, m3: MessageContainer<M>,
                                     now: int, freeSlot: nat -> bool, outcome: nat -> ChannelOutcome<R>)
    requires EngineValid(e, Config) && e.window == [] && e.log == []
    requires QueueIn(e.queues, High) == [h1, h2, h3] && QueueIn(e.queues, Medium) == [m1, m2, m3]
    requires QueueIn(e.queues, Trivial) == [t1, t2, t3]
    requires forall m :: m in [t1, t2, t3, h1, h2, h3, m1, m2, m3] ==> !m.IsExpired(now)
    requires forall j :: freeSlot(j)
    ensures Pass(e, Config, now, freeSlot, outcome, 0).0.log == [h1, h2, h3, m1, m2, m3, t1, t2, t3]
    ensures Pending(Pass(e, Config, now, freeSlot, outcome, 0).0) == []
    ensures forall m :: m in [h1, h2, h3, m1, m2, m3, t1, t2, t3] ==>
      Settled(Pass(e, Config, now, freeSlot, outcome, 0).0.resolutions, m, now, outcome)
  {
    var dispatched := [h1, h2, h3, m1, m2, m3, t1, t2, t3];
    assert ByPriority(e) == dispatched;
    assert Count([], High) == 0 && Count([], Medium) == 0;
    assert Ready(e, now);
    PriorityPass(e, now, freeSlot, outcome, 0);
    FreeChannelDrainsBuffer(e, Config, now, freeSlot, outcome);
    assert [] + dispatched == dispatched;
    forall m | m in dispatched
      ensures m in Pending(e)
    {
      assert m in ByPriority(e);
      var t := if m in QueueIn(e.queues, High) then High else if m in QueueIn(e.queues, Medium) then Medium else Trivial;
      assert m in e.queues[t];
      FlattenKeepsQueueMembers(e.types, e.queues, t, m);
    }
  }

  /** A construction either succeeds or fails for one of the two configuration errors. */
  lemma ConfigurationOutcomes<T>(r: Result<T, Recommendation.ConfigurationError>)
    ensures r.Success? || r == Failure(Recommendation.NoRegisteredTypes) || r == Failure(Recommendation.NonPositiveCapacity)
  {
    match r
    case Success(_) =>
    case Failure(error) =>
      match error
      case NoRegisteredTypes =>
      case NonPositiveCapacity =>
  }

  /**
   * The test's nine sends, three trivial, three high and three medium in
   * that order, numbered from promise 0: each of the three types' queues
   * receives its own three containers in send order, and no other type
   * receives anything.
   */
  lemma NineArrivals<M>(trivial: seq<(M, MessageType)>, high: seq<(M, MessageType)>, medium: seq<(M, MessageType)>,
                        trivial1: M, trivial2: M, trivial3: M, high1: M, high2: M, high3: M,
                        medium1: M, medium2: M, medium3: M, u: MessageType, sendTime: int)
    requires trivial == [(trivial1, Trivial), (trivial2, Trivial), (trivial3, Trivial)]
    requires high == [(high1, High), (high2, High), (high3, High)]
    requires medium == [(medium1, Medium), (medium2, Medium), (medium3, Medium)]
    ensures Arrivals(trivial + high + medium, u, 0, sendTime) ==
      if u == Trivial then
        [Buffered(trivial1, 0, Trivial, sendTime), Buffered(trivial2, 1, Trivial, sendTime), Buffered(trivial3, 2, Trivial, sendTime)]
      else if u == High then
        [Buffered(high1, 3, High, sendTime), Buffered(high2, 4, High, sendTime), Buffered(high3, 5, High, sendTime)]
      else if u == Medium then
        [Buffered(medium1, 6, Medium, sendTime), Buffered(medium2, 7, Medium, sendTime), Buffered(medium3, 8, Medium, sendTime)]
      else []
  {
    TypesDiffer();
    ThreeRuns(trivial, high, medium, u, sendTime);
    GroupArrivals(trivial1, trivial2, trivial3, Trivial, u, 0, sendTime);
    GroupArrivals(high1, high2, high3, High, u, 3, sendTime);
    GroupArrivals(medium1, medium2, medium3, Medium, u, 6, sendTime);
  }

  /** Three runs of three sends each, the second numbered from 3, the third from 6. */
  lemma ThreeRuns<M>(a: seq<(M, MessageType)>, b: seq<(M, MessageType)>, c: seq<(M, MessageType)>, u: MessageType, sendTime: int)
    requires |a| == 3 && |b| == 3
    ensures Arrivals(a + b + c, u, 0, sendTime) ==
      Arrivals(a, u, 0, sendTime) + Arrivals(b, u, 3, sendTime) + Arrivals(c, u, 6, sendTime)
  {
    ArrivalsAppend(a + b, c, u, 0, sendTime);
    ArrivalsAppend(a, b, u, 0, sendTime);
  }

  /** The test's multiplexer: created with the test's weights, it has the priority configuration and nothing in it yet. */
  method CreateWithTestWeights<M, R>() returns (multiplexer: MultiplexerWithPriority<M, R>)
    ensures fresh(multiplexer) && fresh(multiplexer.buffer) && fresh(multiplexer.recommender)
    ensures multiplexer.Valid() && multiplexer.state == Active && multiplexer.Configuration() == Config
    ensures multiplexer.Snapshot() == Engine(map[], [], [], map[], [], 0)
  {
    ConfigIsValid();
    WeightsSum();
    Recommendation.SumWeightsIsMapSum(Order, Weights);
    assert Weights != map[] by {
      assert Trivial in Weights;
    }
    var created := MultiplexerWithPriority<M, R>.Create(Weights);
    ConfigurationOutcomes(created);
    multiplexer := created.value;
    CreatedConfiguration(multiplexer.recommender.expectedSpreading, multiplexer.recommender.capacity);
  }

  /** Every item of the test's three runs of sends has a registered type. */
  lemma TestTypesRegistered<M>(trivial: seq<(M, MessageType)>, high: seq<(M, MessageType)>, medium: seq<(M, MessageType)>)
    requires forall x :: x in trivial ==> x.1 == Trivial
    requires forall x :: x in high ==> x.1 == High
    requires forall x :: x in medium ==> x.1 == Medium
    ensures forall i :: 0 <= i < |trivial + high + medium| ==> (trivial + high + medium)[i].1 in Weights
  {
    forall i | 0 <= i < |trivial + high + medium|
      ensures (trivial + high + medium)[i].1 in Weights
    {
      var x := (trivial + high + medium)[i];
      assert x in trivial || x in high || x in medium;
    }
  }

  /** The nine sends of the test, trivial, high and medium, three each, into a multiplexer just created. */
  method ColdStartSends<M, R>(trivial1: M, trivial2: M, trivial3: M, high1: M, high2: M, high3: M,
                              medium1: M, medium2: M, medium3: M, sendTime: int)
    returns (multiplexer: MultiplexerWithPriority<M, R>)
    ensures fresh(multiplexer) && fresh(multiplexer.buffer) && fresh(multiplexer.recommender)
    ensures multiplexer.Valid() && multiplexer.state == Active && multiplexer.Configuration() == Config
    ensures multiplexer.Snapshot().window == [] && multiplexer.Snapshot().log == []
    ensures QueueIn(multiplexer.buffer.queues, Trivial) ==
      [Buffered(trivial1, 0, Trivial, sendTime), Buffered(trivial2, 1, Trivial, sendTime), Buffered(trivial3, 2, Trivial, sendTime)]
    ensures QueueIn(multiplexer.buffer.queues, High) ==
      [Buffered(high1, 3, High, sendTime), Buffered(high2, 4, High, sendTime), Buffered(high3, 5, High, sendTime)]
    ensures QueueIn(multiplexer.buffer.queues, Medium) ==
      [Buffered(medium1, 6, Medium, sendTime), Buffered(medium2, 7, Medium, sendTime), Buffered(medium3, 8, Medium, sendTime)]
  {
    multiplexer := CreateWithTestWeights();
    var trivial, high, medium := [(trivial1, Trivial), (trivial2, Trivial), (trivial3, Trivial)],
      [(high1, High), (high2, High), (high3, High)], [(medium1, Medium), (medium2, Medium), (medium3, Medium)];
    TestTypesRegistered(trivial, high, medium);
    SendAll(multiplexer, trivial + high + medium, sendTime);
    NineArrivals(trivial, high, medium, trivial1, trivial2, trivial3, high1, high2, high3, medium1, medium2, medium3, Trivial, sendTime);
    NineArrivals(trivial, high, medium, trivial1, trivial2, trivial3, high1, high2, high3, medium1, medium2, medium3, High, sendTime);
    NineArrivals(trivial, high, medium, trivial1, trivial2, trivial3, high1, high2, high3, medium1, medium2, medium3, Medium, sendTime);
  }

  /** A container sent with an expiry of one hour is not expired within that hour. */
  lemma BufferedIsFresh<M>(payload: M, promise: PromiseId, t: MessageType, sendTime: int, now: int)
    requires sendTime <= now <= sendTime + HourMs
    ensures !Buffered(payload, promise, t, sendTime).IsExpired(now)
  {
    assert Buffered(payload, promise, t, sendTime).expirationTime.RemainingMs(now) >= 0;
  }

  /**
   * The nine containers of the test, buffered in an engine that has sent
   * nothing yet, go out high, medium, trivial within the hour on a channel
   * that is always free, and every promise is settled.
   */
  lemma ColdStartSettles<M, R>(e: Engine<M, R>, trivial1: M, trivial2: M, trivial3: M, high1: M, high2: M, high3: M,
                               medium1: M, medium2: M, medium3: M, sendTime: int, now: int,
                               freeSlot: nat -> bool, outcome: nat -> ChannelOutcome<R>)
    requires EngineValid(e, Config) && e.window == [] && e.log == []
    requires QueueIn(e.queues, Trivial) ==
      [Buffered(trivial1, 0, Trivial, sendTime), Buffered(trivial2, 1, Trivial, sendTime), Buffered(trivial3, 2, Trivial, sendTime)]
    requires QueueIn(e.queues, High) ==
      [Buffered(high1, 3, High, sendTime), Buffered(high2, 4, High, sendTime), Buffered(high3, 5, High, sendTime)]
    requires QueueIn(e.queues, Medium) ==
      [Buffered(medium1, 6, Medium, sendTime), Buffered(medium2, 7, Medium, sendTime), Buffered(medium3, 8, Medium, sendTime)]
    requires sendTime <= now <= sendTime + HourMs
    requires forall j :: freeSlot(j)
    ensures Pass(e, Config, now, freeSlot, outcome, 0).0.log ==
      [Buffered(high1, 3, High, sendTime), Buffered(high2, 4, High, sendTime), Buffered(high3, 5, High, sendTime),
       Buffered(medium1, 6, Medium, sendTime), Buffered(medium2, 7, Medium, sendTime), Buffered(medium3, 8, Medium, sendTime),
       Buffered(trivial1, 0, Trivial, sendTime), Buffered(trivial2, 1, Trivial, sendTime), Buffered(trivial3, 2, Trivial, sendTime)]
    ensures Pending(Pass(e, Config, now, freeSlot, outcome, 0).0) == []
    ensures forall m :: m in Pass(e, Config, now, freeSlot, outcome, 0).0.log ==>
      Settled(Pass(e, Config, now, freeSlot, outcome, 0).0.resolutions, m, now, outcome)
  {
    var t1, t2, t3 := Buffered(trivial1, 0, Trivial, sendTime), Buffered(trivial2, 1, Trivial, sendTime),
      Buffered(trivial3, 2, Trivial, sendTime);
    var h1, h2, h3 := Buffered(high1, 3, High, sendTime), Buffered(high2, 4, High, sendTime), Buffered(high3, 5, High, sendTime);
    var m1, m2, m3 := Buffered(medium1, 6, Medium, sendTime), Buffered(medium2, 7, Medium, sendTime),
      Buffered(medium3, 8, Medium, sendTime);
    BufferedIsFresh(trivial1, 0, Trivial, sendTime, now);
    BufferedIsFresh(trivial2, 1, Trivial, sendTime, now);
    BufferedIsFresh(trivial3, 2, Trivial, sendTime, now);
    BufferedIsFresh(high1, 3, High, sendTime, now);
    BufferedIsFresh(high2, 4, High, sendTime, now);
    BufferedIsFresh(high3, 5, High, sendTime, now);
    BufferedIsFresh(medium1, 6, Medium, sendTime, now);
    BufferedIsFresh(medium2, 7, Medium, sendTime, now);
    BufferedIsFresh(medium3, 8, Medium, sendTime, now);
    ColdStartDispatchOrder(e, t1, t2, t3, h1, h2, h3, m1, m2, m3, now, freeSlot, outcome);
  }

  /**
   * The priority test from construction on: create the multiplexer with
   * the test's weights, send the nine messages while the channel is busy,
   * let the worker run once on the busy channel and once on a channel that
   * always has a free slot. The channel receives the three high messages,
   * the three medium ones, then the three trivial ones, and every promise
   * is settled: with a channel that delivers everything, all are Sent.
   */
  method ColdStartRun<M, R>(trivial1: M, trivial2: M, trivial3: M, high1: M, high2: M, high3: M,
                            medium1: M, medium2: M, medium3: M, sendTime: int, now: int, outcome: nat -> ChannelOutcome<R>)
    returns (multiplexer: MultiplexerWithPriority<M, R>)
    requires sendTime <= now <= sendTime + HourMs
    ensures multiplexer.Valid() && multiplexer.buffer.Contents() == []
    ensures multiplexer.channelLog ==
      [Buffered(high1, 3, High, sendTime), Buffered(high2, 4, High, sendTime), Buffered(high3, 5, High, sendTime),
       Buffered(medium1, 6, Medium, sendTime), Buffered(medium2, 7, Medium, sendTime), Buffered(medium3, 8, Medium, sendTime),
       Buffered(trivial1, 0, Trivial, sendTime), Buffered(trivial2, 1, Trivial, sendTime), Buffered(trivial3, 2, Trivial, sendTime)]
    ensures forall m :: m in multiplexer.channelLog ==> Settled(multiplexer.resolutions, m, now, outcome)
  {
    multiplexer := ColdStartSends(trivial1, trivial2, trivial3, high1, high2, high3, medium1, medium2, medium3, sendTime);
    var busy: nat -> bool := _ => false;
    var free: nat -> bool := _ => true;
    ghost var e := multiplexer.Snapshot();
    var _ := multiplexer.WorkerIteration(now, busy, outcome);
    BusyChannelDispatchesNothing(e, Config, now, busy, outcome);
    var _ := multiplexer.WorkerIteration(now, free, outcome);
    ColdStartSettles(e, trivial1, trivial2, trivial3, high1, high2, high3, medium1, medium2, medium3, sendTime, now, free, outcome);
  }
}
