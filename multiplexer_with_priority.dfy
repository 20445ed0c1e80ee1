/**
 * The priority multiplexer's dispatch engine with its worker thread taken
 * apart: admission of new messages, one dispatch step, a dispatch pass over
 * the channel's free slots, and one iteration of each branch of the worker.
 */
module Dispatch {
  import opened Wrappers
  import opened Sequences
  import opened Expiration
  import opened Messages
  import opened Matching
  import opened Recommendation
  import opened TypeBuffer

  /** The multiplexer's life cycle. */
  datatype State = Active | Shutdown | ForceShutdown

  /** What the output channel does with a message handed to it. */
  datatype ChannelOutcome<R> =
    | Delivered(result: R)  // the channel's future completes normally
    | SyncThrow             // the channel's send throws
    | AsyncFailure          // the channel's future completes exceptionally

  datatype SendError = UnregisteredType

  /** How the producer's promise of a message handed to the channel completes. */
  function Resolve<R>(outcome: ChannelOutcome<R>): (r: Resolution<R>)
    ensures r.Completed? <==> outcome.Delivered?
    ensures r.Completed? ==> r.value == Sent(outcome.result)
  {
    match outcome
    case Delivered(x) => Completed(Sent(x))
    case _ => CompletedExceptionally
  }

  /** The recommender's fixed configuration: registered types by weight, and the window capacity. */
  datatype Policy = Policy(order: seq<MessageType>, weights: map<MessageType, int>, capacity: nat)

  /**
   * What a dispatch step reads and writes: the buffer's queues, the
   * recommender's window, the producers' promises, the messages handed to
   * the output channel, and how many promises were issued.
   */
  datatype Engine<M, R> = Engine(
    queues: Queues<M>,
    types: seq<MessageType>,
    window: seq<MessageType>,
    resolutions: map<PromiseId, Resolution<R>>,
    log: seq<MessageContainer<M>>,
    issued: nat)

  ghost predicate PolicyValid(p: Policy)
  {
    && Distinct(p.order)
    && (forall t :: t in p.order <==> t in p.weights)
    && NonIncreasing(p.order, p.weights)
    && p.capacity > 0
  }

  ghost function Pending<M, R>(e: Engine<M, R>): seq<MessageContainer<M>>
    requires forall t :: t in e.types ==> t in e.queues
  {
    Flatten(e.types, e.queues)
  }

  ghost predicate EngineValid<M, R>(e: Engine<M, R>, p: Policy)
  {
    && PolicyValid(p)
    && Distinct(e.types)
    && e.queues.Keys == (set t | t in e.types)
    && SortedByType(e.queues)
    && (forall t :: t in e.queues ==> t in p.weights)
    && |e.window| <= p.capacity
    && (forall q :: q in e.resolutions ==> q < e.issued)
    && (forall m :: m in Pending(e) ==> m.promise < e.issued)
    && OpenPromises(multiset(Pending(e)), e.resolutions)
  }

  /**
   * The promises of the waiting messages are open: no message waits twice,
   * no two waiting messages share a promise, and none of their promises is
   * completed yet.
   */
  ghost predicate OpenPromises<M, R>(pending: multiset<MessageContainer<M>>, resolutions: map<PromiseId, Resolution<R>>)
  {
    && (forall m :: m in pending ==> pending[m] == 1)
    && (forall m, n :: m in pending && n in pending && m.promise == n.promise ==> m == n)
    && (forall m :: m in pending ==> m.promise !in resolutions)
  }

  /** Taking one waiting message and completing its promise leaves the other promises open. */
  lemma OpenAfterTaking<M, R>(pending: multiset<MessageContainer<M>>, rest: multiset<MessageContainer<M>>,
                              m: MessageContainer<M>, resolutions: map<PromiseId, Resolution<R>>, v: Resolution<R>)
    requires OpenPromises(pending, resolutions) && pending == rest + multiset{m}
    ensures m.promise !in resolutions
    ensures forall n :: n in rest ==> n.promise != m.promise
    ensures OpenPromises(rest, resolutions[m.promise := v])
  {
    assert m in pending;
    forall n | n in rest
      ensures n != m && rest[n] == 1
    {
      assert pending[n] == rest[n] + multiset{m}[n];
    }
  }

  /** Buffering a message under a promise no waiting message holds and nobody completed keeps the promises open. */
  lemma OpenAfterAdmitting<M, R>(pending: multiset<MessageContainer<M>>, m: MessageContainer<M>,
                                 resolutions: map<PromiseId, Resolution<R>>)
    requires OpenPromises(pending, resolutions) && m.promise !in resolutions
    requires forall n :: n in pending ==> n.promise != m.promise
    ensures OpenPromises(pending + multiset{m}, resolutions)
  {
    var added := pending + multiset{m};
    forall n | n in added
      ensures added[n] == 1
    {
      assert added[n] == pending[n] + multiset{m}[n];
    }
  }

  ghost function Recommended<M, R>(e: Engine<M, R>, p: Policy): seq<MessageType>
    requires PolicyValid(p)
  {
    Recommend(p.order, p.weights, e.window)
  }

  /** The position of the first recommended type that has a waiting message; |recs| when none has. */
  function FirstWaiting<M>(recs: seq<MessageType>, queues: Queues<M>): (k: nat)
    ensures k <= |recs|
    ensures k < |recs| ==> QueueIn(queues, recs[k]) != []
    ensures forall j :: 0 <= j < k ==> QueueIn(queues, recs[j]) == []
  {
    if recs == [] then 0
    else if QueueIn(queues, recs[0]) != [] then 0
    else 1 + FirstWaiting(recs[1..], queues)
  }

  /**
   * One dispatch step (sendStoredNotificationToChannel): on a non-empty
   * buffer, take the front message of the first recommended type that has
   * one; an expired message completes NotSent, any other is recorded in the
   * window, handed to the channel, and completes as the channel answers.
   */
  ghost function Step<M, R>(e: Engine<M, R>, p: Policy, now: int, outcome: ChannelOutcome<R>): (r: Engine<M, R>)
    requires EngineValid(e, p)
    ensures EngineValid(r, p)
    ensures r.types == e.types && r.issued == e.issued
    ensures Pending(e) != [] ==> |Pending(r)| == |Pending(e)| - 1
  {
    if Pending(e) == [] then e
    else
      var recs := Recommended(e, p);
      var k := FirstWaiting(recs, e.queues);
      NeverStalls(e, p);
      var t := recs[k];
      var m := e.queues[t][0];
      var queues := e.queues[t := e.queues[t][1..]];
      PollKeepsPending(e, t);
      if m.IsExpired(now) then
        TakeKeepsValid(e, p, t, e.window, Completed(NotSent), e.log);
        Engine(queues, e.types, e.window, e.resolutions[m.promise := Completed(NotSent)], e.log, e.issued)
      else
        TakeKeepsValid(e, p, t, Slide(e.window, m.messageType, p.capacity), Resolve(outcome), e.log + [m]);
        Engine(queues, e.types, Slide(e.window, m.messageType, p.capacity),
               e.resolutions[m.promise := Resolve(outcome)], e.log + [m], e.issued)
  }

  /** Taking the front of the queue of `t` and completing its promise keeps the engine well formed. */
  lemma TakeKeepsValid<M, R>(e: Engine<M, R>, p: Policy, t: MessageType, window: seq<MessageType>,
                             v: Resolution<R>, log: seq<MessageContainer<M>>)
    requires EngineValid(e, p) && t in e.queues && e.queues[t] != [] && |window| <= p.capacity
    ensures EngineValid(Engine(e.queues[t := e.queues[t][1..]], e.types, window,
                               e.resolutions[e.queues[t][0].promise := v], log, e.issued), p)
  {
    var m := e.queues[t][0];
    var r := Engine(e.queues[t := e.queues[t][1..]], e.types, window, e.resolutions[m.promise := v], log, e.issued);
    PollKeepsPending(e, t);
    assert r.queues.Keys == e.queues.Keys;
    assert m in multiset(Pending(e)) && m.promise < e.issued;
    assert forall q :: q in r.resolutions ==> q < r.issued;
    assert forall n :: n in Pending(r) ==> n.promise < r.issued by {
      forall n | n in Pending(r)
        ensures n.promise < r.issued
      {
        assert n in multiset(Pending(e));
      }
    }
    OpenAfterTaking(multiset(Pending(e)), multiset(Pending(r)), m, e.resolutions, v);
  }

  /** The message a step on a non-empty buffer takes: the front of the first recommended queue that has one. */
  ghost function Front<M, R>(e: Engine<M, R>, p: Policy): MessageContainer<M>
    requires EngineValid(e, p) && Pending(e) != []
  {
    NeverStalls(e, p);
    var recs := Recommended(e, p);
    var t := recs[FirstWaiting(recs, e.queues)];
    e.queues[t][0]
  }

  /**
   * What a step on a non-empty buffer does with the message it takes: it
   * is the front of the queue of the first recommended type that has a
   * waiting message, it leaves the buffer, and its promise, open until
   * then, is the only one that changes. An expired message completes
   * NotSent with the window and the channel untouched; any other is
   * recorded in the window, handed to the channel and completes as the
   * channel answers.
   */
  lemma StepTakesFront<M, R>(e: Engine<M, R>, p: Policy, now: int, outcome: ChannelOutcome<R>)
    requires EngineValid(e, p) && Pending(e) != []
    ensures FirstWaiting(Recommended(e, p), e.queues) < |Recommended(e, p)|
    ensures Front(e, p).messageType == Recommended(e, p)[FirstWaiting(Recommended(e, p), e.queues)]
    ensures Front(e, p).messageType in e.queues && e.queues[Front(e, p).messageType] != []
    ensures Front(e, p) == e.queues[Front(e, p).messageType][0]
    ensures Step(e, p, now, outcome).queues ==
      e.queues[Front(e, p).messageType := e.queues[Front(e, p).messageType][1..]]
    ensures multiset(Pending(e)) == multiset(Pending(Step(e, p, now, outcome))) + multiset{Front(e, p)}
    ensures Front(e, p).promise !in e.resolutions && Front(e, p).promise in Step(e, p, now, outcome).resolutions
    ensures forall q :: q != Front(e, p).promise ==>
      (q in Step(e, p, now, outcome).resolutions <==> q in e.resolutions)
    ensures forall q :: q in e.resolutions ==> Step(e, p, now, outcome).resolutions[q] == e.resolutions[q]
    ensures Front(e, p).IsExpired(now) ==>
      Step(e, p, now, outcome).resolutions[Front(e, p).promise] == Completed(NotSent) &&
      Step(e, p, now, outcome).window == e.window && Step(e, p, now, outcome).log == e.log
    ensures !Front(e, p).IsExpired(now) ==>
      Step(e, p, now, outcome).resolutions[Front(e, p).promise] == Resolve(outcome) &&
      Step(e, p, now, outcome).window == Slide(e.window, Front(e, p).messageType, p.capacity) &&
      Step(e, p, now, outcome).log == e.log + [Front(e, p)]
  {
    NeverStalls(e, p);
    var recs := Recommended(e, p);
    var t := recs[FirstWaiting(recs, e.queues)];
    StepUnfolds(e, p, now, outcome, t);
    var m, resolutions := Front(e, p), Step(e, p, now, outcome).resolutions;
    assert resolutions == e.resolutions[m.promise := if m.IsExpired(now) then Completed(NotSent) else Resolve(outcome)];
    PollKeepsPending(e, t);
    OpenAfterTaking(multiset(Pending(e)), multiset(Pending(Step(e, p, now, outcome))), Front(e, p),
                    e.resolutions, Completed(NotSent));
  }

  /** Unfolding a step on a non-empty buffer whose first recommended type with a waiting message is `t`. */
  lemma StepUnfolds<M, R>(e: Engine<M, R>, p: Policy, now: int, outcome: ChannelOutcome<R>, t: MessageType)
    requires EngineValid(e, p) && Pending(e) != []
    requires FirstWaiting(Recommended(e, p), e.queues) < |Recommended(e, p)|
    requires t == Recommended(e, p)[FirstWaiting(Recommended(e, p), e.queues)]
    ensures t in e.queues && e.queues[t] != []
    ensures var m := e.queues[t][0];
      var queues := e.queues[t := e.queues[t][1..]];
      Step(e, p, now, outcome) ==
        if m.IsExpired(now) then
          Engine(queues, e.types, e.window, e.resolutions[m.promise := Completed(NotSent)], e.log, e.issued)
        else
          Engine(queues, e.types, Slide(e.window, m.messageType, p.capacity),
                 e.resolutions[m.promise := Resolve(outcome)], e.log + [m], e.issued)
  {
  }

  /** An engine built the way a dispatch step builds it is the step's result. */
  lemma StepMatches<M, R>(e: Engine<M, R>, p: Policy, now: int, outcome: ChannelOutcome<R>,
                          recs: seq<MessageType>, m: MessageContainer<M>, r: Engine<M, R>)
    requires EngineValid(e, p) && Pending(e) != [] && recs == Recommended(e, p)
    requires FirstWaiting(recs, e.queues) < |recs|
    requires var t := recs[FirstWaiting(recs, e.queues)];
      t in e.queues && e.queues[t] != [] && m == e.queues[t][0] && r.queues == e.queues[t := e.queues[t][1..]]
    requires r.types == e.types && r.issued == e.issued
    requires m.IsExpired(now) ==>
      r.window == e.window && r.log == e.log && r.resolutions == e.resolutions[m.promise := Completed(NotSent)]
    requires !m.IsExpired(now) ==>
      r.window == Slide(e.window, m.messageType, p.capacity) && r.log == e.log + [m] &&
      r.resolutions == e.resolutions[m.promise := Resolve(outcome)]
    ensures r == Step(e, p, now, outcome) && EngineValid(r, p)
  {
    StepUnfolds(e, p, now, outcome, recs[FirstWaiting(recs, e.queues)]);
  }

  /** Buffering a message under a fresh promise keeps the engine well formed. */
  lemma AdmitKeepsValid<M, R>(e: Engine<M, R>, p: Policy, m: MessageContainer<M>, r: Engine<M, R>)
    requires EngineValid(e, p) && m.promise == e.issued && m.messageType in p.weights
    requires Distinct(r.types) && r.queues.Keys == (set t | t in r.types) && SortedByType(r.queues)
    requires r.types == if m.messageType in e.queues then e.types else e.types + [m.messageType]
    requires r.queues == e.queues[m.messageType := QueueIn(e.queues, m.messageType) + [m]]
    requires r.window == e.window && r.resolutions == e.resolutions && r.issued == e.issued + 1
    ensures EngineValid(r, p)
    ensures multiset(Pending(r)) == multiset(Pending(e)) + multiset{m}
  {
    assert multiset(Pending(r)) == multiset(Pending(e)) + multiset{m} by {
      AddedMultiset(e.types, e.queues, r.types, r.queues, m);
    }
    assert (forall n :: n in Pending(r) ==> n.promise < r.issued) && OpenPromises(multiset(Pending(r)), r.resolutions) by {
      AdmitKeepsPromises(Pending(e), Pending(r), m, e.resolutions, e.issued);
    }
    assert forall t :: t in r.queues ==> t in p.weights;
  }

  lemma AdmitKeepsPromises<M, R>(pending: seq<MessageContainer<M>>, pending': seq<MessageContainer<M>>,
                                 m: MessageContainer<M>, resolutions: map<PromiseId, Resolution<R>>, issued: nat)
    requires OpenPromises(multiset(pending), resolutions) && multiset(pending') == multiset(pending) + multiset{m}
    requires m.promise == issued && (forall q :: q in resolutions ==> q < issued)
    requires forall n :: n in pending ==> n.promise < issued
    ensures forall n :: n in pending' ==> n.promise < issued + 1
    ensures OpenPromises(multiset(pending'), resolutions)
  {
    forall n | n in pending'
      ensures n.promise < issued + 1
    {
      assert n in multiset(pending) + multiset{m};
    }
    OpenAfterAdmitting(multiset(pending), m, resolutions);
  }

  /** Completing a fresh promise at once keeps the engine well formed. */
  lemma RefuseKeepsValid<M, R>(e: Engine<M, R>, p: Policy, r: Engine<M, R>)
    requires EngineValid(e, p)
    requires r.types == e.types && r.queues == e.queues && r.window == e.window
    requires r.resolutions == e.resolutions[e.issued := Completed(NotSentShuttingDown)] && r.issued == e.issued + 1
    ensures EngineValid(r, p)
  {
  }

  /**
   * The recommendation lists every registered type and only registered
   * types have queues, so a non-empty buffer always yields a message.
   */
  lemma NeverStalls<M, R>(e: Engine<M, R>, p: Policy)
    requires EngineValid(e, p) && Pending(e) != []
    ensures FirstWaiting(Recommended(e, p), e.queues) < |Recommended(e, p)|
  {
    FlattenEmpty(e.types, e.queues);
    var t :| t in e.types && e.queues[t] != [];
    RecommendListsEveryTypeOnce(p.order, p.weights, e.window);
    FirstWaitingFinds(Recommended(e, p), e.queues, t);
  }

  lemma {:induction false} FirstWaitingFinds<M>(recs: seq<MessageType>, queues: Queues<M>, t: MessageType)
    requires t in recs && QueueIn(queues, t) != []
    ensures FirstWaiting(recs, queues) < |recs|
  {
    if recs[0] != t {
      assert t in recs[1..];
      FirstWaitingFinds(recs[1..], queues, t);
    }
  }

  /** Polling the front of queue `t` keeps the engine's shape and loses exactly that message. */
  lemma PollKeepsPending<M, R>(e: Engine<M, R>, t: MessageType)
    requires Distinct(e.types) && e.queues.Keys == (set u | u in e.types) && SortedByType(e.queues)
    requires t in e.queues && e.queues[t] != []
    ensures var queues := e.queues[t := e.queues[t][1..]];
      SortedByType(queues) &&
      |Flatten(e.types, queues)| == |Pending(e)| - 1 &&
      multiset(Pending(e)) == multiset(Flatten(e.types, queues)) + multiset{e.queues[t][0]}
  {
    var q := e.queues[t];
    PollKeepsSorted(e.queues, t);
    FlattenLength(e.types, e.queues, t, q[1..]);
    FlattenMultiset(e.types, e.queues, t, q[1..]);
    assert q == [q[0]] + q[1..];
    var before, after := multiset(Pending(e)), multiset(Flatten(e.types, e.queues[t := q[1..]]));
    assert (after + multiset{q[0]}) + multiset(q[1..]) == before + multiset(q[1..]);
    MultisetCancel(after + multiset{q[0]}, before, multiset(q[1..]));
  }

  /**
   * A dispatch pass: steps while the buffer is non-empty and the channel
   * reports a free slot; `freeSlot(k)` and `outcome(k)` are the channel's
   * answers at the k-th check. Returns the final engine and the index of
   * the check that ended the pass.
   */
  ghost function Pass<M, R>(e: Engine<M, R>, p: Policy, now: int,
                            freeSlot: nat -> bool, outcome: nat -> ChannelOutcome<R>, k: nat): (r: (Engine<M, R>, nat))
    requires EngineValid(e, p)
    ensures EngineValid(r.0, p) && r.0.types == e.types && r.0.issued == e.issued
    decreases |Pending(e)|
  {
    if Pending(e) == [] || !freeSlot(k) then (e, k)
    else
      var next := Step(e, p, now, outcome(k));
      Pass(next, p, now, freeSlot, outcome, k + 1)
  }

  /** Unfolding one check of a pass that finds a message and a free slot. */
  lemma PassUnfolds<M, R>(e: Engine<M, R>, p: Policy, now: int,
                          freeSlot: nat -> bool, outcome: nat -> ChannelOutcome<R>, k: nat)
    requires EngineValid(e, p)
    ensures Pending(e) == [] || !freeSlot(k) ==> Pass(e, p, now, freeSlot, outcome, k) == (e, k)
    ensures Pending(e) != [] && freeSlot(k) ==>
      Pass(e, p, now, freeSlot, outcome, k) == Pass(Step(e, p, now, outcome(k)), p, now, freeSlot, outcome, k + 1)
  {
  }

  /** A pass hands one message to the channel per check that found a free slot. */
  lemma {:induction false} PassCounts<M, R>(e: Engine<M, R>, p: Policy, now: int,
                                           freeSlot: nat -> bool, outcome: nat -> ChannelOutcome<R>, k: nat)
    requires EngineValid(e, p)
    ensures k <= Pass(e, p, now, freeSlot, outcome, k).1
    ensures |Pending(Pass(e, p, now, freeSlot, outcome, k).0)| == |Pending(e)| - (Pass(e, p, now, freeSlot, outcome, k).1 - k)
    decreases |Pending(e)|
  {
    PassUnfolds(e, p, now, freeSlot, outcome, k);
    if Pending(e) != [] && freeSlot(k) {
      PassCounts(Step(e, p, now, outcome(k)), p, now, freeSlot, outcome, k + 1);
    }
  }

  /** The checks numbered `k` up to `n` (exclusive) all found a free slot. */
  ghost predicate AllFree(freeSlot: nat -> bool, k: nat, n: nat)
  {
    forall j: nat :: k <= j < n ==> freeSlot(j)
  }

  /** Every check a pass went through found a free slot. */
  lemma {:induction false} PassUsesFreeSlots<M, R>(e: Engine<M, R>, p: Policy, now: int,
                                                  freeSlot: nat -> bool, outcome: nat -> ChannelOutcome<R>, k: nat)
    requires EngineValid(e, p)
    ensures AllFree(freeSlot, k, Pass(e, p, now, freeSlot, outcome, k).1)
    decreases |Pending(e)|
  {
    PassUnfolds(e, p, now, freeSlot, outcome, k);
    if Pending(e) != [] && freeSlot(k) {
      var next := Step(e, p, now, outcome(k));
      PassUsesFreeSlots(next, p, now, freeSlot, outcome, k + 1);
      FreeSlotsExtend(freeSlot, k, Pass(next, p, now, freeSlot, outcome, k + 1).1);
    }
  }

  lemma FreeSlotsExtend(freeSlot: nat -> bool, k: nat, n: nat)
    requires freeSlot(k) && AllFree(freeSlot, k + 1, n)
    ensures AllFree(freeSlot, k, n)
  {
  }

  /** A pass stops at a busy check, or earlier when the buffer runs empty. */
  lemma {:induction false} PassStops<M, R>(e: Engine<M, R>, p: Policy, now: int,
                                          freeSlot: nat -> bool, outcome: nat -> ChannelOutcome<R>, k: nat)
    requires EngineValid(e, p)
    ensures Pending(Pass(e, p, now, freeSlot, outcome, k).0) == [] || !freeSlot(Pass(e, p, now, freeSlot, outcome, k).1)
    decreases |Pending(e)|
  {
    PassUnfolds(e, p, now, freeSlot, outcome, k);
    if Pending(e) != [] && freeSlot(k) {
      PassStops(Step(e, p, now, outcome(k)), p, now, freeSlot, outcome, k + 1);
    }
  }

  /** `resolutions` with the promise of every message of `ms` completed NotSentShuttingDown. */
  ghost function ShutDownAll<M, R>(resolutions: map<PromiseId, Resolution<R>>, ms: seq<MessageContainer<M>>): (r: map<PromiseId, Resolution<R>>)
    ensures forall m :: m in ms ==> m.promise in r && r[m.promise] == Completed(NotSentShuttingDown)
    ensures forall q :: q in r <==> q in resolutions || exists m :: m in ms && m.promise == q
    ensures forall q :: q in resolutions && (forall m :: m in ms ==> m.promise != q) ==> r[q] == resolutions[q]
  {
    if ms == [] then resolutions
    else
      var init, last := ms[..|ms| - 1], ms[|ms| - 1];
      assert forall m :: m in ms ==> m in init || m == last;
      assert forall m :: m in init ==> m in ms;
      ShutDownAll(resolutions, init)[last.promise := Completed(NotSentShuttingDown)]
  }

  /**
   * The force-shutdown branch of the worker: every waiting message is
   * drained and its promise completed NotSentShuttingDown; the queues stay,
   * empty.
   */
  ghost function ForceComplete<M, R>(e: Engine<M, R>): (r: Engine<M, R>)
    requires forall t :: t in e.types ==> t in e.queues
    ensures r.types == e.types && r.window == e.window && r.log == e.log && r.issued == e.issued
    ensures r.queues.Keys == e.queues.Keys && forall t :: t in r.queues ==> r.queues[t] == []
    ensures Pending(r) == []
    ensures forall m :: m in Pending(e) ==> m.promise in r.resolutions && r.resolutions[m.promise] == Completed(NotSentShuttingDown)
  {
    var drained: Queues<M> := map t | t in e.queues :: [];
    FlattenEmpty(e.types, drained);
    e.(queues := drained, resolutions := ShutDownAll(e.resolutions, Pending(e)))
  }

  /**
   * Force completion empties the buffer, completes every waiting promise
   * NotSentShuttingDown, leaves every other promise alone, and hands
   * nothing to the channel.
   */
  lemma ForceCompleteResolvesEverything<M, R>(e: Engine<M, R>, p: Policy)
    requires EngineValid(e, p)
    ensures EngineValid(ForceComplete(e), p)
    ensures forall q :: q in e.resolutions ==> q in ForceComplete(e).resolutions && ForceComplete(e).resolutions[q] == e.resolutions[q]
    ensures forall q :: q in ForceComplete(e).resolutions <==> q in e.resolutions || exists m :: m in Pending(e) && m.promise == q
  {
  }

  /** A pass whose first check finds the channel busy changes nothing. */
  lemma BusyChannelDispatchesNothing<M, R>(e: Engine<M, R>, p: Policy, now: int,
                                          freeSlot: nat -> bool, outcome: nat -> ChannelOutcome<R>)
    requires EngineValid(e, p) && !freeSlot(0)
    ensures Pass(e, p, now, freeSlot, outcome, 0) == (e, 0)
  {
  }

  /** The channel answers every hand-over by delivering the message. */
  ghost predicate AllDelivered<R>(outcome: nat -> ChannelOutcome<R>)
  {
    forall k: nat :: outcome(k).Delivered?
  }

  /**
   * The promise of `m` is completed: NotSent when `m` is expired at `now`,
   * and Sent when it is not and the channel delivers everything.
   */
  ghost predicate Settled<M, R>(resolutions: map<PromiseId, Resolution<R>>, m: MessageContainer<M>, now: int,
                                outcome: nat -> ChannelOutcome<R>)
  {
    && m.promise in resolutions
    && (m.IsExpired(now) ==> resolutions[m.promise] == Completed(NotSent))
    && (!m.IsExpired(now) && AllDelivered(outcome) ==> resolutions[m.promise].Completed? && resolutions[m.promise].value.Sent?)
  }

  /** A pass never changes how a promise already completed was completed. */
  lemma {:induction false} PassKeepsResolved<M, R>(e: Engine<M, R>, p: Policy, now: int,
                                                  freeSlot: nat -> bool, outcome: nat -> ChannelOutcome<R>, k: nat, q: PromiseId)
    requires EngineValid(e, p) && q in e.resolutions
    ensures q in Pass(e, p, now, freeSlot, outcome, k).0.resolutions
    ensures Pass(e, p, now, freeSlot, outcome, k).0.resolutions[q] == e.resolutions[q]
    decreases |Pending(e)|
  {
    PassUnfolds(e, p, now, freeSlot, outcome, k);
    if Pending(e) != [] && freeSlot(k) {
      StepTakesFront(e, p, now, outcome(k));
      PassKeepsResolved(Step(e, p, now, outcome(k)), p, now, freeSlot, outcome, k + 1, q);
    }
  }

  /** Every message a pass takes from the buffer ends the pass with its promise settled. */
  lemma {:induction false} PassSettles<M, R>(e: Engine<M, R>, p: Policy, now: int,
                                            freeSlot: nat -> bool, outcome: nat -> ChannelOutcome<R>, k: nat)
    requires EngineValid(e, p)
    ensures forall m :: m in Pending(e) && m !in Pending(Pass(e, p, now, freeSlot, outcome, k).0) ==>
      Settled(Pass(e, p, now, freeSlot, outcome, k).0.resolutions, m, now, outcome)
    decreases |Pending(e)|
  {
    PassUnfolds(e, p, now, freeSlot, outcome, k);
    if Pending(e) != [] && freeSlot(k) {
      var next := Step(e, p, now, outcome(k));
      var front := Front(e, p);
      StepTakesFront(e, p, now, outcome(k));
      PassSettles(next, p, now, freeSlot, outcome, k + 1);
      PassKeepsResolved(next, p, now, freeSlot, outcome, k + 1, front.promise);
      forall m | m in Pending(e) && m !in Pending(Pass(next, p, now, freeSlot, outcome, k + 1).0)
        ensures Settled(Pass(next, p, now, freeSlot, outcome, k + 1).0.resolutions, m, now, outcome)
      {
        assert m in multiset(Pending(e));
        if m != front {
          assert m in multiset(Pending(next));
        }
      }
    }
  }

  /**
   * A channel that always has a free slot takes everything: the pass ends
   * with an empty buffer after one check per message, and every message
   * that waited has its promise settled.
   */
  lemma FreeChannelDrainsBuffer<M, R>(e: Engine<M, R>, p: Policy, now: int,
                                     freeSlot: nat -> bool, outcome: nat -> ChannelOutcome<R>)
    requires EngineValid(e, p) && forall j :: freeSlot(j)
    ensures Pending(Pass(e, p, now, freeSlot, outcome, 0).0) == []
    ensures Pass(e, p, now, freeSlot, outcome, 0).1 == |Pending(e)|
    ensures forall m :: m in Pending(e) ==> Settled(Pass(e, p, now, freeSlot, outcome, 0).0.resolutions, m, now, outcome)
  {
    PassCounts(e, p, now, freeSlot, outcome, 0);
    PassStops(e, p, now, freeSlot, outcome, 0);
    PassSettles(e, p, now, freeSlot, outcome, 0);
    var r := Pass(e, p, now, freeSlot, outcome, 0);
    assert freeSlot(r.1);
  }

  /** What the force-shutdown drain leaves behind is the force completion of the engine before it. */
  lemma ForceCompleteIsDrain<M, R>(before: Engine<M, R>, after: Engine<M, R>, p: Policy)
    requires EngineValid(before, p)
    requires after.types == before.types && after.queues.Keys == before.queues.Keys
    requires forall t :: QueueIn(after.queues, t) == []
    requires after.resolutions == ShutDownAll(before.resolutions, Pending(before))
    requires after.window == before.window && after.log == before.log && after.issued == before.issued
    ensures after == ForceComplete(before)
    ensures EngineValid(after, p)
  {
    assert after.queues == ForceComplete(before).queues by {
      forall t | t in after.queues
        ensures after.queues[t] == []
      {
        assert QueueIn(after.queues, t) == [];
      }
    }
    ForceCompleteResolvesEverything(before, p);
  }

  /**
   * The multiplexer: producers send typed messages, which wait in the
   * buffer until the worker hands them to the output channel in the order
   * the recommender suggests.
   */
  class MultiplexerWithPriority<M, R> {
    var state: State
    /** The pending messages, by type. */
    const buffer: Buffer<M>
    /** Chooses which type to dispatch next. */
    const recommender: StatisticStorageRecommender
    /** Promises are numbered in the order they were handed out; this is the next number. */
    var nextPromise: nat
    /** How each completed promise was completed. */
    var resolutions: map<PromiseId, Resolution<R>>
    /** The messages handed to the output channel, in order. */
    var channelLog: seq<MessageContainer<M>>

    ghost function Configuration(): Policy
      reads recommender
    {
      Policy(recommender.expectedSpreading.keys, recommender.expectedSpreading.entries, recommender.capacity)
    }

    ghost function Snapshot(): Engine<M, R>
      reads this, buffer, recommender
    {
      Engine(buffer.queues, buffer.types, recommender.statistics, resolutions, channelLog, nextPromise)
    }

    ghost predicate Valid()
      reads this, buffer, recommender
    {
      buffer.Valid() && recommender.Valid() && EngineValid(Snapshot(), Configuration())
    }

    constructor FromRecommender(recommender: StatisticStorageRecommender)
      requires recommender.Valid()
      ensures Valid() && fresh(buffer) && this.recommender == recommender
      ensures state == Active && buffer.queues == map[] && buffer.types == []
      ensures nextPromise == 0 && resolutions == map[] && channelLog == []
    {
      state := Active;
      buffer := new Buffer<M>();
      this.recommender := recommender;
      nextPromise := 0;
      resolutions := map[];
      channelLog := [];
      new;
      RecommenderPolicyIsValid(recommender);
    }

    static lemma RecommenderPolicyIsValid(recommender: StatisticStorageRecommender)
      requires recommender.Valid()
      ensures PolicyValid(Policy(recommender.expectedSpreading.keys, recommender.expectedSpreading.entries, recommender.capacity))
    {
      var keys := recommender.expectedSpreading.keys;
      assert forall t :: t in keys <==> t in recommender.expectedSpreading.entries.Keys;
    }

    /**
     * The source's constructor: at least one registered type is required,
     * and the recommender is built from the registered weights.
     */
    static method Create(registered: map<MessageType, int>)
      returns (r: Result<MultiplexerWithPriority<M, R>, ConfigurationError>)
      ensures r == Failure(NoRegisteredTypes) <==> registered == map[]
      ensures r == Failure(NonPositiveCapacity) <==> registered != map[] && MapSum(registered) <= 0
      ensures r.Success? ==> fresh(r.value) && fresh(r.value.buffer) && fresh(r.value.recommender) && r.value.Valid()
      ensures r.Success? ==> r.value.state == Active && r.value.buffer.queues == map[]
      ensures r.Success? ==> r.value.recommender.expectedSpreading.entries == registered
      ensures r.Success? ==> r.value.recommender.capacity == MapSum(registered) && r.value.recommender.statistics == []
      ensures r.Success? ==> r.value.buffer.types == [] && r.value.nextPromise == 0
      ensures r.Success? ==> r.value.resolutions == map[] && r.value.channelLog == []
    {
      if registered == map[] {
        return Failure(NoRegisteredTypes);
      }
      var recommender := StatisticStorageRecommender.Create(registered);
      if recommender.Failure? {
        return Failure(recommender.error);
      }
      var multiplexer := new MultiplexerWithPriority.FromRecommender(recommender.value);
      return Success(multiplexer);
    }
 
    /**
     * send: an unregistered type is refused before anything changes. Every
     * accepted call hands out a new promise; while Active the message is
     * buffered under its type, otherwise the promise is completed at once
     * with NotSentShuttingDown and nothing is buffered.
     */
    method Send(msg: M, messageType: MessageType, expirationTime: ExpirationDate, now: int)
      returns (r: Result<PromiseId, SendError>)
      requires Valid()
      modifies this, buffer
      ensures Valid() && unchanged(recommender)
      ensures state == old(state) && channelLog == old(channelLog)
      ensures !old(recommender.TypeIsRegistered(messageType)) ==>
        r == Failure(UnregisteredType) && unchanged(this) && unchanged(buffer)
      ensures old(recommender.TypeIsRegistered(messageType)) ==>
        r == Success(old(nextPromise)) && nextPromise == old(nextPromise) + 1 &&
        old(nextPromise) !in old(resolutions)
      ensures old(recommender.TypeIsRegistered(messageType)) && old(state) == Active ==>
        resolutions == old(resolutions) &&
        buffer.types == (if messageType in old(buffer.queues) then old(buffer.types) else old(buffer.types) + [messageType]) &&
        buffer.queues == old(buffer.queues)[messageType := old(QueueIn(buffer.queues, messageType)) +
          [MessageContainer(now, msg, old(nextPromise), messageType, expirationTime)]] &&
        |buffer.Contents()| == |old(buffer.Contents())| + 1
      ensures old(recommender.TypeIsRegistered(messageType)) && old(state) != Active ==>
        resolutions == old(resolutions)[old(nextPromise) := Completed(NotSentShuttingDown)] &&
        unchanged(buffer)
    {
      if !recommender.TypeIsRegistered(messageType) {
        return Failure(UnregisteredType);
      }
      ghost var e, p := Snapshot(), Configuration();
      var promise := nextPromise;
      if state == Active {
        var container := MessageContainer(now, msg, promise, messageType, expirationTime);
        buffer.Add(container);
        nextPromise := promise + 1;
        AdmitKeepsValid(e, p, container, Snapshot());
      } else {
        resolutions := resolutions[promise := Completed(NotSentShuttingDown)];
        nextPromise := promise + 1;
        RefuseKeepsValid(e, p, Snapshot());
      }
      r := Success(promise);
    }

    /** findMessageForProcessing: poll the recommended types in order until one yields a message. */
    method FindMessageForProcessing(recommendations: seq<MessageType>) returns (found: Option<MessageContainer<M>>)
      requires buffer.Valid()
      modifies buffer
      ensures buffer.Valid() && buffer.types == old(buffer.types)
      ensures var k := FirstWaiting(recommendations, old(buffer.queues));
        if k < |recommendations| then
          var t := recommendations[k];
          found == Some(old(buffer.queues)[t][0]) && buffer.queues == old(buffer.queues)[t := old(buffer.queues)[t][1..]]
        else
          found == None && buffer.queues == old(buffer.queues)
    {
      found := None;
      var i := 0;
      while found.None? && i < |recommendations|
        invariant 0 <= i <= |recommendations|
        invariant buffer.Valid() && buffer.types == old(buffer.types)
        invariant found.None? ==> (buffer.queues == old(buffer.queues) &&
          forall j :: 0 <= j < i ==> QueueIn(old(buffer.queues), recommendations[j]) == [])
        invariant found.Some? ==> (0 < i && FirstWaiting(recommendations, old(buffer.queues)) == i - 1 &&
          var t := recommendations[i - 1];
          found == Some(old(buffer.queues)[t][0]) && buffer.queues == old(buffer.queues)[t := old(buffer.queues)[t][1..]])
        decreases |recommendations| - i
      {
        found := buffer.PollNext(recommendations[i]);
        i := i + 1;
      }
    }

    /** Whether a dispatch is possible: something waits and the channel has a free slot. */
    method HasMessageAndPossibleToSendToChannel(hasFreeSlot: bool) returns (possible: bool)
      requires buffer.Valid()
      ensures possible <==> buffer.Contents() != [] && hasFreeSlot
    {
      var empty := buffer.IsEmpty();
      possible := !empty && hasFreeSlot;
    }

    /** sendStoredNotificationToChannel, with the channel's answer `outcome` and the clock `now`. */
    method SendStoredNotificationToChannel(now: int, outcome: ChannelOutcome<R>)
      requires Valid()
      modifies this, buffer, recommender
      ensures Valid() && state == old(state)
      ensures Snapshot() == Step(old(Snapshot()), Configuration(), now, outcome)
    {
      ghost var e, p := Snapshot(), Configuration();
      var empty := buffer.IsEmpty();
      if empty {
        return;
      }
      var recommendations := recommender.MakeRecommendation();
      NeverStalls(e, p);
      var found := FindMessageForProcessing(recommendations);
      HandOver(found.value, now, outcome);
      StepMatches(e, p, now, outcome, recommendations, found.value, Snapshot());
    }

    /**
     * The second half of a dispatch step: an expired message completes
     * NotSent; any other has its type recorded in the window, is handed to
     * the channel, and completes as the channel answers.
     */
    method HandOver(message: MessageContainer<M>, now: int, outcome: ChannelOutcome<R>)
      requires recommender.Valid()
      modifies this, recommender
      ensures recommender.Valid()
      ensures state == old(state) && nextPromise == old(nextPromise)
      ensures message.IsExpired(now) ==>
        resolutions == old(resolutions)[message.promise := Completed(NotSent)] &&
        channelLog == old(channelLog) && recommender.statistics == old(recommender.statistics)
      ensures !message.IsExpired(now) ==>
        resolutions == old(resolutions)[message.promise := Resolve(outcome)] &&
        channelLog == old(channelLog) + [message] &&
        recommender.statistics == Slide(old(recommender.statistics), message.messageType, recommender.capacity)
    {
      if message.IsExpired(now) {
        resolutions := resolutions[message.promise := Completed(NotSent)];
        return;
      }
      recommender.Add(message.messageType);
      channelLog := channelLog + [message];
      resolutions := resolutions[message.promise := Resolve(outcome)];
    }

    /**
     * The inner loop of the worker's Active and Shutdown branches: dispatch
     * while something waits and the channel has a free slot. Returns how
     * many messages were dispatched.
     */
    method DispatchWhilePossible(now: int, freeSlot: nat -> bool, outcome: nat -> ChannelOutcome<R>)
      returns (dispatched: nat)
      requires Valid()
      modifies this, buffer, recommender
      ensures Valid() && state == old(state)
      ensures (Snapshot(), dispatched) == Pass(old(Snapshot()), Configuration(), now, freeSlot, outcome, 0)
    {
      dispatched := 0;
      while true
        invariant Valid() && state == old(state)
        invariant Pass(Snapshot(), Configuration(), now, freeSlot, outcome, dispatched) ==
                  Pass(old(Snapshot()), Configuration(), now, freeSlot, outcome, 0)
        decreases |buffer.Contents()|
      {
        var possible := HasMessageAndPossibleToSendToChannel(freeSlot(dispatched));
        if !possible {
          return;
        }
        SendStoredNotificationToChannel(now, outcome(dispatched));
        dispatched := dispatched + 1;
      }
    }

    /** The drain's processor: complete the promise of every drained message with NotSentShuttingDown. */
    method CompleteShuttingDown(drained: seq<MessageContainer<M>>)
      modifies this
      ensures resolutions == ShutDownAll(old(resolutions), drained)
      ensures state == old(state) && nextPromise == old(nextPromise) && channelLog == old(channelLog)
    {
      var i := 0;
      while i < |drained|
        invariant 0 <= i <= |drained|
        invariant resolutions == ShutDownAll(old(resolutions), drained[..i])
        invariant state == old(state) && nextPromise == old(nextPromise) && channelLog == old(channelLog)
      {
        assert drained[..i + 1][..i] == drained[..i];
        resolutions := resolutions[drained[i].promise := Completed(NotSentShuttingDown)];
        i := i + 1;
      }
      assert drained[..i] == drained;
    }

    /**
     * One iteration of the worker loop. Active: a dispatch pass, and the
     * loop goes on. Shutdown: a dispatch pass, and the loop ends even if
     * messages remain. ForceShutdown: drain and complete everything, and
     * the loop ends.
     */
    method WorkerIteration(now: int, freeSlot: nat -> bool, outcome: nat -> ChannelOutcome<R>)
      returns (nextLoop: bool)
      requires Valid()
      modifies this, buffer, recommender
      ensures Valid() && state == old(state)
      ensures old(state) == Active ==>
        nextLoop && Snapshot() == Pass(old(Snapshot()), Configuration(), now, freeSlot, outcome, 0).0
      ensures old(state) == State.Shutdown ==>
        !nextLoop && Snapshot() == Pass(old(Snapshot()), Configuration(), now, freeSlot, outcome, 0).0
      ensures old(state) == ForceShutdown ==>
        !nextLoop && Snapshot() == ForceComplete(old(Snapshot()))
    {
      if state == Active {
        var _ := DispatchWhilePossible(now, freeSlot, outcome);
        nextLoop := true;
      } else if state == State.Shutdown {
        var _ := DispatchWhilePossible(now, freeSlot, outcome);
        nextLoop := false;
      } else {
        var empty := false;
        while !empty
          invariant Valid() && state == old(state)
          invariant !empty ==> Snapshot() == old(Snapshot())
          invariant empty ==> Snapshot() == ForceComplete(old(Snapshot()))
          decreases if empty then 0 else 1
        {
          ghost var before := Snapshot();
          var drained := buffer.PollAndProcessAllMessages();
          CompleteShuttingDown(drained);
          ForceCompleteIsDrain(before, Snapshot(), Configuration());
          empty := buffer.IsEmpty();
        }
        nextLoop := false;
      }
    }

    /** shutdown: stop accepting work; whatever the previous state, it becomes Shutdown. */
    method Shutdown()
      requires Valid()
      modifies this
      ensures Valid() && state == State.Shutdown
      ensures Snapshot() == old(Snapshot())
    {
      state := State.Shutdown;
    }

    /** shutdownNow: whatever the previous state, it becomes ForceShutdown. */
    method ShutdownNow()
      requires Valid()
      modifies this
      ensures Valid() && state == ForceShutdown
      ensures Snapshot() == old(Snapshot())
    {
      state := ForceShutdown;
    }
  }
}
