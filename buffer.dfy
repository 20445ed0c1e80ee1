/**
 * The dispatcher's store of pending messages: one FIFO queue per message
 * type, created the first time a message of that type arrives.
 */
module TypeBuffer {
  import opened Wrappers
  import opened Sequences
  import opened Messages

  type Queues<M> = map<MessageType, seq<MessageContainer<M>>>

  /** The messages of the queues listed in `types`, queue after queue, each front first. */
  ghost function Flatten<M>(types: seq<MessageType>, queues: Queues<M>): seq<MessageContainer<M>>
    requires forall t :: t in types ==> t in queues
  {
    if types == [] then []
    else Flatten(types[..|types| - 1], queues) + queues[types[|types| - 1]]
  }

  /** The queue of `t`, empty when none was created yet. */
  function QueueIn<M>(queues: Queues<M>, t: MessageType): (q: seq<MessageContainer<M>>)
    ensures q != [] ==> t in queues && q == queues[t]
  {
    if t in queues then queues[t] else []
  }

  /** Every queue holds only messages of its own type. */
  ghost predicate SortedByType<M>(queues: Queues<M>)
  {
    forall t, i :: t in queues && 0 <= i < |queues[t]| ==> queues[t][i].messageType == t
  }

  lemma {:induction false} FlattenEmpty<M>(types: seq<MessageType>, queues: Queues<M>)
    requires forall t :: t in types ==> t in queues
    ensures Flatten(types, queues) == [] <==> forall t :: t in types ==> queues[t] == []
  {
    if types != [] {
      var init := types[..|types| - 1];
      FlattenEmpty(init, queues);
      assert types == init + [types[|types| - 1]];
    }
  }

  /** Replacing a queue that is not listed leaves the flattening alone. */
  lemma {:induction false} FlattenFrame<M>(types: seq<MessageType>, queues: Queues<M>, t: MessageType, q: seq<MessageContainer<M>>)
    requires forall u :: u in types ==> u in queues
    requires t !in types
    ensures Flatten(types, queues[t := q]) == Flatten(types, queues)
  {
    if types != [] {
      var init := types[..|types| - 1];
      assert types == init + [types[|types| - 1]];
      FlattenFrame(init, queues, t, q);
    }
  }

  /** Replacing the queue of a listed type changes the total length by the difference. */
  lemma {:induction false} FlattenLength<M>(types: seq<MessageType>, queues: Queues<M>, t: MessageType, q: seq<MessageContainer<M>>)
    requires Distinct(types)
    requires forall u :: u in types ==> u in queues
    requires t in types
    ensures |Flatten(types, queues[t := q])| == |Flatten(types, queues)| - |queues[t]| + |q|
  {
    var init, last := types[..|types| - 1], types[|types| - 1];
    assert types == init + [last];
    if last == t {
      assert t !in init;
      FlattenFrame(init, queues, t, q);
    } else {
      FlattenLength(init, queues, t, q);
    }
  }

  /** The messages of a listed type form, in order, its queue. */
  lemma {:induction false} FlattenKeepsQueueMembers<M>(types: seq<MessageType>, queues: Queues<M>, t: MessageType, m: MessageContainer<M>)
    requires forall u :: u in types ==> u in queues
    requires t in types && m in queues[t]
    ensures m in Flatten(types, queues)
  {
    var init, last := types[..|types| - 1], types[|types| - 1];
    assert types == init + [last];
    if last != t {
      FlattenKeepsQueueMembers(init, queues, t, m);
    }
  }

  lemma PollKeepsSorted<M>(queues: Queues<M>, t: MessageType)
    requires SortedByType(queues) && t in queues && queues[t] != []
    ensures SortedByType(queues[t := queues[t][1..]])
  {
    var queues': Queues<M> := queues[t := queues[t][1..]];
    forall u, k | u in queues' && 0 <= k < |queues'[u]|
      ensures queues'[u][k].messageType == u
    {
      if u == t {
        assert queues'[u][k] == queues[t][k + 1];
      }
    }
  }

  lemma {:induction false} FlattenIsTyped<M>(types: seq<MessageType>, queues: Queues<M>, m: MessageContainer<M>)
    requires forall u :: u in types ==> u in queues
    requires SortedByType(queues)
    requires m in Flatten(types, queues)
    ensures m.messageType in types && m in queues[m.messageType]
  {
    var init, last := types[..|types| - 1], types[|types| - 1];
    assert types == init + [last];
    if m in Flatten(init, queues) {
      FlattenIsTyped(init, queues, m);
    } else {
      var i :| 0 <= i < |queues[last]| && queues[last][i] == m;
    }
  }

  /** Replacing the queue of a listed type trades, as a multiset, the old queue's messages for the new queue's. */
  lemma {:induction false} FlattenMultiset<M>(types: seq<MessageType>, queues: Queues<M>, t: MessageType, q: seq<MessageContainer<M>>)
    requires Distinct(types)
    requires forall u :: u in types ==> u in queues
    requires t in types
    ensures multiset(Flatten(types, queues[t := q])) + multiset(queues[t]) == multiset(Flatten(types, queues)) + multiset(q)
  {
    var init, last := types[..|types| - 1], types[|types| - 1];
    assert types == init + [last];
    if last == t {
      assert t !in init;
      FlattenFrame(init, queues, t, q);
    } else {
      FlattenMultiset(init, queues, t, q);
      var before, after := multiset(Flatten(init, queues)), multiset(Flatten(init, queues[t := q]));
      var rest := multiset(queues[last]);
      assert multiset(Flatten(types, queues[t := q])) == after + rest;
      assert multiset(Flatten(types, queues)) == before + rest;
      assert (after + rest) + multiset(queues[t]) == (after + multiset(queues[t])) + rest;
      assert (before + multiset(q)) + rest == (before + rest) + multiset(q);
    }
  }

  lemma MultisetCancel<T>(a: multiset<T>, b: multiset<T>, x: multiset<T>)
    requires a + x == b + x
    ensures a == b
  {
    forall y
      ensures a[y] == b[y]
    {
      assert (a + x)[y] == (b + x)[y];
    }
  }

  /** Appending `m` to the queue of its type, created at the end when missing, adds exactly `m` to the waiting messages. */
  lemma AddedMultiset<M>(types: seq<MessageType>, queues: Queues<M>, types': seq<MessageType>, queues': Queues<M>, m: MessageContainer<M>)
    requires Distinct(types) && queues.Keys == (set t | t in types)
    requires types' == if m.messageType in queues then types else types + [m.messageType]
    requires queues' == queues[m.messageType := QueueIn(queues, m.messageType) + [m]]
    ensures forall u :: u in types' ==> u in queues'
    ensures multiset(Flatten(types', queues')) == multiset(Flatten(types, queues)) + multiset{m}
  {
    var t := m.messageType;
    if t in queues {
      assert t in types && QueueIn(queues, t) == queues[t];
      FlattenMultiset(types, queues, t, queues[t] + [m]);
      var added, waiting, queue := multiset(Flatten(types', queues')), multiset(Flatten(types, queues)), multiset(queues[t]);
      assert multiset(queues[t] + [m]) == queue + multiset{m};
      assert added + queue == (waiting + multiset{m}) + queue;
      MultisetCancel(added, waiting + multiset{m}, queue);
    } else {
      assert t !in types && QueueIn(queues, t) + [m] == [m];
      FlattenFrame(types, queues, t, [m]);
      assert types'[..|types'| - 1] == types && types'[|types'| - 1] == t;
      assert Flatten(types', queues') == Flatten(types, queues') + queues'[t];
    }
  }

  class Buffer<M> {
    /** The queue of each type seen so far; queues are never removed. */
    var queues: Queues<M>
    /** The types with a queue, in the order their queues were created. */
    var types: seq<MessageType>

    ghost predicate Valid()
      reads this
    {
      Distinct(types) && queues.Keys == (set t | t in types) && SortedByType(queues)
    }

    /** Every buffered message, queue after queue. */
    ghost function Contents(): seq<MessageContainer<M>>
      reads this
      requires Valid()
    {
      Flatten(types, queues)
    }

    constructor ()
      ensures Valid()
      ensures queues == map[] && types == []
    {
      queues := map[];
      types := [];
    }

    /** Whether a message of type `t` is waiting. */
    function HasMessage(t: MessageType): (has: bool)
      reads this
      requires Valid()
      ensures has <==> exists m :: m in Contents() && m.messageType == t
    {
      if t in queues then
        MessageOfTypeIsInItsQueue(t);
        queues[t] != []
      else
        MessageOfTypeIsInItsQueue(t);
        false
    }

    lemma MessageOfTypeIsInItsQueue(t: MessageType)
      requires Valid()
      ensures (exists m :: m in Contents() && m.messageType == t) <==> QueueIn(queues, t) != []
    {
      if QueueIn(queues, t) != [] {
        assert QueueIn(queues, t)[0] in queues[t];
        FlattenKeepsQueueMembers(types, queues, t, QueueIn(queues, t)[0]);
      }
      if m :| m in Contents() && m.messageType == t {
        FlattenIsTyped(types, queues, m);
      }
    }

    /** Whether no message is waiting; queues may still exist. */
    method IsEmpty() returns (empty: bool)
      requires Valid()
      ensures empty <==> Contents() == []
      ensures empty <==> forall t :: QueueIn(queues, t) == []
    {
      var i := 0;
      while i < |types|
        invariant 0 <= i <= |types|
        invariant forall j :: 0 <= j < i ==> queues[types[j]] == []
      {
        if queues[types[i]] != [] {
          FlattenEmpty(types, queues);
          assert QueueIn(queues, types[i]) != [];
          return false;
        }
        i := i + 1;
      }
      FlattenEmpty(types, queues);
      assert forall t :: t in types ==> queues[t] == [] by {
        forall t | t in types
          ensures queues[t] == []
        {
          var j :| 0 <= j < |types| && types[j] == t;
        }
      }
      return true;
    }

    /** How many messages are waiting. */
    method Size() returns (size: nat)
      requires Valid()
      ensures size == |Contents()|
    {
      size := 0;
      var i := 0;
      while i < |types|
        invariant 0 <= i <= |types|
        invariant size == |Flatten(types[..i], queues)|
      {
        assert types[..i + 1][..i] == types[..i];
        size := size + |queues[types[i]]|;
        i := i + 1;
      }
      assert types[..i] == types;
    }

    /** Appends `m` to the queue of its type, creating that queue when missing. */
    method Add(m: MessageContainer<M>)
      requires Valid()
      modifies this
      ensures Valid()
      ensures queues == old(queues)[m.messageType := old(QueueIn(queues, m.messageType)) + [m]]
      ensures types == if m.messageType in old(queues) then old(types) else old(types) + [m.messageType]
      ensures |Contents()| == |old(Contents())| + 1
    {
      var t := m.messageType;
      var q := QueueIn(queues, t) + [m];
      var types' := if t in queues then types else types + [t];
      AddKeepsShape(types, queues, m, types', queues[t := q]);
      queues, types := queues[t := q], types';
    }

    static lemma AddKeepsShape(types: seq<MessageType>, queues: Queues<M>, m: MessageContainer<M>,
                               types': seq<MessageType>, queues': Queues<M>)
      requires Distinct(types) && queues.Keys == (set t | t in types) && SortedByType(queues)
      requires types' == if m.messageType in queues then types else types + [m.messageType]
      requires queues' == queues[m.messageType := (if m.messageType in queues then queues[m.messageType] else []) + [m]]
      ensures Distinct(types') && queues'.Keys == (set u | u in types') && SortedByType(queues')
      ensures |Flatten(types', queues')| == |Flatten(types, queues)| + 1
    {
      var t := m.messageType;
      var q := queues'[t];
      if t in queues {
        FlattenLength(types, queues, t, q);
      } else {
        assert q == [m];
        FlattenFrame(types, queues, t, [m]);
        DistinctAppend(types, t);
        assert (types + [t])[..|types|] == types;
      }
      forall u, k | u in queues' && 0 <= k < |queues'[u]|
        ensures queues'[u][k].messageType == u
      {
        if u == t && k < |q| - 1 {
          assert q[k] == queues[t][k];
        }
      }
    }

    /** Removes and returns the front of the queue of `t`; None when there is nothing of that type. */
    method PollNext(t: MessageType) returns (polled: Option<MessageContainer<M>>)
      requires Valid()
      modifies this
      ensures Valid() && types == old(types)
      ensures old(QueueIn(queues, t)) == [] ==> polled == None && queues == old(queues)
      ensures old(QueueIn(queues, t)) != [] ==>
        polled == Some(old(QueueIn(queues, t))[0]) && queues == old(queues)[t := old(QueueIn(queues, t))[1..]]
      ensures polled.Some? ==> polled.value.messageType == t
      ensures |Contents()| == |old(Contents())| - (if polled.Some? then 1 else 0)
    {
      if t !in queues || queues[t] == [] {
        return None;
      }
      var q := queues[t];
      FlattenLength(types, queues, t, q[1..]);
      PollKeepsSorted(queues, t);
      assert q[0].messageType == t;
      queues := queues[t := q[1..]];
      polled := Some(q[0]);
    }

    /**
     * Removes every waiting message, queue after queue and each queue front
     * first, and hands them back in that order for processing.
     */
    method PollAndProcessAllMessages() returns (drained: seq<MessageContainer<M>>)
      requires Valid()
      modifies this
      ensures Valid() && types == old(types) && queues.Keys == old(queues).Keys
      ensures drained == old(Contents())
      ensures Contents() == [] && forall t :: QueueIn(queues, t) == []
    {
      ghost var start := queues;
      drained := [];
      var i := 0;
      while i < |types|
        invariant 0 <= i <= |types| && types == old(types)
        invariant Drained(start, i, drained)
      {
        var t := types[i];
        StartDraining(start, i, drained);
        while queues[t] != []
          invariant types == old(types)
          invariant Draining(start, i, drained)
          decreases |queues[t]|
        {
          var q := queues[t];
          DrainStep(start, i, drained);
          drained := drained + [q[0]];
          queues := queues[t := q[1..]];
        }
        DrainedQueue(start, i, drained);
        i := i + 1;
      }
      DrainDone(start, drained);
    }

    /** After `i` queues: those are empty, the rest untouched, their messages drained in order. */
    ghost predicate Drained(start: Queues<M>, i: nat, drained: seq<MessageContainer<M>>)
      reads this
    {
      Distinct(types) && start.Keys == (set t | t in types) && SortedByType(start) &&
      i <= |types| && queues.Keys == start.Keys && SortedByType(queues) &&
      (forall j :: 0 <= j < i ==> queues[types[j]] == []) &&
      (forall j :: i <= j < |types| ==> queues[types[j]] == start[types[j]]) &&
      drained == Flatten(types[..i], start)
    }

    /** Inside queue `i`: what was drained from it plus what remains is its starting queue. */
    ghost predicate Draining(start: Queues<M>, i: nat, drained: seq<MessageContainer<M>>)
      reads this
    {
      Distinct(types) && start.Keys == (set t | t in types) && SortedByType(start) &&
      i < |types| && queues.Keys == start.Keys && SortedByType(queues) &&
      (forall j :: 0 <= j < i ==> queues[types[j]] == []) &&
      (forall j :: i < j < |types| ==> queues[types[j]] == start[types[j]]) &&
      drained + queues[types[i]] == Flatten(types[..i + 1], start)
    }

    lemma StartDraining(start: Queues<M>, i: nat, drained: seq<MessageContainer<M>>)
      requires Drained(start, i, drained) && i < |types|
      ensures Draining(start, i, drained)
    {
      assert types[..i + 1][..i] == types[..i];
    }

    lemma DrainStep(start: Queues<M>, i: nat, drained: seq<MessageContainer<M>>)
      requires Draining(start, i, drained) && queues[types[i]] != []
      ensures var t, q := types[i], queues[types[i]];
        (drained + [q[0]]) + q[1..] == Flatten(types[..i + 1], start) &&
        SortedByType(queues[t := q[1..]])
    {
      var q := queues[types[i]];
      assert q == [q[0]] + q[1..];
      AppendAssociative(drained, [q[0]], q[1..]);
      PollKeepsSorted(queues, types[i]);
    }

    lemma DrainedQueue(start: Queues<M>, i: nat, drained: seq<MessageContainer<M>>)
      requires Draining(start, i, drained) && queues[types[i]] == []
      ensures Drained(start, i + 1, drained)
    {
      assert drained == Flatten(types[..i + 1], start);
    }

    lemma DrainDone(start: Queues<M>, drained: seq<MessageContainer<M>>)
      requires Drained(start, |types|, drained)
      ensures Valid()
      ensures drained == Flatten(types, start)
      ensures Contents() == [] && forall t :: QueueIn(queues, t) == []
    {
      assert types[..|types|] == types;
      FlattenEmpty(types, queues);
      forall t | t in types
        ensures queues[t] == []
      {
        var j :| 0 <= j < |types| && types[j] == t;
      }
    }
  }

  /** A fresh buffer holding `first` and then `second`, both of one type. */
  method QueueOfTwo<M>(first: MessageContainer<M>, second: MessageContainer<M>) returns (buffer: Buffer<M>)
    requires first.messageType == second.messageType
    ensures fresh(buffer) && buffer.Valid()
    ensures buffer.queues == map[first.messageType := [first, second]]
  {
    var t := first.messageType;
    buffer := new Buffer<M>();
    assert QueueIn(buffer.queues, t) == [] && [] + [first] == [first];
    buffer.Add(first);
    assert buffer.queues == map[t := [first]];
    assert QueueIn(buffer.queues, t) + [second] == [first, second];
    buffer.Add(second);
  }

  /**
   * Two messages of one type come out in the order they went in; once both
   * are polled the buffer is empty although the type keeps its queue, and
   * a further poll finds nothing.
   */
  method FifoScenario<M>(first: MessageContainer<M>, second: MessageContainer<M>)
    returns (a: Option<MessageContainer<M>>, b: Option<MessageContainer<M>>, c: Option<MessageContainer<M>>,
             empty: bool, keepsQueue: bool)
    requires first.messageType == second.messageType
    ensures a == Some(first) && b == Some(second) && c == None
    ensures empty && keepsQueue
  {
    var t := first.messageType;
    var buffer := QueueOfTwo(first, second);
    a := buffer.PollNext(t);
    assert buffer.queues == map[t := [second]];
    b := buffer.PollNext(t);
    assert buffer.queues == map[t := []];
    c := buffer.PollNext(t);
    empty := buffer.IsEmpty();
    keepsQueue := first.messageType in buffer.queues;
  }

  /** A fresh buffer holding `first` and `second`, added in that order. */
  method BufferOfTwo<M>(first: MessageContainer<M>, second: MessageContainer<M>) returns (buffer: Buffer<M>)
    requires first.messageType != second.messageType
    ensures fresh(buffer) && buffer.Valid() && |buffer.Contents()| == 2
    ensures buffer.queues == map[first.messageType := [first], second.messageType := [second]]
  {
    var s, t := first.messageType, second.messageType;
    buffer := new Buffer<M>();
    assert QueueIn(buffer.queues, s) == [] && [] + [first] == [first];
    buffer.Add(first);
    assert buffer.queues == map[s := [first]];
    assert QueueIn(buffer.queues, t) == [] && [] + [second] == [second];
    buffer.Add(second);
  }

  /** Queues of different types are independent: each poll returns its own type's message. */
  method IndependentQueuesScenario<M>(first: MessageContainer<M>, second: MessageContainer<M>)
    returns (a: Option<MessageContainer<M>>, b: Option<MessageContainer<M>>, size: nat)
    requires first.messageType != second.messageType
    ensures a == Some(second) && b == Some(first) && size == 0
  {
    var buffer := BufferOfTwo(first, second);
    assert [first][1..] == [] && [second][1..] == [];
    a := buffer.PollNext(second.messageType);
    b := buffer.PollNext(first.messageType);
    size := buffer.Size();
  }
}
