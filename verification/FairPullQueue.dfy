/** The fair pull queue as an object: a map of ring buffers, a live iterator and an item counter. */
module FairPullQueues {
  import opened Basics
  import opened CircularBuffers
  import opened FairPull

  lemma SetTwice<K, V>(m: map<K, V>, k: K, v: V, v': V)
    ensures m[k := v][k := v'] == m[k := v'] && m[k := v][k] == v
  {
  }

  class FairPullQueue<T(0)> {
    var queueMap: map<nat, CircularBuffer<T>>
    var currentQueue: Cursor
    var pullCount: int

    ghost function Buffers(): set<object>
      reads this`queueMap
    {
      set k | k in queueMap :: queueMap[k]
    }

    ghost function Arrays(): set<object>
      reads this`queueMap, Buffers()
    {
      set k | k in queueMap :: queueMap[k].queue
    }

    /** The ring buffers are valid and share nothing. */
    ghost predicate Separate()
      reads this`queueMap, Buffers(), Arrays()
    {
      && (forall k :: k in queueMap ==> queueMap[k].Valid())
      && (forall k, l :: k in queueMap && l in queueMap && k != l ==>
            queueMap[k] != queueMap[l] && queueMap[k].queue != queueMap[l].queue)
    }

    ghost function Queues(): (q: map<nat, seq<T>>)
      requires Separate()
      reads this`queueMap, Buffers(), Arrays()
      ensures q.Keys == queueMap.Keys
    {
      map k | k in queueMap :: queueMap[k].Contents()
    }

    ghost function View(): State<T>
      requires Separate()
      reads this`queueMap, this`currentQueue, Buffers(), Arrays()
    {
      State(Queues(), currentQueue)
    }

    ghost predicate Valid()
      reads this, Buffers(), Arrays()
    {
      Separate() && View().Valid() && pullCount == Count(View())
    }

    constructor ()
      ensures Valid() && View() == State(map[], End)
    {
      queueMap, currentQueue, pullCount := map[], End, 0;
    }

    /** Adds a ring buffer that shares nothing with the ones in the map. */
    method InsertQueue(flow: nat, buffer: CircularBuffer<T>)
      requires Separate() && flow !in queueMap && buffer.Valid()
      requires forall k :: k in queueMap ==> queueMap[k] != buffer && queueMap[k].queue != buffer.queue
      modifies this`queueMap
      ensures Separate() && queueMap == old(queueMap)[flow := buffer]
      ensures Queues() == old(Queues())[flow := buffer.Contents()]
      ensures Buffers() <= old(Buffers()) + {buffer} && Arrays() <= old(Arrays()) + {buffer.queue}
    {
      hide CircularBuffer.Valid, CircularBuffer.Contents;
      queueMap := queueMap[flow := buffer];
    }

    /** Pushes onto the existing queue of `flow`. */
    method PushTo(flow: nat, item: T)
      requires Separate() && flow in queueMap
      modifies queueMap[flow], queueMap[flow].queue
      ensures Separate()
      ensures Queues() == old(Queues())[flow := old(Queues())[flow] + [item]]
      ensures Buffers() == old(Buffers()) && fresh(Arrays() - old(Arrays()))
    {
      hide CircularBuffer.Valid, CircularBuffer.Contents;
      queueMap[flow].Push(item);
    }

    method NewBuffer(item: T) returns (buffer: CircularBuffer<T>)
      ensures fresh(buffer) && buffer.Valid() && fresh(buffer.queue) && buffer.Contents() == [item]
    {
      hide CircularBuffer.Valid, CircularBuffer.Contents;
      buffer := new CircularBuffer<T>();
      buffer.Push(item);
      assert [] + [item] == [item];
    }

    /** A new queue for `flow` with its first item, which is in the ring before the ring is in the map. */
    method CreateQueue(flow: nat, item: T)
      requires Separate() && flow !in queueMap
      modifies this`queueMap
      ensures Separate() && Queues() == old(Queues())[flow := [item]]
      ensures fresh(Buffers() - old(Buffers())) && fresh(Arrays() - old(Arrays()))
    {
      hide CircularBuffer.Valid, CircularBuffer.Contents, Queues;
      var buffer := NewBuffer(item);
      InsertQueue(flow, buffer);
    }

    method AddItem(flow: nat, item: T)
      requires Separate()
      modifies this`queueMap, Buffers(), Arrays()
      ensures Separate() && View() == Enqueue(old(View()), flow, item)
      ensures fresh(Buffers() - old(Buffers())) && fresh(Arrays() - old(Arrays()))
    {
      assert Queues().Keys == queueMap.Keys && [] + [item] == [item];
      hide Separate, Queues, CircularBuffer.Valid, CircularBuffer.Contents;
      if flow in queueMap {
        PushTo(flow, item);
      } else {
        CreateQueue(flow, item);
      }
    }

    method EnqueueItem(flow: nat, item: T)
      requires Valid()
      modifies this, Buffers(), Arrays()
      ensures Valid() && View() == Enqueue(old(View()), flow, item)
      ensures fresh(Buffers() - old(Buffers())) && fresh(Arrays() - old(Arrays()))
    {
      hide Count, Separate, Queues;
      CountAfter(View(), Enq(flow, item));
      ApplyValid(View(), Enq(flow, item));
      AddItem(flow, item);
      pullCount := pullCount + 1;
    }

    /** Pops the oldest item of the non-empty queue of `flow` and counts it out. */
    method PopFrom(flow: nat) returns (item: T)
      requires Separate() && flow in queueMap && Queues()[flow] != []
      modifies this`pullCount, queueMap[flow]
      ensures pullCount == old(pullCount) - 1
      ensures Separate() && item == old(Queues())[flow][0]
      ensures Queues() == old(Queues())[flow := old(Queues())[flow][1..]]
      ensures Arrays() == old(Arrays())
    {
      hide CircularBuffer.Valid, CircularBuffer.Contents;
      item := queueMap[flow].Pop();
      pullCount := pullCount - 1;
    }

    /** Sets the iterator. */
    method MoveTo(c: Cursor)
      requires Separate()
      modifies this`currentQueue
      ensures currentQueue == c && Separate() && Queues() == old(Queues()) && Arrays() == old(Arrays())
    {
      hide CircularBuffer.Valid, CircularBuffer.Contents;
      currentQueue := c;
    }

    predicate QueueEmpty(flow: nat)
      requires Separate() && flow in queueMap
      reads this`queueMap, Buffers(), Arrays()
      ensures QueueEmpty(flow) <==> Queues()[flow] == []
    {
      queueMap[flow].Empty()
    }

    /** One turn of the search: the iterator passes one queue, found non-empty or not. */
    method Pass() returns (k: nat, found: bool)
      requires Separate() && View().Valid() && Backlog(View()) != {}
      modifies this`currentQueue
      ensures Separate() && Queues() == old(Queues()) && Arrays() == old(Arrays())
      ensures k in queueMap && currentQueue == After(queueMap.Keys, k)
      ensures found ==> k == NextServed(old(View())) && Queues()[k] != []
      ensures !found ==> View().Valid() && Backlog(View()) != {} && NextServed(View()) == NextServed(old(View()))
      ensures !found ==> MustWrap(View()) <= old(MustWrap(View()))
      ensures !found && MustWrap(View()) == old(MustWrap(View())) ==> |KeysFrom(View())| < old(|KeysFrom(View())|)
    {
      hide NextServed, KeysFrom, MustWrap, After, Backlog, Separate, Queues;
      ghost var start := View();
      PassOne(start);
      if currentQueue == End {
        MoveTo(CursorAtLeast(queueMap.Keys));
      }
      k := currentQueue.key;
      MoveTo(After(queueMap.Keys, k));
      found := !QueueEmpty(k);
      assert View() == start.(cursor := After(start.queues.Keys, k));
    }

    method DequeueItem() returns (r: Option<(nat, T)>)
      requires Valid()
      modifies this, Buffers()
      ensures Valid() && (r, View()) == Dequeue(old(View()))
      ensures Buffers() == old(Buffers()) && Arrays() == old(Arrays())
    {
      hide Separate, Queues, NextServed, KeysFrom, MustWrap, After, Total;
      ghost var before := View();
      TotalZero(before, before.queues.Keys);
      assert before.queues.Keys * Backlog(before) == Backlog(before);
      if pullCount == 0 {
        return None;
      }
      CountAfter(before, Deq);
      ApplyValid(before, Deq);
      var k, found := 0, false;
      while !found
        invariant Separate() && Queues() == before.queues && queueMap == old(queueMap) && pullCount == old(pullCount)
        invariant Arrays() == old(Arrays()) && queueMap.Keys == before.queues.Keys
        invariant !found ==> View().Valid() && Backlog(View()) != {} && NextServed(View()) == NextServed(before)
        invariant found ==> k in queueMap && k == NextServed(before) && Queues()[k] != []
        invariant found ==> currentQueue == After(before.queues.Keys, k)
        decreases !found, if found then 0 else MustWrap(View()), if found then 0 else |KeysFrom(View())|
        modifies this`currentQueue
      {
        k, found := Pass();
      }
      var item := PopFrom(k);
      r := Some((k, item));
    }

    /** Pops everything the queue of `flow` holds. */
    method DrainQueue(flow: nat)
      requires Separate() && flow in queueMap
      modifies this`pullCount, queueMap[flow]
      ensures Separate() && Queues() == old(Queues())[flow := []] && Arrays() == old(Arrays())
      ensures pullCount == old(pullCount) - |old(Queues())[flow]|
    {
      hide Separate, Queues, Buffers, Arrays;
      ghost var before := Queues();
      while !QueueEmpty(flow)
        invariant Separate() && Arrays() == old(Arrays()) && queueMap == old(queueMap)
        invariant Queues() == before[flow := Queues()[flow]]
        invariant pullCount == old(pullCount) - |before[flow]| + |Queues()[flow]|
        decreases |Queues()[flow]|
        modifies this`pullCount, queueMap[flow]
      {
        ghost var held := Queues()[flow];
        var _ := PopFrom(flow);
        SetTwice(before, flow, held, held[1..]);
      }
    }

    method RemoveQueue(flow: nat)
      requires Separate()
      modifies this`queueMap
      ensures Separate() && Queues() == old(Queues()) - {flow}
      ensures Buffers() <= old(Buffers()) && Arrays() <= old(Arrays())
    {
      hide CircularBuffer.Valid, CircularBuffer.Contents;
      queueMap := queueMap - {flow};
    }

    method FlushItems(flow: nat)
      requires Valid()
      modifies this, Buffers()
      ensures Valid() && View() == Flush(old(View()), flow)
      ensures Buffers() <= old(Buffers()) && Arrays() <= old(Arrays())
    {
      hide Count, Separate, Queues, After;
      ghost var before := View();
      CountAfter(before, FlushFlow(flow));
      ApplyValid(before, FlushFlow(flow));
      if flow !in queueMap {
        return;
      }
      DrainQueue(flow);
      if currentQueue == At(flow) {
        MoveTo(After(queueMap.Keys, flow));
      }
      RemoveQueue(flow);
      assert before.queues[flow := []] - {flow} == before.queues - {flow};
    }
  }
}
