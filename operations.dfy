// The start-then-poll registry of the host services: a table from operation id to the
// events queued for the operation and whether it has finished. The ad service and the
// purchase service each keep one (`adOperationStore`, `purchaseOperationStore`) and
// update it the same way; these functions say how.
module Operations {
  /** `{ events, isFinished }` for one operation. */
  datatype OperationState<E> = OperationState(events: seq<E>, isFinished: bool)

  /** `{ events, is_finished }` as a poll answers it. */
  datatype PollAnswer<E> = PollAnswer(events: seq<E>, isFinished: bool)

  /** What an SDK callback does to its operation: queue at most one event, maybe finish it. */
  datatype Callback<E> = Callback(event: seq<E>, finish: bool)

  type Store<E> = map<string, OperationState<E>>

  /** `store.set(operationId, { events: [], isFinished: false })`. */
  function Started<E>(store: Store<E>, id: string): Store<E> {
    store[id := OperationState([], false)]
  }

  /**
   * A callback: `const state = store.get(operationId); if (!state) return;`, then
   * `state.events.push(...)` for the queued event and `state.isFinished = true` when it finishes.
   */
  function Recorded<E>(store: Store<E>, id: string, c: Callback<E>): Store<E> {
    if id !in store then store
    else store[id := OperationState(store[id].events + c.event, store[id].isFinished || c.finish)]
  }

  /** The answer of a poll: `{ events: [], is_finished: true }` for an unknown id, else the queue and the flag. */
  function Answer<E>(store: Store<E>, id: string): PollAnswer<E> {
    if id !in store then PollAnswer([], true)
    else PollAnswer(store[id].events, store[id].isFinished)
  }

  /** The table after a poll: the queue emptied, and the entry deleted once finished. */
  function AfterPoll<E>(store: Store<E>, id: string): Store<E> {
    if id !in store then store
    else if store[id].isFinished then store - {id}
    else store[id := OperationState([], false)]
  }

  /** The callbacks cs, one after another. */
  function RecordedAll<E>(store: Store<E>, id: string, cs: seq<Callback<E>>): Store<E>
    decreases |cs|
  {
    if |cs| == 0 then store else RecordedAll(Recorded(store, id, cs[0]), id, cs[1..])
  }

  /** The events the callbacks queue, in order. */
  function Queued<E>(cs: seq<Callback<E>>): seq<E>
    decreases |cs|
  {
    if |cs| == 0 then [] else cs[0].event + Queued(cs[1..])
  }

  predicate SomeFinishes<E>(cs: seq<Callback<E>>) {
    exists i :: 0 <= i < |cs| && cs[i].finish
  }

  // ---- Properties ----

  /** Polling an unknown id answers `{[], true}` and leaves the table as it was. */
  lemma {:induction false} PollUnknown<E>(store: Store<E>, id: string)
    requires id !in store
    ensures Answer(store, id) == PollAnswer([], true) && AfterPoll(store, id) == store
  {
  }

  /**
   * A poll of a live entry returns its whole queue in push order and leaves it empty; the
   * entry survives exactly when it had not finished, and no other entry changes.
   */
  lemma {:induction false} PollDrains<E>(store: Store<E>, id: string)
    requires id in store
    ensures Answer(store, id).events == store[id].events
    ensures Answer(store, id).isFinished == store[id].isFinished
    ensures id in AfterPoll(store, id) <==> !store[id].isFinished
    ensures id in AfterPoll(store, id) ==> AfterPoll(store, id)[id] == OperationState([], false)
    ensures forall k :: k != id ==> (k in AfterPoll(store, id) <==> k in store)
    ensures forall k :: k != id && k in store ==> AfterPoll(store, id)[k] == store[k]
  {
  }

  /** Once a poll has reported the end, the next poll for that id gets `{[], true}`. */
  lemma {:induction false} FinishedPollIsLast<E>(store: Store<E>, id: string)
    requires Answer(store, id).isFinished
    ensures id !in AfterPoll(store, id)
    ensures Answer(AfterPoll(store, id), id) == PollAnswer([], true)
  {
  }

  /** A callback for an id no longer in the table changes nothing. */
  lemma {:induction false} CallbacksAfterDeleteIgnored<E>(store: Store<E>, id: string, cs: seq<Callback<E>>)
    requires id !in store
    ensures RecordedAll(store, id, cs) == store
    decreases |cs|
  {
    if |cs| > 0 {
      CallbacksAfterDeleteIgnored(Recorded(store, id, cs[0]), id, cs[1..]);
    }
  }

  /** Callbacks on a live entry append their events in order and finish it if any of them finishes. */
  lemma {:induction false} CallbacksAccumulate<E>(store: Store<E>, id: string, cs: seq<Callback<E>>)
    requires id in store
    ensures id in RecordedAll(store, id, cs)
    ensures RecordedAll(store, id, cs)[id]
         == OperationState(store[id].events + Queued(cs), store[id].isFinished || SomeFinishes(cs))
    ensures forall k :: k != id ==> (k in RecordedAll(store, id, cs) <==> k in store)
    ensures forall k :: k != id && k in store ==> RecordedAll(store, id, cs)[k] == store[k]
    decreases |cs|
  {
    if |cs| > 0 {
      var next := Recorded(store, id, cs[0]);
      CallbacksAccumulate(next, id, cs[1..]);
      assert store[id].events + cs[0].event + Queued(cs[1..]) == store[id].events + Queued(cs);
      assert SomeFinishes(cs) <==> cs[0].finish || SomeFinishes(cs[1..]) by {
        if SomeFinishes(cs[1..]) {
          var i :| 0 <= i < |cs[1..]| && cs[1..][i].finish;
          assert cs[i + 1].finish;
        }
        if SomeFinishes(cs) && !cs[0].finish {
          var i :| 0 <= i < |cs| && cs[i].finish;
          assert cs[1..][i - 1].finish;
        }
      }
    } else {
      assert !SomeFinishes(cs);
    }
  }

  /**
   * The life of one operation: started, then callbacks, then a poll. The poll returns exactly
   * the queued events in order and reports the end iff some callback finished the operation.
   */
  lemma {:induction false} StartCallbacksPoll<E>(store: Store<E>, id: string, cs: seq<Callback<E>>)
    ensures Answer(RecordedAll(Started(store, id), id, cs), id) == PollAnswer(Queued(cs), SomeFinishes(cs))
  {
    CallbacksAccumulate(Started(store, id), id, cs);
    assert [] + Queued(cs) == Queued(cs);
  }
}
