// The engine-side poll loop of LoadAdAsStream and ShowAdAsStream: start the operation, then
// poll it until a poll reports the end or the enumerator's token is cancelled, yielding every
// polled event and waiting between polls that did not finish. The host's answers are given as
// the sequence of poll answers, and the token as its state at each point the loop looks at it.
module AdStream {
  import opened Wrappers
  import opened Operations

  /**
   * How the stream ended: a poll reported the end; the token was cancelled before the first
   * poll (the loop condition); or it was cancelled while waiting after an unfinished poll,
   * where the delay throws OperationCanceledException.
   */
  datatype StreamEnd = Finished | CancelledAtCheck | CancelledInDelay

  /** What one run of the stream did: the events yielded in order, the polls made, the delays begun. */
  datatype StreamTrace<E> = StreamTrace(yielded: seq<E>, polls: nat, delays: nat, end: StreamEnd)

  /** `string.IsNullOrEmpty(operationId)`: the start failed and the stream throws before polling. */
  datatype StreamError = StartFailed

  predicate StartFails(operationId: Option<string>) {
    operationId.None? || operationId.value == ""
  }

  /**
   * The run ends once the polls from k on are answered: `cancelled[k]` is the token when the
   * loop looks at it before poll k (for k = 0 the loop condition, after that the delay that
   * follows poll k - 1).
   */
  predicate EndsFrom<E>(polls: seq<PollAnswer<E>>, cancelled: seq<bool>, k: nat)
    decreases |polls| - k
  {
    k < |cancelled| && (cancelled[k] || (k < |polls| && (polls[k].isFinished || EndsFrom(polls, cancelled, k + 1))))
  }

  /** Poll k was answered unfinished, then the run went on as t. */
  function Then<E>(events: seq<E>, t: StreamTrace<E>): StreamTrace<E> {
    StreamTrace(events + t.yielded, t.polls + 1, t.delays + 1, t.end)
  }

  /** The run from poll k on. */
  function StreamFrom<E>(polls: seq<PollAnswer<E>>, cancelled: seq<bool>, k: nat): StreamTrace<E>
    requires EndsFrom(polls, cancelled, k)
    decreases |polls| - k
  {
    if cancelled[k] then StreamTrace([], 0, 0, if k == 0 then CancelledAtCheck else CancelledInDelay)
    else if polls[k].isFinished then StreamTrace(polls[k].events, 1, 0, Finished)
    else Then(polls[k].events, StreamFrom(polls, cancelled, k + 1))
  }

  /** The whole run. */
  function Stream<E>(polls: seq<PollAnswer<E>>, cancelled: seq<bool>): StreamTrace<E>
    requires EndsFrom(polls, cancelled, 0)
  {
    StreamFrom(polls, cancelled, 0)
  }

  /** The events of the batches, batch after batch. */
  function Batches<E>(ps: seq<PollAnswer<E>>): seq<E>
    decreases |ps|
  {
    if |ps| == 0 then [] else ps[0].events + Batches(ps[1..])
  }

  /** A run that has already made n polls, yielded `yielded` and begun d delays, then goes on as t. */
  function After<E>(yielded: seq<E>, n: nat, d: nat, t: StreamTrace<E>): StreamTrace<E> {
    StreamTrace(yielded + t.yielded, n + t.polls, d + t.delays, t.end)
  }

  /**
   * The loop of LoadAdAsStream / ShowAdAsStream (the two are the same but for the RPCs they
   * call). A null or empty operation id fails before any poll; otherwise the run is `Stream`.
   */
  method PollUntilFinished<E>(operationId: Option<string>, polls: seq<PollAnswer<E>>, cancelled: seq<bool>)
    returns (r: Result<StreamTrace<E>, StreamError>)
    requires EndsFrom(polls, cancelled, 0)
    ensures StartFails(operationId) ==> r == Err(StartFailed)
    ensures !StartFails(operationId) ==> r == Ok(Stream(polls, cancelled))
  {
    if operationId.None? || operationId.value == "" {
      return Err(StartFailed);
    }
    var isFinished := false;
    var k := 0;
    var yielded: seq<E> := [];
    var delays := 0;
    while !isFinished && !cancelled[k]
      invariant 0 <= k <= |polls| && (!isFinished ==> k < |cancelled|)
      invariant !isFinished ==> EndsFrom(polls, cancelled, k)
      invariant !isFinished ==> Stream(polls, cancelled) == After(yielded, k, delays, StreamFrom(polls, cancelled, k))
      invariant !isFinished && k > 0 ==> !cancelled[k]
      invariant isFinished ==> Stream(polls, cancelled) == StreamTrace(yielded, k, delays, Finished)
      decreases |polls| - k
    {
      var pollResponse := polls[k];
      ghost var before := yielded;
      isFinished := pollResponse.isFinished;
      for j := 0 to |pollResponse.events|
        invariant yielded == before + pollResponse.events[..j]
      {
        yielded := yielded + [pollResponse.events[j]];
      }
      assert pollResponse.events[..|pollResponse.events|] == pollResponse.events;
      k := k + 1;
      if !isFinished {
        delays := delays + 1;
        assert (before + pollResponse.events) + StreamFrom(polls, cancelled, k).yielded
            == before + (pollResponse.events + StreamFrom(polls, cancelled, k).yielded);
        if cancelled[k] {
          assert yielded + [] == yielded;
          return Ok(StreamTrace(yielded, k, delays, CancelledInDelay));
        }
      } else {
        assert yielded == before + pollResponse.events + [];
      }
    }
    if isFinished {
      return Ok(StreamTrace(yielded, k, delays, Finished));
    }
    assert yielded + [] == yielded;
    r := Ok(StreamTrace(yielded, k, delays, CancelledAtCheck));
  }

  // ---- Properties ----

  /**
   * The events of a run from poll k are the polled batches in poll order, each in array order,
   * and the run never polls past the answers it was given.
   */
  lemma {:induction false} StreamFromYields<E>(polls: seq<PollAnswer<E>>, cancelled: seq<bool>, k: nat)
    requires k <= |polls| && EndsFrom(polls, cancelled, k)
    ensures var t := StreamFrom(polls, cancelled, k);
      && k + t.polls <= |polls|
      && t.yielded == Batches(polls[k..k + t.polls])
    decreases |polls| - k
  {
    var t := StreamFrom(polls, cancelled, k);
    if cancelled[k] {
      assert polls[k..k] == [];
    } else if polls[k].isFinished {
      assert polls[k..k + 1] == [polls[k]];
      assert Batches(polls[k..k + 1]) == polls[k].events + Batches(polls[k..k + 1][1..]);
      assert polls[k..k + 1][1..] == [];
    } else {
      var rest := StreamFrom(polls, cancelled, k + 1);
      StreamFromYields(polls, cancelled, k + 1);
      var ps := polls[k..k + t.polls];
      assert ps[0] == polls[k];
      assert ps[1..] == polls[k + 1..k + 1 + rest.polls];
      assert Batches(ps) == polls[k].events + Batches(ps[1..]);
    }
  }

  /**
   * How a run from poll k stops: no poll looks at a token that was cancelled; only the last
   * poll may report the end, and it does exactly when the run ended by finishing, so no poll
   * follows a finished one; otherwise the run stopped at a cancelled look; and one delay was
   * begun after each poll that did not finish.
   */
  lemma {:induction false} StreamFromStops<E>(polls: seq<PollAnswer<E>>, cancelled: seq<bool>, k: nat)
    requires k <= |polls| && EndsFrom(polls, cancelled, k)
    ensures var t := StreamFrom(polls, cancelled, k);
      && k + t.polls < |cancelled| + (if t.end == Finished then 1 else 0)
      && k + t.polls <= |polls|
      && (forall j :: k <= j < k + t.polls ==> !cancelled[j])
      && (forall j :: k <= j < k + t.polls - 1 ==> !polls[j].isFinished)
      && (t.end == Finished <==> t.polls > 0 && polls[k + t.polls - 1].isFinished)
      && (t.end != Finished ==> cancelled[k + t.polls])
      && t.delays == (if t.end == Finished then t.polls - 1 else t.polls)
    decreases |polls| - k
  {
    if !cancelled[k] && !polls[k].isFinished {
      StreamFromStops(polls, cancelled, k + 1);
    }
  }

  /** The end of a whole run: only a run that never looked at a cancelled token ends by finishing. */
  lemma {:induction false} StreamShape<E>(polls: seq<PollAnswer<E>>, cancelled: seq<bool>)
    requires EndsFrom(polls, cancelled, 0)
    ensures var t := Stream(polls, cancelled);
      && t.polls <= |polls|
      && t.yielded == Batches(polls[..t.polls])
      && (t.end == CancelledAtCheck <==> t.polls == 0)
      && (t.end == Finished <==> t.polls > 0 && polls[t.polls - 1].isFinished)
      && (forall j :: 0 <= j < t.polls - 1 ==> !polls[j].isFinished)
      && t.delays == (if t.end == Finished then t.polls - 1 else t.polls)
  {
    StreamFromYields(polls, cancelled, 0);
    StreamFromStops(polls, cancelled, 0);
    assert polls[0..Stream(polls, cancelled).polls] == polls[..Stream(polls, cancelled).polls];
    StreamEndAtCheck(polls, cancelled, 0);
  }

  /** Only the look before the first poll is the loop condition; every later one is a delay's. */
  lemma {:induction false} StreamEndAtCheck<E>(polls: seq<PollAnswer<E>>, cancelled: seq<bool>, k: nat)
    requires EndsFrom(polls, cancelled, k)
    ensures StreamFrom(polls, cancelled, k).end == CancelledAtCheck <==> k == 0 && StreamFrom(polls, cancelled, k).polls == 0
    decreases |polls| - k
  {
    if !cancelled[k] && !polls[k].isFinished {
      StreamEndAtCheck(polls, cancelled, k + 1);
    }
  }

  /** A token that is never cancelled: the stream ends only when a poll reports the end. */
  lemma {:induction false} UncancelledStreamEndsByFinishing<E>(polls: seq<PollAnswer<E>>, cancelled: seq<bool>, k: nat)
    requires EndsFrom(polls, cancelled, k)
    requires forall j :: 0 <= j < |cancelled| ==> !cancelled[j]
    ensures StreamFrom(polls, cancelled, k).end == Finished
    decreases |polls| - k
  {
    if !polls[k].isFinished {
      UncancelledStreamEndsByFinishing(polls, cancelled, k + 1);
    }
  }

  /** With a token that is never cancelled, the loop ends only if some poll reports the end. */
  lemma {:induction false} UncancelledNeedsFinish<E>(polls: seq<PollAnswer<E>>, cancelled: seq<bool>, k: nat)
    requires forall j :: 0 <= j < |cancelled| ==> !cancelled[j]
    requires forall j :: 0 <= j < |polls| ==> !polls[j].isFinished
    ensures !EndsFrom(polls, cancelled, k)
    decreases |polls| - k
  {
    if k < |cancelled| && k < |polls| {
      UncancelledNeedsFinish(polls, cancelled, k + 1);
    }
  }
}
