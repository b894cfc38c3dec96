// The engine-side ad use case: it checks that an ad can be shown, marks an ad as playing,
// pauses the clock and/or the audio while it plays, folds the ad's event stream into a result,
// and clears the playing mark when the flow ends. The RPC answers and the token are given as in
// module AdStream. The flow lets the poll loop observe the caller's token; the code as written
// does not (see LoopTokenAsWritten).
module AdUseCase {
  import opened Wrappers
  import opened Operations
  import opened AdMessages
  import opened AdStream
  import opened MonetizationConfig
  import opened PlaybackPause

  datatype Placement = Interstitial | Rewarded

  datatype AdStatus = Completed | FailedToShow | Cancelled

  datatype AdResult = AdResult(placement: Placement, adGroupId: string, status: AdStatus, rewardEarned: bool)
  {
    predicate IsSuccess() {
      status == Completed
    }

    predicate IsRewardGranted() {
      rewardEarned && IsSuccess()
    }
  }

  /** Why ShowAdAsync throws `InvalidOperationException` before a flow starts. */
  datatype ShowAdError = AdGroupNotConfigured | AdServiceNotReady | AnotherAdPlaying

  /** The configured ad group id of a placement; nothing is configured without a config. */
  function ResolveAdGroupId(config: Option<Config>, placement: Placement): string {
    if config.None? then ""
    else if placement == Interstitial then config.value.interstitialAdGroupId
    else config.value.rewardedAdGroupId
  }

  /** `a | b` on the flags enum. */
  function Union(a: PauseChannels, b: PauseChannels): PauseChannels {
    PauseChannels(a.time || b.time, a.audio || b.audio)
  }

  /**
   * The channels paused while an ad plays: both without a config; otherwise the clock exactly
   * when PauseTimeDuringAds is set and the audio exactly when MuteAudioDuringAds is set.
   */
  function ResolveAdPauseChannels(config: Option<Config>): (c: PauseChannels)
    ensures config.None? ==> c == ALL
    ensures config.Some? ==> c.time == config.value.pauseTimeDuringAds && c.audio == config.value.muteAudioDuringAds
  {
    if config.None? then ALL
    else
      var channels := NONE;
      var channels := if config.value.pauseTimeDuringAds then Union(channels, TIME) else channels;
      if config.value.muteAudioDuringAds then Union(channels, AUDIO) else channels
  }

  /** The pause reason `Ad:{placement}`. */
  function PauseReason(placement: Placement): string {
    if placement == Interstitial then "Ad:Interstitial" else "Ad:Rewarded"
  }

  /**
   * The guards of ShowAdAsync, in their order: a blank ad group id, a missing ad service, then
   * an ad already playing. None of them holding lets the flow start.
   */
  function ShowAdCheck(adGroupId: string, serviceReady: bool, playing: bool): (e: Option<ShowAdError>)
    ensures e.None? <==> !IsBlank(adGroupId) && serviceReady && !playing
    ensures e == Some(AdGroupNotConfigured) <==> IsBlank(adGroupId)
    ensures e == Some(AdServiceNotReady) <==> !IsBlank(adGroupId) && !serviceReady
    ensures e == Some(AnotherAdPlaying) <==> !IsBlank(adGroupId) && serviceReady && playing
  {
    if IsBlank(adGroupId) then Some(AdGroupNotConfigured)
    else if !serviceReady then Some(AdServiceNotReady)
    else if playing then Some(AnotherAdPlaying)
    else None
  }

  // ---- Folding the stream ----

  /** An event that ends the flow: the ad was dismissed or failed to show. */
  predicate Terminal(e: ShowAdResponse) {
    e.dismissed.Some? || e.failedToShow.Some?
  }

  /** The position of the first terminal event, or the length when there is none. */
  function FirstTerminal(events: seq<ShowAdResponse>): (i: nat)
    ensures i <= |events|
    ensures i < |events| ==> Terminal(events[i])
    ensures forall j :: 0 <= j < i ==> !Terminal(events[j])
    decreases |events|
  {
    if |events| == 0 then 0
    else if Terminal(events[0]) then 0
    else 1 + FirstTerminal(events[1..])
  }

  /** One of the first n events reports an earned reward. */
  predicate RewardIn(events: seq<ShowAdResponse>, n: nat) {
    exists j :: 0 <= j < n && j < |events| && events[j].userEarnedReward.Some?
  }

  /** The stream the flow reads: a failed start throws, otherwise the run of the poll loop. */
  function StreamOf(operationId: Option<string>, polls: seq<PollAnswer<ShowAdResponse>>, cancelledAt: seq<bool>):
    Result<StreamTrace<ShowAdResponse>, StreamError>
    requires EndsFrom(polls, cancelledAt, 0)
  {
    if StartFails(operationId) then Err(StartFailed) else Ok(Stream(polls, cancelledAt))
  }

  /**
   * The result RunAdFlowAsync returns for a stream: a stream that throws at the start gives
   * FailedToShow without a reward; the first dismissed event gives Completed and the first
   * failed-to-show one FailedToShow, with the reward flag of the events up to it; a stream cut
   * by the delay's cancellation gives Cancelled; one that ends otherwise gives Cancelled when
   * the token is cancelled at that point and Completed when it is not.
   */
  function FlowResult(placement: Placement, adGroupId: string, stream: Result<StreamTrace<ShowAdResponse>, StreamError>,
                      cancelledAtEnd: bool): AdResult
  {
    if stream.Err? then AdResult(placement, adGroupId, FailedToShow, false)
    else
      var events := stream.value.yielded;
      var i := FirstTerminal(events);
      if i < |events| then
        AdResult(placement, adGroupId, if events[i].dismissed.Some? then Completed else FailedToShow, RewardIn(events, i + 1))
      else if stream.value.end == CancelledInDelay || cancelledAtEnd then
        AdResult(placement, adGroupId, Cancelled, RewardIn(events, |events|))
      else
        AdResult(placement, adGroupId, Completed, RewardIn(events, |events|))
  }

  /** The token is cancelled at some look; cancellation cannot be undone, so it still is at the end. */
  predicate CancelledBy(cancelledAt: seq<bool>, cancelledAtEnd: bool) {
    (exists k :: 0 <= k < |cancelledAt| && cancelledAt[k]) ==> cancelledAtEnd
  }

  /**
   * RunAdFlowAsync's loop token as written: `await foreach` over ShowAdAsStream passes no
   * token to the enumerator, and ShowAdAsStream never reads its own token parameter, so the
   * poll loop and its delays look at a token that is never cancelled, whatever the caller does.
   */
  function LoopTokenAsWritten(cancelledAt: seq<bool>): (r: seq<bool>)
    ensures |r| == |cancelledAt| && forall k :: 0 <= k < |r| ==> !r[k]
  {
    seq(|cancelledAt|, k => false)
  }

  class AdUseCasePlayer {
    /** `monetizationConfig`; None when it is not assigned. */
    var config: Option<Config>
    /** `_activeAdCts`, a token source named by a number; None is null. */
    var activeAdCts: Option<nat>
    /** The names of the token sources not yet made. */
    var nextCts: nat

    predicate IsAdPlaying()
      reads this
    {
      activeAdCts.Some?
    }

    constructor(config: Option<Config>)
      ensures this.config == config && !IsAdPlaying()
    {
      this.config := config;
      activeAdCts := None;
      nextCts := 0;
    }

    /**
     * ShowAdAsync up to the start of the flow: a failed guard reports its error and changes
     * nothing; otherwise a new token source becomes the active one and the flow gets the ad
     * group id and that token source.
     */
    method BeginAd(placement: Placement, serviceReady: bool) returns (r: Result<(string, nat), ShowAdError>)
      modifies this`activeAdCts, this`nextCts
      ensures var e := ShowAdCheck(ResolveAdGroupId(config, placement), serviceReady, old(IsAdPlaying()));
        && (e.Some? ==> r == Err(e.value) && unchanged(this))
        && (e.None? ==> (
              && r == Ok((ResolveAdGroupId(config, placement), old(nextCts)))
              && activeAdCts == Some(old(nextCts)) && nextCts == old(nextCts) + 1))
    {
      var adGroupId := ResolveAdGroupId(config, placement);
      var e := ShowAdCheck(adGroupId, serviceReady, IsAdPlaying());
      if e.Some? {
        return Err(e.value);
      }
      var cts := nextCts;
      nextCts := nextCts + 1;
      activeAdCts := Some(cts);
      r := Ok((adGroupId, cts));
    }

    /**
     * RunAdFlowAsync: pause the configured channels, read the stream until a terminal event
     * or its end, map the way it ended to a status, and on every exit dispose of the pause
     * and clear the active token source if it is still this flow's.
     */
    method RunAdFlow(placement: Placement, adGroupId: string, cts: nat, pause: Coordinator,
                     operationId: Option<string>, polls: seq<PollAnswer<ShowAdResponse>>,
                     cancelledAt: seq<bool>, cancelledAtEnd: bool)
      returns (result: AdResult)
      requires pause.Valid()
      requires EndsFrom(polls, cancelledAt, 0) && CancelledBy(cancelledAt, cancelledAtEnd)
      modifies this`activeAdCts, pause
      ensures result == FlowResult(placement, adGroupId, StreamOf(operationId, polls, cancelledAt), cancelledAtEnd)
      ensures activeAdCts == if old(activeAdCts) == Some(cts) then None else old(activeAdCts)
      ensures pause.Valid() && pause.activeRequests == old(pause.activeRequests)
      ensures pause.timeRequestCount == old(pause.timeRequestCount) && pause.audioRequestCount == old(pause.audioRequestCount)
      ensures pause.timeScale == old(pause.timeScale) && pause.audioPause == old(pause.audioPause)
    {
      var h := pause.Acquire(ResolveAdPauseChannels(config), PauseReason(placement));
      var stream := PollUntilFinished(operationId, polls, cancelledAt);
      result := FoldStream(placement, adGroupId, stream, cancelledAtEnd);
      if h != null {
        h.Dispose();
        AddThenRemove(old(pause.activeRequests), h.requestId, h.channels);
      }
      if activeAdCts == Some(cts) {
        activeAdCts := None;
      }
    }

    /**
     * ShowAdAsync and the flow it starts: a failed guard throws before anything changes;
     * otherwise the flow runs to its result, after which no ad is playing and the pause
     * coordinator is as before.
     */
    method ShowAd(placement: Placement, serviceReady: bool, pause: Coordinator,
                  operationId: Option<string>, polls: seq<PollAnswer<ShowAdResponse>>,
                  cancelledAt: seq<bool>, cancelledAtEnd: bool)
      returns (r: Result<AdResult, ShowAdError>)
      requires pause.Valid()
      requires EndsFrom(polls, cancelledAt, 0) && CancelledBy(cancelledAt, cancelledAtEnd)
      modifies this`activeAdCts, this`nextCts, pause
      ensures var e := ShowAdCheck(ResolveAdGroupId(config, placement), serviceReady, old(IsAdPlaying()));
        && (e.Some? ==> r == Err(e.value) && unchanged(this) && unchanged(pause))
        && (e.None? ==> (
              && r.Ok? && !IsAdPlaying()
              && r.value == FlowResult(placement, ResolveAdGroupId(config, placement),
                                       StreamOf(operationId, polls, cancelledAt), cancelledAtEnd)))
      ensures pause.Valid() && pause.activeRequests == old(pause.activeRequests)
      ensures pause.timeScale == old(pause.timeScale) && pause.audioPause == old(pause.audioPause)
    {
      var begun := BeginAd(placement, serviceReady);
      if begun.Err? {
        return Err(begun.error);
      }
      var result := RunAdFlow(placement, begun.value.0, begun.value.1, pause, operationId, polls, cancelledAt, cancelledAtEnd);
      r := Ok(result);
    }
  }

  /**
   * The `try`/`catch` around the `await foreach` of RunAdFlowAsync: a failed start is an
   * ordinary exception (FailedToShow); otherwise each event sets the reward flag when it reports
   * one and ends the flow when it is terminal; a stream cut in a delay is an
   * OperationCanceledException (Cancelled); a stream that ends looks at the token.
   */
  method FoldStream(placement: Placement, adGroupId: string, stream: Result<StreamTrace<ShowAdResponse>, StreamError>,
                    cancelledAtEnd: bool)
    returns (result: AdResult)
    ensures result == FlowResult(placement, adGroupId, stream, cancelledAtEnd)
  {
    if stream.Err? {
      return AdResult(placement, adGroupId, FailedToShow, false);
    }
    var events := stream.value.yielded;
    var rewardEarned := false;
    var i := 0;
    while i < |events|
      invariant 0 <= i <= FirstTerminal(events)
      invariant rewardEarned == RewardIn(events, i)
    {
      if events[i].userEarnedReward.Some? {
        rewardEarned := true;
      }
      RewardStep(events, i);
      if events[i].dismissed.Some? {
        return AdResult(placement, adGroupId, Completed, rewardEarned);
      }
      if events[i].failedToShow.Some? {
        return AdResult(placement, adGroupId, FailedToShow, rewardEarned);
      }
      i := i + 1;
    }
    if stream.value.end == CancelledInDelay {
      return AdResult(placement, adGroupId, Cancelled, rewardEarned);
    }
    if cancelledAtEnd {
      return AdResult(placement, adGroupId, Cancelled, rewardEarned);
    }
    result := AdResult(placement, adGroupId, Completed, rewardEarned);
  }

  /** The reward flag after one more event. */
  lemma {:induction false} RewardStep(events: seq<ShowAdResponse>, i: nat)
    requires i < |events|
    ensures RewardIn(events, i + 1) <==> RewardIn(events, i) || events[i].userEarnedReward.Some?
  {
    if RewardIn(events, i + 1) && !events[i].userEarnedReward.Some? {
      var j :| 0 <= j < i + 1 && j < |events| && events[j].userEarnedReward.Some?;
      assert j < i;
    }
  }

  // ---- Properties ----

  /**
   * The first terminal event decides the status: Completed when it was dismissed, FailedToShow
   * when it only failed to show; events after it do not matter.
   */
  lemma {:induction false} FirstTerminalDecides(placement: Placement, adGroupId: string, t: StreamTrace<ShowAdResponse>,
                                               cancelledAtEnd: bool, i: nat)
    requires i < |t.yielded| && Terminal(t.yielded[i]) && forall j :: 0 <= j < i ==> !Terminal(t.yielded[j])
    ensures var r := FlowResult(placement, adGroupId, Ok(t), cancelledAtEnd);
      && r.status == (if t.yielded[i].dismissed.Some? then Completed else FailedToShow)
      && (r.rewardEarned <==> exists j :: 0 <= j <= i && t.yielded[j].userEarnedReward.Some?)
  {
  }

  /**
   * A stream without a terminal event: Cancelled when it was cut in a delay or the token is
   * cancelled when the loop is left, Completed otherwise; the reward flag is whether any
   * event reported a reward.
   */
  lemma {:induction false} NoTerminalEvent(placement: Placement, adGroupId: string, t: StreamTrace<ShowAdResponse>,
                                          cancelledAtEnd: bool)
    requires forall j :: 0 <= j < |t.yielded| ==> !Terminal(t.yielded[j])
    ensures var r := FlowResult(placement, adGroupId, Ok(t), cancelledAtEnd);
      && r.status == (if t.end == CancelledInDelay || cancelledAtEnd then Cancelled else Completed)
      && (r.rewardEarned <==> exists j :: 0 <= j < |t.yielded| && t.yielded[j].userEarnedReward.Some?)
  {
  }

  /** A reward is granted only by a completed ad that reported an earned reward before it ended. */
  lemma {:induction false} RewardGrantedOnlyWhenCompleted(placement: Placement, adGroupId: string,
                                                         stream: Result<StreamTrace<ShowAdResponse>, StreamError>,
                                                         cancelledAtEnd: bool)
    ensures var r := FlowResult(placement, adGroupId, stream, cancelledAtEnd);
      r.IsRewardGranted() <==>
        && stream.Ok? && r.status == Completed
        && exists j :: 0 <= j < |stream.value.yielded| && j <= FirstTerminal(stream.value.yielded)
             && stream.value.yielded[j].userEarnedReward.Some?
  {
    if stream.Ok? {
      var events := stream.value.yielded;
      var f := FirstTerminal(events);
      var r := FlowResult(placement, adGroupId, stream, cancelledAtEnd);
      if r.rewardEarned {
        var j :| 0 <= j < (if f < |events| then f + 1 else |events|) && j < |events| && events[j].userEarnedReward.Some?;
        assert j <= f;
      }
      if exists j :: 0 <= j < |events| && j <= f && events[j].userEarnedReward.Some? {
        var j :| 0 <= j < |events| && j <= f && events[j].userEarnedReward.Some?;
        assert RewardIn(events, if f < |events| then f + 1 else |events|);
      }
    }
  }

  /** A failed start is FailedToShow without a reward, whatever the token does. */
  lemma {:induction false} FailedStartFailsToShow(placement: Placement, adGroupId: string, operationId: Option<string>,
                                                  polls: seq<PollAnswer<ShowAdResponse>>, cancelledAt: seq<bool>,
                                                  cancelledAtEnd: bool)
    requires EndsFrom(polls, cancelledAt, 0) && StartFails(operationId)
    ensures FlowResult(placement, adGroupId, StreamOf(operationId, polls, cancelledAt), cancelledAtEnd)
      == AdResult(placement, adGroupId, FailedToShow, false)
  {
  }

  /**
   * With the caller's token observed by the loop, a caller who cancels before the first poll
   * gets Cancelled without a single poll, even from a host that never reports the end.
   */
  lemma {:induction false} CancelledBeforeFirstPoll(placement: Placement, adGroupId: string, operationId: Option<string>,
                                                    polls: seq<PollAnswer<ShowAdResponse>>, cancelledAt: seq<bool>,
                                                    cancelledAtEnd: bool)
    requires |cancelledAt| > 0 && cancelledAt[0] && CancelledBy(cancelledAt, cancelledAtEnd) && !StartFails(operationId)
    ensures EndsFrom(polls, cancelledAt, 0)
    ensures Stream(polls, cancelledAt).polls == 0
    ensures FlowResult(placement, adGroupId, StreamOf(operationId, polls, cancelledAt), cancelledAtEnd).status == Cancelled
  {
    assert FirstTerminal([]) == 0;
  }

  /**
   * With the caller's token observed by the loop, a cancellation seen after poll k (in the
   * delay) ends the flow there as Cancelled, unless an event polled before it was terminal.
   */
  lemma {:induction false} CancelledInDelayEndsFlow(placement: Placement, adGroupId: string, operationId: Option<string>,
                                                    polls: seq<PollAnswer<ShowAdResponse>>, cancelledAt: seq<bool>,
                                                    cancelledAtEnd: bool, k: nat)
    requires 0 < k < |cancelledAt| && k <= |polls| && cancelledAt[k] && !StartFails(operationId)
    requires forall j :: 0 <= j < k ==> !cancelledAt[j] && !polls[j].isFinished
    requires forall j, e :: 0 <= j < k && e in polls[j].events ==> !Terminal(e)
    ensures EndsFrom(polls, cancelledAt, 0)
    ensures Stream(polls, cancelledAt).polls == k && Stream(polls, cancelledAt).end == CancelledInDelay
    ensures FlowResult(placement, adGroupId, StreamOf(operationId, polls, cancelledAt), cancelledAtEnd).status == Cancelled
  {
    CutAt(polls, cancelledAt, 0, k);
    StreamShape(polls, cancelledAt);
    var t := Stream(polls, cancelledAt);
    BatchesWithout(polls[..k]);
    NoTerminalEvent(placement, adGroupId, t, cancelledAtEnd);
  }

  /** Polls j..k-1 unfinished and unlooked-at cancellations, then a cancelled look at k. */
  lemma {:induction false} CutAt(polls: seq<PollAnswer<ShowAdResponse>>, cancelledAt: seq<bool>, j: nat, k: nat)
    requires j <= k < |cancelledAt| && k <= |polls| && cancelledAt[k]
    requires forall i :: j <= i < k ==> !cancelledAt[i] && !polls[i].isFinished
    ensures EndsFrom(polls, cancelledAt, j)
    ensures StreamFrom(polls, cancelledAt, j).polls == k - j
    ensures k > 0 ==> StreamFrom(polls, cancelledAt, j).end == CancelledInDelay
    decreases k - j
  {
    if j < k {
      CutAt(polls, cancelledAt, j + 1, k);
    }
  }

  /** Batches none of whose events is terminal give events none of which is. */
  lemma {:induction false} BatchesWithout(ps: seq<PollAnswer<ShowAdResponse>>)
    requires forall j, e :: 0 <= j < |ps| && e in ps[j].events ==> !Terminal(e)
    ensures forall i :: 0 <= i < |Batches(ps)| ==> !Terminal(Batches(ps)[i])
    decreases |ps|
  {
    if |ps| > 0 {
      BatchesWithout(ps[1..]);
      var b := Batches(ps);
      assert b == ps[0].events + Batches(ps[1..]);
      forall i | 0 <= i < |b|
        ensures !Terminal(b[i])
      {
        if i < |ps[0].events| {
          assert b[i] in ps[0].events;
        } else {
          assert b[i] == Batches(ps[1..])[i - |ps[0].events|];
        }
      }
    }
  }

  /**
   * As written, the loop's token is never cancelled: even a caller who has cancelled at every
   * look gets no end to the loop from a host that never reports the end.
   */
  lemma {:induction false} AsWrittenIgnoresCancellation(polls: seq<PollAnswer<ShowAdResponse>>, cancelledAt: seq<bool>)
    requires forall j :: 0 <= j < |polls| ==> !polls[j].isFinished
    ensures !EndsFrom(polls, LoopTokenAsWritten(cancelledAt), 0)
  {
    UncancelledNeedsFinish(polls, LoopTokenAsWritten(cancelledAt), 0);
  }

  /**
   * As written, a caller who cancels before the first poll still has the ad polled and, when
   * the host ends the run with a dismissed event, gets Completed instead of Cancelled.
   */
  lemma {:induction false} AsWrittenCompletesAfterCancel(placement: Placement, adGroupId: string, operationId: Option<string>,
                                                         cancelledAt: seq<bool>, dismissed: ShowAdResponse)
    requires |cancelledAt| > 0 && cancelledAt[0] && !StartFails(operationId) && dismissed.dismissed.Some?
    ensures var polls := [PollAnswer([dismissed], true)];
      && EndsFrom(polls, LoopTokenAsWritten(cancelledAt), 0)
      && Stream(polls, LoopTokenAsWritten(cancelledAt)).polls == 1
      && FlowResult(placement, adGroupId, StreamOf(operationId, polls, LoopTokenAsWritten(cancelledAt)), true).status
         == Completed
  {
    var polls := [PollAnswer([dismissed], true)];
    var looks := LoopTokenAsWritten(cancelledAt);
    assert !looks[0];
    assert Stream(polls, looks).yielded == [dismissed];
    assert FirstTerminal([dismissed]) == 0;
  }
}
