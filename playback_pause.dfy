// The reference-counted playback pause: subsystems ask for the simulation clock and/or the
// audio to be paused and get a handle back; the first request on a channel remembers the
// channel's value and forces it to paused, and the release of the last one puts the
// remembered value back. `Time.timeScale` and `AudioListener.pause` are the fields
// `timeScale` and `audioPause` of the coordinator, which stands for the static class.
module PlaybackPause {
  /** The `[Flags]` enum: which of the two channels a request pauses. */
  datatype PauseChannels = PauseChannels(time: bool, audio: bool)

  const NONE: PauseChannels := PauseChannels(false, false)
  const TIME: PauseChannels := PauseChannels(true, false)
  const AUDIO: PauseChannels := PauseChannels(false, true)
  const ALL: PauseChannels := PauseChannels(true, true)

  /** `Time.timeScale = 0f`. */
  const PAUSED_TIME_SCALE: real := 0.0

  class Coordinator {
    /** `ActiveRequests`. */
    var activeRequests: map<int, PauseChannels>
    var nextRequestId: int

    var timeRequestCount: int
    var cachedTimeScaleValid: bool
    var cachedTimeScale: real

    var audioRequestCount: int
    var cachedAudioPauseValid: bool
    var cachedAudioPause: bool

    /** `Time.timeScale`. */
    var timeScale: real
    /** `AudioListener.pause`. */
    var audioPause: bool

    /** The live requests that pause the clock, and those that pause the audio. */
    ghost var timeHolders: set<int>
    ghost var audioHolders: set<int>

    /**
     * Each channel's count is the number of live requests that pause it, and its cache is
     * valid exactly while that count is positive; live request ids are below the next id.
     */
    ghost predicate Valid()
      reads this
    {
      && nextRequestId >= 1
      && (forall id :: id in activeRequests ==> 1 <= id < nextRequestId)
      && Counted(activeRequests, timeHolders, timeRequestCount, cachedTimeScaleValid, false)
      && Counted(activeRequests, audioHolders, audioRequestCount, cachedAudioPauseValid, true)
    }

    /** The state at start-up, with the engine's current clock and audio values. */
    constructor(timeScale: real, audioPause: bool)
      ensures Valid() && fresh(this)
      ensures activeRequests == map[] && nextRequestId == 1
      ensures timeRequestCount == 0 && audioRequestCount == 0
      ensures this.timeScale == timeScale && this.audioPause == audioPause
    {
      activeRequests := map[];
      nextRequestId := 1;
      timeRequestCount := 0;
      cachedTimeScaleValid := false;
      cachedTimeScale := 0.0;
      audioRequestCount := 0;
      cachedAudioPauseValid := false;
      cachedAudioPause := false;
      this.timeScale := timeScale;
      this.audioPause := audioPause;
      timeHolders := {};
      audioHolders := {};
    }

    /**
     * Acquire: no channel gives no handle and changes nothing. Otherwise the request gets the
     * next id and is recorded with its channels; each channel it names is counted, and the
     * first request on a channel remembers the channel's value and pauses it, while later ones
     * only count. A channel it does not name is left alone.
     */
    method Acquire(channels: PauseChannels, reason: string) returns (h: PauseHandle?)
      requires Valid()
      modifies this
      ensures Valid()
      ensures channels == NONE ==> h == null && unchanged(this)
      ensures channels != NONE ==> (
        && h != null && fresh(h) && h.owner == this && !h.isReleased
        && h.requestId == old(nextRequestId) && h.channels == channels && h.reason == reason
        && nextRequestId == old(nextRequestId) + 1
        && activeRequests == old(activeRequests)[h.requestId := channels]
        && h.requestId !in old(activeRequests))
      ensures channels != NONE && channels.time ==> (
        && timeRequestCount == old(timeRequestCount) + 1
        && (old(timeRequestCount) == 0 ==> cachedTimeScale == old(timeScale) && timeScale == PAUSED_TIME_SCALE)
        && (old(timeRequestCount) > 0 ==> cachedTimeScale == old(cachedTimeScale) && timeScale == old(timeScale)))
      ensures !channels.time ==> (
        && timeRequestCount == old(timeRequestCount)
        && cachedTimeScale == old(cachedTimeScale) && timeScale == old(timeScale))
      ensures channels != NONE && channels.audio ==> (
        && audioRequestCount == old(audioRequestCount) + 1
        && (old(audioRequestCount) == 0 ==> cachedAudioPause == old(audioPause) && audioPause)
        && (old(audioRequestCount) > 0 ==> cachedAudioPause == old(cachedAudioPause) && audioPause == old(audioPause)))
      ensures !channels.audio ==> (
        && audioRequestCount == old(audioRequestCount)
        && cachedAudioPause == old(cachedAudioPause) && audioPause == old(audioPause))
    {
      if channels == NONE {
        return null;
      }
      var id := Record(channels);
      h := new PauseHandle(id, channels, reason, this);
    }

    /** The part of Acquire that records the request under the next id and pauses its channels. */
    method Record(channels: PauseChannels) returns (id: int)
      requires Valid() && channels != NONE
      modifies this
      ensures Valid()
      ensures id == old(nextRequestId) && nextRequestId == old(nextRequestId) + 1
      ensures id !in old(activeRequests) && activeRequests == old(activeRequests)[id := channels]
      ensures channels.time ==> (
        && timeRequestCount == old(timeRequestCount) + 1
        && (old(timeRequestCount) == 0 ==> cachedTimeScale == old(timeScale) && timeScale == PAUSED_TIME_SCALE)
        && (old(timeRequestCount) > 0 ==> cachedTimeScale == old(cachedTimeScale) && timeScale == old(timeScale)))
      ensures !channels.time ==> (
        && timeRequestCount == old(timeRequestCount)
        && cachedTimeScale == old(cachedTimeScale) && timeScale == old(timeScale))
      ensures channels.audio ==> (
        && audioRequestCount == old(audioRequestCount) + 1
        && (old(audioRequestCount) == 0 ==> cachedAudioPause == old(audioPause) && audioPause)
        && (old(audioRequestCount) > 0 ==> cachedAudioPause == old(cachedAudioPause) && audioPause == old(audioPause)))
      ensures !channels.audio ==> (
        && audioRequestCount == old(audioRequestCount)
        && cachedAudioPause == old(cachedAudioPause) && audioPause == old(audioPause))
    {
      id := nextRequestId;
      ghost var requests := activeRequests;
      nextRequestId := nextRequestId + 1;
      activeRequests := activeRequests[id := channels];
      PauseTime(id, channels.time, requests, channels);
      PauseAudio(id, channels.audio, requests, channels);
    }

    /**
     * Release: a handle whose request is no longer live changes nothing. Otherwise the request
     * is removed and each of the handle's channels is counted down by exactly one (the floor
     * at 0 never applies); a channel whose count reaches 0 gets its remembered value back and
     * its cache is dropped. A channel the handle does not name is left alone.
     */
    method Release(h: PauseHandle?)
      requires Valid() && (h != null && h.requestId in activeRequests ==> activeRequests[h.requestId] == h.channels)
      modifies this
      ensures Valid()
      ensures h == null || h.requestId !in old(activeRequests) ==> unchanged(this)
      ensures h != null && h.requestId in old(activeRequests) ==>
        activeRequests == old(activeRequests) - {h.requestId} && nextRequestId == old(nextRequestId)
      ensures h != null && h.requestId in old(activeRequests) && h.channels.time ==>
        && timeRequestCount == old(timeRequestCount) - 1
        && (timeRequestCount == 0 ==> timeScale == old(cachedTimeScale))
        && (timeRequestCount > 0 ==> timeScale == old(timeScale) && cachedTimeScale == old(cachedTimeScale))
      ensures h == null || h.requestId !in old(activeRequests) || !h.channels.time ==>
        && timeRequestCount == old(timeRequestCount) && timeScale == old(timeScale)
        && cachedTimeScale == old(cachedTimeScale)
      ensures h != null && h.requestId in old(activeRequests) && h.channels.audio ==>
        && audioRequestCount == old(audioRequestCount) - 1
        && (audioRequestCount == 0 ==> audioPause == old(cachedAudioPause))
        && (audioRequestCount > 0 ==> audioPause == old(audioPause) && cachedAudioPause == old(cachedAudioPause))
      ensures h == null || h.requestId !in old(activeRequests) || !h.channels.audio ==>
        && audioRequestCount == old(audioRequestCount) && audioPause == old(audioPause)
        && cachedAudioPause == old(cachedAudioPause)
    {
      if h == null || h.requestId !in activeRequests {
        return;
      }
      Forget(h.requestId);
    }

    /** The part of Release that removes live request id and counts its channels down. */
    method Forget(id: int)
      requires Valid() && id in activeRequests
      modifies this
      ensures Valid()
      ensures activeRequests == old(activeRequests) - {id} && nextRequestId == old(nextRequestId)
      ensures old(activeRequests[id]).time ==>
        && timeRequestCount == old(timeRequestCount) - 1
        && (timeRequestCount == 0 ==> timeScale == old(cachedTimeScale))
        && (timeRequestCount > 0 ==> timeScale == old(timeScale) && cachedTimeScale == old(cachedTimeScale))
      ensures !old(activeRequests[id]).time ==>
        && timeRequestCount == old(timeRequestCount) && timeScale == old(timeScale)
        && cachedTimeScale == old(cachedTimeScale)
      ensures old(activeRequests[id]).audio ==>
        && audioRequestCount == old(audioRequestCount) - 1
        && (audioRequestCount == 0 ==> audioPause == old(cachedAudioPause))
        && (audioRequestCount > 0 ==> audioPause == old(audioPause) && cachedAudioPause == old(cachedAudioPause))
      ensures !old(activeRequests[id]).audio ==>
        && audioRequestCount == old(audioRequestCount) && audioPause == old(audioPause)
        && cachedAudioPause == old(cachedAudioPause)
    {
      var channels := activeRequests[id];
      ghost var requests := activeRequests;
      activeRequests := activeRequests - {id};
      ResumeTime(id, channels.time, requests);
      ResumeAudio(id, channels.audio, requests);
    }

    /**
     * The clock half of Acquire for new request id: `if (_timeRequestCount++ == 0)` remember
     * the clock and set it to 0, done only when the request names the clock.
     */
    method PauseTime(id: int, named: bool, ghost requests: map<int, PauseChannels>, ghost channels: PauseChannels)
      requires Counted(requests, timeHolders, timeRequestCount, cachedTimeScaleValid, false)
      requires id !in requests && named == channels.time
      modifies this`timeRequestCount, this`timeHolders, this`cachedTimeScale, this`cachedTimeScaleValid, this`timeScale
      ensures Counted(requests[id := channels], timeHolders, timeRequestCount, cachedTimeScaleValid, false)
      ensures named ==> (
        && timeRequestCount == old(timeRequestCount) + 1
        && (old(timeRequestCount) == 0 ==> cachedTimeScale == old(timeScale) && timeScale == PAUSED_TIME_SCALE)
        && (old(timeRequestCount) > 0 ==> cachedTimeScale == old(cachedTimeScale) && timeScale == old(timeScale)))
      ensures !named ==> (
        && timeRequestCount == old(timeRequestCount)
        && cachedTimeScale == old(cachedTimeScale) && timeScale == old(timeScale))
    {
      CountedAfterAdd(requests, timeHolders, timeRequestCount, cachedTimeScaleValid, false, id, channels);
      if named {
        var count := timeRequestCount;
        timeRequestCount := timeRequestCount + 1;
        timeHolders := timeHolders + {id};
        if count == 0 {
          cachedTimeScale := timeScale;
          cachedTimeScaleValid := true;
          timeScale := PAUSED_TIME_SCALE;
        }
      }
    }

    /** The audio half of Acquire: `if (_audioRequestCount++ == 0)` remember the audio and pause it. */
    method PauseAudio(id: int, named: bool, ghost requests: map<int, PauseChannels>, ghost channels: PauseChannels)
      requires Counted(requests, audioHolders, audioRequestCount, cachedAudioPauseValid, true)
      requires id !in requests && named == channels.audio
      modifies this`audioRequestCount, this`audioHolders, this`cachedAudioPause, this`cachedAudioPauseValid, this`audioPause
      ensures Counted(requests[id := channels], audioHolders, audioRequestCount, cachedAudioPauseValid, true)
      ensures named ==> (
        && audioRequestCount == old(audioRequestCount) + 1
        && (old(audioRequestCount) == 0 ==> cachedAudioPause == old(audioPause) && audioPause)
        && (old(audioRequestCount) > 0 ==> cachedAudioPause == old(cachedAudioPause) && audioPause == old(audioPause)))
      ensures !named ==> (
        && audioRequestCount == old(audioRequestCount)
        && cachedAudioPause == old(cachedAudioPause) && audioPause == old(audioPause))
    {
      CountedAfterAdd(requests, audioHolders, audioRequestCount, cachedAudioPauseValid, true, id, channels);
      if named {
        var count := audioRequestCount;
        audioRequestCount := audioRequestCount + 1;
        audioHolders := audioHolders + {id};
        if count == 0 {
          cachedAudioPause := audioPause;
          cachedAudioPauseValid := true;
          audioPause := true;
        }
      }
    }

    /**
     * The clock half of Release for live request id, done only when it names the clock:
     * count down (floored at 0, which a live request never reaches) and, at 0, put the
     * remembered clock back and drop the cache.
     */
    method ResumeTime(id: int, named: bool, ghost requests: map<int, PauseChannels>)
      requires Counted(requests, timeHolders, timeRequestCount, cachedTimeScaleValid, false)
      requires id in requests && named == requests[id].time
      modifies this`timeRequestCount, this`timeHolders, this`cachedTimeScaleValid, this`timeScale
      ensures Counted(requests - {id}, timeHolders, timeRequestCount, cachedTimeScaleValid, false)
      ensures named ==> (
        && timeRequestCount == old(timeRequestCount) - 1
        && (timeRequestCount == 0 ==> timeScale == cachedTimeScale)
        && (timeRequestCount > 0 ==> timeScale == old(timeScale)))
      ensures !named ==> timeRequestCount == old(timeRequestCount) && timeScale == old(timeScale)
    {
      CountedAfterRemove(requests, timeHolders, timeRequestCount, cachedTimeScaleValid, false, id);
      if named {
        timeHolders := timeHolders - {id};
        timeRequestCount := Max(0, timeRequestCount - 1);
        if timeRequestCount == 0 && cachedTimeScaleValid {
          timeScale := cachedTimeScale;
          cachedTimeScaleValid := false;
        }
      }
    }

    /** The audio half of Release for live request id. */
    method ResumeAudio(id: int, named: bool, ghost requests: map<int, PauseChannels>)
      requires Counted(requests, audioHolders, audioRequestCount, cachedAudioPauseValid, true)
      requires id in requests && named == requests[id].audio
      modifies this`audioRequestCount, this`audioHolders, this`cachedAudioPauseValid, this`audioPause
      ensures Counted(requests - {id}, audioHolders, audioRequestCount, cachedAudioPauseValid, true)
      ensures named ==> (
        && audioRequestCount == old(audioRequestCount) - 1
        && (audioRequestCount == 0 ==> audioPause == cachedAudioPause)
        && (audioRequestCount > 0 ==> audioPause == old(audioPause)))
      ensures !named ==> audioRequestCount == old(audioRequestCount) && audioPause == old(audioPause)
    {
      CountedAfterRemove(requests, audioHolders, audioRequestCount, cachedAudioPauseValid, true, id);
      if named {
        audioHolders := audioHolders - {id};
        audioRequestCount := Max(0, audioRequestCount - 1);
        if audioRequestCount == 0 && cachedAudioPauseValid {
          audioPause := cachedAudioPause;
          cachedAudioPauseValid := false;
        }
      }
    }
  }

  /** Whether the channels name the audio (audio) or the clock (!audio). */
  function Names(channels: PauseChannels, audio: bool): bool {
    if audio then channels.audio else channels.time
  }

  /**
   * One channel's bookkeeping: the holders are the live requests that name it, the count is
   * their number, and the cache is valid exactly while the count is positive.
   */
  ghost predicate Counted(requests: map<int, PauseChannels>, holders: set<int>, count: int, cacheValid: bool, audio: bool) {
    && (forall id :: id in holders <==> id in requests && Names(requests[id], audio))
    && count == |holders|
    && (cacheValid <==> count > 0)
  }

  /** A new request counts on a channel exactly if it names it. */
  lemma CountedAfterAdd(requests: map<int, PauseChannels>, holders: set<int>, count: int, cacheValid: bool, audio: bool,
                        id: int, channels: PauseChannels)
    requires Counted(requests, holders, count, cacheValid, audio) && id !in requests
    ensures Names(channels, audio) ==> Counted(requests[id := channels], holders + {id}, count + 1, true, audio)
    ensures !Names(channels, audio) ==> Counted(requests[id := channels], holders, count, cacheValid, audio)
  {
    assert id !in holders;
  }

  /** A removed request is uncounted on a channel exactly if it named it. */
  lemma CountedAfterRemove(requests: map<int, PauseChannels>, holders: set<int>, count: int, cacheValid: bool, audio: bool,
                           id: int)
    requires Counted(requests, holders, count, cacheValid, audio) && id in requests
    ensures Names(requests[id], audio) ==>
      count >= 1 && Counted(requests - {id}, holders - {id}, count - 1, count - 1 > 0, audio)
    ensures !Names(requests[id], audio) ==> Counted(requests - {id}, holders, count, cacheValid, audio)
  {
    if Names(requests[id], audio) {
      assert id in holders;
    } else {
      assert id !in holders;
      assert holders - {id} == holders;
    }
  }

  /** `Mathf.Max`. */
  function Max(a: int, b: int): (m: int)
    ensures m >= a && m >= b && (m == a || m == b)
  {
    if a >= b then a else b
  }

  /** The disposable handle `Acquire` returns. */
  class PauseHandle {
    const requestId: int
    const channels: PauseChannels
    const reason: string
    const owner: Coordinator
    var isReleased: bool

    constructor(requestId: int, channels: PauseChannels, reason: string, owner: Coordinator)
      ensures this.requestId == requestId && this.channels == channels && this.reason == reason
      ensures this.owner == owner && !isReleased
    {
      this.requestId := requestId;
      this.channels := channels;
      this.reason := reason;
      this.owner := owner;
      isReleased := false;
    }

    /**
     * Dispose: the first call marks the handle released and releases its request; any later
     * call changes nothing.
     */
    method Dispose()
      requires owner.Valid()
      requires requestId in owner.activeRequests ==> owner.activeRequests[requestId] == channels
      modifies this, owner
      ensures owner.Valid() && isReleased
      ensures old(isReleased) ==> unchanged(this, owner)
      ensures !old(isReleased) ==> (
        && owner.activeRequests == old(owner.activeRequests) - {requestId}
        && owner.nextRequestId == old(owner.nextRequestId))
      ensures !old(isReleased) && requestId in old(owner.activeRequests) && channels.time ==>
        && owner.timeRequestCount == old(owner.timeRequestCount) - 1
        && (owner.timeRequestCount == 0 ==> owner.timeScale == old(owner.cachedTimeScale))
        && (owner.timeRequestCount > 0 ==> owner.timeScale == old(owner.timeScale))
      ensures old(isReleased) || requestId !in old(owner.activeRequests) || !channels.time ==>
        owner.timeRequestCount == old(owner.timeRequestCount) && owner.timeScale == old(owner.timeScale)
        && owner.cachedTimeScale == old(owner.cachedTimeScale)
      ensures !old(isReleased) && requestId in old(owner.activeRequests) && channels.audio ==>
        && owner.audioRequestCount == old(owner.audioRequestCount) - 1
        && (owner.audioRequestCount == 0 ==> owner.audioPause == old(owner.cachedAudioPause))
        && (owner.audioRequestCount > 0 ==> owner.audioPause == old(owner.audioPause))
      ensures old(isReleased) || requestId !in old(owner.activeRequests) || !channels.audio ==>
        owner.audioRequestCount == old(owner.audioRequestCount) && owner.audioPause == old(owner.audioPause)
        && owner.cachedAudioPause == old(owner.cachedAudioPause)
    {
      if isReleased {
        return;
      }
      isReleased := true;
      owner.Release(this);
    }
  }

  /**
   * A pause taken and then disposed of leaves the coordinator as it found it: the same live
   * requests and counts, and the clock and audio at the values they had before the pause.
   */
  method PauseThenDispose(c: Coordinator, channels: PauseChannels, reason: string)
    requires c.Valid()
    modifies c
    ensures c.Valid()
    ensures c.activeRequests == old(c.activeRequests)
    ensures c.timeRequestCount == old(c.timeRequestCount) && c.audioRequestCount == old(c.audioRequestCount)
    ensures c.timeScale == old(c.timeScale) && c.audioPause == old(c.audioPause)
  {
    var h := c.Acquire(channels, reason);
    if h != null {
      h.Dispose();
      assert c.activeRequests == old(c.activeRequests)[h.requestId := channels] - {h.requestId};
    }
  }

}
