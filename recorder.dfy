/**
 * The ScreenRecorder controller with the browser taken away: the capture
 * flags, the fragment buffer, the timer text, the catalog, its stored
 * snapshot and the set of live payload urls. Each method is one event
 * handler of the source. All but Start run to completion; Start takes
 * startRecording from the click to its end as one step, with the answer to
 * the capture prompt and the selector value read after it as parameters.
 */
module Recorder {
  import opened Wrappers
  import opened Payload
  import opened Configuration
  import opened ElapsedTime
  import opened Catalog

  /**
   * What the platform does with a start request: getDisplayMedia is refused
   * (the user denies the prompt), or it grants a stream but the MediaRecorder
   * constructor rejects the options, or both succeed.
   */
  datatype CaptureOutcome = Granted | Denied | RecorderUnsupported

  class ScreenRecorder {
    /** `mediaRecorder !== null`. */
    var hasRecorder: bool
    /** The tracks of `stream` are still running (the platform shows its capture indicator). */
    var streamLive: bool
    var isRecording: bool
    var isPaused: bool
    var startTime: Option<int>
    /** The one-second timer interval is set. */
    var timerActive: bool
    /** The text of the timer element. */
    var display: string
    var recordedChunks: seq<Fragment>
    var recordings: seq<Recording>
    /** The `screenRecordings` entry of local storage; None while the key is absent. */
    var storage: Option<seq<Metadata>>
    /** The object urls created and not yet revoked. */
    var liveUrls: set<Handle>
    /** The next url URL.createObjectURL hands out; every url handed out so far is below it. */
    var nextHandle: Handle

    ghost predicate Valid()
      reads this
    {
      && (isPaused ==> isRecording)
      && (isRecording ==> hasRecorder && streamLive && timerActive && startTime.Some?)
      && AllNonEmpty(recordedChunks)
      && Synced(recordings, storage)
      && UrlsLive(recordings, liveUrls)
      && UrlsDistinct(recordings)
      && UrlsBelow(recordings, nextHandle)
      && (forall h :: h in liveUrls ==> h < nextHandle)
    }

    /**
     * The constructor: nothing is recording, and the catalog is rebuilt from
     * the stored snapshot (an empty catalog when the key is absent), so no
     * restored record has a url. The timer element keeps the text the page
     * markup gave it, `timerText`.
     */
    constructor (stored: Option<seq<Metadata>>, timerText: string)
      ensures Valid()
      ensures !hasRecorder && !streamLive && !isRecording && !isPaused && !timerActive
      ensures startTime == None && display == timerText && recordedChunks == []
      ensures recordings == (if stored.Some? then Restore(stored.value) else [])
      ensures storage == stored
      ensures forall i :: 0 <= i < |recordings| ==> recordings[i].url == None
      ensures liveUrls == {} && nextHandle == 0
    {
      hasRecorder, streamLive, isRecording, isPaused := false, false, false, false;
      startTime, timerActive, display, recordedChunks := None, false, timerText, [];
      recordings := if stored.Some? then Restore(stored.value) else [];
      storage := stored;
      liveUrls, nextHandle := {}, 0;
      if stored.Some? {
        RestoreRoundTrip(stored.value);
      }
    }

    /**
     * startRecording, from the click to the end of the handler, with the
     * wait for the capture prompt taken as one step. There is no guard on the
     * current state. The capture request carries
     * getVideoConstraints(quality, frameRate), read before the prompt. When
     * the request is denied nothing changes. Once a stream is granted the
     * quality selector is read again, as `qualityAfterGrant`, for the
     * bitrate. When the recorder cannot be built the new stream is kept,
     * running, and nothing else changes. On success the recorder is created
     * with that bitrate, the buffer is emptied, and recording and the timer
     * start at `now`; isPaused is left as it was.
     */
    method Start(quality: string, frameRate: int, capture: CaptureOutcome, qualityAfterGrant: string, now: int)
      returns (started: bool, request: Constraints, bitrate: Option<nat>)
      requires Valid()
      modifies this`hasRecorder, this`streamLive, this`isRecording, this`startTime,
               this`timerActive, this`recordedChunks
      ensures Valid()
      ensures request == GetVideoConstraints(quality, frameRate)
      ensures started <==> capture == Granted
      ensures bitrate == (if capture == Denied then None else Some(GetVideoBitrate(qualityAfterGrant)))
      ensures capture == Denied ==>
                unchanged(this`hasRecorder, this`streamLive, this`isRecording, this`startTime,
                          this`timerActive, this`recordedChunks)
      ensures capture == RecorderUnsupported ==>
                streamLive && unchanged(this`hasRecorder, this`isRecording, this`startTime,
                                        this`timerActive, this`recordedChunks)
      ensures started ==>
                hasRecorder && streamLive && isRecording && timerActive &&
                startTime == Some(now) && recordedChunks == []
      ensures isPaused == old(isPaused)
    {
      request := GetVideoConstraints(quality, frameRate);
      started, bitrate := false, None;
      if capture == Denied {
        return;
      }
      streamLive := true;
      bitrate := Some(GetVideoBitrate(qualityAfterGrant));
      if capture == RecorderUnsupported {
        return;
      }
      hasRecorder := true;
      recordedChunks := [];
      isRecording := true;
      startTime := Some(now);
      timerActive := true;
      started := true;
    }

    /** The recorder's `ondataavailable`: a fragment is appended only when it holds at least one byte. */
    method OnDataAvailable(fragment: Fragment)
      requires Valid()
      modifies this`recordedChunks
      ensures Valid()
      ensures recordedChunks == if |fragment| > 0 then old(recordedChunks) + [fragment] else old(recordedChunks)
      ensures Concat(recordedChunks) == Concat(old(recordedChunks)) + fragment
    {
      ConcatAppend(recordedChunks, fragment);
      if |fragment| > 0 {
        recordedChunks := recordedChunks + [fragment];
      } else {
        assert fragment == [];
      }
    }

    /**
     * stopRecording: a no-op unless a recorder exists and recording is on;
     * otherwise recording and pause end, every track of the stream is stopped
     * and the timer interval is cleared. The timer text and the buffer are
     * kept for the save that follows.
     */
    method Stop()
      requires Valid()
      modifies this`isRecording, this`isPaused, this`streamLive, this`timerActive
      ensures Valid()
      ensures !old(hasRecorder && isRecording) ==> unchanged(this)
      ensures old(hasRecorder && isRecording) ==> !isRecording && !isPaused && !streamLive && !timerActive
    {
      if hasRecorder && isRecording {
        isRecording := false;
        isPaused := false;
        streamLive := false;
        timerActive := false;
      }
    }

    /** The `ended` listener of the video track: stops exactly when recording is on. */
    method OnTrackEnded()
      requires Valid()
      modifies this`isRecording, this`isPaused, this`streamLive, this`timerActive
      ensures Valid()
      ensures !old(isRecording) ==> unchanged(this)
      ensures old(isRecording) ==> !isRecording && !isPaused && !streamLive && !timerActive
    {
      if isRecording {
        Stop();
      }
    }

    /** togglePause: a no-op unless a recorder exists and recording is on; otherwise it flips isPaused. */
    method TogglePause()
      requires Valid()
      modifies this`isPaused
      ensures Valid()
      ensures !old(hasRecorder && isRecording) ==> unchanged(this)
      ensures old(hasRecorder && isRecording) ==> isPaused == !old(isPaused)
      ensures isRecording == old(isRecording)
    {
      if !hasRecorder || !isRecording {
        return;
      }
      isPaused := !isPaused;
    }

    /**
     * The tick's test `this.startTime`: JavaScript truthiness, so a start
     * time of 0 counts as unset, like `null`.
     */
    predicate StartTimeSet()
      reads this
    {
      startTime.Some? && startTime.value != 0
    }

    /**
     * One tick of the timer interval at wall-clock time `now`: while the
     * interval is set, recording is not paused and the start time is set
     * (and not 0), the text becomes the time since the start, paused periods
     * included; otherwise, as while paused, it is left alone.
     */
    method Tick(now: int)
      requires Valid()
      modifies this`display
      ensures Valid()
      ensures display == if old(timerActive && !isPaused && StartTimeSet()) then TimerText(now, old(startTime.value)) else old(display)
    {
      if timerActive && !isPaused && StartTimeSet() {
        display := TimerText(now, startTime.value);
      }
    }

    /**
     * saveRecording, run by the recorder's `onstop`. With no fragments nothing
     * changes. Otherwise a record is put in front of the catalog, the old
     * records follow unchanged and in order, and storage is rewritten with the
     * projection of the whole catalog. The record's payload is the fragments
     * in order, under a new live url; its duration is the timer text; id,
     * timestamp, quality and frame rate are read at this moment.
     */
    method SaveRecording(id: int, timestamp: string, quality: string, framerate: string)
      requires Valid()
      modifies this`recordings, this`storage, this`liveUrls, this`nextHandle
      ensures Valid()
      ensures old(|recordedChunks|) == 0 ==> unchanged(this)
      ensures old(|recordedChunks|) > 0 ==>
                && |recordings| == |old(recordings)| + 1
                && recordings[1..] == old(recordings)
                && recordings[0] == Recording(id, Some(old(nextHandle)), Some(Concat(recordedChunks)),
                                              display, timestamp, quality, framerate, TotalSize(recordedChunks))
                && recordings[0].size > 0
                && storage == Some(Project(recordings))
                && liveUrls == old(liveUrls) + {old(nextHandle)}
                && old(nextHandle) !in old(liveUrls)
    {
      if |recordedChunks| == 0 {
        return;
      }
      var blob := Concat(recordedChunks);
      NonEmptyPayload(recordedChunks);
      var url := nextHandle;
      var rec := Recording(id, Some(url), Some(blob), display, timestamp, quality, framerate, |blob|);
      PrependFresh(rec, recordings, nextHandle);
      recordings := [rec] + recordings;
      liveUrls := liveUrls + {url};
      nextHandle := nextHandle + 1;
      storage := Some(Project(recordings));
    }

    /**
     * deleteRecording, after the confirmation dialog. Declined: nothing
     * changes. Confirmed: the url of the first record with the id, if there
     * is one and it has a url, is revoked; every record with the id is
     * removed and the others keep their order; storage is rewritten.
     */
    method Delete(id: int, confirmed: bool)
      requires Valid()
      modifies this`recordings, this`storage, this`liveUrls
      ensures Valid()
      ensures !confirmed ==> unchanged(this)
      ensures confirmed ==>
                && recordings == RemoveId(old(recordings), id)
                && storage == Some(Project(recordings))
                && liveUrls == old(liveUrls) - Revoked(Find(old(recordings), id))
      ensures confirmed && !HasId(old(recordings), id) ==>
                recordings == old(recordings) && liveUrls == old(liveUrls)
    {
      if !confirmed {
        return;
      }
      var found := Find(recordings, id);
      DeleteKeepsUrlsLive(recordings, liveUrls, id);
      RemoveIdUnchanged(recordings, id);
      if found.Some? && found.value.url.Some? {
        liveUrls := liveUrls - {found.value.url.value};
      }
      recordings := RemoveId(recordings, id);
      storage := Some(Project(recordings));
    }
  }
}
