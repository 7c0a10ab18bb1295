/**
 * Clients of ScreenRecorder that walk through whole sessions, using only the
 * contracts of its methods.
 */
module Scenarios {
  import opened Wrappers
  import opened Numerals
  import opened Payload
  import opened Configuration
  import opened ElapsedTime
  import opened Catalog
  import opened Recorder

  /** Fragments f1, an empty one, f2 and f3 are buffered so that the payload is f1 + f2 + f3. */
  method FragmentsKeepArrivalOrder(f1: Fragment, f2: Fragment, f3: Fragment)
  {
    var r := new ScreenRecorder(None, "00:00");
    var started, request, bitrate := r.Start("1080p", 30, Granted, "1080p", 1000);
    assert started && request.video.width == Some(1920) && bitrate == Some(8000000);
    assert Concat(r.recordedChunks) == [];
    r.OnDataAvailable(f1);
    assert Concat(r.recordedChunks) == f1;
    r.OnDataAvailable([]);
    assert Concat(r.recordedChunks) == f1;
    r.OnDataAvailable(f2);
    assert Concat(r.recordedChunks) == f1 + f2;
    r.OnDataAvailable(f3);
    assert Concat(r.recordedChunks) == f1 + f2 + f3;
  }

  /**
   * The last fragment, delivered after the stop, still goes into the record,
   * which is put in front of the restored ones.
   */
  method SaveAfterStop(f: Fragment, stored: seq<Metadata>)
    requires |f| > 0
  {
    var r := new ScreenRecorder(Some(stored), "00:00");
    var before := r.recordings;
    var started, _, _ := r.Start("720p", 30, Granted, "720p", 0);
    r.Stop();
    assert !r.isRecording && !r.streamLive;
    r.OnDataAvailable(f);
    assert Concat(r.recordedChunks) == f;
    r.SaveRecording(42, "t", "720p", "30");
    assert r.recordings[0].blob == Some(f) && r.recordings[0].size == |f|;
    assert r.recordings[1..] == before;
    assert r.storage == Some(Project(r.recordings));
  }

  /** A deleted record leaves the catalog, storage and the live urls; a second delete changes nothing. */
  method DeleteTwiceIsNoOp()
  {
    var r := new ScreenRecorder(None, "00:00");
    var started, request, bitrate := r.Start("720p", 30, Granted, "720p", 0);
    r.OnDataAvailable([5]);
    r.Stop();
    r.SaveRecording(42, "t", "720p", "30");
    assert |r.recordings| == 1;
    var url := r.recordings[0].url.value;
    assert url in r.liveUrls;
    r.Delete(42, true);
    assert r.recordings == [] && r.storage == Some([]);
    assert url !in r.liveUrls;
    var live := r.liveUrls;
    r.Delete(42, true);
    assert r.recordings == [] && r.liveUrls == live;
  }

  /** A session that produced no fragment leaves the catalog and storage as they were. */
  method EmptyCaptureSavesNothing(stored: seq<Metadata>)
  {
    var r := new ScreenRecorder(Some(stored), "00:00");
    var before := r.recordings;
    var started, _, _ := r.Start("720p", 24, Granted, "720p", 0);
    r.Stop();
    r.SaveRecording(7, "t", "720p", "24");
    assert r.recordings == before && r.storage == Some(stored);
  }

  /** A denied prompt changes nothing; the user may try again. */
  method DeniedThenRetry()
  {
    var r := new ScreenRecorder(None, "00:00");
    var started, request, bitrate := r.Start("480p", 15, Denied, "480p", 0);
    assert !started && bitrate == None && !r.isRecording && !r.streamLive;
    started, request, bitrate := r.Start("480p", 15, Granted, "480p", 10);
    assert started && r.isRecording && bitrate == Some(2500000);
  }

  /** While recording is paused the timer text stays as the last tick before the pause left it. */
  method PausedTimerIsFrozen(t0: int, t1: int, t2: int)
  {
    var r := new ScreenRecorder(None, "00:00");
    var started, _, _ := r.Start("720p", 30, Granted, "720p", t0);
    r.Tick(t1);
    ghost var atPause := r.display;
    r.TogglePause();
    assert r.isPaused && r.isRecording;
    r.Tick(t2);
    assert r.display == atPause;
  }

  /**
   * Start at t0, pause, resume, then a tick at t3 (t0 + 0 s, 5 s, 8 s and
   * 11 s in the example): the text is the wall-clock time since the start,
   * TimerText(t3, t0), which for the example is 00:11 (ElevenSeconds), not
   * the 00:06 of recorded time.
   */
  method PausedTimeIsNotSubtracted(t0: int, t3: int)
    requires t0 != 0
  {
    var r := new ScreenRecorder(None, "00:00");
    var started, _, _ := r.Start("720p", 30, Granted, "720p", t0);
    r.TogglePause();
    r.TogglePause();
    assert !r.isPaused && r.isRecording;
    assert r.startTime == Some(t0) && r.timerActive;
    r.Tick(t3);
    assert r.display == TimerText(t3, t0);
  }

  /** A start time of 0 is falsy, so the ticks of that session never change the text. */
  method ZeroStartTimeNeverTicks(t3: int)
  {
    var r := new ScreenRecorder(None, "00:00");
    var started, _, _ := r.Start("720p", 30, Granted, "720p", 0);
    assert r.isRecording && r.timerActive;
    r.Tick(t3);
    assert r.display == "00:00";
  }

  /**
   * The selector is read once for the capture request and again, after the
   * prompt, for the bitrate: changed in between, the two disagree.
   */
  method SelectorChangedDuringPrompt()
  {
    var r := new ScreenRecorder(None, "00:00");
    var started, request, bitrate := r.Start("1080p", 30, Granted, "480p", 5);
    assert request.video.width == Some(1920) && bitrate == Some(2500000);
  }

  /** After the stop the interval is cleared, so later ticks leave the last text in place. */
  method StoppedTimerKeepsText(t0: int, t3: int, t4: int)
  {
    var r := new ScreenRecorder(None, "00:00");
    var started, _, _ := r.Start("720p", 30, Granted, "720p", t0);
    r.Tick(t3);
    ghost var atStop := r.display;
    r.Stop();
    assert !r.isRecording && !r.isPaused && !r.timerActive;
    r.Tick(t4);
    assert r.display == atStop;
  }

  /** Eleven seconds after the start the text reads "00:11", whatever the start time. */
  lemma ElevenSeconds(t0: int)
    ensures TimerText(t0 + 11000, t0) == "00:11"
  {
    TimerTextIsFormat(t0 + 11000, t0);
    FormatElevenSeconds((t0 + 11000) - t0);
  }

  /** 11000 ms are 0 whole minutes and 11 whole seconds, written "00:11". */
  lemma FormatElevenSeconds(elapsed: int)
    requires elapsed == 11000
    ensures Format(elapsed) == "00:11"
  {
    FormatIs(elapsed);
    var m, sec := Minutes(elapsed), Seconds(elapsed);
    assert m == 0 && sec == 11;
    ZeroAndEleven(m, sec);
    JoinFields(Field(m), Field(sec));
  }

  /** The two fields of 0 minutes and 11 seconds. */
  lemma ZeroAndEleven(m: int, sec: int)
    requires m == 0 && sec == 11
    ensures Field(m) == "00" && Field(sec) == "11"
  {
    FieldZero();
    FieldEleven();
  }

  /** The fields joined around the colon. */
  lemma JoinFields(pm: string, ps: string)
    requires pm == "00" && ps == "11"
    ensures pm + ":" + ps == "00:11"
  {
  }

  lemma FieldZero()
    ensures Field(0) == "00"
  {
    assert NatToString(0) == "0";
    assert IntToString(0) == "0";
  }

  lemma FieldEleven()
    ensures Field(11) == "11"
  {
    assert NatToString(1) == "1";
    assert NatToString(11) == "11";
    assert IntToString(11) == "11";
  }

  /** Ending the share from the platform's own control has the effect of Stop. */
  method SharingEndedExternally()
  {
    var r := new ScreenRecorder(None, "00:00");
    var started, _, _ := r.Start("720p", 30, Granted, "720p", 0);
    r.OnDataAvailable([9]);
    r.OnTrackEnded();
    assert !r.isRecording && !r.streamLive;
    r.SaveRecording(1, "t", "720p", "30");
    assert Concat([[9]]) == [9];
    assert |r.recordings| == 1 && r.recordings[0].blob == Some([9]);
    r.OnTrackEnded();
    assert |r.recordings| == 1;
  }

  /** After a reload the stored records are listed again, without urls. */
  method ReloadLosesPayloads(m: Metadata)
  {
    var r := new ScreenRecorder(Some([m]), "00:00");
    assert r.recordings == [FromMeta(m)];
    assert r.recordings[0].url == None && Meta(r.recordings[0]) == m;
    r.Delete(m.id, true);
    assert r.recordings == [] && r.liveUrls == {};
  }
}
