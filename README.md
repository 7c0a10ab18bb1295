# ScreenRecorder, modelled in Dafny

A model of the `ScreenRecorder` controller of a browser screen recorder
(`script.js`), with the browser taken away. It has four parts:

- **Configuration resolver** (`configuration.dfy`, module `Configuration`).
  `getVideoConstraints` and `getVideoBitrate` map the quality selector's value
  and the frame rate to capture constraints and to a bitrate.
- **Capture lifecycle** (`recorder.dfy`, class `Recorder.ScreenRecorder`).
  The class holds the flags `isRecording` and `isPaused`, whether a recorder
  exists, whether the stream's tracks are running, and the `recordedChunks`
  buffer. Each event handler is a method: `startRecording`,
  `ondataavailable`, `stopRecording`, the `ended` listener of the video
  track, `togglePause`, a tick of the timer interval, and `saveRecording`,
  which the recorder's `onstop` runs. All but `startRecording` run to
  completion. `startRecording` waits for the capture prompt. `Start` takes
  the handler from the click to its end as one step, with the prompt's
  answer and the selector value read after the prompt as parameters.
- **Recording catalog** (`catalog.dfy`, module `Catalog`, plus the
  `SaveRecording` and `Delete` methods of the class). It covers the
  `recordings` sequence, the metadata snapshot in local storage, and the
  object urls that are still live.
- **Elapsed-time formatter** (`elapsed_time.dfy`, module `ElapsedTime`). This
  is the `MM:SS` text the timer writes. `numerals.dfy` (module `Numerals`)
  holds JavaScript's `toString` on integers and a separate reading of digit
  strings, used to check the numerals.

`payload.dfy` assembles the payload from the fragments. `wrappers.dfy` holds
`Option`. `scenarios.dfy` walks through whole sessions using only the methods'
contracts.

Boundaries with the platform are modelled as follows:
- The outcome of the capture request is a parameter of `Start`: granted,
  denied, or granted but with a recorder that cannot be built.
- The quality selector is read twice by `startRecording`: before the prompt
  for the constraints (script.js:48) and after it for the bitrate
  (script.js:86, 165). `Start` takes both values as separate parameters.
- Fragments are delivered by calling `OnDataAvailable`.
- Wall-clock time (`Date.now()`) is a parameter of `Start` and `Tick`.
- The id and the locale timestamp of a new record are parameters of
  `SaveRecording`.
- The quality and frame-rate selectors are parameters.
- The timer element's initial text comes from the page markup. It is a
  parameter of the constructor.
- The answer to the `confirm` dialog is a parameter of `Delete`.
- Local storage is the field `storage`. `None` stands for the absent key.
- `URL.createObjectURL` and `revokeObjectURL` add a handle to, or remove one
  from, the set `liveUrls`. New handles come from a counter.

Places where the code differs from the intended behaviour. The model follows
the code:
- `startRecording` has no guard on the current state (script.js:76-126). Only
  the disabled start button keeps it from being called while recording.
  `Start` therefore has no precondition on the flags. It also leaves
  `isPaused` as it was, because line 116 sets only `isRecording`.
- The timer does not subtract paused time. It writes
  `Date.now() - startTime` (script.js:327) and skips ticks only while paused.
  Take a start at t0, a pause 5 s later, a resume at 8 s and a tick at 11 s.
  The timer shows `00:11`, although only 6 s were recorded
  (`Scenarios.PausedTimeIsNotSubtracted`, `Scenarios.ElevenSeconds`).
- The tick tests `this.startTime` for truthiness (script.js:326). A start
  time of 0 is therefore treated like no start time, and no tick of that
  session changes the text (`Scenarios.ZeroStartTimeNeverTicks`).
- An unrecognised quality string gets the 720p bitrate, but its constraints
  carry no width or height at all. There is no 720p fallback for the frame
  size (script.js:58-71).
- Record ids are `Date.now()` values and may collide. `deleteRecording`
  revokes the url of the first match only (`find`), yet removes every record
  with that id (`filter`).

## Model

| member | source | states |
|---|---|---|
| Configuration.TierName | script.js:58-70 | each tier's selector label is its frame height in decimal followed by "p" |
| Configuration.TierDimensions | script.js:58-70 | each tier's frame is 16:9 with the width rounded up to a whole pixel |
| Configuration.ParseTier | script.js:58-71 | a quality string selects a tier exactly when it equals that tier's name, and any other string selects none |
| Configuration.GetVideoConstraints | script.js:47-74 | audio is always requested; the frame rate passes through unchanged; width and height are set together exactly when the string names a tier, and then to 1920×1080, 1280×720 or 854×480 |
| Configuration.GetVideoBitrate | script.js:164-172 | 1080p gives 8000000, 720p gives 5000000, 480p gives 2500000, and every other string gives the default 5000000 |
| Configuration.TierNameRoundTrip | script.js:58-70 | every tier name parses back to its tier, and no two tiers share a name |
| Configuration.BitrateFollowsResolution | script.js:164-171 | a tier with more pixels per frame is encoded at a strictly higher bitrate |
| Configuration.UnknownTierFallback | script.js:51-73 | an unknown quality string gets the 720p bitrate but requests no frame size, unlike 720p |
| Payload.Concat | script.js:177 | the payload (`new Blob`) is exactly as long as the fragment sizes added up (`blob.size`) |
| Payload.TotalSize | script.js:192 | the total size is zero exactly when every fragment is empty |
| Payload.ConcatAppend | script.js:99-103 | appending a fragment appends its bytes at the end of the payload |
| Payload.ConcatSplit | script.js:177 | the payload of a buffer is the payload of any prefix followed by the payload of the rest |
| Payload.NonEmptyPayload | script.js:175-177 | a buffer of non-empty fragments that holds at least one fragment yields a non-empty payload |
| Numerals.NatToString | script.js:330 | `toString` of a non-negative number is a non-empty string of digits, one character long exactly below 10, and never starting with 0 when longer: the shortest numeral |
| Numerals.NatToStringRoundTrip | script.js:330 | the numeral of n reads back as n |
| Numerals.IntToString | script.js:330 | `toString` of a non-negative number is digits that read back as the number; of a negative number, a minus sign followed by digits that read back as its magnitude; in both, the digits have no leading zero unless the number is a single digit |
| ElapsedTime.PadStart | script.js:330 | the result is exactly max(input length, target width) long, never truncated; the input is its suffix and only fill characters come before it |
| ElapsedTime.JsRemainder | script.js:329 | JavaScript's `%` with a positive divisor: strictly inside (-b, b); the dividend is the truncated quotient times b plus the remainder, so the two are congruent modulo b; Dafny's remainder for a non-negative dividend, and never positive for a negative one |
| ElapsedTime.Minutes | script.js:328 | whole minutes rounded toward negative infinity: m·60000 ≤ elapsed < (m+1)·60000 |
| ElapsedTime.Seconds | script.js:329 | always in -60..59; for a non-negative elapsed time it is (ms mod 60000) div 1000, in 0..59, and minutes, seconds and the leftover milliseconds add back up to the elapsed time |
| ElapsedTime.Field | script.js:330 | for a non-negative number the padded field is at least two digits, exactly two below 100, never shorter than the numeral, and reads back as the number; a field longer than two characters is the bare numeral, with no leading zero |
| ElapsedTime.Format | script.js:328-330 | for a non-negative elapsed time the text is two fields of digits around one colon, three characters from the end |
| ElapsedTime.TimerText | script.js:327-330 | when `now` is not before the start, the text is two fields of digits around a colon three characters from the end; the minutes field reads back as the whole minutes since the start and the two-digit seconds field as the whole seconds within the current minute |
| ElapsedTime.TimerTextIsFormat | script.js:327-330 | a tick's text depends only on `now - startTime` |
| ElapsedTime.FormatIs | script.js:328-330 | the text is the padded minutes, a colon and the padded seconds |
| ElapsedTime.FormatLayout | script.js:330 | the text is the minutes field, a colon, then the seconds field, with the colon three characters from the end |
| ElapsedTime.FormatMinutes | script.js:328 | the minutes field reads back as ms div 60000 and is never truncated |
| ElapsedTime.FormatSeconds | script.js:329 | the seconds field is two digits that read back as (ms mod 60000) div 1000, which is below 60 |
| ElapsedTime.UnderHundredMinutes | script.js:328-330 | below 100 minutes the text is exactly five characters |
| ElapsedTime.FormatZero | script.js:327-330 | 0 ms reads "00:00" |
| Catalog.FromMeta | script.js:24 | a record parsed from storage has no url and no blob, and its metadata is exactly the stored entry |
| Catalog.MetaForgetsPayload | script.js:348-355 | two records have the same stored metadata exactly when they differ at most in url and blob, and a restored record is the original without url and blob |
| Catalog.Project | script.js:347-357 | the snapshot has one entry per record, in the same order, each holding the record's id, duration, timestamp, quality, framerate and size and nothing else |
| Catalog.Restore | script.js:24 | the constructor rebuilds one url-less record per stored entry, in stored order |
| Catalog.RestoreRoundTrip | script.js:24 | storing the records rebuilt from a snapshot writes back exactly that snapshot |
| Catalog.Find | script.js:285 | `find` returns nothing exactly when no record has the id, and otherwise the first record with it |
| Catalog.RemoveId | script.js:290 | `filter` keeps exactly the records whose id differs, and never grows the catalog |
| Catalog.RemoveIdAppend | script.js:290 | the filter works piecewise over a concatenation |
| Catalog.RemoveIdPosition | script.js:290 | every kept record sits right after the kept part of the records before it, so the kept records keep their original order |
| Catalog.RemoveIdUnchanged | script.js:290 | the filter leaves the catalog unchanged exactly when no record has the id |
| Catalog.DeleteTwice | script.js:283-295 | after a delete no record has the id, so a second delete finds nothing and removes nothing |
| Catalog.Revoked | script.js:286-288 | at most one url is revoked: the url of the found record, if it was found and has a url |
| Catalog.RemoveIdKeepsDistinct | script.js:290 | filtering keeps record urls pairwise distinct |
| Catalog.DeleteKeepsUrlsLive | script.js:285-290 | after a delete every remaining record with a url still has a live one, although a url was revoked |
| Catalog.PrependFresh | script.js:178-195 | putting a record with a freshly created url in front keeps the urls distinct |
| Recorder.ScreenRecorder.constructor | script.js:17-24 | nothing is recording; the buffer is empty and the timer keeps the text the markup gave it; the catalog is rebuilt from storage (empty when the key is absent) with no url on any restored record, and no url is live |
| Recorder.ScreenRecorder.Start | script.js:76-126 | needs no particular state. It requests the constraints for the quality read before the prompt. A denial changes nothing. Once a stream is granted the bitrate is that of the quality read after the prompt. A recorder that cannot be built leaves the new stream running and changes nothing else. Otherwise the buffer is emptied, and the recorder, the stream, recording and the timer run from `now`. `isPaused` is left as it was, and Valid is preserved |
| Recorder.ScreenRecorder.OnDataAvailable | script.js:99-103 | a fragment is appended at the end only if it holds at least one byte; an empty one leaves the buffer unchanged; the payload grows by exactly the fragment's bytes |
| Recorder.ScreenRecorder.Stop | script.js:129-145 | a no-op unless a recorder exists and recording is on; otherwise recording and pause end, the tracks are stopped and the interval is cleared |
| Recorder.ScreenRecorder.OnTrackEnded | script.js:109-113 | stops exactly when recording is on, and is a no-op otherwise |
| Recorder.ScreenRecorder.TogglePause | script.js:147-161 | a no-op unless a recorder exists and recording is on; otherwise it flips `isPaused`; `isRecording` never changes, and `isPaused ⇒ isRecording` is kept |
| Recorder.ScreenRecorder.Tick | script.js:324-333 | while the interval is set, recording is not paused and the start time is truthy (set and not 0), the text becomes the formatted time since the start, paused time included; otherwise it is left unchanged |
| Recorder.ScreenRecorder.SaveRecording | script.js:174-200 | with no fragments nothing changes. Otherwise exactly one record is added at index 0 and the old records follow unchanged and in order. Its payload is the in-order concatenation of the fragments and its size is their total, which is positive. It gets a new live url. Storage holds the projection of the whole catalog |
| Recorder.ScreenRecorder.Delete | script.js:283-295 | declined: nothing changes. Confirmed: every record with the id is removed and the rest keep their order; only the found record's url is revoked; storage holds the projection of the catalog. An unknown id changes neither the catalog nor the live urls |
| Scenarios.ElevenSeconds | script.js:327-330 | 11000 ms after any start time the text reads "00:11" |
| Scenarios.FormatElevenSeconds | script.js:328-330 | 11000 ms are formatted as "00:11" |

Every method of the class requires and ensures `Valid()`. `Valid()` ties the
parts together:
- `isPaused ⇒ isRecording`.
- Recording implies that a recorder exists, the stream is live, the interval
  is set and there is a start time.
- Every buffered fragment is non-empty.
- Storage holds exactly the projection of the catalog, or the key is absent
  while the catalog is empty.
- Every record's url is live, and no two records share a url.

## Left out

- DOM and presentation: button wiring and enabling (script.js:29-37,
  298-321), `displayRecordings`, notifications, the preview element. None of
  them holds state the core reads.
- `checkBrowserSupport`, `getDisplayMedia`, the `MediaRecorder` itself and the
  mime-type fallback through `isTypeSupported` are platform calls. They become
  the `CaptureOutcome` parameter of `Start` and the fragments passed to
  `OnDataAvailable`. A `mediaRecorder.start(1000)` that throws is not modelled.
- `playRecording` and `downloadRecording` only open a window or click an
  anchor, and hold no state.
- Timer scheduling (`setInterval`/`setTimeout`) is left out. This includes the
  reset of the text to `00:00` two seconds after a stop. `Tick` models one
  firing of the interval, and `timerActive` models whether it is set.
- Recorder.ScreenRecorder.Start: a restart while recording creates a second
  stream, a second recorder and a second interval without stopping the first.
  The model keeps one flag for each, so it does not capture the leaked
  earlier stream or interval. The wait for the capture prompt is taken as
  one step. Events that arrive while the prompt is open are not modelled,
  including a second click on start or a stop. The quality read after the
  prompt is a parameter, so a change of selector during the prompt is
  captured.
- `formatFileSize` uses `Math.log`, `toFixed` and `parseFloat`, which are
  floating point. A record's `size` is therefore its byte count, not the
  human-readable label.
- `Date.now()` ids and `toLocaleString` timestamps are inputs. Id uniqueness
  is not assumed.
- The `beforeunload` hook only calls `stopRecording`. Page unload itself is
  not modelled.
- The `ended` listener belongs to a particular stream. The model has one
  `OnTrackEnded` event and does not tell the streams of earlier starts apart.
- Storage exceptions are not modelled. `localStorage.setItem` can throw
  after the `unshift` or the filter has already changed `recordings`
  (script.js:195, 290, 356). `getItem` and `JSON.parse` can throw in the
  constructor (script.js:24). The model assumes that every write succeeds,
  so storage always holds the projection of the catalog.
- Recorder.ScreenRecorder.Start: `frameRate` is a whole number, the result
  of `parseInt` on the selector value (script.js:49). A non-numeric value
  would give `NaN`, which the model cannot represent.
- Numerals.IntToString: JavaScript numbers are doubles, and the model uses
  unbounded integers for ids, times and elapsed milliseconds. The two agree
  below 2^53. From 1e21 on, `toString` writes exponent notation, which the
  model does not.
- `JSON.stringify`/`JSON.parse` are the identity on the metadata records. A
  corrupt stored string, which would make `JSON.parse` throw, is not
  modelled.
