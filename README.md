# srec recorder controller, modelled in Dafny

srec is a single-page screen recorder. Its whole behaviour lives in one Vue
`setup()` function in `script.js`. That function keeps reactive state: the
capture stream, the `MediaRecorder`, buffered chunks, the recording and pause
flags, the elapsed seconds, the list of finished recordings, an error message
and the interval timer. Handlers change this state in response to user
actions, browser events and the interval timer. This project models that
controller and proves what its handlers promise.

Modules:

- `TimeFormat` (`time_format.dfy`) models `formattedTime`. It writes the
  minutes and seconds with `toString`, pads both to two characters and joins
  them with a colon. A parser reads the display back.
- `MimeSelection` (`mime_selection.dfy`) models the preference list of five
  container/codec types. It also models the loop that takes the first type the
  platform supports.
- `RecordingList` (`recording_list.dfy`) holds the values: chunks, blobs,
  object URLs and recordings. It also has the list operations: assembling a
  blob, pushing and re-sorting newest first (a stable sort), `findIndex` by id
  and `splice`.
- `Recorder` (`recorder.dfy`) is the class `RecorderController`. Its fields are
  the refs. Its methods are the handlers (`startScreenShare`,
  `stopScreenShare`, `startRecording`, `stopRecording`, `togglePause`,
  `deleteRecording`, the unmount hook) and the browser events (a timer
  second, `dataavailable`, `stop`).
- `Scenarios` (`scenarios.dfy`) drives whole sessions through the class, for
  example pausing over two seconds or closing the page mid-recording.

Abstractions:

- The stream is only present or absent.
- The `MediaRecorder` is the options it was built with.
- Blobs are their bytes.
- Object URLs are opaque handles.
- Live `setInterval` timers are counted.
- These are parameters: `Date.now()`, `toLocaleString()`, the answer of
  `MediaRecorder.isTypeSupported` and the outcome of the permission prompt.
- `isTypeSupported` is only ever asked about the five candidates, and their
  strings are distinct. So it is a predicate over the five candidates.
- Ghost fields log every object URL created and revoked. The invariant
  `UrlLedger` states that while the page is mounted, every URL ever created is
  either held by exactly one listed recording or has been revoked exactly once.

Behaviour of the code as written, all kept in the model:

- Every blob is typed `video/webm`, whatever format was chosen.
- `mediaRecorder` is never cleared after a stop.
- `startRecording` does not reset `isPaused`.
- A second `startRecording` while recording arms another interval without
  clearing the first. From then on each second adds one per live timer
  (`Tick`, `timers`; shown by `LeakedTimerKeepsCounting`).
- Ids come from `Date.now()`, so they need not be unique. The model does not
  assume they are: deleting removes the first match, and sorting keeps entries
  with equal ids in their pushing order.
- A `stop` event that arrives after the unmount hook adds a recording whose URL
  is never revoked. After unmount the ledger only promises that nothing was
  revoked twice or without being created (shown by `LateStopLeaksUrl`).

## Model

| member | source | states |
|---|---|---|
| TimeFormat.FormattedTime | script.js:17-21 | `formattedTime` as `Clock(t / 60, t % 60)`. It has no `ensures` of its own: FormattedTimeRoundTrip, FormattedTimeFields, FormattedTimeDigits, FormattedTimeWidth and FormattedTimeInjective carry its properties. |
| TimeFormat.Clock | script.js:20 | The template literal joining the two padded fields with a colon. No `ensures`: ClockFields, ClockSplit and ClockDigits carry its properties. |
| TimeFormat.Decimal | script.js:20 | `toString` of a non-negative integer: at least one character, all decimal digits. DecimalValue and DecimalNoLeadingZero state that these are exactly its digits. |
| TimeFormat.PadStart | script.js:20 | `padStart(2, "0")`. No `ensures`: PadStartParts, PaddedValue and TwoDigits carry its properties. |
| TimeFormat.FormattedTimeRoundTrip | script.js:17-21 | Parsing the display as minutes-field times 60 plus seconds-field gives back the elapsed seconds. |
| TimeFormat.FormattedTimeFields | script.js:17-21 | The display is a minutes field, a colon and a two-digit seconds field. The fields denote `floor(t / 60)` and `t % 60`. The minutes field is padded to 2 characters and never truncated. |
| TimeFormat.FormattedTimeDigits | script.js:17-21 | Below 100 minutes the display is exactly the tens and units of the minutes, a colon, and the tens and units of the seconds. |
| TimeFormat.FormattedTimeWidth | script.js:17-21 | Below 100 minutes the display is five characters long. |
| TimeFormat.FormattedTimeInjective | script.js:17-21 | Different elapsed times never show the same display. |
| TimeFormat.ClockFields | script.js:18-20 | The joined fields denote the given minutes and seconds. |
| TimeFormat.ClockSplit | script.js:20 | The display splits at the colon into the two padded fields. |
| TimeFormat.DecimalValue | script.js:20 | The digits `toString` writes denote the number. |
| TimeFormat.DecimalNoLeadingZero | script.js:20 | `toString` writes a leading `0` only for zero. |
| TimeFormat.PadStartParts | script.js:20 | `padStart` reaches the width, keeps the string at the end and fills the front with the fill character. |
| TimeFormat.PaddedValue | script.js:20 | Zero-padding a field keeps it all digits and keeps the number it denotes. |
| TimeFormat.TwoDigits | script.js:20 | A number below 100 padded to width 2 is its tens digit followed by its units digit. |
| MimeSelection.FirstSupported | script.js:88-96 | The first-match search over the candidates: a found type is supported. FirstSupportedIsFirst adds that it is absent exactly when none is supported, and otherwise first. |
| MimeSelection.NamesDistinct | script.js:88 | The five candidate MIME strings are pairwise distinct. |
| MimeSelection.FirstSupportedIsFirst | script.js:88-100 | The selection is absent exactly when no candidate is supported. When present, it is a supported candidate and no earlier candidate is supported. |
| MimeSelection.SelectMimeType | script.js:88-96 | The loop with `break` returns the first supported candidate of the preference list, or nothing. |
| RecordingList.Concat | script.js:113 | The bytes of `new Blob(recordedChunks.value)`. No `ensures`: ConcatPush, ConcatAppend and ConcatSize carry its properties. |
| RecordingList.InsertNewestFirst | script.js:117-126 | The reference for `push` then `sort`: the new recording goes before the first strictly older entry. No `ensures`: InsertPermutes, InsertUrls, InsertSorted, InsertStable, InsertAtEnd and PushThenSort carry its properties. |
| RecordingList.SortNewestFirst | script.js:126 | `sort((a, b) => b.id - a.id)` as a stable insertion sort. No `ensures`: SortPermutes, SortSorted, SortStable, SortOfSorted and SortUnique carry its properties. |
| RecordingList.ConcatPush | script.js:106-110 | Appending a chunk appends its bytes to the assembled blob. Dropping an empty chunk never changes the blob. |
| RecordingList.ConcatAppend | script.js:113 | Assembling the concatenation of two chunk lists gives the concatenation of their bytes. |
| RecordingList.ConcatSize | script.js:113 | The blob is as long as all its chunks together. |
| RecordingList.InsertPermutes | script.js:117-126 | Inserting adds exactly the new recording. |
| RecordingList.InsertUrls | script.js:114-126 | Inserting a recording adds exactly its URL to the list's URLs (as a multiset). |
| RecordingList.InsertSorted | script.js:117-126 | Inserting into a newest-first list keeps it newest first. |
| RecordingList.InsertStable | script.js:117-126 | The inserted recording comes after every entry with the same id. |
| RecordingList.InsertAtEnd | script.js:117-126 | A recording no newer than all the others goes last. |
| RecordingList.SortPermutes | script.js:126 | The sort keeps exactly the recordings it is given (same multiset). |
| RecordingList.SortSorted | script.js:126 | The sort leaves ids non-increasing. |
| RecordingList.SortStable | script.js:126 | The sort keeps the relative order of entries with equal ids (a stable sort). |
| RecordingList.SortOfSorted | script.js:126 | Sorting a list that is already newest first leaves it as it is. |
| RecordingList.PushThenSort | script.js:117-126 | Pushing onto a newest-first list and sorting equals inserting the new recording before the first strictly older entry. |
| RecordingList.SortUnique | script.js:126 | Any newest-first order of the recordings that keeps each id's entries in their original order is the one SortNewestFirst computes. So a stable sort with this comparator has exactly one result, and SortNewestFirst is it. |
| RecordingList.SameSelectionsEqual | script.js:126 | Two newest-first lists holding the same entries for every id, in the same order, are equal. |
| RecordingList.FindIndex | script.js:179 | The result is -1 exactly when no recording has the id. Otherwise it is the first position holding that id. |
| RecordingList.RemoveAt | script.js:182 | `splice(i, 1)` keeps the entries before `i` and shifts those after it down by one. |
| RecordingList.RemoveAtSorted | script.js:182 | Removing an entry keeps the list newest first. |
| RecordingList.RemoveAtPermutes | script.js:182 | Removing an entry removes exactly that entry. |
| RecordingList.RemoveAtUrls | script.js:181-182 | Removing an entry removes exactly its URL from the list's URLs. |
| Recorder.AddKeepsLedger | script.js:112-129 | With a fresh URL, the push and sort insert exactly one recording, keep the list newest first and keep the URL log balanced. |
| Recorder.ReleaseAllKeepsLedger | script.js:191-193 | Revoking every listed URL leaves every URL ever created revoked exactly once. |
| Recorder.RecorderController.FlagsValid | script.js:8-15 | The invariant the handlers keep on the flags: paused only while recording; recording only with a stream and an encoder; `recordingInterval` set exactly while recording, with at least one live timer. It is a predicate; the `ensures` of every handler preserve it. |
| Recorder.RecorderController.ListValid | script.js:112-194 | The invariant on the list: newest first, and with the URL log balanced (UrlLedger). It is a predicate; AddKeepsLedger, ReleaseAllKeepsLedger and the `ensures` of EncoderStopped, DeleteRecording and RevokeAll preserve it. |
| Recorder.RecorderController.constructor | script.js:5-15 | The refs start empty: no stream, no encoder, no chunks, not recording, 0 seconds, no recordings, no error, no timer. |
| Recorder.RecorderController.FormattedTime | script.js:17-21 | The computed display reads back as `recordingTime`. |
| Recorder.RecorderController.StartScreenShare | script.js:25-65 | The error is cleared first. A refused prompt sets the screen-access message and changes nothing else. Otherwise the stream is held and recording starts at once, with the outcomes of `startRecording`. |
| Recorder.RecorderController.StopScreenShare | script.js:67-80 | An active recording is stopped and its timer cleared, then the stream is dropped. Without a stream and a recording nothing changes, so a second call is a no-op. |
| Recorder.RecorderController.StartRecording | script.js:82-144 | Without a stream nothing changes. Otherwise the chunks are emptied. With no supported type the start-recording error is set and the encoder, flags, time and timers are unchanged. Otherwise the encoder is built with the first supported type, 8 Mbit/s and 1000 ms slices, recording is on from 0 seconds, one more timer is armed, and the error is untouched. |
| Recorder.RecorderController.StopRecording | script.js:146-157 | It acts only when an encoder exists and recording is on. Then recording and pause drop and the referenced timer is cleared. Otherwise nothing changes. |
| Recorder.RecorderController.TogglePause | script.js:159-169 | It flips `isPaused` exactly when an encoder exists and recording is on, so two calls restore the flag. |
| Recorder.RecorderController.Tick | script.js:135-139 | In one second every live timer fires once, and each firing adds one second unless paused. The count stops at 2^53 (`MaxExactSeconds`), where the number's `++` no longer changes it. |
| Recorder.RecorderController.DataAvailable | script.js:106-110 | The chunk is appended only when it is non-empty, and the assembled bytes grow by its bytes. |
| Recorder.RecorderController.EncoderStopped | script.js:112-129 | The buffered chunks become one recording with the given id, URL and timestamp and the current elapsed time. The list becomes the stable newest-first insertion of it and gains exactly that recording. The buffer is emptied and the URL is logged. |
| Recorder.RecorderController.DeleteRecording | script.js:178-184 | An absent id changes nothing. Otherwise the first recording with that id is removed, the others keep their order, and exactly its URL is revoked and is no longer held by the list. |
| Recorder.RecorderController.Unmount | script.js:186-194 | Sharing and recording stop and the timer is cleared. Every listed URL is revoked in list order, so every URL ever created is revoked exactly once. With a single timer before, none is left running. |
| Recorder.RecorderController.RevokeAll | script.js:191-193 | The `forEach` revokes the URL of each listed recording, in order. |
| Scenarios.PausedSecondsNotCounted | script.js:135-169 | Three seconds, a pause over two seconds, then two more seconds show `00:05`. |
| Scenarios.RefusedPrompt | script.js:61-64 | A refused prompt leaves the page idle with the screen-access message. |
| Scenarios.NoSupportedFormat | script.js:82-144 | With no supported format the share holds the stream, nothing records, and the start-recording message is shown. |
| Scenarios.FragmentsBecomeOneRecording | script.js:106-129 | Two fragments around an empty one, a second of recording and a stop give one recording of the fragments' bytes in order, one second long. |
| Scenarios.DeleteOlderTake | script.js:178-184 | Of two takes the newer is listed first. Deleting an unknown id changes nothing (an assertion in the body). Deleting the older take revokes exactly its URL and leaves the newer. |
| Scenarios.TeardownRevokesAll | script.js:186-194 | Closing the page mid-recording (an assertion in the body confirms the third take is recording) with two takes kept revokes both URLs, newest first, and leaves no timer running. |
| Scenarios.PauseResume | script.js:159-169 | Pausing and resuming restores the pause flag. |
| Scenarios.StoppedClockHolds | script.js:146-157 | After a stop the clock no longer advances: a second later it still shows the recording's length. |
| Scenarios.LeakedTimerKeepsCounting | script.js:131-157 | A second start while recording leaves a timer that the stop does not clear; it keeps adding seconds while nothing records. |
| Scenarios.LateStopLeaksUrl | script.js:186-194 | A `stop` event after the unmount hook lists a recording whose URL is never revoked. |

## Left out

- Recorder.RecorderController.StartScreenShare: `startScreenShare` is `async`. The `await`s at script.js:28 and 35 split it: `error.value = ""` runs before the prompt and the rest after it, and timer seconds, encoder events and clicks can run in between. The model runs it as one step.
- Capture acquisition (script.js:28-49): `getDisplayMedia`, the camera request and the merging of tracks by `recordingMode` are not modelled. They only decide which tracks the stream has. The prompt's outcome is the parameter `acquired`.
- The preview element's `srcObject` (script.js:51-53, 77-79): it is display only.
- The track `ended` listener (script.js:58-60): the browser calls `stopScreenShare`, which the model allows at any time.
- `downloadRecording` (script.js:171-176): it only builds a DOM anchor and clicks it.
- Recorder.RecorderController.StartRecording: only an unsupported format is modelled as a failure. `new MediaRecorder` (script.js:104) or `start` (script.js:131) can also throw for reasons that depend on the browser; the `catch` at script.js:140-143 then sets the message, and the chunks are already emptied. A throw from `new MediaRecorder` leaves `mediaRecorder` as it was. A throw from `start` comes after `mediaRecorder` was assigned, so it leaves a new encoder that never started, with its `dataavailable` and `stop` handlers attached; if a recording was running, later `stopRecording` and `togglePause` act on that new encoder instead of the running one. Neither failure is modelled.
- Recorder.RecorderController.DataAvailable: the event order of the encoder is not constrained. `DataAvailable` and `EncoderStopped` may be called at any time, which is a superset of what a browser delivers.
- Recorder.RecorderController.EncoderStopped: it requires a URL not created before, which is what `URL.createObjectURL` guarantees. It does not state the list's URL log while the page is unmounted beyond "nothing revoked twice".
- Recorder.RecorderController.DeleteRecording: it requires the page to be mounted, because the delete buttons are gone after unmount.
- Recorder.RecorderController.Tick: real-time scheduling is not modelled. One call is one second in which every live interval fires once. `recordingTime` is a JavaScript number; the model keeps it a `nat` and writes out the one place where that matters: `++` stops changing the value at 2^53, so `Tick` never counts past `MaxExactSeconds`.
- Encoding itself (`MediaRecorder` pause, resume, stop and the data it produces), `Blob` and URL internals, and `console.error` logging are not modelled.
- Vue reactivity, `computed` caching and the object `setup()` returns (script.js:196-214) are not modelled.
- TimeFormat.Decimal writes every digit of any `nat`, whereas `Number.prototype.toString` switches to exponent notation from 10^21. The display never reaches that: the clock stops at 2^53 seconds, so the minutes shown stay below 1.6·10^14.
