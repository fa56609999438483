/** Sessions driven through the controller the way the page and the browser
    drive the component: a user action, the timer, the encoder's events. */
module Scenarios {
  import opened Wrappers
  import opened RecordingList
  import opened Recorder
  import MimeSelection
  import TimeFormat

  /** A browser whose `isTypeSupported` accepts only plain WebM. */
  function WebmOnly(t: MimeSelection.MimeType): bool
  {
    t == MimeSelection.Webm
  }

  /** Only the fourth preference, plain WebM, is chosen by such a browser. */
  lemma WebmOnlySelects()
    ensures MimeSelection.FirstSupported(MimeSelection.PreferredMimeTypes, WebmOnly)
            == Some(MimeSelection.Webm)
  {
    var p := MimeSelection.PreferredMimeTypes;
    assert p[1..][1..][1..] == [MimeSelection.Webm, MimeSelection.Mp4];
  }

  /** A fresh page on which sharing was granted in a WebM-only browser: it
      is recording from 0 seconds with one timer armed and nothing kept yet. */
  method Sharing() returns (c: RecorderController)
    ensures fresh(c) && c.Valid() && c.mounted
    ensures c.hasStream && c.isRecording && !c.isPaused && c.recordingTime == 0 && c.timers == 1
    ensures c.recordedChunks == [] && c.recordings == [] && c.issued == {} && c.released == []
  {
    c := new RecorderController();
    WebmOnlySelects();
    c.StartScreenShare(true, WebmOnly);
  }

  /** Three seconds, a pause over two seconds, then two more seconds: the
      display shows five seconds. */
  method PausedSecondsNotCounted() returns (elapsed: nat, shown: string)
    ensures elapsed == 5
    ensures shown == "00:05"
  {
    var c := Sharing();
    c.Tick(); c.Tick(); c.Tick();
    c.TogglePause();
    c.Tick(); c.Tick();
    c.TogglePause();
    c.Tick(); c.Tick();
    elapsed := c.recordingTime;
    shown := c.FormattedTime();
    TimeFormat.FormattedTimeDigits(5);
    assert TimeFormat.DigitChar(0) == '0' && TimeFormat.DigitChar(5) == '5';
  }

  /** A refused permission prompt leaves the controller idle with the
      screen-access message. */
  method RefusedPrompt() returns (recording: bool, message: string)
    ensures !recording && message == ScreenAccessError
  {
    var c := new RecorderController();
    c.StartScreenShare(false, WebmOnly);
    recording, message := c.isRecording, c.error;
  }

  /** A browser that supports none of the preferred formats: the start fails
      with the recording message and nothing records. */
  method NoSupportedFormat() returns (recording: bool, streaming: bool, message: string)
    ensures !recording && streaming && message == StartRecordingError
  {
    var c := new RecorderController();
    c.StartScreenShare(true, (t: MimeSelection.MimeType) => false);
    recording, streaming, message := c.isRecording, c.hasStream, c.error;
  }

  /** Two non-empty fragments around an empty one, a second of recording,
      then a stop: a single recording holding the fragments' bytes in order,
      one second long. */
  method FragmentsBecomeOneRecording(f1: Chunk, f2: Chunk, url: Url)
    returns (list: seq<Recording>, buffered: seq<Chunk>)
    ensures list == [Recording(1000, url, Blob(f1.bytes + f2.bytes, BlobMimeType), "now", 1)]
    ensures buffered == []
  {
    var c := RecordFragments(f1, f2);
    c.EncoderStopped(1000, url, "now");
    list, buffered := c.recordings, c.recordedChunks;
  }

  /** The encoder's fragments over a second of recording, then a stop whose
      `stop` event has not arrived yet. */
  method RecordFragments(f1: Chunk, f2: Chunk) returns (c: RecorderController)
    ensures fresh(c) && c.ListValid() && c.issued == {} && c.recordings == []
    ensures Concat(c.recordedChunks) == f1.bytes + f2.bytes
    ensures !c.isRecording && c.recordingTime == 1
  {
    c := Sharing();
    c.DataAvailable(f1);
    c.DataAvailable(Chunk([]));
    c.DataAvailable(f2);
    assert Concat(c.recordedChunks) == [] + f1.bytes + [] + f2.bytes;
    c.Tick();
    c.StopRecording();
  }

  /** One take, stopped and assembled, with sharing still on. */
  method OneTake(u1: Url) returns (c: RecorderController)
    ensures fresh(c) && c.Valid() && c.mounted && c.hasStream && !c.isRecording && c.timers == 0
    ensures |c.recordings| == 1 && c.recordings[0].id == 1000 && c.recordings[0].url == u1
    ensures c.issued == {u1} && c.released == []
  {
    c := Sharing();
    c.StopRecording();
    c.EncoderStopped(1000, u1, "first");
  }

  /** A second take recorded and stopped after the first; its `stop` event
      has not arrived yet. */
  method SecondTakeStopped(u1: Url) returns (c: RecorderController)
    ensures fresh(c) && c.Valid() && c.mounted && c.hasStream && !c.isRecording && c.timers == 0
    ensures |c.recordings| == 1 && c.recordings[0].id == 1000 && c.recordings[0].url == u1
    ensures c.issued == {u1} && c.released == []
  {
    c := OneTake(u1);
    WebmOnlySelects();
    c.StartRecording(WebmOnly);
    c.StopRecording();
  }

  /** The second take's `stop` event: the list shows the later take first. */
  method TwoTakes(u1: Url, u2: Url) returns (c: RecorderController)
    requires u1 != u2
    ensures fresh(c) && c.Valid() && c.mounted && c.hasStream && !c.isRecording && c.timers == 0
    ensures UrlsOf(c.recordings) == [u2, u1] && c.recordings[0].id == 2000 && c.recordings[1].id == 1000
    ensures c.released == []
  {
    c := SecondTakeStopped(u1);
    ghost var one := c.recordings;
    c.EncoderStopped(2000, u2, "second");
    assert c.recordings == [c.recordings[0]] + one;
  }

  /** Deleting an unknown id changes nothing; deleting the older of two takes
      revokes exactly its URL and leaves the newer one. */
  method DeleteOlderTake(u1: Url, u2: Url) returns (ids: seq<int>, ghost revoked: seq<Url>)
    requires u1 != u2
    ensures ids == [2000] && revoked == [u1]
  {
    var c := TwoTakes(u1, u2);
    ghost var two := c.recordings;
    c.DeleteRecording(3000);
    assert c.recordings == two && c.released == [];
    c.DeleteRecording(1000);
    assert FindIndex(two, 1000) == 1;
    ids := [c.recordings[0].id];
    revoked := c.released;
  }

  /** Closing the page while a third take is recording: sharing and the
      timer stop, and both kept URLs are revoked, newest first. */
  method TeardownRevokesAll(u1: Url, u2: Url) returns (ghost revoked: seq<Url>, running: nat)
    requires u1 != u2
    ensures revoked == [u2, u1] && running == 0
  {
    var c := TwoTakes(u1, u2);
    c.StartRecording(WebmOnly);
    assert c.isRecording;
    c.Unmount();
    revoked := c.released;
    running := c.timers;
  }

  /** Pausing and resuming returns the controller to the state it was in. */
  method PauseResume(c: RecorderController)
    requires c.FlagsValid()
    modifies c`isPaused
    ensures c.FlagsValid() && c.isPaused == old(c.isPaused)
  {
    c.TogglePause();
    c.TogglePause();
  }

  /** After a stop no timer is left, so the clock shows the recording's
      length however much time passes. */
  method StoppedClockHolds() returns (atStop: nat, later: nat)
    ensures atStop == 1 && later == 1
  {
    var c := Sharing();
    c.Tick();
    c.StopRecording();
    atStop := c.recordingTime;
    c.Tick();
    later := c.recordingTime;
  }

  /** Starting again while recording arms a second interval and clears
      neither; the stop clears only the one `recordingInterval` refers to, so
      the other keeps adding seconds while nothing records. */
  method LeakedTimerKeepsCounting() returns (recording: bool, running: nat, elapsed: nat)
    ensures !recording && running == 1 && elapsed == 1
  {
    var c := Sharing();
    WebmOnlySelects();
    c.StartRecording(WebmOnly);
    c.StopRecording();
    c.Tick();
    recording, running, elapsed := c.isRecording, c.timers, c.recordingTime;
  }

  /** The encoder's `stop` event arriving after the unmount hook: the new
      recording is listed but its URL is never revoked. */
  method LateStopLeaksUrl(u: Url) returns (listed: seq<Url>, ghost revoked: seq<Url>)
    ensures listed == [u] && u !in revoked
  {
    var c := Sharing();
    c.StopRecording();
    c.Unmount();
    c.EncoderStopped(1000, u, "late");
    listed := UrlsOf(c.recordings);
    revoked := c.released;
  }
}
