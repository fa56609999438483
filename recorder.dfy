/** The recorder controller: the state kept by the component's `setup()` in
    script.js and the operations and browser events that change it.

    Browser collaborators are abstracted: the capture stream is only present
    or absent, the `MediaRecorder` is the options it was built with, blobs are
    their bytes, object URLs are opaque handles, `setInterval` timers are
    counted, and `Date.now()`, `toLocaleString()`, `isTypeSupported` and the
    outcome of the permission prompt are parameters. The ghost fields
    `issued` and `released` log the object URLs created and revoked. */
module Recorder {
  import opened Wrappers
  import opened RecordingList
  import MimeSelection
  import TimeFormat

  /** The `MediaRecorder` held in `mediaRecorder`, as the options it was built with. */
  datatype Encoder = Encoder(mimeType: MimeSelection.MimeType, videoBitsPerSecond: nat, timesliceMs: nat)

  const VideoBitsPerSecond: nat := 8000000
  const TimesliceMs: nat := 1000
  /** `recordingTime` is a JavaScript number: `++` is exact below 2^53, and at
      2^53 the sum 2^53 + 1 rounds back to 2^53, so the count stays there. */
  const MaxExactSeconds: nat := 0x20_0000_0000_0000
  /** The type given to every assembled blob, whatever format was recorded. */
  const BlobMimeType: string := "video/webm"
  const ScreenAccessError: string := "Failed to access screen. Please grant permission and try again."
  const StartRecordingError: string := "Failed to start recording. Please try again."

  /** Multiplicities in a union of multisets of URLs; kept apart from the class
      so the ledger proofs see only the multisets. */
  lemma LedgerRelease(live: multiset<Url>, rest: multiset<Url>, released: multiset<Url>, issued: multiset<Url>, u: Url)
    requires live == rest + multiset{u}
    requires live + released == issued
    requires issued[u] <= 1
    ensures rest + (released + multiset{u}) == issued
    ensures u !in rest
  {
  }

  /** No URL is created twice. While mounted, every URL ever created is
      either held by exactly one recording in the list or has been revoked
      exactly once; after unmount, every revoked URL was created and none was
      revoked twice. */
  ghost predicate UrlLedger(recordings: seq<Recording>, issued: set<Url>, released: seq<Url>, mounted: bool)
  {
    && (mounted ==> multiset(UrlsOf(recordings)) + multiset(released) == multiset(issued))
    && (!mounted ==> multiset(released) <= multiset(issued))
  }

  /** The recordings list is newest first and agrees with the URL log. */
  ghost predicate ListInvariant(recordings: seq<Recording>, issued: set<Url>, released: seq<Url>, mounted: bool)
  {
    NewestFirst(recordings) && UrlLedger(recordings, issued, released, mounted)
  }

  /** Pushing a recording with a fresh URL and re-sorting is inserting it
      before the first older entry: the list gains exactly that entry, stays
      newest first, and the URL log stays balanced. */
  lemma AddKeepsLedger(recs: seq<Recording>, issued: set<Url>, released: seq<Url>, mounted: bool, rec: Recording)
    requires ListInvariant(recs, issued, released, mounted)
    requires rec.url !in issued
    ensures var r := SortNewestFirst(recs + [rec]);
      && r == InsertNewestFirst(recs, rec)
      && multiset(r) == multiset(recs) + multiset{rec}
      && ListInvariant(r, issued + {rec.url}, released, mounted)
  {
    PushThenSort(recs, rec);
    InsertPermutes(recs, rec);
    InsertSorted(recs, rec);
    InsertUrls(recs, rec);
    assert multiset(issued + {rec.url}) == multiset(issued) + multiset{rec.url};
  }

  /** Revoking the URL of every listed recording leaves every created URL
      revoked exactly once. */
  lemma ReleaseAllKeepsLedger(recs: seq<Recording>, issued: set<Url>, released: seq<Url>)
    requires UrlLedger(recs, issued, released, true)
    ensures multiset(released + UrlsOf(recs)) == multiset(issued)
    ensures UrlLedger(recs, issued, released + UrlsOf(recs), false)
  {
  }

  class RecorderController {
    /** `mediaStream.value !== null` */
    var hasStream: bool
    /** `mediaRecorder.value`: set by a successful start, never cleared. */
    var recorder: Option<Encoder>
    var recordedChunks: seq<Chunk>
    var isRecording: bool
    var isPaused: bool
    var recordingTime: nat
    var recordings: seq<Recording>
    var error: string
    /** `recordingInterval.value !== null` */
    var intervalSet: bool
    /** Number of `setInterval` timers armed and not yet cleared. */
    var timers: nat

    /** Object URLs created so far. */
    ghost var issued: set<Url>
    /** Object URLs revoked so far, in order. */
    ghost var released: seq<Url>
    /** False once the unmount hook has run. */
    ghost var mounted: bool

    /** The controller's invariant: the flags agree with each other and the
        recordings list agrees with the URL log. */
    ghost predicate Valid()
      reads this
    {
      FlagsValid() && ListValid()
    }

    /** Paused only while recording, recording only with a stream and an
        encoder, and `recordingInterval` set exactly while recording. */
    ghost predicate FlagsValid()
      reads this`isPaused, this`isRecording, this`hasStream, this`recorder, this`intervalSet, this`timers
    {
      && (isPaused ==> isRecording)
      && (isRecording ==> hasStream && recorder.Some?)
      && intervalSet == isRecording
      && (intervalSet ==> timers >= 1)
    }

    /** The list is newest first and agrees with the URL log (see `UrlLedger`). */
    ghost predicate ListValid()
      reads this`recordings, this`issued, this`released, this`mounted
    {
      ListInvariant(recordings, issued, released, mounted)
    }

    /** No timer is running besides the one `recordingInterval` refers to. */
    predicate SingleTimer()
      reads this
    {
      timers == if intervalSet then 1 else 0
    }

    /** `formattedTime`: the `MM:SS` display, which reads back as `recordingTime`. */
    function FormattedTime(): (r: string)
      reads this
      ensures TimeFormat.ParseClock(r) == Some(recordingTime)
    {
      TimeFormat.FormattedTimeRoundTrip(recordingTime);
      TimeFormat.FormattedTime(recordingTime)
    }

    /** The refs' initial values in `setup()`. */
    constructor ()
      ensures Valid() && mounted && SingleTimer()
      ensures !hasStream && recorder.None? && recordedChunks == []
      ensures !isRecording && !isPaused && recordingTime == 0
      ensures recordings == [] && error == "" && !intervalSet && timers == 0
      ensures issued == {} && released == []
    {
      hasStream, recorder, recordedChunks := false, None, [];
      isRecording, isPaused, recordingTime := false, false, 0;
      recordings, error, intervalSet, timers := [], "", false, 0;
      issued, released, mounted := {}, [], true;
    }

    /** `startRecording`: without a stream nothing happens. Otherwise the chunk
        buffer is emptied, then the first supported MIME type is chosen; when
        there is none the error message is set and no encoder or timer is
        created; else a new encoder replaces the old one, recording starts from
        0 seconds and one more timer is armed (a timer armed by an earlier start
        that was never stopped keeps running). `isPaused` is left as it was. */
    method StartRecording(isTypeSupported: MimeSelection.MimeType -> bool)
      requires FlagsValid()
      modifies this`recordedChunks, this`recorder, this`isRecording, this`recordingTime,
               this`intervalSet, this`timers, this`error
      ensures FlagsValid()
      ensures !old(hasStream) ==> unchanged(this)
      ensures old(hasStream) ==> recordedChunks == []
      ensures var m := MimeSelection.FirstSupported(MimeSelection.PreferredMimeTypes, isTypeSupported);
        old(hasStream) && m.None? ==>
          && error == StartRecordingError && recorder == old(recorder)
          && isRecording == old(isRecording) && recordingTime == old(recordingTime)
          && intervalSet == old(intervalSet) && timers == old(timers)
      ensures var m := MimeSelection.FirstSupported(MimeSelection.PreferredMimeTypes, isTypeSupported);
        old(hasStream) && m.Some? ==>
          && recorder == Some(Encoder(m.value, VideoBitsPerSecond, TimesliceMs))
          && isRecording && recordingTime == 0
          && intervalSet && timers == old(timers) + 1 && error == old(error)
      ensures old(SingleTimer()) && !old(isRecording) ==> SingleTimer()
    {
      if !hasStream {
        return;
      }
      recordedChunks := [];
      var selected := MimeSelection.SelectMimeType(isTypeSupported);
      if selected.None? {
        error := StartRecordingError;
        return;
      }
      recorder := Some(Encoder(selected.value, VideoBitsPerSecond, TimesliceMs));
      isRecording := true;
      recordingTime := 0;
      timers := timers + 1;
      intervalSet := true;
    }

    /** `startScreenShare`, with the permission prompt's outcome as `acquired`
        (the camera request only changes which tracks the stream has). The
        error message is cleared; a refusal sets the screen-access message and
        changes nothing else; otherwise the stream is held and recording is
        started at once. */
    method StartScreenShare(acquired: bool, isTypeSupported: MimeSelection.MimeType -> bool)
      requires FlagsValid()
      modifies this`hasStream, this`recordedChunks, this`recorder, this`isRecording,
               this`recordingTime, this`intervalSet, this`timers, this`error
      ensures FlagsValid()
      ensures !acquired ==> error == ScreenAccessError && unchanged(this`hasStream, this`recordedChunks,
        this`recorder, this`isRecording, this`recordingTime, this`intervalSet, this`timers)
      ensures acquired ==> hasStream && recordedChunks == []
      ensures var m := MimeSelection.FirstSupported(MimeSelection.PreferredMimeTypes, isTypeSupported);
        acquired && m.None? ==>
          && error == StartRecordingError && recorder == old(recorder)
          && isRecording == old(isRecording) && recordingTime == old(recordingTime)
          && intervalSet == old(intervalSet) && timers == old(timers)
      ensures var m := MimeSelection.FirstSupported(MimeSelection.PreferredMimeTypes, isTypeSupported);
        acquired && m.Some? ==>
          && recorder == Some(Encoder(m.value, VideoBitsPerSecond, TimesliceMs))
          && isRecording && recordingTime == 0
          && intervalSet && timers == old(timers) + 1 && error == ""
    {
      error := "";
      if !acquired {
        error := ScreenAccessError;
        return;
      }
      hasStream := true;
      StartRecording(isTypeSupported);
    }

    /** `stopRecording`: acts only when an encoder exists and recording is on;
        then the encoder is told to stop (its completion arrives later as
        `EncoderStopped`), both flags drop and the referenced timer is cleared. */
    method StopRecording()
      requires FlagsValid()
      modifies this`isRecording, this`isPaused, this`intervalSet, this`timers
      ensures FlagsValid()
      ensures old(recorder.Some? && isRecording) ==>
        !isRecording && !isPaused && !intervalSet && timers == old(timers) - 1
      ensures !old(recorder.Some? && isRecording) ==> unchanged(this)
      ensures old(SingleTimer()) ==> SingleTimer()
    {
      if recorder.Some? && isRecording {
        isRecording := false;
        isPaused := false;
        if intervalSet {
          timers := timers - 1;
          intervalSet := false;
        }
      }
    }

    /** `togglePause`: a no-op unless an encoder exists and recording is on;
        otherwise pauses or resumes (the encoder follows the flag). */
    method TogglePause()
      requires FlagsValid()
      modifies this`isPaused
      ensures FlagsValid()
      ensures isPaused == if old(recorder.Some? && isRecording) then !old(isPaused) else old(isPaused)
    {
      if recorder.None? || !isRecording {
        return;
      }
      if isPaused {
        isPaused := false;
      } else {
        isPaused := true;
      }
    }

    /** `stopScreenShare`: stops an active recording first, then stops the
        stream's tracks and drops the stream. A second call changes nothing. */
    method StopScreenShare()
      requires FlagsValid()
      modifies this`isRecording, this`isPaused, this`intervalSet, this`timers, this`hasStream
      ensures FlagsValid()
      ensures !hasStream && !isRecording && !isPaused && !intervalSet
      ensures timers == old(timers) - (if old(isRecording) then 1 else 0)
      ensures !old(hasStream) && !old(isRecording) ==> unchanged(this)
      ensures old(SingleTimer()) ==> SingleTimer()
    {
      if isRecording {
        StopRecording();
      }
      if hasStream {
        hasStream := false;
      }
    }

    /** One second of wall-clock time passes: every armed timer fires once, and
        each firing adds a second unless recording is paused. The count never
        passes `MaxExactSeconds`, where the number's `++` stops changing it. */
    method Tick()
      modifies this`recordingTime
      ensures var k := if isPaused then 0 else timers;
        old(recordingTime) + k <= MaxExactSeconds ==> recordingTime == old(recordingTime) + k
      ensures var k := if isPaused then 0 else timers;
        old(recordingTime) < MaxExactSeconds < old(recordingTime) + k ==> recordingTime == MaxExactSeconds
      ensures old(recordingTime) >= MaxExactSeconds ==> recordingTime == old(recordingTime)
    {
      var n := 0;
      while n < timers
        invariant 0 <= n <= timers
        invariant var k := if isPaused then 0 else n;
          recordingTime == if old(recordingTime) + k <= MaxExactSeconds then old(recordingTime) + k
                           else if old(recordingTime) < MaxExactSeconds then MaxExactSeconds
                           else old(recordingTime)
      {
        if !isPaused && recordingTime < MaxExactSeconds {
          recordingTime := recordingTime + 1;
        }
        n := n + 1;
      }
    }

    /** The encoder's `dataavailable` event: a non-empty chunk is appended. */
    method DataAvailable(chunk: Chunk)
      modifies this`recordedChunks
      ensures recordedChunks == old(recordedChunks) + (if chunk.Size() > 0 then [chunk] else [])
      ensures Concat(recordedChunks) == Concat(old(recordedChunks)) + chunk.bytes
    {
      ConcatPush(recordedChunks, chunk);
      if chunk.Size() > 0 {
        recordedChunks := recordedChunks + [chunk];
      }
    }

    /** The encoder's `stop` event: the buffered chunks become one recording
        with a fresh object URL, the given id and timestamp and the current
        elapsed time; it is pushed and the list re-sorted newest first; the
        buffer is emptied. */
    method EncoderStopped(id: int, url: Url, timestamp: string)
      requires ListValid()
      requires url !in issued
      modifies this`recordings, this`recordedChunks, this`issued
      ensures ListValid()
      ensures var rec := Recording(id, url, Blob(Concat(old(recordedChunks)), BlobMimeType), timestamp, recordingTime);
        && recordings == InsertNewestFirst(old(recordings), rec)
        && multiset(recordings) == multiset(old(recordings)) + multiset{rec}
      ensures recordedChunks == []
      ensures issued == old(issued) + {url}
    {
      var blob := Blob(Concat(recordedChunks), BlobMimeType);
      var rec := Recording(id, url, blob, timestamp, recordingTime);
      AddKeepsLedger(recordings, issued, released, mounted, rec);
      recordings := recordings + [rec];
      recordings := SortNewestFirst(recordings);
      recordedChunks := [];
      issued := issued + {url};
    }

    /** `deleteRecording`: the first recording with this id, if any, has its URL
        revoked and is removed; the others keep their order. */
    method DeleteRecording(id: int)
      requires ListValid() && mounted
      modifies this`recordings, this`released
      ensures ListValid()
      ensures var i := FindIndex(old(recordings), id);
        && (i == -1 ==> recordings == old(recordings) && released == old(released))
        && (i != -1 ==> recordings == RemoveAt(old(recordings), i)
                        && released == old(released) + [old(recordings)[i].url]
                        && old(recordings)[i].url !in UrlsOf(recordings))
    {
      var index := FindIndex(recordings, id);
      if index != -1 {
        var gone := recordings[index];
        ghost var before := recordings;
        released := released + [gone.url];
        recordings := RemoveAt(recordings, index);
        RemoveAtSorted(before, index);
        RemoveAtUrls(before, index);
        LedgerRelease(multiset(UrlsOf(before)), multiset(UrlsOf(recordings)),
                      multiset(old(released)), multiset(issued), gone.url);
      }
    }

    /** The unmount hook: stop sharing (which stops an active recording) and
        revoke the URL of every recording still listed. The hook's second
        `clearInterval` finds `recordingInterval` already null, since stopping
        the share stopped the recording that held it. */
    method Unmount()
      requires Valid() && mounted
      modifies this`isRecording, this`isPaused, this`intervalSet, this`timers, this`hasStream,
               this`released, this`mounted
      ensures Valid() && !mounted
      ensures !hasStream && !isRecording && !isPaused && !intervalSet
      ensures timers == old(timers) - (if old(isRecording) then 1 else 0)
      ensures released == old(released) + UrlsOf(recordings)
      ensures multiset(released) == multiset(issued)
      ensures old(SingleTimer()) ==> timers == 0
    {
      StopScreenShare();
      RevokeAll();
    }

    /** The `forEach` of the unmount hook: revoke every listed recording's URL,
        in list order. */
    method RevokeAll()
      requires ListValid() && mounted
      modifies this`released, this`mounted
      ensures ListValid() && !mounted
      ensures released == old(released) + UrlsOf(recordings)
      ensures multiset(released) == multiset(issued)
    {
      ghost var revoked := UrlsOf(recordings);
      ReleaseAllKeepsLedger(recordings, issued, released);
      var i := 0;
      while i < |recordings|
        invariant 0 <= i <= |recordings|
        invariant released == old(released) + revoked[..i]
        modifies this`released
      {
        assert revoked[..i + 1] == revoked[..i] + [recordings[i].url];
        released := released + [recordings[i].url];
        i := i + 1;
      }
      assert revoked[..i] == revoked;
      mounted := false;
    }
  }
}
