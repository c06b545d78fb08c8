/** The recording session of script.js (`ScreenRecorder`): the capture
    constraints, the encoder format choice, the recording/paused flags, the
    chunk buffer, and the in-memory recordings list with its persisted copy.
    The browser's capture, encoder, file reader and storage are parameters. */
module Recorder {
  import opened Records
  import opened Formatting
  import StorageManagement

  // ----- capture constraints -----

  datatype VideoConstraints = VideoConstraints(frameRate: int, width: Option<nat>, height: Option<nat>)

  datatype Constraints = Constraints(video: VideoConstraints, audio: bool)

  /** `getScreenConstraints` for a quality tier and a frame rate: audio is
      always off, the frame rate passes through, and the three known tiers set
      a width and a height whose height is the number in the tier's name. */
  function GetScreenConstraints(quality: string, frameRate: int): (c: Constraints)
    ensures !c.audio && c.video.frameRate == frameRate
    ensures c.video.width.Some? <==> quality in {"1080p", "720p", "480p"}
    ensures c.video.height.Some? <==> c.video.width.Some?
    ensures c.video.height.Some? ==> quality == Digits(c.video.height.value) + "p"
    ensures quality == "1080p" ==> c.video.width == Some(1920)
    ensures quality == "720p" ==> c.video.width == Some(1280)
    ensures quality == "480p" ==> c.video.width == Some(854)
  {
    var size: (Option<nat>, Option<nat>) :=
      match quality
      case "1080p" => (Some(1920), Some(1080))
      case "720p" => (Some(1280), Some(720))
      case "480p" => (Some(854), Some(480))
      case _ => (None, None);
    assert Digits(1080) == "1080" && Digits(720) == "720" && Digits(480) == "480";
    Constraints(VideoConstraints(frameRate, size.0, size.1), false)
  }

  // ----- encoder format -----

  /** The container/codec pairs tried, most preferred first. */
  const MimePreferences: seq<string> :=
    ["video/webm;codecs=vp9", "video/webm;codecs=vp8", "video/webm", "video/mp4"]

  const FallbackMime: string := "video/webm"

  ghost predicate AnySupported(isTypeSupported: string -> bool)
  {
    exists i :: 0 <= i < |MimePreferences| && isTypeSupported(MimePreferences[i])
  }

  /** `mime` is the first preference the browser supports. */
  ghost predicate FirstSupported(mime: string, isTypeSupported: string -> bool)
  {
    exists i :: 0 <= i < |MimePreferences| && MimePreferences[i] == mime && isTypeSupported(mime) &&
                forall j :: 0 <= j < i ==> !isTypeSupported(MimePreferences[j])
  }

  /** `getSupportedMimeType`: the first supported preference, or the generic
      WebM tag when none is supported. */
  method GetSupportedMimeType(isTypeSupported: string -> bool) returns (mime: string)
    ensures AnySupported(isTypeSupported) ==> FirstSupported(mime, isTypeSupported)
    ensures !AnySupported(isTypeSupported) ==> mime == FallbackMime
  {
    var i := 0;
    while i < |MimePreferences|
      invariant i <= |MimePreferences|
      invariant forall j :: 0 <= j < i ==> !isTypeSupported(MimePreferences[j])
    {
      if isTypeSupported(MimePreferences[i]) {
        return MimePreferences[i];
      }
      i := i + 1;
    }
    return FallbackMime;
  }

  /** When no preference is supported the fallback is not supported either,
      since it is itself one of the preferences. */
  lemma FallbackUnsupported(isTypeSupported: string -> bool)
    requires !AnySupported(isTypeSupported)
    ensures !isTypeSupported(FallbackMime)
  {
    assert MimePreferences[2] == FallbackMime;
  }

  // ----- media -----

  /** One piece of encoded media handed over by the encoder. */
  datatype Chunk = Chunk(bytes: seq<bv8>)
  {
    function Size(): nat { |bytes| }
  }

  function ChunksSize(parts: seq<Chunk>): nat
  {
    if parts == [] then 0 else parts[0].Size() + ChunksSize(parts[1..])
  }

  /** A `Blob` assembled from chunks; its size is the sum of theirs. */
  datatype Blob = Blob(parts: seq<Chunk>, mimeType: string)
  {
    function Size(): nat { ChunksSize(parts) }
  }

  /** A non-empty list of non-empty chunks has a non-zero size. */
  lemma ChunksSizePositive(parts: seq<Chunk>)
    requires parts != []
    requires forall i :: 0 <= i < |parts| ==> parts[i].Size() > 0
    ensures ChunksSize(parts) > 0
  {
  }

  /** A captured display stream, opaque here. */
  datatype StreamHandle = StreamHandle(id: nat)

  /** MediaRecorder's `state`. */
  datatype EncoderState = Inactive | Active | Suspended

  /** The `MediaRecorder` object: the stream it encodes, its format, its state. */
  datatype Encoder = Encoder(stream: StreamHandle, mimeType: string, state: EncoderState)

  datatype CaptureError = CaptureDenied | RecorderUnsupported

  datatype StartOutcome = Started | Failed(error: CaptureError)

  /** How many recordings `saveRecordingsToStorage` keeps. */
  const MaxPersisted: nat := 10

  /** `slice(-n)`: the last `n` entries, or all of them when there are fewer. */
  function KeepLast(s: seq<Recording>, n: nat): (r: seq<Recording>)
    ensures |r| == if |s| <= n then |s| else n
    ensures s == s[..|s| - |r|] + r
  {
    if |s| <= n then s else s[|s| - n..]
  }

  // ----- the two truncation rules for the same key -----

  /** Insertion order is chronological: each entry is strictly newer than the
      ones before it. */
  ghost predicate Chronological(s: seq<Recording>)
  {
    forall i, j :: 0 <= i < j < |s| ==> s[i].date < s[j].date
  }

  function Reverse(s: seq<Recording>): (r: seq<Recording>)
    ensures |r| == |s|
    ensures forall i :: 0 <= i < |s| ==> r[i] == s[|s| - 1 - i]
  {
    if s == [] then [] else Reverse(s[1..]) + [s[0]]
  }

  lemma {:induction false} InsertOldest(x: Recording, t: seq<Recording>)
    requires forall y :: y in t ==> x.date < y.date
    ensures Insert(x, t) == t + [x]
  {
    if t != [] {
      assert t[0] in t;
      assert forall y :: y in t[1..] ==> y in t;
      InsertOldest(x, t[1..]);
      assert [t[0]] + (t[1..] + [x]) == t + [x];
    }
  }

  lemma {:induction false} SortChronological(s: seq<Recording>)
    requires Chronological(s)
    ensures SortNewestFirst(s) == Reverse(s)
  {
    if s != [] {
      SortChronological(s[1..]);
      forall y | y in Reverse(s[1..])
        ensures s[0].date < y.date
      {
        var k :| 0 <= k < |s[1..]| && Reverse(s[1..])[k] == y;
        assert y == s[|s[1..]| - 1 - k + 1];
      }
      InsertOldest(s[0], Reverse(s[1..]));
    }
  }

  /** When entries were added in date order, the two rules keep the same ten
      records: storage-manager.js's first ten of the newest-first list are
      script.js's last ten in insertion order, reversed. */
  lemma TruncationRulesAgreeWhenChronological(s: seq<Recording>)
    requires Chronological(s)
    ensures StorageManagement.TruncateCount(SortNewestFirst(s), MaxPersisted) == Reverse(KeepLast(s, MaxPersisted))
  {
    SortChronological(s);
    TruncateReversed(s, MaxPersisted);
  }

  lemma TruncateReversed(s: seq<Recording>, n: nat)
    ensures StorageManagement.TruncateCount(Reverse(s), n) == Reverse(KeepLast(s, n))
  {
    if |s| > n {
      var r := Reverse(s);
      var last := s[|s| - n..];
      var rl := Reverse(last);
      forall i | 0 <= i < n
        ensures r[..n][i] == rl[i]
      {
        assert rl[i] == last[n - 1 - i];
      }
      assert r[..n] == rl;
    }
  }

  /** The usage summary (its integer fields). */
  datatype Usage = Usage(totalSize: nat, recordingsCount: nat)

  class ScreenRecorder {
    var mediaRecorder: Option<Encoder>
    var stream: Option<StreamHandle>
    var isRecording: bool
    var isPaused: bool
    var recordedChunks: seq<Chunk>
    var recordings: seq<Recording>
    /** The value under the 'screenRecordings' storage key. */
    var stored: Slot

    /** Paused only while recording; recording only with an encoder and a
        stream; the buffer holds only non-empty chunks. */
    ghost predicate Valid()
      reads this
    {
      && (isPaused ==> isRecording)
      && (isRecording ==> mediaRecorder.Some? && stream.Some?)
      && (forall i :: 0 <= i < |recordedChunks| ==> recordedChunks[i].Size() > 0)
    }

    /** The constructor's state plus `loadRecordingsFromStorage`: the list
        starts as the stored one, or empty when nothing usable is stored. */
    constructor (initial: Slot)
      ensures Valid()
      ensures mediaRecorder.None? && stream.None? && !isRecording && !isPaused && recordedChunks == []
      ensures stored == initial && recordings == ReadSlot(initial)
    {
      mediaRecorder := None;
      stream := None;
      isRecording := false;
      isPaused := false;
      recordedChunks := [];
      recordings := ReadSlot(initial);
      stored := initial;
    }

    /** `startRecording`. `displayMedia` is the browser's answer to the capture
        request (None when the user declines or capture is unavailable) and
        `isTypeSupported` its encoder support test. The encoder cannot be built
        when no preference is supported, after the stream was already taken. */
    method StartRecording(quality: string, frameRate: int,
                          displayMedia: Constraints -> Option<StreamHandle>,
                          isTypeSupported: string -> bool)
      returns (outcome: StartOutcome)
      requires Valid()
      modifies this
      ensures Valid()
      ensures recordings == old(recordings) && stored == old(stored) && isPaused == old(isPaused)
      ensures var granted := displayMedia(GetScreenConstraints(quality, frameRate));
        if granted.None? then
          outcome == Failed(CaptureDenied) && unchanged(this)
        else if !AnySupported(isTypeSupported) then
          && outcome == Failed(RecorderUnsupported) && stream == granted
          && mediaRecorder == old(mediaRecorder) && isRecording == old(isRecording)
          && recordedChunks == old(recordedChunks)
        else
          && outcome == Started && stream == granted && isRecording && recordedChunks == []
          && mediaRecorder.Some? && mediaRecorder.value.stream == granted.value
          && mediaRecorder.value.state == Active
          && FirstSupported(mediaRecorder.value.mimeType, isTypeSupported)
    {
      var screenConstraints := GetScreenConstraints(quality, frameRate);
      var granted := displayMedia(screenConstraints);
      if granted.None? {
        return Failed(CaptureDenied);
      }
      stream := granted;
      var mime := GetSupportedMimeType(isTypeSupported);
      if !isTypeSupported(mime) {
        return Failed(RecorderUnsupported);
      }
      if !AnySupported(isTypeSupported) {
        FallbackUnsupported(isTypeSupported);
      }
      mediaRecorder := Some(Encoder(granted.value, mime, Active));
      recordedChunks := [];
      isRecording := true;
      return Started;
    }

    /** `stopRecording`, also run when the shared stream ends. It acts only
        when an encoder exists and a recording is on; afterwards nothing is
        recording or paused, so a second call does nothing. `stopped` says
        whether the encoder was told to stop (and will finalize once). */
    method StopRecording() returns (stopped: bool)
      requires Valid()
      modifies this
      ensures Valid()
      ensures stopped == old(mediaRecorder.Some? && isRecording)
      ensures !isRecording && !isPaused
      ensures !stopped ==> unchanged(this)
      ensures stopped ==> && mediaRecorder == Some(old(mediaRecorder.value).(state := Inactive))
                          && stream.None?
                          && recordedChunks == old(recordedChunks)
                          && recordings == old(recordings) && stored == old(stored)
    {
      if mediaRecorder.Some? && isRecording {
        mediaRecorder := Some(mediaRecorder.value.(state := Inactive));
        stream := None;
        isRecording := false;
        isPaused := false;
        return true;
      }
      return false;
    }

    /** `togglePause`: nothing unless recording; otherwise flip the paused flag
        and suspend or resume the encoder to match. */
    method TogglePause()
      requires Valid()
      modifies this
      ensures Valid()
      ensures !old(isRecording) ==> unchanged(this)
      ensures old(isRecording) ==>
                && isRecording && isPaused == !old(isPaused)
                && mediaRecorder == Some(old(mediaRecorder.value).(state := if isPaused then Suspended else Active))
                && stream == old(stream) && recordedChunks == old(recordedChunks)
                && recordings == old(recordings) && stored == old(stored)
    {
      if !isRecording {
        return;
      }
      if isPaused {
        mediaRecorder := Some(mediaRecorder.value.(state := Active));
        isPaused := false;
      } else {
        mediaRecorder := Some(mediaRecorder.value.(state := Suspended));
        isPaused := true;
      }
    }

    /** The encoder's `ondataavailable`: keep the chunk only if it is non-empty,
        after every chunk already kept. */
    method OnDataAvailable(chunk: Chunk)
      requires Valid()
      modifies this`recordedChunks
      ensures Valid()
      ensures recordedChunks == if chunk.Size() > 0 then old(recordedChunks) + [chunk] else old(recordedChunks)
    {
      if chunk.Size() > 0 {
        recordedChunks := recordedChunks + [chunk];
      }
    }

    /** `saveRecording`, run when the encoder stops: nothing when no chunk was
        kept; otherwise the blob of all kept chunks in order, typed with the
        preferred supported format, never empty, and its file name stamped
        with the current time (`nowIso` is `new Date().toISOString()`). */
    method SaveRecording(isTypeSupported: string -> bool, nowIso: string)
      returns (blob: Option<Blob>, fileName: string)
      requires Valid()
      ensures blob.None? <==> recordedChunks == []
      ensures blob.Some? ==>
                && blob.value.parts == recordedChunks
                && blob.value.Size() > 0
                && (AnySupported(isTypeSupported) ==> FirstSupported(blob.value.mimeType, isTypeSupported))
                && (!AnySupported(isTypeSupported) ==> blob.value.mimeType == FallbackMime)
                && fileName == "recording-" + FormatDate(nowIso) + ".webm"
    {
      if |recordedChunks| == 0 {
        return None, "";
      }
      var mime := GetSupportedMimeType(isTypeSupported);
      ChunksSizePositive(recordedChunks);
      blob := Some(Blob(recordedChunks, mime));
      fileName := "recording-" + FormatDate(nowIso) + ".webm";
    }

    /** The file reader's `onload` in `saveToLocalStorage`: build the record
        (`id`, `dataUrl` and `now` come from the clock and the reader), append
        it, and persist. */
    method SaveToLocalStorage(blob: Blob, fileName: string, kind: string,
                              id: string, dataUrl: string, now: int, accepted: bool)
      requires Valid()
      modifies this`recordings, this`stored
      ensures Valid()
      ensures recordings == old(recordings) + [Recording(id, fileName, dataUrl, blob.Size(), now, kind, blob.mimeType)]
      ensures GetStorageUsage().totalSize == old(GetStorageUsage().totalSize) + blob.Size()
      ensures stored == if accepted then Holds(KeepLast(recordings, MaxPersisted)) else old(stored)
    {
      var recording := Recording(id, fileName, dataUrl, blob.Size(), now, kind, blob.mimeType);
      TotalSizeAppend(recordings, [recording]);
      recordings := recordings + [recording];
      SaveRecordingsToStorage(accepted);
    }

    /** `saveRecordingsToStorage`: write the last ten entries, in insertion
        order, without shortening the in-memory list. A failed write only
        warns. */
    method SaveRecordingsToStorage(accepted: bool)
      requires Valid()
      modifies this`stored
      ensures Valid()
      ensures stored == if accepted then Holds(KeepLast(recordings, MaxPersisted)) else old(stored)
      ensures |ReadSlot(stored)| <= MaxPersisted || stored == old(stored)
    {
      if accepted {
        stored := Holds(KeepLast(recordings, MaxPersisted));
      }
    }

    /** `deleteRecording`, once the user confirmed: drop every entry with the
        id, keep the rest in order, and persist. */
    method DeleteRecording(id: string, confirmed: bool, accepted: bool)
      requires Valid()
      modifies this`recordings, this`stored
      ensures Valid()
      ensures !confirmed ==> unchanged(this)
      ensures confirmed ==> && recordings == WithoutId(old(recordings), id)
                            && stored == (if accepted then Holds(KeepLast(recordings, MaxPersisted)) else old(stored))
                            && GetStorageUsage().totalSize <= old(GetStorageUsage().totalSize)
    {
      if !confirmed {
        return;
      }
      FilterTotalSize(recordings, (r: Recording) => r.id != id);
      recordings := WithoutId(recordings, id);
      SaveRecordingsToStorage(accepted);
    }

    /** `clearAllRecordings`, once the user confirmed: empty the list and
        persist the empty list. */
    method ClearAllRecordings(confirmed: bool, accepted: bool)
      requires Valid()
      modifies this`recordings, this`stored
      ensures Valid()
      ensures !confirmed ==> unchanged(this)
      ensures confirmed ==> && recordings == []
                            && GetStorageUsage() == Usage(0, 0)
                            && stored == (if accepted then Holds([]) else old(stored))
    {
      if !confirmed {
        return;
      }
      recordings := [];
      SaveRecordingsToStorage(accepted);
    }

    /** `getStorageUsage`: the byte total and the count of the in-memory list. */
    function GetStorageUsage(): (u: Usage)
      reads this
      ensures u.totalSize == TotalSize(recordings) && u.recordingsCount == |recordings|
    {
      Usage(TotalSize(recordings), |recordings|)
    }

    /** The order `displayRecordings` lists entries in: a stable newest-first
        rearrangement of the in-memory list, which itself is left alone. */
    function DisplayOrder(): (shown: seq<Recording>)
      reads this
      ensures NewestFirst(shown)
      ensures multiset(shown) == multiset(recordings)
    {
      SortNewestFirst(recordings)
    }
  }

  /** Stopping twice finalizes once: the second call finds nothing to stop. */
  method StopTwice(recorder: ScreenRecorder) returns (first: bool, second: bool)
    requires recorder.Valid()
    modifies recorder
    ensures first == old(recorder.isRecording)
    ensures !second
  {
    first := recorder.StopRecording();
    second := recorder.StopRecording();
  }
}
