/** The audio recorder widget (frontend/src/components/AudioRecorder.jsx): it
    opens the microphone, buffers the recorder's non-empty data chunks in
    arrival order, and on stop hands one WAV blob to its parent and releases
    the microphone. */
module AudioRecorder {
  import opened Text

  type Byte = b: int | 0 <= b < 256

  /** The payload of one `dataavailable` event; its size is `|data|`. */
  datatype Chunk = Chunk(data: seq<Byte>)

  /** An immutable recording: its bytes and its MIME type. */
  datatype Blob = Blob(data: seq<Byte>, mimeType: string)

  const WavType: string := "audio/wav"

  /** The chunks of `cs` whose size is greater than zero, in their order. */
  function NonEmpty(cs: seq<Chunk>): (r: seq<Chunk>)
    ensures |r| <= |cs|
    ensures forall i :: 0 <= i < |r| ==> |r[i].data| > 0
    ensures forall c :: c in r ==> c in cs
  {
    if cs == [] then []
    else
      var last := cs[|cs| - 1];
      NonEmpty(cs[..|cs| - 1]) + (if |last.data| > 0 then [last] else [])
  }

  /** The bytes of `new Blob(cs)`: the chunks' bytes one after another. */
  function Concat(cs: seq<Chunk>): seq<Byte> {
    if cs == [] then [] else Concat(cs[..|cs| - 1]) + cs[|cs| - 1].data
  }

  /** The blob the `onstop` handler builds from the buffered chunks. */
  function Assemble(cs: seq<Chunk>): (b: Blob)
    ensures b.mimeType == WavType && b.data == Concat(NonEmpty(cs))
  {
    NonEmptyKeepsAudio(cs);
    Blob(Concat(cs), WavType)
  }

  lemma {:induction false} ConcatAppend(a: seq<Chunk>, b: seq<Chunk>)
    ensures Concat(a + b) == Concat(a) + Concat(b)
    decreases |b|
  {
    if b == [] {
      assert a + b == a;
    } else {
      var b' := b[..|b| - 1];
      assert (a + b)[..|a + b| - 1] == a + b';
      ConcatAppend(a, b');
    }
  }

  /** A delivered chunk joins the kept ones exactly when it is non-empty. */
  lemma NonEmptySnoc(cs: seq<Chunk>, c: Chunk)
    ensures NonEmpty(cs + [c]) == NonEmpty(cs) + (if |c.data| > 0 then [c] else [])
  {
    assert (cs + [c])[..|cs|] == cs;
  }

  /** Three chunks, the middle one empty, hold the bytes of the other two. */
  lemma ConcatSkipsEmpty(a: Chunk, b: Chunk)
    ensures Concat([a, Chunk([]), b]) == a.data + b.data
  {
    assert [a, Chunk([]), b][..2] == [a, Chunk([])];
    assert [a, Chunk([])][..1] == [a];
    assert [a][..0] == [];
    assert Concat([a]) == a.data;
    assert Concat([a, Chunk([])]) == a.data;
  }

  /** Leaving out the empty chunks loses no audio: the blob holds every byte the
      recorder delivered, in delivery order. */
  lemma {:induction false} NonEmptyKeepsAudio(cs: seq<Chunk>)
    ensures Concat(NonEmpty(cs)) == Concat(cs)
    decreases |cs|
  {
    if cs != [] {
      var init, last := cs[..|cs| - 1], cs[|cs| - 1];
      NonEmptyKeepsAudio(init);
      ConcatAppend(NonEmpty(init), if |last.data| > 0 then [last] else []);
      assert Concat([last]) == last.data by {
        assert [last][..0] == [];
      }
    }
  }

  /** What the widget shows; the three controls follow from it. */
  datatype Phase = IdleEmpty | Recording | HasAudio

  class Recorder {
    var isRecording: bool
    /** The object URL of the last recording; it stands for the blob it was made from. */
    var audioUrl: Option<Blob>
    /** Whether `mediaRecorderRef.current` is set. */
    var hasMediaRecorder: bool
    /** `chunksRef.current`. */
    var chunks: seq<Chunk>
    /** Whether the tracks of the current recorder's stream are still live. */
    var micHeld: bool
    /** Every value passed to `onRecordingComplete`, oldest first. */
    var reported: seq<Option<Blob>>
    /** Every chunk delivered since the last start, empty ones included. */
    ghost var heard: seq<Chunk>

    ghost predicate Valid()
      reads this
    {
      && chunks == NonEmpty(heard)
      && (isRecording ==> hasMediaRecorder)
      && (micHeld <==> isRecording)
    }

    function Phase(): Phase
      reads this
    {
      if isRecording then Recording else if audioUrl.Some? then HasAudio else IdleEmpty
    }

    /** The start button is rendered only when not recording and no audio exists. */
    function OffersStart(): (b: bool)
      reads this
      ensures b <==> Phase() == IdleEmpty
    {
      !isRecording && audioUrl.None?
    }

    /** The stop button is rendered only while recording. */
    function OffersStop(): (b: bool)
      reads this
      ensures b <==> Phase() == Recording
    {
      isRecording
    }

    /** The player and the "Record Again" button are rendered once audio exists. */
    function OffersPlayback(): (b: bool)
      reads this
      ensures b ==> !OffersStart()
    {
      audioUrl.Some?
    }

    constructor ()
      ensures Valid() && Phase() == IdleEmpty
      ensures !hasMediaRecorder && !micHeld && chunks == [] && reported == []
    {
      isRecording, audioUrl, hasMediaRecorder := false, None, false;
      chunks, micHeld, reported := [], false, [];
      heard := [];
    }

    /** `startRecording`: `micGranted` is whether `getUserMedia` and the
        recorder's start succeed. On failure only an alert is shown. */
    method StartRecording(micGranted: bool)
      requires Valid()
      modifies this
      ensures Valid()
      ensures micGranted ==> isRecording && hasMediaRecorder && micHeld && chunks == [] && heard == []
      ensures micGranted ==> audioUrl == old(audioUrl) && reported == old(reported)
      ensures !micGranted ==> unchanged(this)
    {
      if micGranted {
        hasMediaRecorder := true;
        chunks := [];
        heard := [];
        micHeld := true;
        isRecording := true;
      }
    }

    /** The `ondataavailable` handler. */
    method DataAvailable(c: Chunk)
      requires Valid()
      modifies this
      ensures Valid()
      ensures chunks == old(chunks) + (if |c.data| > 0 then [c] else [])
      ensures heard == old(heard) + [c]
      ensures isRecording == old(isRecording) && audioUrl == old(audioUrl) && micHeld == old(micHeld)
      ensures hasMediaRecorder == old(hasMediaRecorder) && reported == old(reported)
    {
      NonEmptySnoc(heard, c);
      if |c.data| > 0 {
        chunks := chunks + [c];
      }
      heard := heard + [c];
    }

    /** `stopRecording` followed by the recorder's `onstop` handler. It acts only
        when a recorder exists and recording is on; it then reports the blob of
        the buffered chunks to the parent exactly once, shows it, and releases
        the microphone. The blob is returned as well. */
    method StopRecording() returns (blob: Option<Blob>)
      requires Valid()
      modifies this
      ensures Valid()
      ensures old(hasMediaRecorder && isRecording) ==>
        && blob == Some(Assemble(old(chunks)))
        && blob.value.data == Concat(old(heard))
        && audioUrl == blob && reported == old(reported) + [blob]
        && !isRecording && !micHeld
        && hasMediaRecorder && chunks == old(chunks)
      ensures !old(hasMediaRecorder && isRecording) ==> blob == None && unchanged(this)
    {
      blob := None;
      if hasMediaRecorder && isRecording {
        NonEmptyKeepsAudio(heard);
        blob := Some(Assemble(chunks));
        audioUrl := blob;
        reported := reported + [blob];
        micHeld := false;
        isRecording := false;
      }
    }

    /** `resetRecording`: drop the shown recording and report `null`. */
    method ResetRecording()
      requires Valid()
      modifies this
      ensures Valid()
      ensures audioUrl == None && reported == old(reported) + [None]
      ensures isRecording == old(isRecording) && micHeld == old(micHeld) && chunks == old(chunks)
      ensures hasMediaRecorder == old(hasMediaRecorder)
    {
      audioUrl := None;
      reported := reported + [None];
    }
  }

  /** A full recording: start, three chunks of which one is empty, stop. The
      parent receives exactly the two non-empty payloads, in order, as WAV. */
  method RecordSession(a: Chunk, b: Chunk) returns (delivered: Option<Blob>, stillRecording: bool)
    ensures delivered == Some(Blob(a.data + b.data, WavType))
    ensures !stillRecording
  {
    var r := new Recorder();
    r.StartRecording(true);
    r.DataAvailable(a);
    r.DataAvailable(Chunk([]));
    r.DataAvailable(b);
    assert r.heard == [a, Chunk([]), b];
    ConcatSkipsEmpty(a, b);
    delivered := r.StopRecording();
    assert delivered.value.data == a.data + b.data && delivered.value.mimeType == WavType;
    stillRecording := r.isRecording;
  }

  /** A denied microphone leaves the widget idle, and a later stop delivers nothing. */
  method DeniedMicrophone() returns (recording: bool, delivered: Option<Blob>, offersStart: bool)
    ensures !recording && delivered == None && offersStart
  {
    var r := new Recorder();
    r.StartRecording(false);
    recording := r.isRecording;
    delivered := r.StopRecording();
    offersStart := r.OffersStart();
  }
}
