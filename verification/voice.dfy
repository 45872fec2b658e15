/** The microphone buffer of `VoiceToTextConverter` (scripts/voice_nika.py):
    a stop flag, a possibly open input stream and a FIFO queue of captured
    frames, driven by start, the capture callback, stop and the drain. */
module Voice {
  import opened Wrappers

  /** One captured sample. The audio itself is never inspected here. */
  type Sample = int

  /** One block of samples handed to the capture callback. */
  type Chunk = seq<Sample>

  /** `stopRequested` is the stop event, `streamOpen` says whether
      `self.stream` holds a stream, `queue` is the audio queue, oldest
      chunk first. */
  datatype Recorder = Recorder(stopRequested: bool, streamOpen: bool, queue: seq<Chunk>)

  /** A freshly constructed converter: flag clear, no stream, empty queue. */
  const Initial: Recorder := Recorder(false, false, [])

  // ───────────────────────── start ─────────────────────────

  /** `start_recording`: clear the stop flag, replace the queue by an empty
      one, open and start a new stream. */
  function StartRecording(r: Recorder): (r': Recorder)
    ensures !r'.stopRequested && r'.streamOpen && r'.queue == []
  {
    Recorder(false, true, [])
  }

  // ──────────────────────── callback ───────────────────────

  /** What the callback tells the stream: keep going, or abort it. */
  datatype CallbackOutcome = Continue | Abort

  datatype Delivery = Delivery(recorder: Recorder, outcome: CallbackOutcome)

  /** `callback`: once stop is requested the frame is dropped and the stream
      is aborted; otherwise a copy of the frame joins the tail of the
      queue. */
  function Callback(r: Recorder, frame: Chunk): (d: Delivery)
    ensures r.stopRequested ==> d.recorder == r && d.outcome == Abort
    ensures !r.stopRequested ==> d.outcome == Continue
    ensures !r.stopRequested ==>
              && |d.recorder.queue| == |r.queue| + 1
              && d.recorder.queue[..|r.queue|] == r.queue
              && d.recorder.queue[|r.queue|] == frame
    ensures d.recorder.stopRequested == r.stopRequested && d.recorder.streamOpen == r.streamOpen
  {
    if r.stopRequested then Delivery(r, Abort)
    else Delivery(r.(queue := r.queue + [frame]), Continue)
  }

  // ────────────────────────── stop ─────────────────────────

  /** `stop_recording`: raise the stop flag and close the stream if there is
      one. Queued chunks stay where they are. */
  function StopRecording(r: Recorder): (r': Recorder)
    ensures r'.stopRequested && !r'.streamOpen && r'.queue == r.queue
  {
    Recorder(true, false, r.queue)
  }

  // ────────────────────────── drain ────────────────────────

  /** Number of samples in all chunks together. */
  function TotalSamples(cs: seq<Chunk>): nat {
    if cs == [] then 0 else |cs[0]| + TotalSamples(cs[1..])
  }

  /** The chunks laid end to end in arrival order (`np.concatenate`). */
  function Concat(cs: seq<Chunk>): (flat: seq<Sample>)
    ensures |flat| == TotalSamples(cs)
  {
    if cs == [] then [] else cs[0] + Concat(cs[1..])
  }

  /** `scale` applied to every sample: the multiplication by 32767, left
      abstract. */
  function ScaleAll(xs: seq<Sample>, scale: Sample -> Sample): (ys: seq<Sample>)
    ensures |ys| == |xs|
    ensures forall i | 0 <= i < |xs| :: ys[i] == scale(xs[i])
  {
    seq(|xs|, i requires 0 <= i < |xs| => scale(xs[i]))
  }

  /** `buffer` is the chunks laid end to end, oldest first, every sample
      passed through `scale`: sample `j` of chunk `k` sits right after the
      samples of the `k` chunks that arrived before it. */
  ghost predicate InArrivalOrder(cs: seq<Chunk>, buffer: seq<Sample>, scale: Sample -> Sample) {
    && |buffer| == TotalSamples(cs)
    && forall k, j | 0 <= k < |cs| && 0 <= j < |cs[k]| ::
         TotalSamples(cs[..k]) + j < |buffer| && buffer[TotalSamples(cs[..k]) + j] == scale(cs[k][j])
  }

  /** The recorder after a drain and the buffer handed back. */
  datatype Drained = Drained(recorder: Recorder, data: Option<seq<Sample>>)

  /** Reference meaning of `get_audio_data`: the queue ends empty and the
      buffer is `None` exactly when nothing was queued; otherwise it holds
      every queued sample, scaled, in arrival order. */
  function Drain(r: Recorder, scale: Sample -> Sample): (d: Drained)
    ensures d.recorder == r.(queue := [])
    ensures d.data.None? <==> r.queue == []
    ensures d.data.Some? ==> InArrivalOrder(r.queue, d.data.value, scale)
  {
    if r.queue == [] then Drained(r.(queue := []), None)
    else
      ScaledPlacesEverySample(r.queue, scale);
      Drained(r.(queue := []), Some(ScaleAll(Concat(r.queue), scale)))
  }

  /** `get_audio_data` as written: take chunks off the queue until it is
      empty, then concatenate and scale them, or give `None` when none were
      taken. */
  method GetAudioData(r: Recorder, scale: Sample -> Sample) returns (r': Recorder, data: Option<seq<Sample>>)
    ensures r'.queue == [] && r'.stopRequested == r.stopRequested && r'.streamOpen == r.streamOpen
    ensures Drained(r', data) == Drain(r, scale)
  {
    var chunks: seq<Chunk> := [];
    var queue := r.queue;
    while queue != []
      invariant chunks + queue == r.queue
      decreases |queue|
    {
      chunks := chunks + [queue[0]];
      queue := queue[1..];
    }
    assert chunks == r.queue;
    r' := r.(queue := queue);
    data := if chunks != [] then Some(ScaleAll(Concat(chunks), scale)) else None;
  }

  // ────────────────────── transcription ────────────────────

  /** The three ways the speech service can answer. */
  datatype RecogniserReply = Recognised(text: string) | UnknownValue | RequestFailed(reason: string)

  /** Both failure kinds surface as this single error. */
  datatype TranscriptionError = RuntimeError(message: string)

  const NotRecognisedMessage: string := "Речь не распознана"
  const ServicePrefix: string := "Ошибка сервиса: "

  /** `audio_to_text`: no buffer gives no text and no call to the service;
      otherwise the buffer, converted sample by sample with `toPcm`, is sent
      to `recognise`, and either failure becomes a `RuntimeError`. */
  function AudioToText(data: Option<seq<Sample>>, toPcm: Sample -> Sample,
                       recognise: seq<Sample> -> RecogniserReply): (r: Result<Option<string>, TranscriptionError>)
    ensures data.None? ==> r == Success(None)
    ensures data.Some? ==>
              var reply := recognise(ScaleAll(data.value, toPcm));
              && (r.Success? <==> reply.Recognised?)
              && (reply.Recognised? ==> r == Success(Some(reply.text)))
              && (reply.UnknownValue? ==> r == Failure(RuntimeError(NotRecognisedMessage)))
              && (reply.RequestFailed? ==> r == Failure(RuntimeError(ServicePrefix + reply.reason)))
  {
    match data
    case None => Success(None)
    case Some(samples) =>
      match recognise(ScaleAll(samples, toPcm))
      case Recognised(text) => Success(Some(text))
      case UnknownValue => Failure(RuntimeError(NotRecognisedMessage))
      case RequestFailed(reason) => Failure(RuntimeError(ServicePrefix + reason))
  }

  // ──────────────────────── helpers ────────────────────────

  /** Concatenation distributes over appending chunk lists. */
  lemma {:induction false} ConcatAppend(a: seq<Chunk>, b: seq<Chunk>)
    ensures Concat(a + b) == Concat(a) + Concat(b)
  {
    if a == [] {
      assert a + b == b;
    } else {
      assert (a + b)[1..] == a[1..] + b;
      ConcatAppend(a[1..], b);
    }
  }

  /** Sample `j` of chunk `k` lands after the samples of the earlier chunks. */
  lemma ConcatPlacesSample(cs: seq<Chunk>, k: nat, j: nat)
    requires k < |cs| && j < |cs[k]|
    ensures TotalSamples(cs[..k]) + j < |Concat(cs)|
    ensures Concat(cs)[TotalSamples(cs[..k]) + j] == cs[k][j]
  {
    assert cs == cs[..k] + ([cs[k]] + cs[k + 1..]);
    ConcatAppend(cs[..k], [cs[k]] + cs[k + 1..]);
    ConcatAppend([cs[k]], cs[k + 1..]);
    assert Concat([cs[k]]) == cs[k] by {
      assert [cs[k]][1..] == [];
    }
  }

  /** Concatenating and scaling lays the samples out in arrival order. */
  lemma ScaledPlacesEverySample(cs: seq<Chunk>, scale: Sample -> Sample)
    ensures InArrivalOrder(cs, ScaleAll(Concat(cs), scale), scale)
  {
    var buffer := ScaleAll(Concat(cs), scale);
    forall k, j | 0 <= k < |cs| && 0 <= j < |cs[k]|
      ensures TotalSamples(cs[..k]) + j < |buffer| && buffer[TotalSamples(cs[..k]) + j] == scale(cs[k][j])
    {
      ConcatPlacesSample(cs, k, j);
    }
  }
}
