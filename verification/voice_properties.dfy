/** Properties of the recorder over whole recording sessions: a session is
    a sequence of events (start, a captured frame, stop) applied in order,
    the capture callback being treated as one more sequential event. */
module VoiceProperties {
  import opened Wrappers
  import opened Voice

  datatype Event = Start | Frame(chunk: Chunk) | Stop

  function Step(r: Recorder, e: Event): Recorder {
    match e
    case Start => StartRecording(r)
    case Frame(c) => Callback(r, c).recorder
    case Stop => StopRecording(r)
  }

  function Run(r: Recorder, es: seq<Event>): Recorder
    decreases |es|
  {
    if es == [] then r else Run(Step(r, es[0]), es[1..])
  }

  /** The callback events delivering `cs`, one chunk each. */
  function Frames(cs: seq<Chunk>): (es: seq<Event>)
    ensures |es| == |cs|
    ensures forall i | 0 <= i < |cs| :: es[i] == Frame(cs[i])
  {
    seq(|cs|, i requires 0 <= i < |cs| => Frame(cs[i]))
  }

  /** Running two event sequences back to back is running their
      concatenation. */
  lemma {:induction false} RunAppend(r: Recorder, a: seq<Event>, b: seq<Event>)
    ensures Run(r, a + b) == Run(Run(r, a), b)
    decreases |a|
  {
    if a == [] {
      assert a + b == b;
    } else {
      assert (a + b)[1..] == a[1..] + b;
      RunAppend(Step(r, a[0]), a[1..], b);
    }
  }

  /** While stop is not requested, frames join the queue in arrival order
      and the flags stay as they are. */
  lemma {:induction false} FramesWhileRecording(r: Recorder, cs: seq<Chunk>)
    requires !r.stopRequested
    ensures Run(r, Frames(cs)) == r.(queue := r.queue + cs)
    decreases |cs|
  {
    if cs == [] {
      assert r.queue + cs == r.queue;
    } else {
      var r1 := Callback(r, cs[0]).recorder;
      assert r1 == r.(queue := r.queue + [cs[0]]);
      assert Frames(cs)[1..] == Frames(cs[1..]);
      FramesWhileRecording(r1, cs[1..]);
      assert r.queue + [cs[0]] + cs[1..] == r.queue + cs;
    }
  }

  /** Once stop is requested, no frame reaches the queue. */
  lemma {:induction false} NothingAfterStop(r: Recorder, cs: seq<Chunk>)
    requires r.stopRequested
    ensures Run(r, Frames(cs)) == r
    decreases |cs|
  {
    if cs != [] {
      assert Frames(cs)[1..] == Frames(cs[1..]);
      NothingAfterStop(r, cs[1..]);
    }
  }

  /** A whole session: start, frames `cs` captured, stop, late frames `late`
      that arrive after the stop. The queue then holds exactly `cs`, oldest
      first; the drain returns them concatenated and scaled, or `None` when
      nothing was captured, and leaves the queue empty. */
  lemma RecordingSession(r: Recorder, cs: seq<Chunk>, late: seq<Chunk>, scale: Sample -> Sample)
    ensures var stopped := Run(r, [Start] + Frames(cs) + [Stop] + Frames(late));
            && stopped == Recorder(true, false, cs)
            && Drain(stopped, scale).recorder.queue == []
            && (Drain(stopped, scale).data.None? <==> cs == [])
            && (cs != [] ==> Drain(stopped, scale).data == Some(ScaleAll(Concat(cs), scale)))
  {
    var started := StartRecording(r);
    RunAppend(r, [Start] + Frames(cs) + [Stop], Frames(late));
    RunAppend(r, [Start] + Frames(cs), [Stop]);
    RunAppend(r, [Start], Frames(cs));
    assert Run(r, [Start]) == started;
    FramesWhileRecording(started, cs);
    assert Run(started, Frames(cs)) == Recorder(false, true, cs);
    assert Run(Recorder(false, true, cs), [Stop]) == Recorder(true, false, cs);
    NothingAfterStop(Recorder(true, false, cs), late);
  }

  /** Transcribing the buffer of a whole session: no service call and no
      text exactly when nothing was captured; otherwise the service hears
      every captured sample, scaled then converted, in arrival order, and
      only a recognised answer gives text. */
  lemma SessionTranscript(r: Recorder, cs: seq<Chunk>, late: seq<Chunk>, scale: Sample -> Sample,
                          toPcm: Sample -> Sample, recognise: seq<Sample> -> RecogniserReply)
    ensures var stopped := Run(r, [Start] + Frames(cs) + [Stop] + Frames(late));
            var t := AudioToText(Drain(stopped, scale).data, toPcm, recognise);
            && (t == Success(None) <==> cs == [])
            && (cs != [] ==>
                  var reply := recognise(ScaleAll(ScaleAll(Concat(cs), scale), toPcm));
                  && (t.Success? <==> reply.Recognised?)
                  && (reply.Recognised? ==> t == Success(Some(reply.text))))
  {
    RecordingSession(r, cs, late, scale);
  }

  /** Starting discards whatever an earlier session left in the queue: a
      drain right after a start finds nothing. */
  lemma StartThenDrain(r: Recorder, scale: Sample -> Sample)
    ensures Drain(StartRecording(r), scale).data == None
  {
  }

  /** A second drain finds nothing: the first took every chunk. */
  lemma DrainTwice(r: Recorder, scale: Sample -> Sample)
    ensures Drain(Drain(r, scale).recorder, scale).data == None
  {
  }

  /** Stopping twice is the same as stopping once: with no stream left the
      second stop only re-raises the flag. */
  lemma StopIdempotent(r: Recorder)
    ensures StopRecording(StopRecording(r)) == StopRecording(r)
  {
  }

  /** The first clause of `AudioToText`, side by side for two recognisers:
      without a buffer no text is produced, whatever the service would have
      answered. */
  lemma NoAudioNoService(toPcm: Sample -> Sample, recognise: seq<Sample> -> RecogniserReply,
                         other: seq<Sample> -> RecogniserReply)
    ensures AudioToText(None, toPcm, recognise) == AudioToText(None, toPcm, other) == Success(None)
  {
  }
}
