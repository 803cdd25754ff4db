/** The two capture steps of a listening turn that run before the response
    pipeline: record_query, which frames the microphone stream for the voice
    activity detector and decides when the speaker has finished, and
    speech_to_text, the transcription retry loop. Clock readings, audio
    blocks, detector scores and transcription outcomes are inputs. */
module Capture {
  import opened Text

  const VoiceDetectionThreshold: real := 0.5
  const MaxDuration: real := 25.0
  const EndingPauseTime: real := 1.0
  const InitialPauseTime: real := 4.0
  const MaxSttRetries: nat := 2

  // ---------------------------------------------------------------------------
  // record_query

  /** One pass of the recording loop: the clock reading for that pass and the
      resampled audio block, or None when resampling produced nothing. */
  datatype Tick = Tick(now: real, samples: Option<seq<int>>)

  function Flatten(frames: seq<seq<int>>): seq<int>
  {
    if frames == [] then [] else Flatten(frames[..|frames| - 1]) + frames[|frames| - 1]
  }

  /** Some analysed frame scores above the detection threshold. */
  predicate AnyVoiced(frames: seq<seq<int>>, vad: seq<int> -> real)
  {
    exists k :: 0 <= k < |frames| && vad(frames[k]) > VoiceDetectionThreshold
  }

  /** The audio the loop appended to its buffer, in order. */
  function Received(ticks: seq<Tick>): seq<int>
  {
    if ticks == [] then []
    else
      var last := ticks[|ticks| - 1];
      Received(ticks[..|ticks| - 1]) + (if last.samples.Some? then last.samples.value else [])
  }

  /** The blocks the loop stores for the audio file, one per pass. */
  function Blocks(ticks: seq<Tick>): (r: seq<Option<seq<int>>>)
    ensures |r| == |ticks| && forall k :: 0 <= k < |ticks| ==> r[k] == ticks[k].samples
  {
    if ticks == [] then [] else Blocks(ticks[..|ticks| - 1]) + [ticks[|ticks| - 1].samples]
  }

  /** The inner framing loop: cut the buffer into frames of exactly
      `frameLength` samples, score each, and update the silence start, the
      voice flag and the pause window when a frame is voiced. */
  method TakeFrames(buffer: seq<int>, frameLength: nat, vad: seq<int> -> real, now: real,
                    silenceSince: real, voiceDetected: bool, pauseTime: real)
    returns (frames: seq<seq<int>>, rest: seq<int>, silence: real, voice: bool, pause: real)
    requires frameLength > 0
    ensures forall k :: 0 <= k < |frames| ==> |frames[k]| == frameLength
    ensures |rest| < frameLength && Flatten(frames) + rest == buffer
    ensures voice == (voiceDetected || AnyVoiced(frames, vad))
    ensures pause == (if AnyVoiced(frames, vad) then EndingPauseTime else pauseTime)
    ensures silence == (if AnyVoiced(frames, vad) then now else silenceSince)
  {
    frames, rest, silence, voice, pause := [], buffer, silenceSince, voiceDetected, pauseTime;
    while |rest| >= frameLength
      invariant forall k :: 0 <= k < |frames| ==> |frames[k]| == frameLength
      invariant Flatten(frames) + rest == buffer
      invariant voice == (voiceDetected || AnyVoiced(frames, vad))
      invariant pause == (if AnyVoiced(frames, vad) then EndingPauseTime else pauseTime)
      invariant silence == (if AnyVoiced(frames, vad) then now else silenceSince)
      decreases |rest|
    {
      var frame := rest[..frameLength];
      FrameStep(frames, rest, frameLength, vad);
      ghost var before := frames;
      frames := frames + [frame];
      rest := rest[frameLength..];
      assert forall k :: 0 <= k < |before| ==> frames[k] == before[k];
      if vad(frame) > VoiceDetectionThreshold {
        silence := now;
        voice := true;
        pause := EndingPauseTime;
      }
    }
  }

  /** Cutting one frame of `n` samples off the front of `rest`. */
  lemma FrameStep(frames: seq<seq<int>>, rest: seq<int>, n: nat, vad: seq<int> -> real)
    requires n <= |rest|
    ensures Flatten(frames + [rest[..n]]) + rest[n..] == Flatten(frames) + rest
    ensures AnyVoiced(frames + [rest[..n]], vad) == (AnyVoiced(frames, vad) || vad(rest[..n]) > VoiceDetectionThreshold)
  {
    var frame := rest[..n];
    FlattenAppend(frames, [frame]);
    assert Flatten([frame]) == Flatten([]) + frame;
    assert frame + rest[n..] == rest;
    AnyVoicedAppend(frames, [frame], vad);
    assert AnyVoiced([frame], vad) == (vad(frame) > VoiceDetectionThreshold) by {
      if AnyVoiced([frame], vad) {
        var k :| 0 <= k < 1 && vad([frame][k]) > VoiceDetectionThreshold;
      }
      if vad(frame) > VoiceDetectionThreshold {
        assert [frame][0] == frame;
      }
    }
  }

  /** The recording loop's state: the blocks kept for the file, the frames
      scored by each pass (none for a pass without audio), the samples not
      yet scored, the voice flag, the start of the current silence and the
      pause window. */
  datatype Recording = Recording(written: seq<Option<seq<int>>>, passes: seq<seq<seq<int>>>, buffer: seq<int>,
                                 voice: bool, silenceSince: real, pauseTime: real)

  /** The frames scored by the passes, in order. */
  function AllFrames(passes: seq<seq<seq<int>>>): seq<seq<int>>
  {
    if passes == [] then [] else AllFrames(passes[..|passes| - 1]) + passes[|passes| - 1]
  }

  /** The last pass that scored a voiced frame, if any. */
  function LastVoiced(passes: seq<seq<seq<int>>>, vad: seq<int> -> real): (k: Option<nat>)
    ensures k.Some? ==> k.value < |passes| && AnyVoiced(passes[k.value], vad)
    ensures k.Some? ==> forall j :: k.value < j < |passes| ==> !AnyVoiced(passes[j], vad)
    ensures k.None? ==> forall j :: 0 <= j < |passes| ==> !AnyVoiced(passes[j], vad)
  {
    if passes == [] then None
    else if AnyVoiced(passes[|passes| - 1], vad) then Some(|passes| - 1)
    else LastVoiced(passes[..|passes| - 1], vad)
  }

  /** When the current silence began, after the passes `passes` over the
      readings `done`: at the clock reading of the last pass that scored a
      voiced frame, or at the start of recording when none did. */
  function SilenceStart(passes: seq<seq<seq<int>>>, done: seq<Tick>, startTime: real, vad: seq<int> -> real): real
    requires |passes| <= |done|
  {
    match LastVoiced(passes, vad)
    case None => startTime
    case Some(k) => done[k].now
  }

  /** The pause window after the passes `passes`: the ending pause once a
      frame was voiced, the initial pause before. */
  function PauseWindow(passes: seq<seq<seq<int>>>, vad: seq<int> -> real): real
  {
    if AnyVoiced(AllFrames(passes), vad) then EndingPauseTime else InitialPauseTime
  }

  /** No pass of `done` that brought audio found the silence already as long
      as the pause window then in force, so none of them ended the loop. */
  ghost predicate Waited(passes: seq<seq<seq<int>>>, done: seq<Tick>, startTime: real, vad: seq<int> -> real)
  {
    && |passes| == |done|
    && forall k :: 0 <= k < |done| && done[k].samples.Some? ==>
         done[k].now - SilenceStart(passes[..k], done, startTime, vad) < PauseWindow(passes[..k], vad)
  }

  /** What the loop keeps true after the passes `done`: each was within the
      time limit and none was silent, its block was kept, every sample
      received is either in a scored frame or still buffered, frames have the
      detector's length, and the voice flag, silence start and pause window
      follow the scores. */
  ghost predicate Recorded(r: Recording, done: seq<Tick>, startTime: real, voiceDetected: bool,
                           frameLength: nat, vad: seq<int> -> real)
  {
    && Timely(done, startTime)
    && r.written == Blocks(done)
    && (forall k :: 0 <= k < |AllFrames(r.passes)| ==> |AllFrames(r.passes)[k]| == frameLength)
    && Flatten(AllFrames(r.passes)) + r.buffer == Received(done)
    && r.voice == (voiceDetected || AnyVoiced(AllFrames(r.passes), vad))
    && Waited(r.passes, done, startTime, vad)
    && r.silenceSince == SilenceStart(r.passes, done, startTime, vad)
    && r.pauseTime == PauseWindow(r.passes, vad)
  }

  /** One pass of the recording loop, for a pass within the time limit. It
      is `silent` exactly when the pass brought audio and the silence had
      already lasted the pause window; the state is then left for the caller
      to append that audio. Otherwise the block is kept and the buffer
      framed. */
  method Pass(r: Recording, ticks: seq<Tick>, used: nat, startTime: real, voiceDetected: bool,
              frameLength: nat, vad: seq<int> -> real)
    returns (next: Recording, silent: bool)
    requires frameLength > 0 && used < |ticks| && ticks[used].now - startTime <= MaxDuration
    requires Recorded(r, ticks[..used], startTime, voiceDetected, frameLength, vad)
    ensures silent <==> ticks[used].samples.Some? && ticks[used].now - r.silenceSince >= r.pauseTime
    ensures silent ==> next == r
    ensures !silent ==> Recorded(next, ticks[..used + 1], startTime, voiceDetected, frameLength, vad)
  {
    var tick := ticks[used];
    next := r;
    silent := false;
    if tick.samples.None? {
      PassedWithoutAudio(r, ticks, used, startTime, voiceDetected, frameLength, vad);
      next := r.(written := r.written + [tick.samples], passes := r.passes + [[]]);
      return;
    }
    var buffer := r.buffer + tick.samples.value;
    if tick.now - r.silenceSince >= r.pauseTime {
      silent := true;
      return;
    }
    var frames, rest, silence, voiced, pause :=
      TakeFrames(buffer, frameLength, vad, tick.now, r.silenceSince, r.voice, r.pauseTime);
    PassedWithFrames(r, ticks, used, startTime, voiceDetected, frameLength, vad, frames, rest, silence, voiced, pause);
    next := Recording(r.written + [tick.samples], r.passes + [frames], rest, voiced, silence, pause);
  }

  /** The loop state after a pass within the time limit that brought no
      audio: the block list grows and the pass scores no frame. */
  lemma PassedWithoutAudio(r: Recording, ticks: seq<Tick>, used: nat, startTime: real, voiceDetected: bool,
                           frameLength: nat, vad: seq<int> -> real)
    requires used < |ticks| && ticks[used].now - startTime <= MaxDuration && ticks[used].samples.None?
    requires Recorded(r, ticks[..used], startTime, voiceDetected, frameLength, vad)
    ensures Recorded(r.(written := r.written + [ticks[used].samples], passes := r.passes + [[]]), ticks[..used + 1],
                     startTime, voiceDetected, frameLength, vad)
  {
    PassStep(ticks, used);
    TimelyStep(ticks, used, startTime);
    VoicingStep(r.passes, [], ticks, used, startTime, vad);
    assert AllFrames(r.passes) + [] == AllFrames(r.passes);
  }

  /** The loop state after a pass within the time limit, not silent, whose
      audio was appended and framed by TakeFrames. */
  lemma PassedWithFrames(r: Recording, ticks: seq<Tick>, used: nat, startTime: real, voiceDetected: bool,
                         frameLength: nat, vad: seq<int> -> real,
                         frames: seq<seq<int>>, rest: seq<int>, silence: real, voiced: bool, pause: real)
    requires used < |ticks| && ticks[used].now - startTime <= MaxDuration && ticks[used].samples.Some?
    requires Recorded(r, ticks[..used], startTime, voiceDetected, frameLength, vad)
    requires ticks[used].now - r.silenceSince < r.pauseTime
    requires forall k :: 0 <= k < |frames| ==> |frames[k]| == frameLength
    requires Flatten(frames) + rest == r.buffer + ticks[used].samples.value
    requires voiced == (r.voice || AnyVoiced(frames, vad))
    requires pause == (if AnyVoiced(frames, vad) then EndingPauseTime else r.pauseTime)
    requires silence == (if AnyVoiced(frames, vad) then ticks[used].now else r.silenceSince)
    ensures Recorded(Recording(r.written + [ticks[used].samples], r.passes + [frames], rest, voiced, silence, pause),
                     ticks[..used + 1], startTime, voiceDetected, frameLength, vad)
  {
    var samples := ticks[used].samples.value;
    PassStep(ticks, used);
    TimelyStep(ticks, used, startTime);
    VoicingStep(r.passes, frames, ticks, used, startTime, vad);
    var before := AllFrames(r.passes);
    ExtendAnalysed(before, frames, rest, r.buffer + samples, frameLength, vad);
    var scored := Flatten(before);
    assert scored + (r.buffer + samples) == (scored + r.buffer) + samples;
  }

  /** The scores of one more pass that did not find the pause window run
      out: the silence restarts at that pass if it scored a voiced frame,
      the pause window shortens with the first voiced frame, and the pass
      joins those that waited. */
  lemma VoicingStep(passes: seq<seq<seq<int>>>, frames: seq<seq<int>>, ticks: seq<Tick>, used: nat,
                    startTime: real, vad: seq<int> -> real)
    requires used < |ticks| && Waited(passes, ticks[..used], startTime, vad)
    requires ticks[used].samples.Some? ==>
      ticks[used].now - SilenceStart(passes, ticks[..used], startTime, vad) < PauseWindow(passes, vad)
    ensures AllFrames(passes + [frames]) == AllFrames(passes) + frames
    ensures SilenceStart(passes + [frames], ticks[..used + 1], startTime, vad)
         == if AnyVoiced(frames, vad) then ticks[used].now else SilenceStart(passes, ticks[..used], startTime, vad)
    ensures PauseWindow(passes + [frames], vad)
         == if AnyVoiced(frames, vad) then EndingPauseTime else PauseWindow(passes, vad)
    ensures Waited(passes + [frames], ticks[..used + 1], startTime, vad)
  {
    var more := passes + [frames];
    var done, done' := ticks[..used], ticks[..used + 1];
    assert more[..|passes|] == passes;
    AnyVoicedAppend(AllFrames(passes), frames, vad);
    SilencePrefix(passes, done, done');
    forall k | 0 <= k < |done'| && done'[k].samples.Some?
      ensures done'[k].now - SilenceStart(more[..k], done', startTime, vad) < PauseWindow(more[..k], vad)
    {
      assert more[..k] == passes[..k];
      SilencePrefix(passes[..k], done, done');
      if k < used {
        assert done'[k] == done[k];
      }
    }
  }

  /** The silence start reads only the clock readings of the passes it
      covers, so more readings after them do not change it. */
  lemma SilencePrefix(passes: seq<seq<seq<int>>>, done: seq<Tick>, more: seq<Tick>)
    requires |passes| <= |done| <= |more| && done == more[..|done|]
    ensures forall startTime, vad :: SilenceStart(passes, done, startTime, vad) == SilenceStart(passes, more, startTime, vad)
  {
    forall startTime, vad
      ensures SilenceStart(passes, done, startTime, vad) == SilenceStart(passes, more, startTime, vad)
    {
      match LastVoiced(passes, vad)
      case None =>
      case Some(k) => assert done[k] == more[k];
    }
  }

  /** Every pass in `done` read the clock within MAX_DURATION of the start. */
  ghost predicate Timely(done: seq<Tick>, startTime: real)
  {
    forall k :: 0 <= k < |done| ==> done[k].now - startTime <= MaxDuration
  }

  /** The time bound extends to one more pass within the limit. */
  lemma TimelyStep(ticks: seq<Tick>, used: nat, startTime: real)
    requires used < |ticks| && ticks[used].now - startTime <= MaxDuration
    requires Timely(ticks[..used], startTime)
    ensures Timely(ticks[..used + 1], startTime)
  {
    var done := ticks[..used + 1];
    forall k | 0 <= k < |done|
      ensures done[k].now - startTime <= MaxDuration
    {
      if k < used {
        assert ticks[..used][k] == done[k];
      }
    }
  }

  /** The recording loop proper: passes run while the clock is within
      MAX_DURATION, until the inputs run out or a pass is `silent`; that
      pass is not counted in `used`. */
  method RecordLoop(ticks: seq<Tick>, startTime: real, voiceDetected: bool, frameLength: nat, vad: seq<int> -> real)
    returns (r: Recording, used: nat, silent: bool)
    requires frameLength > 0
    ensures used <= |ticks| && Recorded(r, ticks[..used], startTime, voiceDetected, frameLength, vad)
    ensures silent ==> used < |ticks| && ticks[used].now - startTime <= MaxDuration
                       && ticks[used].samples.Some? && ticks[used].now - r.silenceSince >= r.pauseTime
    ensures !silent ==> used == |ticks| || ticks[used].now - startTime > MaxDuration
  {
    r := Recording([], [], [], voiceDetected, startTime, InitialPauseTime);
    used, silent := 0, false;
    while used < |ticks| && ticks[used].now - startTime <= MaxDuration
      invariant used <= |ticks|
      invariant Recorded(r, ticks[..used], startTime, voiceDetected, frameLength, vad)
      decreases |ticks| - used
    {
      var next;
      next, silent := Pass(r, ticks, used, startTime, voiceDetected, frameLength, vad);
      if silent {
        return;
      }
      r, used := next, used + 1;
    }
  }

  /** The facts of Recorded that RecordQuery reports, read on all the
      readings rather than on those of the passes taken. */
  lemma WaitedOnTicks(passes: seq<seq<seq<int>>>, ticks: seq<Tick>, n: nat, startTime: real, vad: seq<int> -> real)
    requires n <= |ticks| && Waited(passes, ticks[..n], startTime, vad)
    ensures SilenceStart(passes, ticks[..n], startTime, vad) == SilenceStart(passes, ticks, startTime, vad)
    ensures forall k :: 0 <= k < |passes| && ticks[k].samples.Some? ==>
      ticks[k].now - SilenceStart(passes[..k], ticks, startTime, vad) < PauseWindow(passes[..k], vad)
  {
    var done := ticks[..n];
    SilencePrefix(passes, done, ticks);
    forall k | 0 <= k < |passes| && ticks[k].samples.Some?
      ensures ticks[k].now - SilenceStart(passes[..k], ticks, startTime, vad) < PauseWindow(passes[..k], vad)
    {
      assert done[k] == ticks[k];
      SilencePrefix(passes[..k], done, ticks);
    }
  }

  /** record_query over the passes `ticks` (the loop stops early if they run
      out). It stops after the pass whose clock reading is more than
      MAX_DURATION past `startTime`, or — after appending that pass's audio
      — at the first pass that finds the silence as long as the pause window
      (`bySilence`). The silence starts at the last pass that scored a voiced
      frame (or at `startTime`), and the pause window is the initial pause
      until a frame is voiced and the ending pause after. `written` holds the
      blocks kept for the file, `passes` the frames each pass scored,
      `analysed` all of them, `buffer` the samples left unscored; `result`
      is the voice flag, or the error that joining a missing block raises. */
  method RecordQuery(ticks: seq<Tick>, startTime: real, voiceDetected: bool, frameLength: nat, vad: seq<int> -> real)
    returns (result: Result<bool>, written: seq<Option<seq<int>>>, passes: seq<seq<seq<int>>>,
             analysed: seq<seq<int>>, buffer: seq<int>, used: nat, bySilence: bool, silenceSince: real, pauseTime: real)
    requires frameLength > 0
    ensures used <= |ticks|
    ensures forall k :: 0 <= k < used ==> ticks[k].now - startTime <= MaxDuration
    ensures !bySilence ==> used == |ticks| || ticks[used].now - startTime > MaxDuration
    ensures |passes| == (if bySilence then used - 1 else used) && analysed == AllFrames(passes)
    ensures bySilence ==> used >= 1 && ticks[used - 1].samples.Some?
                          && ticks[used - 1].now - silenceSince >= pauseTime
    ensures forall k :: 0 <= k < |passes| && ticks[k].samples.Some? ==>
      ticks[k].now - SilenceStart(passes[..k], ticks, startTime, vad) < PauseWindow(passes[..k], vad)
    ensures silenceSince == SilenceStart(passes, ticks, startTime, vad)
    ensures pauseTime == (if AnyVoiced(analysed, vad) then EndingPauseTime else InitialPauseTime)
    ensures written == Blocks(ticks[..|passes|])
    ensures forall k :: 0 <= k < |analysed| ==> |analysed[k]| == frameLength
    ensures Flatten(analysed) + buffer == Received(ticks[..used])
    ensures result == if None in written then Err(OtherError) else Ok(voiceDetected || AnyVoiced(analysed, vad))
  {
    var r, n, silent := RecordLoop(ticks, startTime, voiceDetected, frameLength, vad);
    WaitedOnTicks(r.passes, ticks, n, startTime, vad);
    bySilence := silent;
    written, passes, analysed := r.written, r.passes, AllFrames(r.passes);
    silenceSince, pauseTime := r.silenceSince, r.pauseTime;
    if silent {
      PassStep(ticks, n);
      TimelyStep(ticks, n, startTime);
      used, buffer := n + 1, r.buffer + ticks[n].samples.value;
      assert Flatten(analysed) + buffer == (Flatten(analysed) + r.buffer) + ticks[n].samples.value;
    } else {
      used, buffer := n, r.buffer;
    }
    assert Timely(ticks[..used], startTime);
    assert forall k :: 0 <= k < used ==> ticks[..used][k] == ticks[k];
    result := if None in written then Err(OtherError) else Ok(r.voice);
  }

  /** The audio and the blocks of one more pass. */
  lemma PassStep(ticks: seq<Tick>, n: nat)
    requires n < |ticks|
    ensures Received(ticks[..n + 1])
         == Received(ticks[..n]) + (if ticks[n].samples.Some? then ticks[n].samples.value else [])
    ensures Blocks(ticks[..n + 1]) == Blocks(ticks[..n]) + [ticks[n].samples]
  {
    assert ticks[..n + 1][..n] == ticks[..n];
  }

  /** Appending one pass's frames to those analysed so far. */
  lemma ExtendAnalysed(analysed: seq<seq<int>>, frames: seq<seq<int>>, rest: seq<int>, buffer: seq<int>,
                       frameLength: nat, vad: seq<int> -> real)
    requires forall k :: 0 <= k < |analysed| ==> |analysed[k]| == frameLength
    requires forall k :: 0 <= k < |frames| ==> |frames[k]| == frameLength
    requires Flatten(frames) + rest == buffer
    ensures forall k :: 0 <= k < |analysed + frames| ==> |(analysed + frames)[k]| == frameLength
    ensures Flatten(analysed + frames) + rest == Flatten(analysed) + buffer
    ensures AnyVoiced(analysed + frames, vad) == (AnyVoiced(analysed, vad) || AnyVoiced(frames, vad))
  {
    FlattenAppend(analysed, frames);
    assert Flatten(analysed + frames) + rest == Flatten(analysed) + (Flatten(frames) + rest);
    AnyVoicedAppend(analysed, frames, vad);
  }

  lemma {:induction false} FlattenAppend(a: seq<seq<int>>, b: seq<seq<int>>)
    ensures Flatten(a + b) == Flatten(a) + Flatten(b)
    decreases |b|
  {
    if b == [] {
      assert a + b == a;
    } else {
      var c := b[..|b| - 1];
      assert (a + b)[..|a + b| - 1] == a + c;
      FlattenAppend(a, c);
    }
  }

  lemma AnyVoicedAppend(a: seq<seq<int>>, b: seq<seq<int>>, vad: seq<int> -> real)
    ensures AnyVoiced(a + b, vad) == (AnyVoiced(a, vad) || AnyVoiced(b, vad))
  {
    if AnyVoiced(a + b, vad) {
      var k :| 0 <= k < |a + b| && vad((a + b)[k]) > VoiceDetectionThreshold;
      if k >= |a| {
        assert (a + b)[k] == b[k - |a|];
      }
    }
    if AnyVoiced(b, vad) {
      var k :| 0 <= k < |b| && vad(b[k]) > VoiceDetectionThreshold;
      assert (a + b)[|a| + k] == b[k];
    }
    if AnyVoiced(a, vad) {
      var k :| 0 <= k < |a| && vad(a[k]) > VoiceDetectionThreshold;
      assert (a + b)[k] == a[k];
    }
  }

  // ---------------------------------------------------------------------------
  // speech_to_text

  /** The transcription the loop ends with, from the `retries`-th attempt on:
      a timeout retries, any other error gives up, and an empty text counts
      as no transcription. The text returned has newlines stripped from both
      ends (and may be empty after that). */
  function TranscriptFrom(attempts: seq<Result<string>>, retries: nat): (r: Option<string>)
    decreases MaxSttRetries - retries
  {
    if retries >= MaxSttRetries || retries >= |attempts| then None
    else match attempts[retries]
      case Ok(text) => if text == "" then None else Some(Strip(text, {'\n'}))
      case Err(e) => if e == TimeoutError then TranscriptFrom(attempts, retries + 1) else None
  }

  /** Attempt `i` is the one that transcribes: every earlier one timed out,
      and this one returned a non-empty text. */
  predicate TranscribedAt(attempts: seq<Result<string>>, i: int)
  {
    && 0 <= i < |attempts|
    && (forall j :: 0 <= j < i ==> attempts[j] == Err(TimeoutError))
    && attempts[i].Ok? && attempts[i].value != ""
  }

  /** speech_to_text read as a whole: a transcript comes back exactly when
      one of the first MAX_STT_RETRIES attempts transcribes after timeouts
      only, and it is that attempt's text. */
  lemma {:induction false} TranscriptSpec(attempts: seq<Result<string>>, retries: nat)
    requires retries <= MaxSttRetries
    requires forall j :: 0 <= j < retries && j < |attempts| ==> attempts[j] == Err(TimeoutError)
    ensures TranscriptFrom(attempts, retries).Some? <==>
      exists i :: retries <= i < MaxSttRetries && TranscribedAt(attempts, i)
    ensures forall i :: retries <= i < MaxSttRetries && TranscribedAt(attempts, i) ==>
      TranscriptFrom(attempts, retries) == Some(Strip(attempts[i].value, {'\n'}))
    decreases MaxSttRetries - retries
  {
    if retries < MaxSttRetries && retries < |attempts| {
      if attempts[retries] == Err(TimeoutError) {
        TranscriptSpec(attempts, retries + 1);
        assert !TranscribedAt(attempts, retries);
      } else {
        forall i | retries < i < MaxSttRetries
          ensures !TranscribedAt(attempts, i)
        {
        }
        if attempts[retries].Ok? && attempts[retries].value != "" {
          assert TranscribedAt(attempts, retries);
        }
      }
    } else {
      forall i | retries <= i < MaxSttRetries
        ensures !TranscribedAt(attempts, i)
      {
      }
    }
  }

  /** speech_to_text's retry loop over the transcription outcomes (at most
      MAX_STT_RETRIES are consumed); None stands for the False it returns. */
  method SpeechToText(attempts: seq<Result<string>>) returns (r: Option<string>)
    ensures r == TranscriptFrom(attempts, 0)
  {
    var retries := 0;
    var questionText := "";
    while retries < MaxSttRetries && retries < |attempts|
      invariant retries <= MaxSttRetries
      invariant questionText == ""
      invariant TranscriptFrom(attempts, retries) == TranscriptFrom(attempts, 0)
      decreases MaxSttRetries - retries
    {
      match attempts[retries] {
        case Ok(text) =>
          questionText := text;
          break;
        case Err(e) =>
          if e != TimeoutError {
            return None;
          }
          retries := retries + 1;
      }
    }
    if questionText == "" {
      return None;
    }
    r := Some(Strip(questionText, {'\n'}));
  }
}
