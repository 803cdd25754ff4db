/** The sequential decisions of the listening state: mapping the
    preprocessor's verdict to a response (and the speaker volume), and the
    turn loop of `run` that decides whether to listen again, go back to
    sleep, or end the conversation. */
module Listening {
  import opened Text
  import opened Preprocessing

  /** The part of the sound configuration the state writes: the speaker
      volume, as a fraction of full volume. */
  class SoundConfig {
    var speakerVolume: real

    constructor(speakerVolume: real)
      ensures this.speakerVolume == speakerVolume
    {
      this.speakerVolume := speakerVolume;
    }
  }

  /** preprocess_text's result: the action and the locally produced response
      (None when the model must answer or nothing is said). */
  datatype Reply = Reply(action: Action, response: Option<string>)

  /** preprocess_text: Drop and Continue give no response, Replace gives the
      replacement text, VolumeAdjust answers "Done." and sets the speaker
      volume. An exception of the preprocessor propagates. */
  method PreprocessText(config: SoundConfig, questionText: string, now: Clock, tp: TimePick, dp: DatePick)
    returns (r: Result<Reply>)
    modifies config
    ensures Preprocess(questionText, now, tp, dp).Err? ==>
      r == Err(Preprocess(questionText, now, tp, dp).error) && config.speakerVolume == old(config.speakerVolume)
    ensures Preprocess(questionText, now, tp, dp).Ok? ==>
      var d := Preprocess(questionText, now, tp, dp).value;
      && r.Ok? && r.value.action == d.action
      && (d.action == Drop || d.action == Continue ==> r.value.response == None)
      && (d.action == Replace ==> r.value.response == Some(d.payload.text))
      && (d.action == VolumeAdjust ==> r.value.response == Some("Done."))
      && config.speakerVolume == (if d.action == VolumeAdjust then d.payload.fraction else old(config.speakerVolume))
  {
    var p := Preprocess(questionText, now, tp, dp);
    if p.Err? {
      return Err(p.error);
    }
    PayloadFitsAction(questionText, now, tp, dp);
    var action, payload := p.value.action, p.value.payload;
    var response: Option<string> := None;
    if action == Drop {
    } else if action == Replace {
      response := Some(payload.text);
    } else if action == VolumeAdjust {
      response := Some("Done.");
      config.speakerVolume := payload.fraction;
    }
    r := Ok(Reply(action, response));
  }

  /** The flags run_response_pipeline hands back. */
  datatype PipelineFlags = PipelineFlags(timeoutFlag: bool, continueConversation: bool)

  /** What one turn of `run` sees: the outcome of record_query (the voice
      flag, or an exception), the outcome of speech_to_text (None for its
      False), the clock and template picks preprocessing reads, and the
      outcome of the response pipeline. */
  datatype Turn = Turn(recording: Result<bool>, transcript: Option<string>, now: Clock,
                       timePick: TimePick, datePick: DatePick, pipeline: Result<PipelineFlags>)

  /** How a turn ends: go round again, or leave `run` returning `result`
      (whether the caller listens again). */
  datatype TurnEnd = Next | Finish(result: bool)

  /** The turn gets as far as preprocessing: voice was heard and a non-empty
      transcript came back. */
  predicate Heard(t: Turn)
  {
    t.recording == Ok(true) && t.transcript.Some? && t.transcript.value != ""
  }

  function TurnOutcome(t: Turn): TurnEnd
  {
    if t.recording.Err? then Finish(false)
    else if !t.recording.value then Finish(true)
    else if t.transcript.None? || t.transcript.value == "" then Finish(true)
    else match Preprocess(t.transcript.value, t.now, t.timePick, t.datePick)
      case Err(_) => Finish(false)
      case Ok(d) =>
        if d.action == Drop then Finish(true)
        else if t.pipeline.Err? then Finish(false)
        else if t.pipeline.value.timeoutFlag || !t.pipeline.value.continueConversation then Finish(false)
        else Next
  }

  /** The speaker volume after a turn. */
  function TurnVolume(t: Turn, volume: real): real
  {
    if Heard(t) && Preprocess(t.transcript.value, t.now, t.timePick, t.datePick).Ok?
       && Preprocess(t.transcript.value, t.now, t.timePick, t.datePick).value.action == VolumeAdjust
    then Preprocess(t.transcript.value, t.now, t.timePick, t.datePick).value.payload.fraction
    else volume
  }

  function VolumeAfter(turns: seq<Turn>, volume: real): real
  {
    if turns == [] then volume else TurnVolume(turns[|turns| - 1], VolumeAfter(turns[..|turns| - 1], volume))
  }

  lemma VolumeAfterStep(turns: seq<Turn>, n: nat, volume: real)
    requires n < |turns|
    ensures VolumeAfter(turns[..n + 1], volume) == TurnVolume(turns[n], VolumeAfter(turns[..n], volume))
  {
    assert turns[..n + 1][..n] == turns[..n];
  }

  /** The turn-ending rule: `run` listens again only after a turn whose
      pipeline reported neither a timeout nor the end of the conversation,
      and returns False (the conversation is over) on a timeout, on the end
      of the conversation, or on any exception. */
  lemma TurnOutcomeCases(t: Turn)
    ensures TurnOutcome(t) == Next <==>
      && Heard(t)
      && Preprocess(t.transcript.value, t.now, t.timePick, t.datePick).Ok?
      && Preprocess(t.transcript.value, t.now, t.timePick, t.datePick).value.action != Drop
      && t.pipeline.Ok? && !t.pipeline.value.timeoutFlag && t.pipeline.value.continueConversation
    ensures TurnOutcome(t) == Finish(true) <==>
      || t.recording == Ok(false)
      || (t.recording == Ok(true) && (t.transcript.None? || t.transcript.value == ""))
      || (Heard(t) && Preprocess(t.transcript.value, t.now, t.timePick, t.datePick) == Dropped)
  {
  }

  /** One pass of `run`'s loop body. */
  method TakeTurn(config: SoundConfig, t: Turn) returns (e: TurnEnd)
    modifies config
    ensures e == TurnOutcome(t)
    ensures config.speakerVolume == TurnVolume(t, old(config.speakerVolume))
  {
    if t.recording.Err? {
      return Finish(false);
    }
    if !t.recording.value {
      return Finish(true);
    }
    if t.transcript.None? || t.transcript.value == "" {
      return Finish(true);
    }
    var reply := PreprocessText(config, t.transcript.value, t.now, t.timePick, t.datePick);
    if reply.Err? {
      return Finish(false);
    }
    if reply.value.action == Drop {
      return Finish(true);
    }
    if t.pipeline.Err? {
      return Finish(false);
    }
    var flags := t.pipeline.value;
    if flags.timeoutFlag || !flags.continueConversation {
      return Finish(false);
    }
    return Next;
  }

  /** The outcome of every turn, one by one. */
  function Outcomes(turns: seq<Turn>): (o: seq<TurnEnd>)
    ensures |o| == |turns|
    ensures forall k :: 0 <= k < |turns| ==> o[k] == TurnOutcome(turns[k])
  {
    seq(|turns|, k requires 0 <= k < |turns| => TurnOutcome(turns[k]))
  }

  /** What `run` returns over the turn outcomes from `i` on, with the
      number of turns taken in all (None if the turns run out). */
  function RunFrom(outcomes: seq<TurnEnd>, i: nat): (Option<bool>, nat)
    requires i <= |outcomes|
    decreases |outcomes| - i
  {
    if i == |outcomes| then (None, i)
    else match outcomes[i]
      case Next => RunFrom(outcomes, i + 1)
      case Finish(result) => (Some(result), i + 1)
  }

  /** `run` stops at the first turn that finishes, and returns what that
      turn decided; every turn before it went round again. */
  lemma {:induction false} RunFromStopsAtFirstFinish(outcomes: seq<TurnEnd>, i: nat)
    requires i <= |outcomes|
    ensures var (r, ran) := RunFrom(outcomes, i);
      && i <= ran <= |outcomes|
      && (forall k :: i <= k < ran - 1 ==> outcomes[k] == Next)
      && (r.Some? ==> i < ran && outcomes[ran - 1] == Finish(r.value))
      && (r.None? ==> ran == |outcomes| && forall k :: i <= k < ran ==> outcomes[k] == Next)
    decreases |outcomes| - i
  {
    if i < |outcomes| && outcomes[i] == Next {
      RunFromStopsAtFirstFinish(outcomes, i + 1);
    }
  }

  /** `run`'s loop over the turns (the loop stops if they run out, with
      None). `ran` is the number of turns taken. */
  method Run(config: SoundConfig, turns: seq<Turn>) returns (r: Option<bool>, ran: nat)
    modifies config
    ensures (r, ran) == RunFrom(Outcomes(turns), 0)
    ensures ran <= |turns|
    ensures config.speakerVolume == VolumeAfter(turns[..ran], old(config.speakerVolume))
  {
    ghost var outcomes := Outcomes(turns);
    r, ran := None, 0;
    while ran < |turns|
      invariant ran <= |turns|
      invariant RunFrom(outcomes, ran) == RunFrom(outcomes, 0)
      invariant config.speakerVolume == VolumeAfter(turns[..ran], old(config.speakerVolume))
      decreases |turns| - ran
    {
      VolumeAfterStep(turns, ran, old(config.speakerVolume));
      var e := TakeTurn(config, turns[ran]);
      ran := ran + 1;
      if e.Finish? {
        return Some(e.result), ran;
      }
    }
  }
}
