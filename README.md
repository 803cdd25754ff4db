# Natalie voice assistant: turn pipeline, in Dafny

This project models the core of a voice assistant's conversational turn and
proves properties of that model. The turn works like this:

1. Capture records the microphone until the speaker pauses.
2. The recording is transcribed.
3. The preprocessor classifies the transcript: drop it, answer it locally, or
   pass it to the language model.
4. The conversation manager keeps a token-budgeted history for the model.
5. The response pipeline streams the model's reply and cuts it into sentences
   for speech synthesis.

Modules, one per concern of the source:

- `Text` (`text.dfy`): the Python string builtins the code relies on, as
  functions with their specifications. These are `strip`, `lstrip`, `lower`,
  `isalpha`, `isspace`, `str(int)`, `int(str)` and `''.join`. The module also
  holds Python exceptions as data, and `Option`/`Result`.
- `Preprocessing` (`preprocessing.dfy`): `preprocess` and its helpers
  `check_for_time`, `check_for_date`, `check_for_volume` and `number_suffix`.
  These are pure functions. The clock and the `random.choice` index are
  parameters. The volume regular expression is a leftmost-match search
  written out over the three spellings it accepts.
- `Chat` (`chat.dfy`): chat messages and the summed token count under an
  abstract tokenizer `count`.
- `ConversationStore` (`conversation_store.dfy`): the conversation manager.
  It is a class whose methods update the message log and the cached token
  total. The class covers `append_message`, `make_room`, `load_conversation`,
  `get_total_token_count` and `get_response`. The streamed chunk filter of
  `get_response` is a method proved against the function `Kept`. Pruning is
  proved against the function `Pruned`.
- `Capture` (`capture.dfy`): `record_query`, a loop over clock readings and
  audio blocks that frames audio for the voice-activity detector, and the
  `speech_to_text` retry loop.
- `Pipeline` (`pipeline.dfy`): the two producer threads of
  `run_response_pipeline`, each modelled as a sequential loop over what its
  input queue delivers.
  - `enqueue_text` is the model call with retries and end-of-stream markers.
  - `enqueue_audio` is the sentence segmenter: the regular expression
    `(^.*[^\s.\d]{2,}[\.\?!\n])(.+)`, the flush at the end marker, and the
    retry counter.
- `Listening` (`listening.dfy`): `preprocess_text` (which writes the speaker
  volume) and the turn loop of `run`, which decides whether to listen again,
  go back to sleep, or end the conversation.
- `GptClient` (`gpt_client.dfy`): the standalone chat client. This is the
  system message built from the rules, the trimming loop, `get_response`, and
  the streaming generator that groups deltas into sentences.

Each loop of the source is a Dafny method. Its `ensures` ties the result or
the new state to a specification function, and lemmas prove what that
function promises.

Behaviour of the code that the model keeps as written:

- **The timeout flag is never set.** The retry loops of `enqueue_text` and
  `enqueue_audio` stop at `retries == 2`, but set the timeout flag only when
  `retries > 2` (`RunTextRetriesBounded`, `EnqueueText`, `EnqueueAudio`).
  Exhausting the retries therefore ends the stage without reporting a
  timeout.
- **An HTTP error does not count as a retry.** `get_response` catches the
  error and ends its generator without an end marker. `enqueue_text` then
  treats that attempt as complete, so HTTP errors cannot exhaust the retries.
- **More than one end marker reaches the text queue.**
  - Every attempt of `enqueue_text` pushes an end marker in its `finally`.
  - A stream that completes has already forwarded the generator's own end
    marker, so the queue holds two end markers (`SuccessPushesTwoMarkers`).
  - A retried attempt leaves an end marker in the middle of the queue.
- **`GptClient`'s trimming loop sets the running total instead of
  subtracting.** After it removes a message, the total becomes that message's
  token count (`TrimShape`).
- **The generator of `GptClient` keeps only the last buffered delta.** After
  the stream ends, it yields only the last delta that was not yet yielded.
  Earlier buffered deltas are lost (`SaidIsStreamed`).
- **Text after a newline can be lost.** The segmenter's trailing group `.+`
  stops at a newline, so text after a newline inside the trailing part leaves
  the buffer. The account of the text is proved for newline-free text.
- **31 is written "31th".** `number_suffix` chooses the suffix from `d % 20`
  (`NumberSuffixLateDays`).
- **`APP_RULES` has eight entries, not nine.** A missing comma joins two
  adjacent string literals into one rule.

## Model

| member | source | states |
|---|---|---|
| Preprocessing.DropExactly | preprocessing.py:34-46 | The query is dropped exactly when, on the stripped lower-cased text, one of the three drop rules fires. The rules are: the letters-only residue is empty, ends with a cancel phrase or contains a hard-cancel phrase; the text contains the invalid character; or the text has no space. |
| Preprocessing.PayloadFitsAction | preprocessing.py:14-61 | Every successful classification pairs its action with the matching payload. Drop has none. Replace and Continue carry text. VolumeAdjust carries the fraction that the volume rule reads from the cleaned text. |
| Preprocessing.AnswerFits | preprocessing.py:48-61 | Past the drop rules, the action is never Drop. Continue carries the original unstripped query, and VolumeAdjust carries the volume rule's fraction. |
| Preprocessing.NoLettersDrops | preprocessing.py:34-38 | A query with no letters after stripping is dropped. |
| Preprocessing.ReplaceIsLocalAnswer | preprocessing.py:48-55 | Replace answers only the exact time and date questions. Its text is the chosen time template filled with the time string, or the chosen date template. It is always one of the fixed local replies for that clock. |
| Preprocessing.AnswerReplace | preprocessing.py:48-55 | The same as ReplaceIsLocalAnswer, stated for the rules that follow the drop rules. |
| Preprocessing.QueriesDisjoint | preprocessing.py:80-104 | No question is both a time question and a date question, so the order of the two rules never matters. |
| Preprocessing.LocalRepliesCover | preprocessing.py:87-113 | Every template choice for time and for date gives a reply in the fixed set of local replies. |
| Preprocessing.ContinuePassesQuery | preprocessing.py:48-61 | Continue happens only when the cleaned text is neither a time nor a date question and the volume pattern is absent. Its payload is the original query. |
| Preprocessing.CheckForTime | preprocessing.py:80-96 | A reply comes back exactly when the query is one of the three time questions. The reply is the chosen template filled with the time string, and it is never empty. |
| Preprocessing.CheckForDate | preprocessing.py:99-114 | A reply comes back exactly when the query is one of the three date questions. The reply is the chosen template with the weekday, month and ordinal day, and it is never empty. |
| Preprocessing.Hour12 | preprocessing.py:95 | `%I` reads the hour as a value from 1 to 12. |
| Preprocessing.TimeStringShape | preprocessing.py:95 | The time string is the hour on a 12-hour dial without a leading zero, a colon, and two minute digits. It never starts with '0'. |
| Preprocessing.NumberSuffixCases | preprocessing.py:128-129 | The ordinal is str(d) plus a suffix: st, nd or rd exactly when d % 20 is 1, 2 or 3, and th for every other remainder. |
| Preprocessing.NumberSuffixFirstDays | preprocessing.py:128-129 | 1, 2 and 3 become 1st, 2nd and 3rd. |
| Preprocessing.NumberSuffixTeens | preprocessing.py:128-129 | 11, 12 and 13 take th. |
| Preprocessing.NumberSuffixLateDays | preprocessing.py:128-129 | 21 and 22 take st and nd, but 31 becomes "31th". |
| Preprocessing.LettersSpec | preprocessing.py:35 | The residue keeps only letters, is no longer than its input, and is empty exactly when the input has no letter. |
| Preprocessing.ResidueOfTwoWords | preprocessing.py:35 | Two lower-case words separated by a space leave both words joined without the space. This is how "never mind" meets the "nevermind" cancel phrase. |
| Preprocessing.RunLength | preprocessing.py:65 | `[^\s%]+` matches a maximal run of characters that are neither white space nor '%', and the run stays inside the text. |
| Preprocessing.SearchFromFinds | preprocessing.py:65 | When the volume search succeeds, its group sits at the leftmost position where an attempt succeeds. It directly follows one of the three spellings of "set ... volume to " and is a maximal non-empty run. The search fails exactly when no position matches. |
| Preprocessing.IndexOf | preprocessing.py:69 | `list.index` returns a position that holds the word. |
| Preprocessing.VolumeIsPercent | preprocessing.py:64-72 | A volume command yields a non-negative whole number of hundredths, read from a found group. A group that is not all digits is one of zero to nine and gives less than 0.1. |
| Preprocessing.VolumeOfPercent | preprocessing.py:66-71 | The same, for what check_for_volume makes of a found group. |
| Preprocessing.Percent | preprocessing.py:71 | N/100 is a non-negative whole number of hundredths, and below 0.1 for a single digit. |
| Preprocessing.VolumeErrorIsUnknownWord | preprocessing.py:68-69 | check_for_volume fails only with ValueError, and only when the group is neither all digits nor one of zero to nine. |
| Preprocessing.ExampleNeverMind | preprocessing.py:24-38 | "Never mind." is dropped, because its residue ends with a cancel phrase. |
| Preprocessing.ExampleSingleWord | preprocessing.py:44-46 | "asdf" is dropped as a single word. |
| Preprocessing.ExampleVolumeDigits | preprocessing.py:64-71 | "set the volume to 7%" gives 0.07. |
| Preprocessing.ExampleVolumeWord | preprocessing.py:64-71 | "set your volume to five" gives 0.05. |
| Preprocessing.ExampleVolumeUnknownWord | preprocessing.py:64-71 | "set the volume to loud" raises ValueError. |
| Text.StripIsSlice | preprocessing.py:24 | `strip(chars)` returns a contiguous slice of the input. Only characters of the set are removed around it, and its first and last characters are outside the set. |
| Text.StripExact | preprocessing.py:24 | Conversely, a slice whose ends are outside the set, with only set characters around it, is what strip returns. |
| Text.LStripSpec | preprocessing.py:24 | `lstrip` keeps the longest suffix that does not start with a character of the set, and removes only set characters. |
| Text.RStripSpec | preprocessing.py:24 | `rstrip` keeps the longest prefix that does not end with a character of the set, and removes only set characters. |
| Text.LowerChar | preprocessing.py:24 | `lower` maps each upper-case ASCII letter to its lower-case letter and leaves every other character unchanged. |
| Text.LStripChar | preprocessing.py:95 | `lstrip("0")` removes only leading zeros, keeps a suffix of the input, and leaves a string that does not start with '0'. |
| Text.NatToString | preprocessing.py:129 | `str(n)` is a non-empty string of digits that starts with '0' only for 0, and has one digit exactly when n < 10. |
| Text.IntToString | preprocessing.py:129 | `str(i)` is `str` of the magnitude, preceded by '-' for a negative i. |
| Text.ParseNatToString | preprocessing.py:113-114 | `int(str(n)) == n`. |
| Text.ParseLeadingZero | preprocessing.py:113-114 | A leading '0' does not change the value that `int` reads. |
| Preprocessing.DayReadBack | preprocessing.py:113-114 | The zero-padded day of the month with its leading zeros stripped is all digits, and `int` reads it back as the day. |
| Preprocessing.DayOfMonth | preprocessing.py:113-114 | The day that the date reply reads back from `%d` is the day of the month. |
| Text.Pad2 | preprocessing.py:95 | `%02d` gives two digits that read back as the number. |
| Chat.SumTokensAppend | conversationmanager.py:93-98 | The token count of two message lists together is the sum of their counts. |
| ConversationStore.Pruned | conversationmanager.py:143-156 | Pruning keeps a suffix of the log and never empties a non-empty log. Afterwards, the system tokens plus the log's tokens fit the budget, or at most one message is left. |
| ConversationStore.PrunedOnlyWhileOver | conversationmanager.py:150-154 | Every message dropped was dropped while more than one message remained and the total was over budget, so pruning stops as early as it may. |
| ConversationStore.PrunedFreesDropped | conversationmanager.py:150-154 | The tokens freed are exactly those of the dropped messages. |
| ConversationStore.PrunedKeepsNoSystem | conversationmanager.py:143-156 | Pruning a log without system messages leaves none. |
| ConversationStore.GetConversation | conversationmanager.py:187-190 | The request has one extra message, the system message, placed before the last two messages (first when there are fewer). Removing it gives back the log. When the log has no system message, it is the only system message. |
| ConversationStore.Kept | conversationmanager.py:111-125 | The chunks passed on are in order, never more than those received, and never empty or a lone "-". |
| ConversationStore.NonsenseUnique | conversationmanager.py:114-117 | At most one chunk can complete the nonsense answer "-1". |
| ConversationStore.FilterChunks | conversationmanager.py:110-125 | The chunk loop raises InvalidInputError exactly when some chunk "1" or "-1" follows text that is exactly "-". It then yields the kept chunks before that chunk. Otherwise it yields every kept chunk, and the response is the whole text. |
| ConversationStore.FirstNonEmptyIsOne | conversationmanager.py:112-117 | A "1" or "-1" chunk follows only empty chunks exactly when it is the first non-empty chunk. |
| ConversationStore.NonsenseIffFirstTwo | conversationmanager.py:112-123 | The loop raises exactly when the first two non-empty chunks are "-" and then "1" or "-1". |
| ConversationStore.ConversationManager.constructor | conversationmanager.py:56-62 | The system message joins the personality rules, a blank line and the directives. The log starts empty, and the cached total is the system message's tokens. |
| ConversationStore.ConversationManager.AppendMessage | conversationmanager.py:158-175 | The message is appended at the end and its tokens are added. The cached total stays equal to the system message's tokens plus the log's. |
| ConversationStore.ConversationManager.MakeRoom | conversationmanager.py:143-156 | The new log is `Pruned` of the old one, and the cached total stays exact. |
| ConversationStore.ConversationManager.GetTotalTokenCount | conversationmanager.py:93-98 | Returns the system message's tokens plus the log's, which equals the cached total whenever the cache is valid. |
| ConversationStore.ConversationManager.LoadConversation | conversationmanager.py:65-75 | Every record read back is appended in order, then the log is pruned once. |
| ConversationStore.ConversationManager.GetResponse | conversationmanager.py:100-141 | The time-stamped user message is appended and the log pruned. Then: on the nonsense answer, InvalidInputError with the chunks kept before it; on an HTTP error, nothing escapes; on another error, it escapes; otherwise the whole reply is appended as the assistant's message and the generator ends with None. The cache stays exact, and no system message enters the log. |
| Capture.Blocks | states/listening.py:81 | One block is kept per pass, in order, as the pass delivered it. |
| Capture.TakeFrames | states/listening.py:62-79 | The buffer is cut into frames of exactly the detector's length, and the remainder is shorter than a frame. Frames plus remainder spell out the buffer. A voiced frame sets the voice flag, restarts the silence at this pass and shortens the pause window. |
| Capture.FrameStep | states/listening.py:63-65 | Cutting one frame off the buffer loses no sample, and adds a voiced frame exactly when that frame scores above the threshold. |
| Capture.Pass | states/listening.py:54-81 | A pass is silent exactly when it brings audio and the silence has already lasted the pause window. A silent pass changes nothing. Any other pass keeps its block, and the recording invariant extends to it. |
| Capture.PassedWithFrames | states/listening.py:57-81 | A pass that was not silent and whose audio was appended and framed keeps the recording invariant: blocks, frame lengths, every received sample framed or buffered, the voice flag, the pause window, the silence start at the last pass with a voiced frame, and no pass with audio having found the pause window run out. |
| Capture.VoicingStep | states/listening.py:57-72 | After one more pass that did not find the pause window run out, the silence starts at that pass if it scored a voiced frame and is unchanged otherwise. The pause window becomes the ending pause at the first voiced frame. The pass joins those that waited. |
| Capture.LastVoiced | states/listening.py:69-72 | The pass it names scored a voiced frame and no later pass did. With no pass named, no pass scored a voiced frame. |
| Capture.RecordLoop | states/listening.py:53-81 | The loop runs passes while the clock is within MAX_DURATION. It stops at the first silent pass (one that brings audio after the silence has lasted the pause window), at a pass past the limit, or when the inputs run out. The invariant holds on the passes taken. |
| Capture.RecordQuery | states/listening.py:45-85 | Stated on the passes it used: every pass was within MAX_DURATION, and the loop ended by silence or at the time limit or the end of input. A break by silence happens at a pass with audio whose clock is at least the pause window past the silence start. No earlier pass with audio met that condition, with the silence start and pause window of its own time. The silence starts at the last pass that scored a voiced frame, or at the start time. The blocks kept are those of the passes before the break. Frames plus buffer are all audio received. The voice flag is true exactly when it was passed in true or a frame scored above 0.5. The pause window is 1 s once voice is heard and 4 s before. The result is an error when a pass brought no audio. |
| Capture.TranscriptSpec | states/listening.py:88-110 | A transcript comes back exactly when one of the first two attempts returns non-empty text after only timeouts. The transcript is that text with newlines stripped from both ends. |
| Capture.SpeechToText | states/listening.py:88-110 | The retry loop returns what TranscriptSpec describes. |
| Pipeline.UpToMarkerSpec | states/listening.py:223-229 | The consumer forwards a prefix of the stream that ends at its first end marker, or the whole stream when it has none. |
| Pipeline.RunTextRetriesBounded | states/listening.py:219-252 | The retry counter never exceeds MAX_LLM_RETRIES, so the `retries > MAX_LLM_RETRIES` test never sets the timeout flag. |
| Pipeline.RunTextEndsWithMarker | states/listening.py:219-250 | Something is pushed exactly when an attempt was made, and the last item pushed is then an end marker. |
| Pipeline.RunTextStopsOnNonsense | states/listening.py:219-250 | The conversation stops exactly when the last attempt used raised InvalidInputError before any end marker. |
| Pipeline.SuccessPushesTwoMarkers | states/listening.py:223-250 | A stream that ends with its own marker completes in one attempt and leaves two end markers at the end of the queue. |
| Pipeline.EnqueueText | states/listening.py:214-252 | A local reply is pushed followed by one end marker. Otherwise the items pushed and the continue flag are those of the retry run RunText, and the timeout flag stays unset. |
| Pipeline.ForwardUntilMarker | states/listening.py:223-229 | The consumer loop forwards exactly the items up to and including the first end marker. |
| Pipeline.LastBoundary | states/listening.py:284 | The greedy `^.*` ends the sentence at the last position where a terminator follows two word characters, with no newline before it and text after it. |
| Pipeline.LineEnd | states/listening.py:284 | `.+` runs to the first newline or the end of the buffer. |
| Pipeline.SentenceMatch | states/listening.py:284 | The pattern matches exactly when the buffer has a boundary. The sentence ends at that boundary, and the trailing text is non-empty, newline-free and directly follows it. |
| Pipeline.NewlineFreeSplit | states/listening.py:284-288 | On newline-free text, sentence plus trailing text is the whole buffer, and the trailing text holds no further boundary. |
| Pipeline.SegmentStep | states/listening.py:282-291 | A sentence sent is never empty, and when none is sent the buffer is unchanged. |
| Pipeline.SegmentStepKeepsText | states/listening.py:282-291 | On newline-free text, one step loses nothing, leaves no boundary in the buffer, and at the end marker empties a buffer that held no boundary. |
| Pipeline.SegmentAccount | states/listening.py:282-291 | On newline-free text, the sentences sent plus the buffer still spell out everything received after one step. |
| Pipeline.SegNextAccounted | states/listening.py:271-305 | One loop pass keeps the account of the newline-free text received. |
| Pipeline.SegNextClean | states/listening.py:271-305 | Without synthesis failures, one pass counts no retry, and only the last item taken can be the end marker. |
| Pipeline.SegRunKeeps | states/listening.py:271-305 | Up to wherever the loop stops, retries stay within MAX_TTS_RETRIES, sentences sent are non-empty, and the text account holds. Without failures, the loop runs to the end marker or the end of the queue and leaves an empty buffer after the marker. |
| Pipeline.Segment | states/listening.py:271-305 | The segmenter loop computes the run SegRun from the start state. |
| Pipeline.EnqueueAudio | states/listening.py:254-310 | With the timeout flag set, nothing is consumed and no end marker is pushed. Otherwise the loop runs, and every sentence synthesised is non-empty. On newline-free text, the sentences plus the buffer are all text received. Without failures, the queue is read to its end marker and the buffer is flushed. The end marker is pushed, and the flag is left as it was. |
| Listening.PreprocessText | states/listening.py:382-399 | The action is the preprocessor's. Drop and Continue give no response, Replace gives its text, and VolumeAdjust answers "Done." and sets the speaker volume to the fraction. A preprocessor error propagates and leaves the volume unchanged. |
| Listening.TurnOutcomeCases | states/listening.py:132-198 | `run` goes round again exactly when voice was heard, a transcript came back, the query was not dropped, and the pipeline reported neither a timeout nor the end of the conversation. It returns True (go back to sleep) exactly on no voice, no transcript, or a dropped query. |
| Listening.TakeTurn | states/listening.py:139-185 | One turn ends as TurnOutcome says, and sets the speaker volume only on a volume command. |
| Listening.RunFromStopsAtFirstFinish | states/listening.py:133-198 | `run` stops at the first turn that finishes and returns that turn's verdict. Every earlier turn went round again. |
| Listening.Run | states/listening.py:132-198 | The loop's verdict and turn count are those of RunFrom over the turn outcomes. The speaker volume is the last volume set by the turns taken. |
| GptClient.TrimShape | gpt_client.py:53-56 | Trimming removes a run of messages right after the system message and keeps the rest in order. The total becomes the token count of the last message removed. |
| GptClient.TrimStops | gpt_client.py:53-56 | Trimming stops within budget, or fails with at most one message left. |
| GptClient.TrimFailsIff | gpt_client.py:53-56 | `pop(1)` raises exactly when the total is over budget and every message after the system message is, on its own, over budget. |
| GptClient.GroupAccount | gpt_client.py:97-113 | Every streamed delta is in a yielded group or still buffered, in order. |
| GptClient.GroupContent | gpt_client.py:97-113 | `content` is the last buffered delta, or empty when nothing is buffered. |
| GptClient.GroupEnds | gpt_client.py:97-113 | Every yielded group contains a sentence end, and no buffered delta does. |
| GptClient.SaidIsStreamed | gpt_client.py:97-117 | With at most one buffered delta, other than "1" or "-1", what is said is the whole streamed text. |
| GptClient.GroupDeltas | gpt_client.py:90-113 | The grouping loop computes Group of the deltas. |
| GptClient.Client.constructor | gpt_client.py:36-43 | The conversation is one system message, the personality rules and application rules joined by spaces, and the total is its tokens. |
| GptClient.Client.AddUserMessage | gpt_client.py:47-51 | The user message is appended and its tokens added. |
| GptClient.Client.MakeRoom | gpt_client.py:53-56 | The new conversation and total are those of Trim, and IndexError is raised exactly when trimming fails. |
| GptClient.Client.GetResponse | gpt_client.py:46-72 | After the user message is added and trimmed: IndexError if trimming fails; the model's error if it raises; otherwise the reply is appended with its tokens added. |
| GptClient.Client.GetResponseGenerator | gpt_client.py:75-125 | After the user message is added and trimmed: IndexError if trimming fails; otherwise the groups and the leftover are yielded, then None, and their concatenation is appended as the assistant's message. |

## Left out

- Threads, queues and their timeouts. Each pipeline stage is a sequential loop over the items its queue delivers. `queue.Empty` and the stop flag (`stop_playback`) are not modelled, nor are `stream_audio_chunks` and `monitor_stop_word`, which only play audio and watch for the stop word.
- `run_response_pipeline` itself: its two flags are an input of each turn in `Listening`.
- Audio signal processing: resampling, the amplification factor and the detector are the abstract scoring function `vad` over frames of samples. The audio file is the list of blocks kept.
- Clocks: each pass of `record_query` reads the clock once (`Tick.now`), although the source reads it separately for the loop test, the silence test and a voiced frame. The silence start and the start time are the same reading.
- The tokenizer (`count_tokens`) is a parameter `count`. The context and response budgets of the conversation manager are constructor parameters.
- Persistence: pickling to disk, the backup and temporary copies and their recovery, reading the directives file, the web service notifications, logging and `cprint`. `load_conversation` receives the records it reads back.
- `add_timestamp`: the formatted time stamp is a parameter, because it reads the clock. `remove_timestamp`, `prepend_timestamp` and the internals of `process_tts_sentence` (speech synthesis) are not part of this model. Each synthesis call either succeeds or raises, as `failures` says.
- The `@timeout` decorators of the client: a timeout is an outcome of the attempt it ends.
- Python's Unicode `isalpha`, `lower` and `isnumeric` are modelled on ASCII letters and digits. `\s` and `isspace` are modelled on the white-space code points.
- The remote services (speech-to-text, the language model, speech synthesis) are their outcome sequences. The finite input sequences also end loops that the source could repeat forever on HTTP errors.
- The exceptions of the streaming request inside `get_response_generator`: it is modelled as run to the end by its consumer.
- Listening.SoundConfig models only the speaker volume of the sound configuration.
- Pipeline.EnqueueText: does not model the `stop_playback` test inside the consumer loop. It assumes the stop word is never heard.
- Pipeline.EnqueueAudio: the account of the text received is proved only for newline-free text, because the source drops text after a newline in the trailing part.
- The percentage read by `preprocess_text` is an exact rational: `float(percent)/100` has no binary rounding in the model, and a huge digit string gives a huge value rather than `inf`.
- The exception path of the voice-activity detector in `record_query` (log, then `exit(-1)`) is not modelled: the scoring function `vad` always returns a score.
- The `\d` of the segmenter's pattern is modelled by ASCII digits (`WordChar`), whereas Python's `\d` also matches other Unicode decimal digits.
- GptClient.SaidIsStreamed: covers only streams that end with at most one buffered delta, because with more the source loses the earlier ones.
