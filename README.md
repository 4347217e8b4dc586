# A.E.G.I.S. core logic in Dafny

A.E.G.I.S. is a voice- and text-driven programming assistant. This project models
the three pieces of sequential logic at its centre, and proves what they promise:

- **The voice engine** (`core/voice_engine.py`): the wake-word/sleep-word state
  machine run on every audio frame the recogniser delivers, the inactivity
  timeout, the `command_queue` events it emits, the priority-aware speech queue
  with its sentence-pause formatting, the consumer that hands queued text to the
  Piper synthesiser, the `start_listening`/`stop` guards, and the check that the
  Piper installation is complete. `VoiceEngine.Engine` is a class whose methods
  update its fields in place. The detector methods are proved against pure
  functions on a `Detector` value (`Step`, `Run`, `Activate`, `Deactivate`), and
  `speak` against `Enqueued`, a function on the speech queue itself; the lemmas
  are stated about these functions. The speech
  consumer is proved against `Played` and `PiperCommand`, and `Stop`,
  `StartListening` and the installation check state their effect directly.
- **The response pipeline** (`core/code_assistant.py`): the prompt built from a
  request and its context, the conversation history and the ten-entry window
  sent behind the system instruction, the error text returned instead of an
  exception, and the post-processing of the model's reply.
- **The chat history of the text interface** (`interface.py`): how
  `(sender, message)` entries render into the history panel, and how submitting
  input, receiving a reply and reloading the core change the history.

Python's string operations that the decisions rest on (`lower`, `in`, `replace`,
`count`, `split`, `strip`, `"\n".join`) are defined once in module `Text`, with
the properties the models need. `Wrappers` holds `Option`, `Result` and `Outcome`,
which stand for `None` and for raised exceptions.

Inputs from the outside world are parameters: the recogniser is a sequence of
frames, each either partial or carrying a final transcript, and stamped with the
integer second at which it was handled; file existence is a predicate on paths;
a Piper run is a function from its invocation to whether the output file
existed afterwards and was read and played without error; the chat-completion request is a function from the payload to the reply's
content or the text of the error raised; the assistant core used by the text
interface is a function from a command to its reply. That collaborator is
assumed: interface.py imports `AEGIS` from main.py, which defines no such class,
and `execute_directive` is called (interface.py:67) but defined nowhere in the
repository. `WAKE_WORD`, `SLEEP_WORD`,
`WAKE_SLEEP_TIMEOUT` and the `PIPER_*` settings are read from `Config` but are not
defined in `config.py`, so they are the fields of `WakeConfig` and `PiperConfig`.

## Model

| member | source | states |
|---|---|---|
| VoiceEngine.FormatSpeech | core/voice_engine.py:215 | defines the text `speak` queues: every `". "` rewritten as `". [...] "`, non-overlapping, from the left; its properties are the two lemmas below |
| VoiceEngine.Enqueued | core/voice_engine.py:216-224 | defines the queue after `speak`: the formatted text first with priority, last without; see `EnqueuedKeepsQueue` |
| VoiceEngine.Activate | core/voice_engine.py:152-157 | active, activity time now, exactly one `wake_detected` appended, "Estou ouvindo" verbatim at the head of the speech queue in front of the old items |
| VoiceEngine.Deactivate | core/voice_engine.py:160-164 | idle, activity time kept, exactly one `sleep_detected` appended, "Entrando em modo de espera" verbatim at the head of the speech queue in front of the old items |
| VoiceEngine.OnFinalResult | core/voice_engine.py:128-139 | a final transcript always sets the activity time to now, and emits at most one event, the one for the state it flips to; without an event the state and speech queue are unchanged |
| VoiceEngine.Mentions | core/voice_engine.py:130-135 | defines the wake/sleep test: the lower-cased word occurs in the lower-cased transcript; see `Text.LowerIdempotent` and `Text.ContainsAt` |
| VoiceEngine.TimedOut | core/voice_engine.py:142-144 | defines the timeout test: active, with an activity time whose `.seconds` distance exceeds the timeout; see `SilenceSleeps` and `SilenceOverADayWraps` |
| VoiceEngine.CheckInactivity | core/voice_engine.py:141-145 | after the check the engine is never timed out; it either changes nothing or deactivates with one `sleep_detected` |
| VoiceEngine.Step | core/voice_engine.py:125-145 | one received frame only appends to the events, at most two of them, and leaves the engine not timed out |
| VoiceEngine.Run | core/voice_engine.py:125-150 | over a run of frames the events are only appended, at most two per frame |
| VoiceEngine.RequiredFiles | core/voice_engine.py:73-77 | defines the three required files by name and path, in dict order; see `RequiredFilesReport` |
| VoiceEngine.MissingLine | core/voice_engine.py:81 | defines the `- name: path` line; see `RequiredFilesReport` |
| VoiceEngine.MissingFilesMessage | core/voice_engine.py:84 | defines the error message: "Arquivos faltantes:" and a line break, then the lines joined by line breaks; see `VerifyPiperInstallation` |
| VoiceEngine.MissingLines | core/voice_engine.py:79-81 | one line per missing required file, in order, so never more lines than files; see `MissingLinesEmpty` and `RequiredFilesReport` |
| VoiceEngine.PiperCommand | core/voice_engine.py:171-177 | defines the argument vector; see `PiperCommandReadsBack` |
| VoiceEngine.Played | core/voice_engine.py:198-211 | defines the texts whose Piper run produced audio that played, in queue order; see `PlayedAreQueued`, `SucceededArePlayed`, `PlayedSucceeded` and `PlayedInQueueOrder` |
| VoiceEngine.FormatSpeechLength | core/voice_engine.py:215 | each `". "` rewritten as `". [...] "` grows the text by exactly six code points |
| VoiceEngine.FormatSpeechPlain | core/voice_engine.py:215 | text without `". "` is queued unchanged |
| VoiceEngine.NoticesUnformatted | core/voice_engine.py:157 | the wake and sleep notices are queued verbatim |
| VoiceEngine.EnqueuedKeepsQueue | core/voice_engine.py:216-224 | a priority text goes in front of the old queue, a normal one behind it; nothing is dropped (multiset) and the old items keep their order |
| VoiceEngine.PriorityGoesAhead | core/voice_engine.py:216-224 | normal A, normal B, then priority C leaves the queue as C, the old queue, A, B |
| VoiceEngine.SecondsComponent | core/voice_engine.py:143 | `timedelta.seconds` lies in [0, 86400) and equals the difference when that is under a day |
| VoiceEngine.SilenceOverADayWraps | core/voice_engine.py:142-145 | an active engine silent for one day plus s seconds, with s within the timeout, is not put to sleep by a partial frame, because `.seconds` drops the whole day |
| VoiceEngine.WakeWordWakes | core/voice_engine.py:128-139 | wake word while idle: active, clock set to now, one `wake_detected` appended, "Estou ouvindo" first in the speech queue |
| VoiceEngine.SleepWordSleeps | core/voice_engine.py:133-139 | sleep word while active: idle, clock set to now, one `sleep_detected` appended, "Entrando em modo de espera" first in the speech queue |
| VoiceEngine.OtherTalkOnlyTouchesClock | core/voice_engine.py:133-139 | wake word while active, sleep word while idle or any other transcript changes only the time of the last activity |
| VoiceEngine.SilenceSleeps | core/voice_engine.py:141-145 | a frame after more than the timeout of silence puts an active engine to sleep with the same `sleep_detected` event and notice as the sleep word |
| VoiceEngine.QuietFrameChangesNothing | core/voice_engine.py:141-145 | a partial frame within the timeout changes nothing |
| VoiceEngine.IdleUntilWoken | core/voice_engine.py:125-150 | an idle engine stays idle and emits no event and no speech until a transcript mentions the wake word |
| VoiceEngine.StepFollows | core/voice_engine.py:128-145 | one frame emits only the events of the flips of `active_listening` it makes |
| VoiceEngine.RunFollows | core/voice_engine.py:125-150 | over any run the events alternate, each one a flip, and the state reflects their number |
| VoiceEngine.EventsAlternate | core/voice_engine.py:133-165 | from an idle engine the new events read wake, sleep, wake, ...; it is active exactly when it emitted an odd number of them |
| VoiceEngine.MissingLinesEmpty | core/voice_engine.py:79-83 | no missing-file line is produced exactly when every required file exists |
| VoiceEngine.RequiredFilesReport | core/voice_engine.py:72-84 | the report lists exactly the missing files among piper, model and config, in that order, as `- name: path` |
| VoiceEngine.VerifyPiperInstallation | core/voice_engine.py:72-84 | fails if and only if a required file is missing, with "Arquivos faltantes:" and the missing lines joined by line breaks |
| VoiceEngine.PiperCommandReadsBack | core/voice_engine.py:170-177 | the argument vector names the executable and passes the model, the output file, the sentence silence and the noise scale, and no length scale |
| VoiceEngine.PlayedAreQueued | core/voice_engine.py:198-211 | only queued texts are played, no more of them than were queued |
| VoiceEngine.SucceededArePlayed | core/voice_engine.py:187-192 | every queued text whose Piper run produced an audio file is played |
| VoiceEngine.PlayedSucceeded | core/voice_engine.py:189-192 | a text is played only if its run produced a playable audio file; with `SucceededArePlayed` the played texts are exactly the succeeded ones |
| VoiceEngine.PlayedInQueueOrder | core/voice_engine.py:198-211 | the played texts keep their queue order |
| VoiceEngine.Engine.constructor | core/voice_engine.py:21-51 | a new engine is idle, not listening, with no activity time and empty queues |
| VoiceEngine.Engine.StartListening | core/voice_engine.py:90-94 | listening starts only when not yet listening and the Vosk model loaded; nothing else changes |
| VoiceEngine.Engine.Stop | core/voice_engine.py:226-229 | not listening and not active afterwards, with no event emitted and the queues unchanged |
| VoiceEngine.Engine.Speak | core/voice_engine.py:213-224 | the queue becomes the formatted text in front of the drained old queue (priority) or behind it (normal); nothing else changes |
| VoiceEngine.Engine.ActivateListening | core/voice_engine.py:152-158 | active, activity time now, `wake_detected` emitted, the wake notice queued with priority |
| VoiceEngine.Engine.DeactivateListening | core/voice_engine.py:160-165 | idle, `sleep_detected` emitted, the sleep notice queued with priority, activity time kept |
| VoiceEngine.Engine.HandleFrame | core/voice_engine.py:127-145 | the engine's new state is `Step` of its old state on the frame |
| VoiceEngine.Engine.DetectWakeWord | core/voice_engine.py:123-150 | while listening, the engine's new state is `Run` of its old state over the frames; when not listening nothing changes |
| VoiceEngine.Engine.ProcessSpeech | core/voice_engine.py:198-211 | every queued text is taken in order and handed to Piper with the same command line; a failed run is skipped; the queue ends empty and nothing else changes |
| VoiceEngine.NewEngine | core/voice_engine.py:21-43 | construction fails with the missing-files message exactly when a required file is missing; otherwise the engine starts idle, not listening, and remembers whether the Vosk model loaded |
| CodeAssistant.BuildPayload | core/code_assistant.py:32-42 | defines the payload: model name, the system instruction then the window, temperature 0.2, 1000 tokens, top-p 0.95, presence penalty 0.5; see `PayloadShape` |
| CodeAssistant.ErrorReply | core/code_assistant.py:52-53 | the error text is the fixed prefix followed by the error's own text |
| CodeAssistant.FullPrompt | core/code_assistant.py:28 | the prompt is the context header, the context, the request header and the request, in that order |
| CodeAssistant.Window | core/code_assistant.py:36 | the window is the last `min(n, 10)` entries of the history, in order |
| CodeAssistant.PayloadShape | core/code_assistant.py:30-42 | the payload is the system instruction followed by at most ten most recent turns, the last of them the new prompt; the instruction is its only system message |
| CodeAssistant.Cleaned | core/code_assistant.py:57-61 | after the three rewrites no `**` is left |
| CodeAssistant.Postprocess | core/code_assistant.py:55-67 | the result starts with the cleaned text and contains no `**` |
| CodeAssistant.ShortReplyAsks | core/code_assistant.py:64-65 | a cleaned reply of fewer than eight words gets the request for details appended once |
| CodeAssistant.LongReplyKept | core/code_assistant.py:64-67 | a cleaned reply of eight words or more is returned as it is |
| CodeAssistant.PlainLongReplyUnchanged | core/code_assistant.py:55-67 | a reply without fences or bold markers and of eight words or more is returned unchanged |
| CodeAssistant.AskForDetailsHasNoBold | core/code_assistant.py:65 | the appended request for details holds no `**` and does not start with `*` |
| CodeAssistant.CognitiveCore.constructor | core/code_assistant.py:13 | the history starts empty |
| CodeAssistant.CognitiveCore.GenerateResponse | core/code_assistant.py:24-53 | on success the history gains the prompt and the raw reply and the post-processed reply is returned; on failure it gains only the prompt and the error text is returned; no system message enters the history; the context defaults to the empty text, as in the source |
| ChatInterface.Render | interface.py:74-77 | a `user` entry renders as `YOU:`, any other as `A.E.G.I.S.:`, then the message and a line break |
| ChatInterface.RenderAll | interface.py:73-77 | one rendering per entry, in history order |
| ChatInterface.HistoryText | interface.py:72-78 | defines the panel text as the renderings joined by `"\n"`; see `HistoryTextShort` and `HistoryTextAppend` |
| ChatInterface.HistoryTextShort | interface.py:72-78 | an empty history formats to the empty text, a single entry to its rendering |
| ChatInterface.HistoryTextAppend | interface.py:78 | one more entry adds exactly one line break and its rendering after the text shown before |
| ChatInterface.ChatView.constructor | interface.py:38-41 | a new view has an empty history, an empty panel and input line, and the given core |
| ChatInterface.ChatView.FormatHistory | interface.py:72-78 | the loop's result is the renderings joined by single line breaks |
| ChatInterface.ChatView.OnMount | interface.py:49-52 | the panel shows the formatted history |
| ChatInterface.ChatView.OnInputSubmitted | interface.py:55-63 | blank input changes nothing and dispatches nothing; other input appends exactly `("user", stripped)`, shows it, dispatches the stripped text and clears the input line |
| ChatInterface.ChatView.ProcessCommand | interface.py:66-69 | exactly one `("aegis", reply)` entry is appended and shown |
| ChatInterface.ChatView.ReloadCore | interface.py:86-89 | the core is replaced and the reload notice shown; the history is unchanged |
| Text.Lower | core/voice_engine.py:130-135 | `lower()` keeps the length and lowers each code point by `LowerChar` |
| Text.Contains | core/voice_engine.py:133-135 | defines `sub in s`; `ContainsAt` ties it to "some slice equals `sub`" |
| Text.Replace | core/code_assistant.py:57-61 | defines `str.replace` as a left-to-right, non-overlapping scan; see `ReplaceLength`, `ReplaceAbsent` and `RemovePairLeavesNone` |
| Text.Count | core/voice_engine.py:215 | defines `str.count` with the same scan as `Replace`; see `ReplaceLength` |
| Text.Strip | interface.py:56 | defines `strip()` as dropping leading and trailing blanks; see `StripEmptyIffBlank` |
| Text.ContainsAt | core/voice_engine.py:133-135 | `sub in s` holds exactly when some slice of `s` equals `sub` |
| Text.LowerChar | core/voice_engine.py:130 | a lowered character is not upper case, and only upper-case characters change |
| Text.LowerIdempotent | core/voice_engine.py:130-135 | lowering twice is lowering once |
| Text.ReplaceLength | core/voice_engine.py:215 | `replace` changes the length by the occurrence count times the length difference |
| Text.ReplaceAbsent | core/code_assistant.py:57-61 | `replace` of an absent pattern changes nothing |
| Text.RemovePairLeavesNone | core/code_assistant.py:60 | removing every doubled character leaves no doubled character |
| Text.StripEmptyIffBlank | interface.py:56-57 | `strip()` is empty exactly for blank input |
| Text.SplitEmptyIffBlank | core/code_assistant.py:64 | `split()` finds no word exactly in blank input |
| Text.Split | core/code_assistant.py:64 | every piece `split()` returns is a non-empty run without blanks |
| Text.SplitWord | core/code_assistant.py:64 | a single word splits into itself |
| Text.SplitConcat | core/code_assistant.py:64 | texts that meet at a blank split into the words of the first followed by those of the second; with `SplitEmptyIffBlank` and `SplitWord` this determines every split and so the word count |
| Text.WordCount | core/code_assistant.py:64 | defines `len(s.split())`; see `Split`, `SplitWord`, `SplitConcat` and `SplitEmptyIffBlank` |
| Text.JoinWith | interface.py:78 | defines `sep.join(parts)`: the parts in order with one separator between neighbours; see `JoinWithAppend` |
| Text.JoinWithAppend | interface.py:78 | joining one more part adds one separator before it |

## Left out

- Audio capture and recognition (`_capture_audio`, `_init_vosk`, `_init_microphone`, `sounddevice`, Vosk, `speech_recognition`): device I/O and foreign calls; the recogniser's output is the frame sequence, and whether the Vosk model loaded is a flag.
- Threads, `threading.Event`, thread joins in `stop`, and the race in which `speak` swaps the queue object while the consumer is blocked on the old one: concurrency is not modelled; the queue is a sequence changed by one operation at a time.
- The Piper subprocess, `sf.read`, `sd.play`/`sd.wait` and `os.remove`: external processes and audio I/O; a run is reduced to its argument vector, its input text and whether its output was played. The output file is always the same `temp_response.wav`, and `os.remove` (core/voice_engine.py:193) is skipped when reading or playback raises (caught at 195). A later text whose Piper run writes nothing then replays that stale file. Because the outcome here depends only on the invocation, the model cannot show that replay.
- VoiceEngine.Engine.ProcessSpeech: drains the queue until it is empty; the blocking `get` on an empty queue and the endless loop are not modelled, and neither is the non-Piper branch, which `_init_tts` never selects.
- The clock: integer seconds, one reading per received frame (the source reads it up to three times within one iteration: core/voice_engine.py:155, 139 and 143); `.seconds` keeps its wrap at one day, so a silence of a day and a few seconds counts as a few seconds, as written.
- A second of no audio (`queue.Empty`) skips the iteration, including the inactivity check, so only received frames are modelled; exceptions inside the detection loop, which are only printed, are not modelled.
- Text.Lower: `lower()` is modelled on ASCII and Latin-1 letters only; other scripts are left as they are.
- Path operations: `dir / name` is joined with `/`, and `PIPER_MODELS_DIR.parent` is a field of `PiperConfig`; no path normalisation.
- The HTTP request, `raise_for_status`, JSON decoding and the `tenacity` retry: network and library behaviour; every failure is the error text it raises. The retry never fires because the exception is caught inside the decorated method, so it changes nothing.
- CodeAssistant.CognitiveCore.GenerateResponse: a reply whose `content` is not a string (which would be appended to the history and then fail in post-processing) is not modelled; the content is always text.
- Textual widgets, `compose`, the CSS, the window titles, `scroll_end` and the `@work(exclusive=True)` dispatch (which may cancel an earlier command): UI and async plumbing; the panel and input line are reduced to the text they show.
- There is no separate timeout event: a timeout emits the same `sleep_detected` as the sleep word (core/voice_engine.py:145, 163). Piper is given only `--sentence_silence` and `--noise_scale` besides the model and output file (core/voice_engine.py:171-177).
- gui.py, core/code_editor.py, core/cognitive_core.py, core/google_auth.py, core/task_manager.py, core/screen_engine.py, models/silero/silero.py, download_models.py, setup.py, health_check.py and main.py are not part of this model: widget, network, scheduling, packaging and logging code.
