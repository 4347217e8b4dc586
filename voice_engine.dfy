/**
 * The control logic of the voice engine (core/voice_engine.py): the
 * wake-word/sleep-word state machine run on every audio frame, the
 * priority-aware speech queue, the consumer that hands queued text to the
 * Piper synthesiser, and the start/stop guards and installation check.
 *
 * The recogniser, the clock and the file system are inputs here: a frame is
 * either partial (no text) or a final transcript, it carries the integer
 * second at which it was handled, and file existence is a predicate on paths.
 */
module VoiceEngine {
  import opened Wrappers
  import opened Text

  /** The events pushed onto `command_queue`. */
  const WakeDetected := "wake_detected"
  const SleepDetected := "sleep_detected"

  /**
   * The spoken notices queued, with priority, on activation and deactivation.
   * Each is spelled as a concatenation so that the verifier treats it as a
   * value rather than a literal to evaluate `FormatSpeech` on step by step.
   */
  const WakeNotice := "Estou " + "ouvindo"
  const SleepNotice := "Entrando " + "em modo de espera"

  /** The only synthesis engine `_init_tts` ever selects. */
  const TtsEngine := "piper"

  const SecondsPerDay := 86400
  const OutputFileName := "temp_response.wav"

  /** The wake word, the sleep word and the inactivity timeout in seconds. */
  datatype WakeConfig = WakeConfig(wakeWord: string, sleepWord: string, timeout: int)

  /**
   * The Piper settings: the executable, the directory of voice models and its
   * parent directory (where the temporary audio file is written), the model
   * file name, and the two synthesis parameters as they are printed.
   */
  datatype PiperConfig = PiperConfig(
    piperPath: string,
    modelsDir: string,
    modelsParent: string,
    model: string,
    sentenceSilence: string,
    noiseScale: string)

  /** One audio block taken from the frame queue: `final` holds the transcript when the recogniser completed one. */
  datatype Frame = Frame(final: Option<string>, now: int)

  /** One run of the Piper executable: its argument vector and the text piped to its standard input. */
  datatype Invocation = Invocation(argv: seq<string>, input: string)

  // ---------------------------------------------------------------------------
  // The speech queue

  /** The pause marker `speak` inserts after every sentence end. */
  function FormatSpeech(text: string): string {
    Replace(text, ". ", ". [...] ")
  }

  /** Every `". "` rewritten grows the text by the six code points of `"[...] "`. */
  lemma FormatSpeechLength(text: string)
    ensures |FormatSpeech(text)| == |text| + 6 * Count(text, ". ")
  {
    ReplaceLength(text, ". ", ". [...] ");
  }

  /** Text without a sentence end is spoken as it is. */
  lemma FormatSpeechPlain(text: string)
    requires !Contains(text, ". ")
    ensures FormatSpeech(text) == text
  {
    ReplaceAbsent(text, ". ", ". [...] ");
  }

  /** The two notices are spoken verbatim. */
  lemma NoticesUnformatted()
    ensures FormatSpeech(WakeNotice) == WakeNotice
    ensures FormatSpeech(SleepNotice) == SleepNotice
  {
    LeadAbsent(WakeNotice, ". ");
    FormatSpeechPlain(WakeNotice);
    LeadAbsent(SleepNotice, ". ");
    FormatSpeechPlain(SleepNotice);
  }

  /** The queue after `speak(text, priority)`: priority text goes first, other text last. */
  function Enqueued(queue: seq<string>, text: string, priority: bool): seq<string> {
    if priority then [FormatSpeech(text)] + queue else queue + [FormatSpeech(text)]
  }

  /** `speak` drops nothing and reorders nothing: the old items keep their order around the new one. */
  lemma EnqueuedKeepsQueue(queue: seq<string>, text: string, priority: bool)
    ensures multiset(Enqueued(queue, text, priority)) == multiset(queue) + multiset{FormatSpeech(text)}
    ensures priority ==> Enqueued(queue, text, priority)[1..] == queue
    ensures !priority ==> Enqueued(queue, text, priority)[..|queue|] == queue
  {
  }

  /** Normal A, normal B, then priority C: C is spoken first, then A, then B. */
  lemma PriorityGoesAhead(queue: seq<string>, a: string, b: string, c: string)
    ensures Enqueued(Enqueued(Enqueued(queue, a, false), b, false), c, true)
         == [FormatSpeech(c)] + queue + [FormatSpeech(a), FormatSpeech(b)]
  {
  }

  // ---------------------------------------------------------------------------
  // The wake/sleep state machine

  /**
   * The part of the engine the detector changes: whether it is actively
   * listening, the time of the last activity (None before the first), the
   * events on `command_queue` and the texts on `speech_queue`.
   */
  datatype Detector = Detector(active: bool, last: Option<int>, commands: seq<string>, speech: seq<string>)

  /** `_activate_listening` at time `now`. */
  function Activate(d: Detector, now: int): (r: Detector)
    ensures r.active && r.last == Some(now) && r.commands == d.commands + [WakeDetected]
    ensures r.speech == [WakeNotice] + d.speech
  {
    NoticesUnformatted();
    d.(active := true, last := Some(now), commands := d.commands + [WakeDetected],
       speech := Enqueued(d.speech, WakeNotice, true))
  }

  /** `_deactivate_listening`: it leaves the time of the last activity alone. */
  function Deactivate(d: Detector): (r: Detector)
    ensures !r.active && r.last == d.last && r.commands == d.commands + [SleepDetected]
    ensures r.speech == [SleepNotice] + d.speech
  {
    NoticesUnformatted();
    d.(active := false, commands := d.commands + [SleepDetected],
       speech := Enqueued(d.speech, SleepNotice, true))
  }

  /** The lower-cased transcript contains the lower-cased word. */
  predicate Mentions(transcript: string, word: string) {
    Contains(Lower(transcript), Lower(word))
  }

  /** A final transcript: the wake word wakes an idle engine, else the sleep word puts an active one to sleep; either way it counts as activity. */
  function OnFinalResult(d: Detector, transcript: string, now: int, cfg: WakeConfig): (r: Detector)
    ensures r.last == Some(now)
    ensures r.commands == d.commands || r.commands == d.commands + [EventFor(r.active)]
    ensures r.commands == d.commands ==> r.active == d.active && r.speech == d.speech
  {
    var next :=
      if Mentions(transcript, cfg.wakeWord) && !d.active then Activate(d, now)
      else if Mentions(transcript, cfg.sleepWord) && d.active then Deactivate(d)
      else d;
    next.(last := Some(now))
  }

  /** `timedelta.seconds`: the seconds part of a difference, without its whole days. */
  function SecondsComponent(delta: int): (r: int)
    ensures 0 <= r < SecondsPerDay
    ensures 0 <= delta < SecondsPerDay ==> r == delta
  {
    delta % SecondsPerDay
  }


  /** Active, with a recorded activity whose seconds part lies more than `timeout` back. */
  predicate TimedOut(d: Detector, now: int, cfg: WakeConfig) {
    d.active && d.last.Some? && SecondsComponent(now - d.last.value) > cfg.timeout
  }

  /** The inactivity check made on every received frame. */
  function CheckInactivity(d: Detector, now: int, cfg: WakeConfig): (r: Detector)
    ensures !TimedOut(r, now, cfg)
    ensures r == d || r.commands == d.commands + [SleepDetected]
  {
    if TimedOut(d, now, cfg) then Deactivate(d) else d
  }

  /** One iteration of `_detect_wake_word` on a received frame. */
  function Step(d: Detector, f: Frame, cfg: WakeConfig): (r: Detector)
    ensures |d.commands| <= |r.commands| <= |d.commands| + 2
    ensures r.commands[..|d.commands|] == d.commands
    ensures !TimedOut(r, f.now, cfg)
  {
    var heard := if f.final.Some? then OnFinalResult(d, f.final.value, f.now, cfg) else d;
    CheckInactivity(heard, f.now, cfg)
  }

  /** The detector after a sequence of received frames, in order. */
  function Run(d: Detector, frames: seq<Frame>, cfg: WakeConfig): (r: Detector)
    ensures |d.commands| <= |r.commands| <= |d.commands| + 2 * |frames|
    ensures r.commands[..|d.commands|] == d.commands
    decreases |frames|
  {
    if frames == [] then d
    else Step(Run(d, frames[..|frames| - 1], cfg), frames[|frames| - 1], cfg)
  }

  /** The wake word heard while idle: active, clock set, one wake event, the notice first in line. */
  lemma WakeWordWakes(d: Detector, transcript: string, now: int, cfg: WakeConfig)
    requires !d.active && Mentions(transcript, cfg.wakeWord)
    requires cfg.timeout >= 0
    ensures Step(d, Frame(Some(transcript), now), cfg)
         == Detector(true, Some(now), d.commands + [WakeDetected], [WakeNotice] + d.speech)
  {
    NoticesUnformatted();
  }

  /** The sleep word heard while active: idle, clock set, one sleep event, the notice first in line. */
  lemma SleepWordSleeps(d: Detector, transcript: string, now: int, cfg: WakeConfig)
    requires d.active && Mentions(transcript, cfg.sleepWord)
    ensures Step(d, Frame(Some(transcript), now), cfg)
         == Detector(false, Some(now), d.commands + [SleepDetected], [SleepNotice] + d.speech)
  {
    NoticesUnformatted();
  }

  /** Any other final transcript (a wake word while active, a sleep word while idle, other talk) only records the activity. */
  lemma OtherTalkOnlyTouchesClock(d: Detector, transcript: string, now: int, cfg: WakeConfig)
    requires !(Mentions(transcript, cfg.wakeWord) && !d.active)
    requires !(Mentions(transcript, cfg.sleepWord) && d.active)
    requires cfg.timeout >= 0
    ensures Step(d, Frame(Some(transcript), now), cfg) == d.(last := Some(now))
  {
  }

  /** A frame after too long a silence puts an active engine to sleep with the same event as the sleep word. */
  lemma SilenceSleeps(d: Detector, now: int, cfg: WakeConfig)
    requires d.active && d.last.Some?
    requires SecondsComponent(now - d.last.value) > cfg.timeout
    ensures Step(d, Frame(None, now), cfg)
         == Detector(false, d.last, d.commands + [SleepDetected], [SleepNotice] + d.speech)
  {
    NoticesUnformatted();
  }

  /**
   * `.seconds` drops whole days: an active engine whose last activity lies one
   * day and `s` seconds back stays awake on a partial frame when `s` is within
   * the timeout, although the whole silence is far longer.
   */
  lemma SilenceOverADayWraps(d: Detector, now: int, s: int, cfg: WakeConfig)
    requires d.active && d.last == Some(now - SecondsPerDay - s)
    requires 0 <= s < SecondsPerDay && s <= cfg.timeout
    ensures Step(d, Frame(None, now), cfg) == d
  {
    assert now - d.last.value == SecondsPerDay + s;
    assert SecondsComponent(SecondsPerDay + s) == s;
  }

  /** Partial frames within the timeout change nothing. */
  lemma QuietFrameChangesNothing(d: Detector, now: int, cfg: WakeConfig)
    requires !TimedOut(d, now, cfg)
    ensures Step(d, Frame(None, now), cfg) == d
  {
  }

  /** The frame carries a final transcript that mentions the wake word. */
  predicate HeardWake(f: Frame, cfg: WakeConfig) {
    f.final.Some? && Mentions(f.final.value, cfg.wakeWord)
  }

  /** An idle engine stays idle, silent and with the same speech queue until it hears the wake word. */
  lemma {:induction false} IdleUntilWoken(d: Detector, frames: seq<Frame>, cfg: WakeConfig)
    requires !d.active
    requires forall k :: 0 <= k < |frames| ==> !HeardWake(frames[k], cfg)
    ensures var r := Run(d, frames, cfg);
      !r.active && r.commands == d.commands && r.speech == d.speech
    decreases |frames|
  {
    if frames != [] {
      IdleUntilWoken(d, frames[..|frames| - 1], cfg);
      assert !HeardWake(frames[|frames| - 1], cfg);
    }
  }

  /** The event that a flip into the state `nowActive` emits. */
  function EventFor(nowActive: bool): string {
    if nowActive then WakeDetected else SleepDetected
  }

  /** Starting from the state `wasActive`, the events flip the state one after the other. */
  ghost predicate AlternatesFrom(events: seq<string>, wasActive: bool) {
    forall i :: 0 <= i < |events| ==> events[i] == EventFor((i % 2 == 0) != wasActive)
  }

  /**
   * `d` was reached from `start` by emitting events that alternate, each one
   * flipping the state, and the state reflects how many were emitted.
   */
  ghost predicate Follows(start: Detector, d: Detector) {
    var n := |start.commands|;
    && n <= |d.commands|
    && d.commands[..n] == start.commands
    && AlternatesFrom(d.commands[n..], start.active)
    && d.active == (start.active != ((|d.commands| - n) % 2 == 1))
  }

  /** Emitting the event of a flip keeps the alternation. */
  lemma FlipFollows(start: Detector, d: Detector, next: Detector)
    requires Follows(start, d)
    requires next.active != d.active
    requires next.commands == d.commands + [EventFor(next.active)]
    ensures Follows(start, next)
  {
    var n := |start.commands|;
    var m := |d.commands| - n;
    var before := d.commands[n..];
    var after := next.commands[n..];
    assert next.commands[..n] == d.commands[..n];
    assert after == before + [EventFor(next.active)];
    assert m % 2 == 0 <==> (m + 1) % 2 == 1;
    forall i | 0 <= i < |after|
      ensures after[i] == EventFor((i % 2 == 0) != start.active)
    {
      if i < m {
        assert after[i] == before[i];
      }
    }
  }

  /** One frame emits only the events of the flips it makes. */
  lemma StepFollows(start: Detector, d: Detector, f: Frame, cfg: WakeConfig)
    requires Follows(start, d)
    ensures Follows(start, Step(d, f, cfg))
  {
    var heard := if f.final.Some? then OnFinalResult(d, f.final.value, f.now, cfg) else d;
    if f.final.Some? {
      var t := f.final.value;
      if Mentions(t, cfg.wakeWord) && !d.active {
        FlipFollows(start, d, Activate(d, f.now));
      } else if Mentions(t, cfg.sleepWord) && d.active {
        FlipFollows(start, d, Deactivate(d));
      }
    }
    assert Follows(start, heard);
    if TimedOut(heard, f.now, cfg) {
      FlipFollows(start, heard, Deactivate(heard));
    }
  }

  /** Over any run the events alternate, each one a flip of the state. */
  lemma {:induction false} RunFollows(d: Detector, frames: seq<Frame>, cfg: WakeConfig)
    ensures Follows(d, Run(d, frames, cfg))
    decreases |frames|
  {
    if frames == [] {
      assert d.commands[|d.commands|..] == [];
    } else {
      RunFollows(d, frames[..|frames| - 1], cfg);
      StepFollows(d, Run(d, frames[..|frames| - 1], cfg), frames[|frames| - 1], cfg);
    }
  }

  /**
   * From an idle engine, the new events read wake, sleep, wake, ...: a wake
   * only when the engine woke, a sleep only when it fell asleep, and it is
   * active exactly when it has emitted an odd number of them.
   */
  lemma EventsAlternate(d: Detector, frames: seq<Frame>, cfg: WakeConfig)
    requires !d.active
    ensures var r := Run(d, frames, cfg);
      && |d.commands| <= |r.commands|
      && r.commands[..|d.commands|] == d.commands
      && (forall i :: |d.commands| <= i < |r.commands| ==>
            r.commands[i] == if (i - |d.commands|) % 2 == 0 then WakeDetected else SleepDetected)
      && r.active == ((|r.commands| - |d.commands|) % 2 == 1)
  {
    var r := Run(d, frames, cfg);
    var n := |d.commands|;
    RunFollows(d, frames, cfg);
    forall i | n <= i < |r.commands|
      ensures r.commands[i] == if (i - n) % 2 == 0 then WakeDetected else SleepDetected
    {
      assert r.commands[i] == r.commands[n..][i - n];
    }
  }

  // ---------------------------------------------------------------------------
  // Piper: the installation check and the command line

  /** The path operator `dir / name` for a relative `name`. */
  function PathJoin(dir: string, name: string): string {
    dir + "/" + name
  }

  /** The files `_verify_piper_installation` requires, by name, in the order it checks them. */
  function RequiredFiles(p: PiperConfig): seq<(string, string)> {
    [("piper", p.piperPath),
     ("model", PathJoin(p.modelsDir, p.model)),
     ("config", PathJoin(p.modelsDir, p.model + ".json"))]
  }

  function MissingLine(name: string, path: string): string {
    "- " + name + ": " + path
  }

  /** One line per required file that does not exist, in order. */
  function MissingLines(files: seq<(string, string)>, present: string -> bool): (r: seq<string>)
    ensures |r| <= |files|
    decreases |files|
  {
    if files == [] then []
    else
      var (name, path) := files[|files| - 1];
      MissingLines(files[..|files| - 1], present) + (if present(path) then [] else [MissingLine(name, path)])
  }

  /** The message of the `FileNotFoundError`. */
  function MissingFilesMessage(lines: seq<string>): string {
    "Arquivos faltantes:\n" + JoinWith("\n", lines)
  }

  /** No line is produced exactly when every file exists. */
  lemma {:induction false} MissingLinesEmpty(files: seq<(string, string)>, present: string -> bool)
    ensures MissingLines(files, present) == [] <==> forall i :: 0 <= i < |files| ==> present(files[i].1)
    decreases |files|
  {
    if files != [] {
      var init := files[..|files| - 1];
      MissingLinesEmpty(init, present);
      assert forall i :: 0 <= i < |init| ==> init[i] == files[i];
    }
  }

  /** The message names exactly the missing files among piper, model and config, in that order. */
  lemma RequiredFilesReport(p: PiperConfig, present: string -> bool)
    ensures var files := RequiredFiles(p);
      MissingLines(files, present)
        == (if present(files[0].1) then [] else [MissingLine("piper", files[0].1)])
         + (if present(files[1].1) then [] else [MissingLine("model", files[1].1)])
         + (if present(files[2].1) then [] else [MissingLine("config", files[2].1)])
  {
    var files := RequiredFiles(p);
    var one := if present(files[0].1) then [] else [MissingLine("piper", files[0].1)];
    var two := if present(files[1].1) then [] else [MissingLine("model", files[1].1)];
    var three := if present(files[2].1) then [] else [MissingLine("config", files[2].1)];
    assert files[..1][..0] == [];
    assert MissingLines(files[..1], present) == one;
    assert files[..2][..1] == files[..1];
    assert MissingLines(files[..2], present) == one + two;
    assert files[..2] == files[..|files| - 1];
  }

  /** `_verify_piper_installation`: fails, listing the missing files, when any required file is absent. */
  method VerifyPiperInstallation(p: PiperConfig, present: string -> bool) returns (r: Outcome<string>)
    ensures r.Pass? <==> forall i :: 0 <= i < |RequiredFiles(p)| ==> present(RequiredFiles(p)[i].1)
    ensures r.Fail? ==> r.error == MissingFilesMessage(MissingLines(RequiredFiles(p), present))
  {
    var missing: seq<string> := [];
    var files := RequiredFiles(p);
    for i := 0 to |files|
      invariant missing == MissingLines(files[..i], present)
    {
      var (name, path) := files[i];
      if !present(path) {
        missing := missing + [MissingLine(name, path)];
      }
      assert files[..i + 1][..i] == files[..i];
    }
    assert files[..|files|] == files;
    MissingLinesEmpty(files, present);
    if missing != [] {
      r := Fail(MissingFilesMessage(missing));
    } else {
      r := Pass;
    }
  }

  /** The argument vector `_piper_synthesize` starts Piper with. */
  function PiperCommand(p: PiperConfig): seq<string> {
    [p.piperPath,
     "--model", PathJoin(p.modelsDir, p.model),
     "--output_file", PathJoin(p.modelsParent, OutputFileName),
     "--sentence_silence", p.sentenceSilence,
     "--noise_scale", p.noiseScale]
  }

  /** How a command line of flag/value pairs is read: the value after the first occurrence of `flag`. */
  function FlagValue(args: seq<string>, flag: string): Option<string>
    decreases |args|
  {
    if |args| < 2 then None
    else if args[0] == flag then Some(args[1])
    else FlagValue(args[2..], flag)
  }

  /** Piper reads back the model, the output file and both parameters; no length scale is passed. */
  lemma PiperCommandReadsBack(p: PiperConfig)
    ensures var argv := PiperCommand(p);
      && argv[0] == p.piperPath
      && FlagValue(argv[1..], "--model") == Some(PathJoin(p.modelsDir, p.model))
      && FlagValue(argv[1..], "--output_file") == Some(PathJoin(p.modelsParent, OutputFileName))
      && FlagValue(argv[1..], "--sentence_silence") == Some(p.sentenceSilence)
      && FlagValue(argv[1..], "--noise_scale") == Some(p.noiseScale)
      && FlagValue(argv[1..], "--length_scale") == None
  {
    var args := PiperCommand(p)[1..];
    assert args[2..] == ["--output_file", PathJoin(p.modelsParent, OutputFileName),
                         "--sentence_silence", p.sentenceSilence, "--noise_scale", p.noiseScale];
    assert args[2..][2..] == ["--sentence_silence", p.sentenceSilence, "--noise_scale", p.noiseScale];
    assert args[2..][2..][2..] == ["--noise_scale", p.noiseScale];
    assert args[2..][2..][2..][2..] == [];
    var a1, a2, a3 := args[2..], args[2..][2..], args[2..][2..][2..];
    assert FlagValue(args, "--output_file") == FlagValue(a1, "--output_file");
    assert FlagValue(args, "--sentence_silence") == FlagValue(a1, "--sentence_silence")
        == FlagValue(a2, "--sentence_silence");
    assert FlagValue(args, "--noise_scale") == FlagValue(a1, "--noise_scale")
        == FlagValue(a2, "--noise_scale") == FlagValue(a3, "--noise_scale");
    assert FlagValue(args, "--length_scale") == FlagValue(a1, "--length_scale")
        == FlagValue(a2, "--length_scale") == FlagValue(a3, "--length_scale")
        == FlagValue([], "--length_scale");
  }

  /**
   * The texts that are played, in queue order: those for which `run` reports
   * that the output file existed after the Piper run and was read and played
   * without error.
   */
  function Played(texts: seq<string>, p: PiperConfig, run: Invocation -> bool): seq<string>
    decreases |texts|
  {
    if texts == [] then []
    else
      var last := texts[|texts| - 1];
      Played(texts[..|texts| - 1], p, run) + (if run(Invocation(PiperCommand(p), last)) then [last] else [])
  }

  /** Only queued texts are played, never more of them than were queued. */
  lemma {:induction false} PlayedAreQueued(texts: seq<string>, p: PiperConfig, run: Invocation -> bool)
    ensures |Played(texts, p, run)| <= |texts|
    ensures multiset(Played(texts, p, run)) <= multiset(texts)
    decreases |texts|
  {
    if texts != [] {
      var init := texts[..|texts| - 1];
      PlayedAreQueued(init, p, run);
      assert texts == init + [texts[|texts| - 1]];
    }
  }

  /** A text whose Piper run produced an audio file that played without error is played. */
  lemma {:induction false} SucceededArePlayed(texts: seq<string>, p: PiperConfig, run: Invocation -> bool, t: string)
    requires t in texts && run(Invocation(PiperCommand(p), t))
    ensures t in Played(texts, p, run)
    decreases |texts|
  {
    var init := texts[..|texts| - 1];
    if t != texts[|texts| - 1] {
      assert texts == init + [texts[|texts| - 1]];
      SucceededArePlayed(init, p, run, t);
    }
  }

  /** A text whose Piper run produced no playable audio file is never played. */
  lemma {:induction false} PlayedSucceeded(texts: seq<string>, p: PiperConfig, run: Invocation -> bool)
    ensures forall t :: t in Played(texts, p, run) ==> run(Invocation(PiperCommand(p), t))
    decreases |texts|
  {
    if texts != [] {
      PlayedSucceeded(texts[..|texts| - 1], p, run);
    }
  }

  /** `sub` is `s` with some items left out, the rest in their order. */
  predicate Subsequence<T(==)>(sub: seq<T>, s: seq<T>)
    decreases |s|
  {
    || sub == []
    || (s != [] && sub[|sub| - 1] == s[|s| - 1] && Subsequence(sub[..|sub| - 1], s[..|s| - 1]))
    || (s != [] && Subsequence(sub, s[..|s| - 1]))
  }

  /** The played texts keep their queue order (which ones they are: `SucceededArePlayed`, `PlayedSucceeded`). */
  lemma {:induction false} PlayedInQueueOrder(texts: seq<string>, p: PiperConfig, run: Invocation -> bool)
    ensures Subsequence(Played(texts, p, run), texts)
    decreases |texts|
  {
    if texts != [] {
      var init := texts[..|texts| - 1];
      var last := texts[|texts| - 1];
      var before := Played(init, p, run);
      PlayedInQueueOrder(init, p, run);
      if run(Invocation(PiperCommand(p), last)) {
        assert (before + [last])[..|before|] == before;
      } else {
        assert before + [] == before;
        SubsequenceOfLonger(before, init, last);
      }
    }
  }

  /** A subsequence of `s` is a subsequence of `s` with one more item at the end. */
  lemma SubsequenceOfLonger<T>(sub: seq<T>, s: seq<T>, x: T)
    requires Subsequence(sub, s)
    ensures Subsequence(sub, s + [x])
  {
    assert (s + [x])[..|s|] == s;
  }

  // ---------------------------------------------------------------------------
  // The engine

  class Engine {
    const config: WakeConfig
    const piper: PiperConfig
    /** Whether the Vosk model loaded (`vosk_model` is not None). */
    const voskLoaded: bool

    var listening: bool
    var activeListening: bool
    var lastActivityTime: Option<int>
    var speechQueue: seq<string>
    var commandQueue: seq<string>

    /** The detector's view of the engine. */
    function State(): Detector
      reads this
    {
      Detector(activeListening, lastActivityTime, commandQueue, speechQueue)
    }

    /** The engine once the installation check has passed: idle, not listening, with empty queues. */
    constructor (config: WakeConfig, piper: PiperConfig, voskLoaded: bool)
      ensures this.config == config && this.piper == piper && this.voskLoaded == voskLoaded
      ensures !listening && !activeListening && lastActivityTime == None
      ensures speechQueue == [] && commandQueue == []
    {
      this.config := config;
      this.piper := piper;
      this.voskLoaded := voskLoaded;
      listening := false;
      activeListening := false;
      lastActivityTime := None;
      speechQueue := [];
      commandQueue := [];
    }

    /** `start_listening`: starts only when not yet listening and the Vosk model loaded. */
    method StartListening()
      modifies this
      ensures listening == (old(listening) || voskLoaded)
      ensures State() == old(State())
    {
      if !listening && voskLoaded {
        listening := true;
      }
    }

    /** `stop`: not listening, not active, and no event emitted. */
    method Stop()
      modifies this
      ensures !listening && !activeListening
      ensures lastActivityTime == old(lastActivityTime)
      ensures speechQueue == old(speechQueue) && commandQueue == old(commandQueue)
    {
      listening := false;
      activeListening := false;
    }

    /** `speak`: a priority text is put in a fresh queue into which the old queue is drained; other text is appended. */
    method Speak(text: string, priority: bool)
      modifies this
      ensures speechQueue == Enqueued(old(speechQueue), text, priority)
      ensures listening == old(listening) && activeListening == old(activeListening)
      ensures lastActivityTime == old(lastActivityTime) && commandQueue == old(commandQueue)
    {
      var formatted := FormatSpeech(text);
      if priority {
        var temp := [formatted];
        while speechQueue != []
          invariant temp + speechQueue == [formatted] + old(speechQueue)
          invariant listening == old(listening) && activeListening == old(activeListening)
          invariant lastActivityTime == old(lastActivityTime) && commandQueue == old(commandQueue)
          decreases |speechQueue|
        {
          temp := temp + [speechQueue[0]];
          speechQueue := speechQueue[1..];
        }
        speechQueue := temp;
      } else {
        speechQueue := speechQueue + [formatted];
      }
    }

    /** `_activate_listening`. */
    method ActivateListening(now: int)
      modifies this
      ensures State() == Activate(old(State()), now)
      ensures listening == old(listening)
    {
      activeListening := true;
      lastActivityTime := Some(now);
      commandQueue := commandQueue + [WakeDetected];
      Speak(WakeNotice, true);
    }

    /** `_deactivate_listening`. */
    method DeactivateListening()
      modifies this
      ensures State() == Deactivate(old(State()))
      ensures listening == old(listening)
    {
      activeListening := false;
      commandQueue := commandQueue + [SleepDetected];
      Speak(SleepNotice, true);
    }

    /** The body of the `_detect_wake_word` loop for one received frame. */
    method HandleFrame(f: Frame)
      modifies this
      ensures State() == Step(old(State()), f, config)
      ensures listening == old(listening)
    {
      if f.final.Some? {
        var text := Lower(f.final.value);
        if Contains(text, Lower(config.wakeWord)) && !activeListening {
          ActivateListening(f.now);
        } else if Contains(text, Lower(config.sleepWord)) && activeListening {
          DeactivateListening();
        }
        lastActivityTime := Some(f.now);
      }
      if activeListening && lastActivityTime.Some? {
        var inactive := SecondsComponent(f.now - lastActivityTime.value);
        if inactive > config.timeout {
          DeactivateListening();
        }
      }
    }

    /** `_detect_wake_word`: handles the received frames in order for as long as the engine listens. */
    method DetectWakeWord(frames: seq<Frame>)
      modifies this
      ensures listening == old(listening)
      ensures State() == if listening then Run(old(State()), frames, config) else old(State())
    {
      var i := 0;
      while listening && i < |frames|
        invariant 0 <= i <= |frames|
        invariant listening == old(listening)
        invariant State() == if listening then Run(old(State()), frames[..i], config) else old(State())
      {
        HandleFrame(frames[i]);
        assert frames[..i + 1][..i] == frames[..i];
        i := i + 1;
      }
      assert listening ==> frames[..i] == frames;
    }

    /**
     * `_process_speech` until the queue is empty: each text is taken from the
     * front and handed to Piper; a run that produces no audio file is skipped
     * and the next text is processed.
     */
    method ProcessSpeech(run: Invocation -> bool) returns (invocations: seq<Invocation>, played: seq<string>)
      modifies this
      ensures speechQueue == []
      ensures |invocations| == |old(speechQueue)|
      ensures forall i :: 0 <= i < |invocations| ==> invocations[i] == Invocation(PiperCommand(piper), old(speechQueue)[i])
      ensures played == Played(old(speechQueue), piper, run)
      ensures listening == old(listening) && activeListening == old(activeListening)
      ensures lastActivityTime == old(lastActivityTime) && commandQueue == old(commandQueue)
    {
      invocations, played := [], [];
      ghost var done: seq<string> := [];
      while speechQueue != []
        invariant done + speechQueue == old(speechQueue)
        invariant |invocations| == |done|
        invariant forall i :: 0 <= i < |done| ==> invocations[i] == Invocation(PiperCommand(piper), done[i])
        invariant played == Played(done, piper, run)
        invariant listening == old(listening) && activeListening == old(activeListening)
        invariant lastActivityTime == old(lastActivityTime) && commandQueue == old(commandQueue)
        decreases |speechQueue|
      {
        var text := speechQueue[0];
        speechQueue := speechQueue[1..];
        if TtsEngine == "piper" {
          var call := Invocation(PiperCommand(piper), text);
          invocations := invocations + [call];
          if run(call) {
            played := played + [text];
          }
        }
        assert (done + [text])[..|done|] == done;
        assert Played(done + [text], piper, run)
            == Played(done, piper, run) + (if run(Invocation(PiperCommand(piper), text)) then [text] else []);
        done := done + [text];
      }
      assert done == done + speechQueue;
    }
  }

  /** `VoiceEngine()`: the installation check runs first, and a missing file aborts construction with its message. */
  method NewEngine(config: WakeConfig, piper: PiperConfig, present: string -> bool, voskLoaded: bool)
    returns (r: Result<Engine, string>)
    ensures r.Failure? <==> MissingLines(RequiredFiles(piper), present) != []
    ensures r.Failure? ==> r.error == MissingFilesMessage(MissingLines(RequiredFiles(piper), present))
    ensures r.Success? ==> fresh(r.value) && r.value.config == config && r.value.piper == piper
    ensures r.Success? ==> r.value.voskLoaded == voskLoaded
    ensures r.Success? ==> r.value.State() == Detector(false, None, [], []) && !r.value.listening
  {
    var check := VerifyPiperInstallation(piper, present);
    MissingLinesEmpty(RequiredFiles(piper), present);
    match check {
      case Fail(message) =>
        r := Failure(message);
      case Pass =>
        var engine := new Engine(config, piper, voskLoaded);
        r := Success(engine);
    }
  }
}
