/**
 * The chat history of the text interface (interface.py): the list of
 * (sender, message) entries, how it is rendered into the history panel, and
 * the handlers that add to it.
 *
 * The widgets are reduced to the text they show: `display` is the content of
 * the history panel and `inputValue` that of the input line. The assistant
 * core is the function that turns a command into its reply.
 */
module ChatInterface {
  import opened Wrappers
  import opened Text

  const UserSender := "user"
  const AegisSender := "aegis"
  const ReloadingNotice := "Reloading core systems..."

  /** One history entry: who spoke, and what. */
  type Entry = (string, string)

  /** One entry as the panel shows it: a header line for the speaker, the message, and a line break. */
  function Render(e: Entry): (r: string)
    ensures e.0 == UserSender ==> r == "YOU:\n" + e.1 + "\n"
    ensures e.0 != UserSender ==> r == "A.E.G.I.S.:\n" + e.1 + "\n"
  {
    var prefix := if e.0 == UserSender then "YOU:" else "A.E.G.I.S.:";
    prefix + "\n" + e.1 + "\n"
  }

  function RenderAll(history: seq<Entry>): (r: seq<string>)
    ensures |r| == |history|
    ensures forall i :: 0 <= i < |history| ==> r[i] == Render(history[i])
  {
    seq(|history|, i requires 0 <= i < |history| => Render(history[i]))
  }

  /** `_format_history`: the rendered entries in history order, one line break between neighbours. */
  function HistoryText(history: seq<Entry>): string {
    JoinWith("\n", RenderAll(history))
  }

  /** An empty history shows as the empty text, a single entry as its rendering alone. */
  lemma HistoryTextShort(e: Entry)
    ensures HistoryText([]) == ""
    ensures HistoryText([e]) == Render(e)
  {
  }

  /** One more entry adds one separator and its rendering at the end; what was shown before is kept as it was. */
  lemma HistoryTextAppend(history: seq<Entry>, e: Entry)
    requires history != []
    ensures HistoryText(history + [e]) == HistoryText(history) + "\n" + Render(e)
  {
    assert RenderAll(history + [e]) == RenderAll(history) + [Render(e)];
    JoinWithAppend("\n", RenderAll(history), Render(e));
  }

  class ChatView {
    var history: seq<Entry>
    var display: string
    var inputValue: string
    /** `ai_core.execute_directive`. */
    var core: string -> string

    constructor (core: string -> string)
      ensures history == [] && display == "" && inputValue == "" && this.core == core
    {
      history := [];
      display := "";
      inputValue := "";
      this.core := core;
    }

    /** `_format_history`, entry by entry. */
    method FormatHistory() returns (text: string)
      ensures text == HistoryText(history)
    {
      var formatted: seq<string> := [];
      for i := 0 to |history|
        invariant formatted == RenderAll(history[..i])
      {
        formatted := formatted + [Render(history[i])];
      }
      assert history[..|history|] == history;
      text := JoinWith("\n", formatted);
    }

    /** `on_mount`: the panel shows the history. */
    method OnMount()
      modifies this
      ensures display == HistoryText(history)
      ensures history == old(history) && inputValue == old(inputValue) && core == old(core)
    {
      display := FormatHistory();
    }

    /**
     * `on_input_submitted`: blank input is ignored; otherwise the stripped input
     * is recorded as the user's entry, shown, handed on as the command to run,
     * and the input line is cleared.
     */
    method OnInputSubmitted(value: string) returns (command: Option<string>)
      modifies this
      ensures core == old(core)
      ensures IsBlank(value) ==>
        (command == None && history == old(history)
         && display == old(display) && inputValue == old(inputValue))
      ensures !IsBlank(value) ==>
        (command == Some(Strip(value))
         && history == old(history) + [(UserSender, Strip(value))]
         && display == HistoryText(history) && inputValue == "")
    {
      var userInput := Strip(value);
      StripEmptyIffBlank(value);
      if userInput == [] {
        return None;
      }
      history := history + [(UserSender, userInput)];
      display := FormatHistory();
      command := Some(userInput);
      inputValue := "";
    }

    /** `process_command`: the core's reply to the command is recorded and shown. */
    method ProcessCommand(command: string)
      modifies this
      ensures history == old(history) + [(AegisSender, core(command))]
      ensures display == HistoryText(history)
      ensures inputValue == old(inputValue) && core == old(core)
    {
      var response := core(command);
      history := history + [(AegisSender, response)];
      display := FormatHistory();
    }

    /** `key_ctrl_r`: a new core replaces the old one; the history is kept. */
    method ReloadCore(newCore: string -> string)
      modifies this
      ensures core == newCore && display == ReloadingNotice
      ensures history == old(history) && inputValue == old(inputValue)
    {
      display := ReloadingNotice;
      core := newCore;
    }
  }
}
