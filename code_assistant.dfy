/**
 * The response pipeline of the assistant core (core/code_assistant.py): the
 * prompt it builds, the conversation history it keeps and windows, the error
 * text it returns instead of raising, and the post-processing of replies.
 *
 * The chat-completion request is a function from the payload to either the
 * reply's content or the text of whatever error the request, the status check
 * or the JSON lookup raised.
 */
module CodeAssistant {
  import opened Text

  const MaxHistoryLength := 10
  const MaxResponseTokens := 1000
  const ModelName := "deepseek-reasoner"

  /** The system instruction sent ahead of the history. */
  const Instructions :=
    "Você é o A.E.G.I.S, assistente de IA especializado em desenvolvimento de software e produtividade, inspirado no jarvis do homem de ferro. "
    + "Forneça respostas técnicas, concisas e diretas. Priorize: "
    + "1. Explicações com exemplos de código quando relevante\n"
    + "2. Listas estruturadas para multi-etapas\n"
    + "3. Referências a documentações oficiais\n"
    + "evite o uso de caracteres especiais, a não ser que seja um código."

  const ContextHeader := "[[CONTEXTO]]\n"
  const RequestHeader := "\n\n[[SOLICITAÇÃO]]\n"
  const ErrorPrefix := "Erro na API DeepSeek-R1: "

  const Fence := "```"
  const PythonFence := Fence + "python"
  const ExampleHeader := "🛠️ Exemplo Prático:\n" + PythonFence
  const Bold := "**"
  const AskForDetails := "\n\n🔍 " + "Precisa de detalhes adicionais?"
  const ShortReplyWords := 8

  datatype Role = System | User | Assistant

  datatype Message = Message(role: Role, content: string)

  /** The JSON body of the chat-completion request. */
  datatype Payload = Payload(
    model: string,
    messages: seq<Message>,
    temperature: real,
    maxTokens: nat,
    topP: real,
    presencePenalty: real)

  /** What the request yields: the first choice's content, or the text of the error raised. */
  datatype Reply = Content(text: string) | RequestFailed(reason: string)

  // ---------------------------------------------------------------------------
  // Prompt, history window and payload

  /** The prompt sent for a request and its context. */
  function FullPrompt(request: string, context: string): (r: string)
    ensures |r| == |ContextHeader| + |context| + |RequestHeader| + |request|
    ensures r[..|ContextHeader|] == ContextHeader
    ensures r[|ContextHeader|..|ContextHeader| + |context|] == context
    ensures r[|ContextHeader| + |context|..|r| - |request|] == RequestHeader
    ensures r[|r| - |request|..] == request
  {
    ContextHeader + context + RequestHeader + request
  }

  /** `history[-MAX_HISTORY_LENGTH:]`: the most recent entries, at most `MaxHistoryLength` of them, in order. */
  function Window(history: seq<Message>): (w: seq<Message>)
    ensures |w| == if |history| <= MaxHistoryLength then |history| else MaxHistoryLength
    ensures w == history[|history| - |w|..]
  {
    if |history| <= MaxHistoryLength then history else history[|history| - MaxHistoryLength..]
  }

  function BuildPayload(history: seq<Message>): Payload {
    Payload(ModelName, [Message(System, Instructions)] + Window(history), 0.2, MaxResponseTokens, 0.95, 0.5)
  }

  /** The history holds only user and assistant turns. */
  predicate NoSystemMessages(history: seq<Message>) {
    forall i :: 0 <= i < |history| ==> history[i].role != System
  }

  /**
   * After the prompt is appended, the payload carries the system instruction
   * first, then at most `MaxHistoryLength` most recent turns in order, the last
   * of them the prompt itself; the instruction is its only system message.
   */
  lemma PayloadShape(history: seq<Message>, request: string, context: string)
    ensures var asked := history + [Message(User, FullPrompt(request, context))];
      var msgs := BuildPayload(asked).messages;
      && 2 <= |msgs| <= 1 + MaxHistoryLength
      && msgs[0] == Message(System, Instructions)
      && msgs[1..] == asked[|asked| - (|msgs| - 1)..]
      && msgs[|msgs| - 1] == Message(User, FullPrompt(request, context))
      && (NoSystemMessages(history) ==> forall i :: 0 < i < |msgs| ==> msgs[i].role != System)
  {
    var asked := history + [Message(User, FullPrompt(request, context))];
    var w := Window(asked);
    var msgs := BuildPayload(asked).messages;
    assert msgs[1..] == w;
    if NoSystemMessages(history) {
      forall i | 0 < i < |msgs| ensures msgs[i].role != System {
        assert msgs[i] == asked[|asked| - |w| + i - 1];
      }
    }
  }

  /** The text returned in place of a reply when the request failed. */
  function ErrorReply(reason: string): (r: string)
    ensures IsPrefix(ErrorPrefix, r) && r[|ErrorPrefix|..] == reason
  {
    ErrorPrefix + reason
  }

  // ---------------------------------------------------------------------------
  // Post-processing

  /** The three rewrites of `_r1_postprocessing`: label Python examples, drop fences, drop bold markers. */
  function Cleaned(text: string): (r: string)
    ensures !Contains(r, Bold)
  {
    var labelled := Replace(text, PythonFence, ExampleHeader);
    var unfenced := Replace(labelled, Fence, "");
    RemovePairLeavesNone(unfenced, '*');
    Replace(unfenced, Bold, "")
  }

  /** `_r1_postprocessing`: a reply of fewer than eight words ends with a request for details. */
  function Postprocess(text: string): (r: string)
    ensures IsPrefix(Cleaned(text), r)
    ensures !Contains(r, Bold)
  {
    var processed := Cleaned(text);
    if WordCount(processed) < ShortReplyWords then
      AskForDetailsHasNoBold();
      PairFreeConcat(processed, AskForDetails, '*');
      processed + AskForDetails
    else
      processed
  }

  lemma AskForDetailsHasNoBold()
    ensures !Contains(AskForDetails, Bold)
    ensures AskForDetails[0] != '*'
  {
    LeadAbsent(AskForDetails, Bold);
  }

  /** A short reply gets the request for details appended once, right after the cleaned text. */
  lemma ShortReplyAsks(text: string)
    requires WordCount(Cleaned(text)) < ShortReplyWords
    ensures Postprocess(text) == Cleaned(text) + AskForDetails
    ensures Postprocess(text)[|Cleaned(text)|..] == AskForDetails
  {
  }

  /** A reply of eight words or more is returned cleaned and nothing more. */
  lemma LongReplyKept(text: string)
    requires WordCount(Cleaned(text)) >= ShortReplyWords
    ensures Postprocess(text) == Cleaned(text)
  {
  }

  /** A reply without fences or bold markers and of eight words or more comes back unchanged. */
  lemma PlainLongReplyUnchanged(text: string)
    requires !Contains(text, Fence) && !Contains(text, Bold)
    requires WordCount(text) >= ShortReplyWords
    ensures Postprocess(text) == text
  {
    if Contains(text, PythonFence) {
      ContainsPrefixPart(text, Fence, "python");
    }
    ReplaceAbsent(text, PythonFence, ExampleHeader);
    ReplaceAbsent(text, Fence, "");
    ReplaceAbsent(text, Bold, "");
  }

  // ---------------------------------------------------------------------------
  // The assistant core

  class CognitiveCore {
    var history: seq<Message>

    constructor ()
      ensures history == []
    {
      history := [];
    }

    /**
     * `generate_response`: the prompt is appended to the history before the
     * request, the raw reply after it; a failed request leaves only the prompt
     * behind and is answered with an error text instead of an exception.
     */
    method GenerateResponse(request: string, api: Payload -> Reply, context: string := "") returns (reply: string)
      modifies this
      ensures var asked := Message(User, FullPrompt(request, context));
        match api(BuildPayload(old(history) + [asked]))
        case Content(c) => history == old(history) + [asked, Message(Assistant, c)] && reply == Postprocess(c)
        case RequestFailed(e) => history == old(history) + [asked] && reply == ErrorReply(e)
      ensures NoSystemMessages(old(history)) ==> NoSystemMessages(history)
    {
      var prompt := FullPrompt(request, context);
      history := history + [Message(User, prompt)];
      var payload := BuildPayload(history);
      var response := api(payload);
      match response {
        case Content(content) =>
          history := history + [Message(Assistant, content)];
          reply := Postprocess(content);
        case RequestFailed(reason) =>
          reply := ErrorReply(reason);
      }
    }
  }
}
