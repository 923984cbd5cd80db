/** The Gemini reply generator (Backend/src/services/gemini.service.js): the
    chat history with the persona and emotion guide as its first turn, the
    generation settings, the fixed instruction sent, and the fallback reply.
    The SDK's chat session is an oracle from request to completion. */
module GeminiService {
  import opened Wrappers
  import opened Text
  import opened Provider
  import OllamaService

  /** The model every request names. */
  const ModelName: string := "gemini-2.5-flash"

  /** The output cap, the same for every call whatever the preferred length. */
  const MaxOutputTokens: nat := 250

  /** The only message ever sent; the user's words travel in the history. */
  const Instruction: string := "Reply to the user following the emotional behavior rules above."

  /** The behaviour, tone, safety and style rules that follow the emotion line. */
  const CompanionRules: string :=
      "You are a supportive personal companion AI.\n"
    + "\n"
    + "Behavior rules:\n"
    + "- sad / lonely \U{2192} warm, empathetic, reassuring, emotionally validating\n"
    + "- anxious \U{2192} calm, grounding, slow pacing, short sentences\n"
    + "- angry \U{2192} respectful, neutral, non-defensive, de-escalating\n"
    + "- happy \U{2192} upbeat, friendly, encouraging\n"
    + "- confused \U{2192} simple explanations, step-by-step, patient\n"
    + "- neutral \U{2192} balanced and conversational\n"
    + "\n"
    + "Tone rules:\n"
    + "- Sound human, not clinical or robotic\n"
    + "- Avoid clich\U{E9}s and generic therapy talk\n"
    + "- Do NOT over-explain unless asked\n"
    + "- Prefer emotional acknowledgment before advice\n"
    + "\n"
    + "Safety rules:\n"
    + "- Never judge the user\n"
    + "- Never dismiss emotions\n"
    + "- If emotional distress is strong, prioritize support over solutions\n"
    + "- If unsure, ask gentle clarifying questions\n"
    + "\n"
    + "Response style:\n"
    + "- First acknowledge emotion\n"
    + "- Then respond naturally\n"
    + "- Keep responses concise unless user asks for detail\n"

  /** The emotion guide: the user's emotional state, a blank line, then the rules. */
  function EmotionGuide(emotion: string): string {
    "\nUSER EMOTIONAL STATE: " + emotion + "\n\n" + CompanionRules
  }

  /** One history entry: a role and its text parts. */
  datatype Content = Content(role: string, parts: seq<string>)

  datatype GenerationConfig = GenerationConfig(temperature: real, maxOutputTokens: nat, topP: real)

  /** A chat session started with `history` and `config`, then sent `message`. */
  datatype GeminiRequest = GeminiRequest(model: string, history: seq<Content>, config: GenerationConfig, message: string)

  /** `msg.role === "assistant" ? "model" : "user"`. */
  function GeminiRole(role: string): string {
    if role == "assistant" then "model" else "user"
  }

  /** The history: a user turn holding the persona and the emotion guide, then
      every stored turn with one text part and its role mapped. */
  function History(systemPrompt: Option<string>, messages: seq<Turn>, emotion: string): (h: seq<Content>)
    ensures |h| == |messages| + 1
    ensures h[0] == Content("user", [Persona(systemPrompt) + "\n\n" + EmotionGuide(emotion)])
    ensures forall i :: 0 <= i < |messages| ==>
              && h[i + 1].parts == [messages[i].content]
              && (h[i + 1].role == "model" <==> messages[i].role == "assistant")
              && (h[i + 1].role == "user" <==> messages[i].role != "assistant")
  {
    [Content("user", [Persona(systemPrompt) + "\n\n" + EmotionGuide(emotion)])]
    + seq(|messages|, i requires 0 <= i < |messages| => Content(GeminiRole(messages[i].role), [messages[i].content]))
  }

  /** The session `getGeminiReply` opens; the emotion defaults to "neutral". */
  function BuildRequest(systemPrompt: Option<string>, messages: seq<Turn>, emotion: Option<string>): (q: GeminiRequest)
    ensures q.model == ModelName && q.message == Instruction
    ensures q.config.maxOutputTokens == 250 && q.config.topP == TopP
    ensures q.config.temperature == Temperature(emotion.GetOr("neutral"))
  {
    var e := emotion.GetOr("neutral");
    GeminiRequest(ModelName, History(systemPrompt, messages, e), GenerationConfig(Temperature(e), MaxOutputTokens, TopP), Instruction)
  }

  /** `getGeminiReply`: the response text on success, the fixed fallback on
      failure; it never fails itself. */
  function GetGeminiReply(systemPrompt: Option<string>, messages: seq<Turn>, emotion: Option<string>,
                          send: GeminiRequest -> Completion): (reply: string)
    ensures send(BuildRequest(systemPrompt, messages, emotion)).Failure? ==> reply == FallbackReply
    ensures send(BuildRequest(systemPrompt, messages, emotion)).Success? ==>
              reply == send(BuildRequest(systemPrompt, messages, emotion)).text
  {
    match send(BuildRequest(systemPrompt, messages, emotion))
    case Success(text) => text
    case Failure => FallbackReply
  }

  // ---------------------------------------------------------------- properties

  /** The first turn's text is the persona, a blank line, then the guide, which
      opens with the user's emotional state (default "neutral"). */
  lemma FirstTurnText(systemPrompt: Option<string>, messages: seq<Turn>, emotion: Option<string>)
    ensures var q := BuildRequest(systemPrompt, messages, emotion);
            && q.history[0].role == "user"
            && |q.history[0].parts| == 1
            && Persona(systemPrompt) + "\n\n" + ("\nUSER EMOTIONAL STATE: " + emotion.GetOr("neutral") + "\n\n")
               <= q.history[0].parts[0]
  {
    var e := emotion.GetOr("neutral");
    var line := "\nUSER EMOTIONAL STATE: " + e + "\n\n";
    PrefixAppend(line, line, CompanionRules);
    PrefixPrepend(Persona(systemPrompt) + "\n\n", line, EmotionGuide(e));
  }

  /** The settings do not depend on the conversation: the temperature is the
      cooler one exactly for a sad or lonely user, the cap is always 250 and
      the message sent is always the fixed instruction. */
  lemma RequestSettings(systemPrompt: Option<string>, messages: seq<Turn>, emotion: Option<string>,
                        otherPrompt: Option<string>, otherMessages: seq<Turn>)
    ensures var q := BuildRequest(systemPrompt, messages, emotion);
            && (q.config.temperature == 0.4 <==> emotion.Some? && emotion.value in {"sad", "lonely"})
            && q.config == BuildRequest(otherPrompt, otherMessages, emotion).config
            && q.message == BuildRequest(otherPrompt, otherMessages, emotion).message
  {
    TemperatureChoice(emotion.GetOr("neutral"), Schema.Neutral);
  }

  /** Both generators pass the same turns in the same order with the same
      content; the Gemini role is "model" exactly where the Ollama role is
      "assistant". */
  lemma SameTurnsAsOllama(systemPrompt: Option<string>, messages: seq<Turn>, emotion: string, prompt: string)
    ensures var h := History(systemPrompt, messages, emotion);
            var o := OllamaService.FormatMessages(prompt, messages);
            && |h| == |o|
            && forall i :: 1 <= i < |h| ==>
                 && h[i].parts == [o[i].content]
                 && (h[i].role == "model" <==> o[i].role == "assistant")
  {
    var h := History(systemPrompt, messages, emotion);
    var o := OllamaService.FormatMessages(prompt, messages);
    forall i | 1 <= i < |h|
      ensures h[i].parts == [o[i].content] && (h[i].role == "model" <==> o[i].role == "assistant")
    {
      assert h[(i - 1) + 1].parts == [messages[i - 1].content];
      assert o[(i - 1) + 1].content == messages[i - 1].content;
    }
  }
}
