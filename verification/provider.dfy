/** What the two reply generators (Backend/src/services/ollama.service.js and
    Backend/src/services/gemini.service.js) share: the persona fallback, the
    sampling temperature chosen by emotion, the fixed top-p and the fixed reply
    returned when the provider call fails. */
module Provider {
  import opened Wrappers
  import opened Schema

  /** A chat turn as the generators read it: `{ role, content }`. The role is
      any string; the generators do not check it against the schema's enum. */
  datatype Turn = Turn(role: string, content: string)

  /** The persona used when the agent has no system prompt. */
  const DefaultPersona: string := "You are a helpful, emotionally intelligent AI."

  /** The reply both generators return when the provider call fails. */
  const FallbackReply: string := "I'm here with you. Something went wrong on my side, but we can keep talking."

  /** Nucleus-sampling parameter, the same for every call. */
  const TopP: real := 0.9

  /** `systemPrompt || DefaultPersona`: an absent or empty prompt is replaced. */
  function Persona(systemPrompt: Option<string>): (p: string)
    ensures p != ""
    ensures systemPrompt.Some? && systemPrompt.value != "" ==> p == systemPrompt.value
    ensures systemPrompt.None? || systemPrompt.value == "" ==> p == DefaultPersona
  {
    if systemPrompt.Some? && systemPrompt.value != "" then systemPrompt.value else DefaultPersona
  }

  /** The sampling temperature: cooler for sad and lonely users. */
  function Temperature(emotion: string): real {
    if emotion == "sad" || emotion == "lonely" then 0.4 else 0.7
  }

  /** The temperature is one of two values, the lower one exactly for "sad" and
      "lonely"; for the detector's labels, exactly for the Sad and Lonely labels. */
  lemma TemperatureChoice(emotion: string, l: Label)
    ensures Temperature(emotion) in {0.4, 0.7}
    ensures Temperature(emotion) < 0.7 <==> emotion in {"sad", "lonely"}
    ensures Temperature(LabelName(l)) < 0.7 <==> l in {Sad, Lonely}
  {
  }

  /** The fallback is a message the Conversation schema accepts as assistant
      content, so a failed call still yields a storable turn. */
  lemma FallbackStorable(l: Label)
    ensures ValidateMessage(MessageInput(Some("assistant"), Some(FallbackReply), Some(LabelName(l))))
            == Some(Message(AssistantRole, FallbackReply, l))
  {
    LabelRoundTrip(l, "");
  }
}
