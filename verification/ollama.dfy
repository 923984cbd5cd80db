/** The Ollama reply generator (Backend/src/services/ollama.service.js): the
    context prompt, the outbound message list, the sampling options and the
    fallback reply. The Ollama client is an oracle from request to completion. */
module OllamaService {
  import opened Wrappers
  import opened Text
  import opened Provider

  /** The model every request names. */
  const ModelName: string := "llama3.1:latest"

  /** The formatting rules that follow the persona line. */
  const FormattingRules: string :=
      "FORMATTING RULES (CRITICAL):\n"
    + "- Use multiple paragraphs. Never send a single block of text.\n"
    + "- Use newlines between different thoughts or sections.\n"
    + "- Use bullet points for lists to improve readability.\n"
    + "- Maintain a clean, spaced-out layout.\n"
    + "- FOR CODE: Always use Markdown code blocks (e.g., ```javascript`). Provide COMPLETE, functional examples when asked for code.\n"

  /** What each preferred length means. */
  const LengthGuide: string :=
      "- Small: Very concise, direct, 1-2 short paragraphs or few bullet points.\n"
    + "- Medium: Balanced depth, 2-4 paragraphs.\n"
    + "- Long: Highly detailed, comprehensive, multi-paragraph or extensive bullet points.\n"

  /** Behavioural rules 1 to 7; rule 8 repeats the preferred length. */
  const BehaviouralRules: string :=
      "BEHAVIORAL GUIDANCE:\n"
    + "1. ADDRESS THE USER'S QUESTION/INPUT DIRECTLY AND RELEVANTLY.\n"
    + "2. If the user asks for code, technical solutions, or roadmaps, PRIORITIZE technical accuracy and directness over conversational filler. Give the code first if appropriate.\n"
    + "3. Maintain your core persona defined in the SYSTEM INSTRUCTION, but scale back \"mentoring\" talk if the user just wants the solution.\n"
    + "4. Adapt your tone based on the USER EMOTIONAL CONTEXT and USER PERSONALIZATION DATA.\n"
    + "5. Use the user's personalization data (Name, DOB, Interests, Traits) as a source of truth about the user. Reference these facts naturally during the conversation to build rapport.\n"
    + "6. Avoid clinical clich\U{E9}s or generic \"therapy talk\".\n"
    + "7. Be proactive in showing that you \"know\" and \"remember\" the user's details from their profile.\n"

  /** The request for a discovery block at the end of the reply. */
  const DiscoveryRequest: string :=
      "SELF-DISCOVERY (CRITICAL):\n"
    + "If you identify NEW interests, hobbies, or personality traits that are NOT already in the USER PERSONALIZATION DATA, you MUST list them at the very end of your response in this EXACT format:\n"
    + ":::DISCOVERY:::\n"
    + "{\n"
    + "  \"interests\": [\"new interest 1\", \"new interest 2\"],\n"
    + "  \"personalityTraits\": [\"new trait 1\"]\n"
    + "}\n"
    + ":::\n"
    + "Only include the block if you actually find new information.\n"

  /** The personal data a caller may pass; an absent string is "" and an
      absent list is empty. */
  datatype Profile = Profile(fullName: string, dob: string, interests: seq<string>, personalityTraits: seq<string>)

  /** JavaScript's `s || d` on a string: an empty string is replaced. */
  function OrElse(s: string, d: string): (r: string)
    ensures s != "" ==> r == s
    ensures s == "" ==> r == d
  {
    if s == "" then d else s
  }

  /** A list shown as its elements joined by ", ", or "Not specified" when empty. */
  function ListText(xs: seq<string>): string {
    if |xs| > 0 then Join(xs, ", ") else "Not specified"
  }

  /** The confidence marker: "N/A" for a neutral emotion, "High" for any other. */
  function ConfidenceMarker(emotion: string): string {
    if emotion == "neutral" then "N/A" else "High"
  }

  /** The lines of the personalization block; the name defaults to "User",
      the date of birth to "Unknown". */
  function NameLine(p: Profile): string {
    "- Name: " + OrElse(p.fullName, "User") + "\n"
  }

  function BirthLine(p: Profile): string {
    "- Date of Birth: " + OrElse(p.dob, "Unknown") + "\n"
  }

  function InterestsLine(p: Profile): string {
    "- Interests: " + ListText(p.interests) + "\n"
  }

  function TraitsLine(p: Profile): string {
    "- Personality Traits: " + ListText(p.personalityTraits) + "\n"
  }

  /** The personalization block, empty when no profile is given. */
  function UserContext(profile: Option<Profile>): string {
    match profile
    case None => ""
    case Some(p) => "\nUSER PERSONALIZATION DATA:\n" + NameLine(p) + BirthLine(p) + InterestsLine(p) + TraitsLine(p)
  }

  /** The line naming the user's emotion and the confidence marker. */
  function EmotionLine(emotion: string): string {
    "The user seems to be feeling: " + emotion + ".\nConfidence: " + ConfidenceMarker(emotion) + "\n"
  }

  /** The prompt up to and including the confidence line. */
  function PromptHead(systemPrompt: Option<string>, emotion: string): string {
    "\nSYSTEM INSTRUCTION: " + Persona(systemPrompt) + "\n\n" + FormattingRules
    + "\nUSER EMOTIONAL CONTEXT:\n" + EmotionLine(emotion)
  }

  /** The preference line of the length section. */
  function PreferenceLine(preferredLength: string): string {
    "The user prefers a **" + preferredLength + "** response. \n"
  }

  /** Behavioural rule 8. */
  function LengthRule(preferredLength: string): string {
    "8. ADHERE TO THE RESPONSE LENGTH PREFERENCE: Provide a **" + preferredLength + "** response.\n"
  }

  /** The prompt after the personalization block. */
  function PromptTail(preferredLength: string): string {
    "\n\nRESPONSE LENGTH PREFERENCE:\n" + PreferenceLine(preferredLength) + LengthGuide
    + "\n" + BehaviouralRules + LengthRule(preferredLength) + "\n\n" + DiscoveryRequest
  }

  /** The context prompt; the emotion defaults to "neutral" and the preferred
      length to "medium" when the caller leaves them out. */
  function ContextPrompt(systemPrompt: Option<string>, emotion: Option<string>, profile: Option<Profile>,
                         preferredLength: Option<string>): string
  {
    Assemble(PromptHead(systemPrompt, emotion.GetOr("neutral")), UserContext(profile), PromptTail(preferredLength.GetOr("medium")))
  }

  /** The three sections of the prompt, in order. */
  function Assemble(head: string, block: string, tail: string): string {
    head + block + tail
  }

  /** `msg.role === "assistant" ? "assistant" : "user"`. */
  function OllamaRole(role: string): string {
    if role == "assistant" then "assistant" else "user"
  }

  /** The outbound list: the context prompt as a system entry, then every turn
      with its role normalized and its content unchanged. */
  function FormatMessages(prompt: string, messages: seq<Turn>): (r: seq<Turn>)
    ensures |r| == |messages| + 1
    ensures r[0] == Turn("system", prompt)
    ensures forall i :: 0 <= i < |messages| ==>
              && r[i + 1].content == messages[i].content
              && (r[i + 1].role == "assistant" <==> messages[i].role == "assistant")
              && (r[i + 1].role == "user" <==> messages[i].role != "assistant")
  {
    [Turn("system", prompt)] + seq(|messages|, i requires 0 <= i < |messages| => Turn(OllamaRole(messages[i].role), messages[i].content))
  }

  /** The argument of `ollama.chat`. */
  datatype OllamaRequest = OllamaRequest(model: string, messages: seq<Turn>, temperature: real, topP: real, stream: bool)

  /** The request `getOllamaReply` sends. */
  function BuildRequest(systemPrompt: Option<string>, messages: seq<Turn>, emotion: Option<string>,
                        profile: Option<Profile>, preferredLength: Option<string>): (q: OllamaRequest)
    ensures q.model == ModelName && q.topP == TopP && !q.stream
    ensures q.temperature == Temperature(emotion.GetOr("neutral"))
  {
    OllamaRequest(
      ModelName,
      FormatMessages(ContextPrompt(systemPrompt, emotion, profile, preferredLength), messages),
      Temperature(emotion.GetOr("neutral")),
      TopP,
      false)
  }

  /** `getOllamaReply`: the provider's content verbatim on success (no block is
      stripped), the fixed fallback on failure. It never fails itself. */
  function GetOllamaReply(systemPrompt: Option<string>, messages: seq<Turn>, emotion: Option<string>,
                          profile: Option<Profile>, preferredLength: Option<string>,
                          chat: OllamaRequest -> Completion): (reply: string)
    ensures chat(BuildRequest(systemPrompt, messages, emotion, profile, preferredLength)).Failure? ==> reply == FallbackReply
    ensures chat(BuildRequest(systemPrompt, messages, emotion, profile, preferredLength)).Success? ==>
              reply == chat(BuildRequest(systemPrompt, messages, emotion, profile, preferredLength)).text
  {
    match chat(BuildRequest(systemPrompt, messages, emotion, profile, preferredLength))
    case Success(text) => text
    case Failure => FallbackReply
  }

  // ---------------------------------------------------------------- properties

  /** The prompt opens with the persona line and a blank line. */
  lemma PromptOpensWithPersona(systemPrompt: Option<string>, emotion: Option<string>, profile: Option<Profile>,
                               preferredLength: Option<string>)
    ensures "\nSYSTEM INSTRUCTION: " + Persona(systemPrompt) + "\n\n" <= ContextPrompt(systemPrompt, emotion, profile, preferredLength)
  {
    PrefixOfChain("\nSYSTEM INSTRUCTION: " + Persona(systemPrompt) + "\n\n", FormattingRules, "\nUSER EMOTIONAL CONTEXT:\n",
                  EmotionLine(emotion.GetOr("neutral")), UserContext(profile), PromptTail(preferredLength.GetOr("medium")));
  }

  /** The prompt names the emotion (default "neutral") followed by the
      confidence marker. */
  lemma PromptStatesEmotion(systemPrompt: Option<string>, emotion: Option<string>, profile: Option<Profile>,
                            preferredLength: Option<string>)
    ensures var e := emotion.GetOr("neutral");
            Contains(ContextPrompt(systemPrompt, emotion, profile, preferredLength),
                     "The user seems to be feeling: " + e + ".\nConfidence: " + ConfidenceMarker(e) + "\n")
  {
    var e := emotion.GetOr("neutral");
    var before := "\nSYSTEM INSTRUCTION: " + Persona(systemPrompt) + "\n\n" + FormattingRules + "\nUSER EMOTIONAL CONTEXT:\n";
    ContainsLast(before, EmotionLine(e));
    ContainsAppend(PromptHead(systemPrompt, e), UserContext(profile), EmotionLine(e));
    ContainsAppend(PromptHead(systemPrompt, e) + UserContext(profile), PromptTail(preferredLength.GetOr("medium")), EmotionLine(e));
  }

  /** The confidence marker is "N/A" exactly for a neutral emotion, which is
      the default, and "High" for every other. */
  lemma ConfidenceMarkerChoice(emotion: Option<string>)
    ensures ConfidenceMarker(emotion.GetOr("neutral")) == "N/A" <==> emotion.None? || emotion.value == "neutral"
    ensures ConfidenceMarker(emotion.GetOr("neutral")) == "High" <==> emotion.Some? && emotion.value != "neutral"
  {
  }

  /** The preferred length (default "medium") appears both in the preference
      line and in behavioural rule 8. */
  lemma PromptStatesLengthTwice(systemPrompt: Option<string>, emotion: Option<string>, profile: Option<Profile>,
                                preferredLength: Option<string>)
    ensures var len := preferredLength.GetOr("medium");
            var prompt := ContextPrompt(systemPrompt, emotion, profile, preferredLength);
            && Contains(prompt, "The user prefers a **" + len + "** response. \n")
            && Contains(prompt, "8. ADHERE TO THE RESPONSE LENGTH PREFERENCE: Provide a **" + len + "** response.\n")
  {
    var len := preferredLength.GetOr("medium");
    var head := PromptHead(systemPrompt, emotion.GetOr("neutral")) + UserContext(profile);
    var a := "\n\nRESPONSE LENGTH PREFERENCE:\n";
    var pl := PreferenceLine(len);
    var lr := LengthRule(len);
    ContainsLast(a, pl);
    ContainsAppend(a + pl, LengthGuide, pl);
    ContainsAppend(a + pl + LengthGuide, "\n", pl);
    ContainsAppend(a + pl + LengthGuide + "\n", BehaviouralRules, pl);
    ContainsLast(a + pl + LengthGuide + "\n" + BehaviouralRules, lr);
    ContainsAppend(a + pl + LengthGuide + "\n" + BehaviouralRules, lr, pl);
    ContainsAppend(a + pl + LengthGuide + "\n" + BehaviouralRules + lr, "\n\n", pl);
    ContainsAppend(a + pl + LengthGuide + "\n" + BehaviouralRules + lr, "\n\n", lr);
    ContainsAppend(a + pl + LengthGuide + "\n" + BehaviouralRules + lr + "\n\n", DiscoveryRequest, pl);
    ContainsAppend(a + pl + LengthGuide + "\n" + BehaviouralRules + lr + "\n\n", DiscoveryRequest, lr);
    ContainsPrepend(head, PromptTail(len), pl);
    ContainsPrepend(head, PromptTail(len), lr);
  }

  /** Giving a profile inserts its block after the confidence line and changes
      nothing else. */
  lemma ProfileBlockInserted(systemPrompt: Option<string>, emotion: Option<string>, profile: Profile,
                             preferredLength: Option<string>)
    ensures var without := ContextPrompt(systemPrompt, emotion, None, preferredLength);
            var k := |PromptHead(systemPrompt, emotion.GetOr("neutral"))|;
            && k <= |without|
            && ContextPrompt(systemPrompt, emotion, Some(profile), preferredLength)
               == without[..k] + UserContext(Some(profile)) + without[k..]
  {
    AssembleSplice(PromptHead(systemPrompt, emotion.GetOr("neutral")), UserContext(Some(profile)),
                   PromptTail(preferredLength.GetOr("medium")));
  }

  /** Filling an empty middle section splices it in after the head. */
  lemma AssembleSplice(h: string, m: string, t: string)
    ensures |h| <= |Assemble(h, "", t)|
    ensures Assemble(h, m, t) == Assemble(h, "", t)[..|h|] + m + Assemble(h, "", t)[|h|..]
  {
    InsertBetween(h, "", m, t);
  }

  /** The block opens with its heading and the name, which defaults to "User". */
  lemma ProfileBlockOpensWithName(p: Profile)
    ensures "\nUSER PERSONALIZATION DATA:\n" + "- Name: " + OrElse(p.fullName, "User") + "\n" <= UserContext(Some(p))
  {
    var h := "\nUSER PERSONALIZATION DATA:\n";
    var b1 := h + NameLine(p);
    var b2 := b1 + BirthLine(p);
    var b3 := b2 + InterestsLine(p);
    Regroup(h, "- Name: ", OrElse(p.fullName, "User"), "\n");
    PrefixAppend(b1, b1, BirthLine(p));
    PrefixAppend(b1, b2, InterestsLine(p));
    PrefixAppend(b1, b3, TraitsLine(p));
  }

  /** The block carries the date of birth (default "Unknown") and, for an
      empty list, "Not specified". */
  lemma ProfileBlockLines(p: Profile)
    ensures Contains(UserContext(Some(p)), "- Date of Birth: " + OrElse(p.dob, "Unknown") + "\n")
    ensures |p.interests| == 0 ==> Contains(UserContext(Some(p)), "- Interests: " + "Not specified" + "\n")
    ensures |p.personalityTraits| == 0 ==> Contains(UserContext(Some(p)), "- Personality Traits: " + "Not specified" + "\n")
  {
    var b1 := "\nUSER PERSONALIZATION DATA:\n" + NameLine(p);
    var b2 := b1 + BirthLine(p);
    var b3 := b2 + InterestsLine(p);
    ContainsLast(b1, BirthLine(p));
    ContainsAppend(b2, InterestsLine(p), BirthLine(p));
    ContainsAppend(b3, TraitsLine(p), BirthLine(p));
    ContainsLast(b2, InterestsLine(p));
    ContainsAppend(b3, TraitsLine(p), InterestsLine(p));
    ContainsLast(b3, TraitsLine(p));
  }

  /** Every listed interest and trait occurs in the block. */
  lemma ProfileBlockListsEach(p: Profile)
    ensures forall x :: x in p.interests ==> Contains(UserContext(Some(p)), x)
    ensures forall x :: x in p.personalityTraits ==> Contains(UserContext(Some(p)), x)
  {
    var b2 := "\nUSER PERSONALIZATION DATA:\n" + NameLine(p) + BirthLine(p);
    var b3 := b2 + InterestsLine(p);
    JoinContainsEach(p.interests, ", ");
    JoinContainsEach(p.personalityTraits, ", ");
    forall x | x in p.interests
      ensures Contains(UserContext(Some(p)), x)
    {
      var i :| 0 <= i < |p.interests| && p.interests[i] == x;
      ContainsExtend("- Interests: ", ListText(p.interests), "\n", x);
      ContainsPrepend(b2, InterestsLine(p), x);
      ContainsAppend(b3, TraitsLine(p), x);
    }
    forall x | x in p.personalityTraits
      ensures Contains(UserContext(Some(p)), x)
    {
      var i :| 0 <= i < |p.personalityTraits| && p.personalityTraits[i] == x;
      ContainsExtend("- Personality Traits: ", ListText(p.personalityTraits), "\n", x);
      ContainsPrepend(b3, TraitsLine(p), x);
    }
  }

  /** Only the leading entry is a system entry: whatever roles the stored turns
      carry, every later entry is "user" or "assistant". */
  lemma OnlyFirstEntryIsSystem(prompt: string, messages: seq<Turn>)
    ensures FormatMessages(prompt, messages)[0].role == "system"
    ensures forall i :: 1 <= i < |FormatMessages(prompt, messages)| ==>
              FormatMessages(prompt, messages)[i].role in {"user", "assistant"}
  {
    var r := FormatMessages(prompt, messages);
    forall i | 1 <= i < |r|
      ensures r[i].role in {"user", "assistant"}
    {
      assert r[(i - 1) + 1].role == "assistant" || r[(i - 1) + 1].role == "user";
    }
  }

  /** The request carries the context prompt first and the turns after it, and
      its temperature is the cooler one exactly for a sad or lonely user. */
  lemma RequestShape(systemPrompt: Option<string>, messages: seq<Turn>, emotion: Option<string>,
                     profile: Option<Profile>, preferredLength: Option<string>)
    ensures var q := BuildRequest(systemPrompt, messages, emotion, profile, preferredLength);
            && |q.messages| == |messages| + 1
            && q.messages[0] == Turn("system", ContextPrompt(systemPrompt, emotion, profile, preferredLength))
            && (forall i :: 0 <= i < |messages| ==> q.messages[i + 1].content == messages[i].content)
            && (q.temperature == 0.4 <==> emotion.Some? && emotion.value in {"sad", "lonely"})
            && q.topP == 0.9
  {
    TemperatureChoice(emotion.GetOr("neutral"), Schema.Neutral);
  }
}
