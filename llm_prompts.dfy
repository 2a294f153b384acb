/**
 * The prompt-building core: the three best-practice prompt layouts, the
 * system instruction, the case-insensitive choice of a layout by target
 * model name, and the user message `construct_user_prompt` builds from the
 * raw prompt, the target name and the user's preferences.
 */
module LlmPrompts {
  import opened Outcomes
  import opened Text
  import opened PayloadJson

  /*
   * Each layout is written as its opening (its first two lines) followed by
   * the rest. The openings already tell the three layouts apart, so that
   * comparison never has to look at the longer remainder.
   */

  /** The best-practice layout sent for the name "gpt". */
  const GptPromptStructure: string := GptOpening + GptRest
  const GptOpening: string := "ROLE:\nYou are an expert [domain] with strong teaching ability.\n"
  const GptRest: string :=
    "\n" +
    "CONTEXT:\n" +
    "Brief background or situation (what I know, what I'm " +
    "working on, constraints).\n" +
    "\n" +
    "TASK:\n" +
    "Exactly what you want done. Use clear action verbs (build, " +
    "create, write, analyze, etc.).\n" +
    "\n" +
    "FORMAT:\n" +
    "How the answer should be structured (code, working app, " +
    "steps, table, short, etc.).\n" +
    "\n" +
    "CONSTRAINTS:\n" +
    "Rules to follow (no extra explanation, no comments, " +
    "exam-style, etc.).\n" +
    "\n" +
    "EXAMPLES (optional):\n" +
    "Show 1 example of desired output.\n" +
    "\n" +
    "DEPTH LEVEL:\n" +
    "Beginner / Intermediate / Advanced / Exam-ready / " +
    "Industry-level."

  /** The best-practice layout sent for the name "claude". */
  const ClaudePromptStructure: string := ClaudeOpening + ClaudeRest
  const ClaudeOpening: string := "ROLE:\nYou are a careful, highly knowledgeable expert in [domain].\n"
  const ClaudeRest: string :=
    "\n" +
    "CONTEXT:\n" +
    "Here is the background you should consider before answering:\n" +
    "[clear situation, what I know, what I\U{2019}m working on]\n" +
    "\n" +
    "OBJECTIVE:\n" +
    "Your goal is to [exact outcome].\n" +
    "\n" +
    "DELIVERABLE:\n" +
    "Provide [explanation / steps / code / analysis].\n" +
    "\n" +
    "STYLE:\n" +
    "Be clear, precise, and logically structured.\n" +
    "\n" +
    "CONSTRAINTS:\n" +
    "- Avoid unnecessary verbosity\n" +
    "- Do not assume missing information\n" +
    "- Follow only what is asked\n" +
    "\n" +
    "DEPTH:\n" +
    "Beginner / Intermediate / Advanced / Academic / " +
    "Industry-level"

  /** The best-practice layout sent for the name "gemini". */
  const GeminiPromptStructure: string := GeminiOpening + GeminiRest
  const GeminiOpening: string := "TASK:\n[Clear, direct task statement]\n"
  const GeminiRest: string :=
    "\n" +
    "BACKGROUND:\n" +
    "Relevant context you should consider:\n" +
    "[what I know / what I\U{2019}m doing]\n" +
    "\n" +
    "SCOPE:\n" +
    "Include:\n" +
    "- [thing 1]\n" +
    "- [thing 2]\n" +
    "\n" +
    "Exclude:\n" +
    "- [thing you don\U{2019}t want]\n" +
    "\n" +
    "OUTPUT FORMAT:\n" +
    "[table / bullets / steps / summary]\n" +
    "\n" +
    "EVALUATION CRITERIA:\n" +
    "- Accuracy\n" +
    "- Clarity\n" +
    "- Conciseness\n" +
    "\n" +
    "DEPTH:\n" +
    "Overview / Detailed / Exam-ready / Research-level"

  /**
   * The fixed instruction sent as the system message of every rewriting
   * request. Its wording addresses the chat model and no behaviour here
   * depends on it, so it stands for one fixed string left unspecified.
   */
  const SystemPrompt: string

  /** The `ValueError` raised for a name outside the supported set. */
  datatype ModelError = UnsupportedModelName(modelName: string)
  {
    /** The exception's message: a fixed prefix, then the name as it was given. */
    function Message(): (m: string)
      ensures |m| == |ErrorPrefix| + |modelName|
      ensures ErrorPrefix <= m && m[|ErrorPrefix|..] == modelName
    {
      ErrorPrefix + modelName
    }
  }

  const ErrorPrefix: string := "Unsupported model name: "

  /** The names the lookup accepts, once lower-cased. */
  const SupportedNames: set<string> := {"gpt", "claude", "gemini"}

  /**
   * `get_prompt_structure_for_model`: the layout for a target model name,
   * compared in lower case, or the error naming it as it was given.
   */
  function GetPromptStructureForModel(modelName: string): (r: Result<string, ModelError>)
    ensures r.Ok? <==> Lower(modelName) in SupportedNames
    ensures r.Err? ==> r.error == UnsupportedModelName(modelName)
  {
    if Lower(modelName) == "gpt" then Ok(GptPromptStructure)
    else if Lower(modelName) == "claude" then Ok(ClaudePromptStructure)
    else if Lower(modelName) == "gemini" then Ok(GeminiPromptStructure)
    else Err(UnsupportedModelName(modelName))
  }

  /** The three layouts are different texts. */
  lemma LayoutsDistinct()
    ensures GptPromptStructure != ClaudePromptStructure
    ensures GptPromptStructure != GeminiPromptStructure
    ensures ClaudePromptStructure != GeminiPromptStructure
  {
    assert GptPromptStructure[15] == GptOpening[15];
    assert ClaudePromptStructure[15] == ClaudeOpening[15];
    assert GptPromptStructure[0] == GptOpening[0];
    assert ClaudePromptStructure[0] == ClaudeOpening[0];
    assert GeminiPromptStructure[0] == GeminiOpening[0];
  }

  /**
   * Each supported name gives its own layout. Together with the contract of
   * `GetPromptStructureForModel` this fixes the result for every name, and
   * since the layouts differ (`LayoutsDistinct`) no name gets another's.
   */
  lemma LookupExact(modelName: string)
    ensures Lower(modelName) == "gpt" ==> GetPromptStructureForModel(modelName) == Ok(GptPromptStructure)
    ensures Lower(modelName) == "claude" ==> GetPromptStructureForModel(modelName) == Ok(ClaudePromptStructure)
    ensures Lower(modelName) == "gemini" ==> GetPromptStructureForModel(modelName) == Ok(GeminiPromptStructure)
  {
  }

  /** Names that agree once lower-cased get the same layout, or both fail. */
  lemma LookupIgnoresCase(a: string, b: string)
    requires Lower(a) == Lower(b)
    ensures GetPromptStructureForModel(a).Ok? == GetPromptStructureForModel(b).Ok?
    ensures GetPromptStructureForModel(a).Ok? ==> GetPromptStructureForModel(a).value == GetPromptStructureForModel(b).value
  {
  }

  /** A name and its lower-case form get the same layout, or both fail. */
  lemma LookupOfLowered(modelName: string)
    ensures GetPromptStructureForModel(Lower(modelName)).Ok? == GetPromptStructureForModel(modelName).Ok?
    ensures GetPromptStructureForModel(modelName).Ok? ==>
      GetPromptStructureForModel(Lower(modelName)).value == GetPromptStructureForModel(modelName).value
  {
    LowerIdempotent(modelName);
    LookupIgnoresCase(Lower(modelName), modelName);
  }

  /** The accepted names are the case variants of "gpt", "claude" and "gemini", and nothing else. */
  lemma SupportedSpellings(modelName: string)
    ensures Lower(modelName) == "gpt" <==> CaseVariant(modelName, "gpt")
    ensures Lower(modelName) == "claude" <==> CaseVariant(modelName, "claude")
    ensures Lower(modelName) == "gemini" <==> CaseVariant(modelName, "gemini")
    ensures Lower(modelName) in SupportedNames <==>
      CaseVariant(modelName, "gpt") || CaseVariant(modelName, "claude") || CaseVariant(modelName, "gemini")
  {
    LowerEqualsWord(modelName, "gpt");
    LowerEqualsWord(modelName, "claude");
    LowerEqualsWord(modelName, "gemini");
  }

  /** A few names as a caller might pass them. */
  lemma LookupExamples()
    ensures GetPromptStructureForModel("GPT") == Ok(GptPromptStructure)
    ensures GetPromptStructureForModel("Gpt") == Ok(GptPromptStructure)
    ensures GetPromptStructureForModel("gpt") == Ok(GptPromptStructure)
    ensures GetPromptStructureForModel("llama") == Err(UnsupportedModelName("llama"))
  {
    assert Lower("GPT") == "gpt";
    assert Lower("Gpt") == "gpt";
    assert Lower("gpt") == "gpt";
    assert |Lower("llama")| == 5;
  }

  /** What `construct_user_prompt` writes before the JSON text. */
  const InputPayloadLabel: string := "INPUT_PAYLOAD:\n"

  /** `user_preferences or {}`: missing preferences are written as an empty object. */
  function EffectivePreferences(userPreferences: Option<Preferences>): (r: Preferences)
    ensures userPreferences.Some? ==> r == userPreferences.value
    ensures r == [] <==> userPreferences.None? || userPreferences == Some([])
  {
    if userPreferences.None? then [] else userPreferences.value
  }

  /** The user message for a chosen layout: the label, then the payload's JSON text. */
  function UserMessage(structure: string, rawPrompt: string, modelName: string, prefs: Preferences): (r: string)
    ensures InputPayloadLabel <= r
  {
    InputPayloadLabel + Dumps(Payload(modelName, structure, rawPrompt, prefs))
  }

  /**
   * `construct_user_prompt`: the layout lookup fails before any payload
   * exists; otherwise the user message for the looked-up layout.
   */
  function ConstructUserPrompt(rawPrompt: string, modelName: string, userPreferences: Option<Preferences>)
    : (r: Result<string, ModelError>)
    ensures r.Ok? <==> Lower(modelName) in SupportedNames
    ensures Lower(modelName) !in SupportedNames ==> r == Err(UnsupportedModelName(modelName))
    ensures r.Ok? ==> InputPayloadLabel <= r.value
  {
    var lookup := GetPromptStructureForModel(modelName);
    if lookup.Err? then Err(lookup.error)
    else Ok(UserMessage(lookup.value, rawPrompt, modelName, EffectivePreferences(userPreferences)))
  }

  /** Reads a user message back: the label, then the payload's JSON text. */
  function DecodeUserPrompt(text: string): (r: Option<Payload>) {
    var json :- Expect(InputPayloadLabel, text);
    DecodePayload(json)
  }

  lemma UserMessageRoundTrip(structure: string, rawPrompt: string, modelName: string, prefs: Preferences)
    ensures DecodeUserPrompt(UserMessage(structure, rawPrompt, modelName, prefs))
      == Some(Payload(modelName, structure, rawPrompt, prefs))
  {
    var p := Payload(modelName, structure, rawPrompt, prefs);
    ExpectPrefix(InputPayloadLabel, Dumps(p));
    DecodeDumps(p);
  }

  /**
   * Round trip: the user message reads back as the name exactly as passed,
   * casing included, the looked-up layout, the raw prompt character for
   * character, and the preferences, with `{}` for missing ones.
   */
  lemma ConstructUserPromptRoundTrip(rawPrompt: string, modelName: string, userPreferences: Option<Preferences>)
    ensures ConstructUserPrompt(rawPrompt, modelName, userPreferences).Ok? ==>
      DecodeUserPrompt(ConstructUserPrompt(rawPrompt, modelName, userPreferences).value)
        == Some(Payload(modelName, GetPromptStructureForModel(modelName).value, rawPrompt,
                        EffectivePreferences(userPreferences)))
  {
    if GetPromptStructureForModel(modelName).Ok? {
      UserMessageRoundTrip(GetPromptStructureForModel(modelName).value, rawPrompt, modelName,
        EffectivePreferences(userPreferences));
    }
  }

  lemma DropLabel(json: string, json': string)
    requires InputPayloadLabel + json == InputPayloadLabel + json'
    ensures json == json'
  {
    assert json == (InputPayloadLabel + json)[|InputPayloadLabel|..];
  }

  /** Different requests give different user messages: nothing is lost in the text. */
  lemma UserMessageInjective(
    structure: string, rawPrompt: string, modelName: string, prefs: Preferences,
    structure': string, rawPrompt': string, modelName': string, prefs': Preferences)
    requires UserMessage(structure, rawPrompt, modelName, prefs) == UserMessage(structure', rawPrompt', modelName', prefs')
    ensures structure == structure' && rawPrompt == rawPrompt' && modelName == modelName' && prefs == prefs'
  {
    var p := Payload(modelName, structure, rawPrompt, prefs);
    var p' := Payload(modelName', structure', rawPrompt', prefs');
    DropLabel(Dumps(p), Dumps(p'));
    DumpsInjective(p, p');
  }

  /** Missing and empty preferences give the same message, whose last member is `"user_preferences": {}`. */
  lemma MissingPreferences(rawPrompt: string, modelName: string)
    ensures ConstructUserPrompt(rawPrompt, modelName, None) == ConstructUserPrompt(rawPrompt, modelName, Some([]))
    ensures ConstructUserPrompt(rawPrompt, modelName, None).Ok? ==>
      EndsWith(ConstructUserPrompt(rawPrompt, modelName, None).value, Member(PreferencesKey, "{}") + "\n}")
  {
    if GetPromptStructureForModel(modelName).Ok? {
      var p := Payload(modelName, GetPromptStructureForModel(modelName).value, rawPrompt, []);
      EndsWithAfter(InputPayloadLabel, Dumps(p), Member(PreferencesKey, "{}") + "\n}");
    }
  }

  lemma LabelAscii()
    ensures AsciiText(InputPayloadLabel)
  {
  }

  lemma UserMessageAscii(structure: string, rawPrompt: string, modelName: string, prefs: Preferences)
    ensures AsciiText(UserMessage(structure, rawPrompt, modelName, prefs))
  {
    var p := Payload(modelName, structure, rawPrompt, prefs);
    DumpsAscii(p);
    LabelAscii();
    AsciiConcat(InputPayloadLabel, Dumps(p));
  }

  /** `ensure_ascii`: the user message is printable ASCII and line breaks, whatever the inputs hold. */
  lemma ConstructUserPromptAscii(rawPrompt: string, modelName: string, userPreferences: Option<Preferences>)
    ensures ConstructUserPrompt(rawPrompt, modelName, userPreferences).Ok? ==>
      AsciiText(ConstructUserPrompt(rawPrompt, modelName, userPreferences).value)
  {
    if GetPromptStructureForModel(modelName).Ok? {
      UserMessageAscii(GetPromptStructureForModel(modelName).value, rawPrompt, modelName,
        EffectivePreferences(userPreferences));
    }
  }
}
