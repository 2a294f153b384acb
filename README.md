# PromptOptimizer prompt builder, in Dafny

PromptOptimizer rewrites a user's raw prompt for a chosen chat model. The
core builds the request. It looks up a best-practice prompt layout by the
target model's name: "gpt", "claude" or "gemini", in any letter case. Any
other name raises `ValueError("Unsupported model name: <name>")`. The core
then packs the target name, the chosen layout, the raw prompt and the user's
preferences into a payload. The result is the line `INPUT_PAYLOAD:` followed
by `json.dumps(payload, indent=2)`. `optimize_prompt` sends that text,
behind a fixed system instruction, to one chat-completion call and returns
the reply.

The model has six modules:

- `Outcomes`: `Option` and `Result`.
- `Text`: the ASCII part of Python's `str.lower`.
- `JsonString`: the string literal `json.dumps` writes with its default
  `ensure_ascii=True`, and a decoder for string literals following section
  7 of RFC 8259.
- `PayloadJson`: the indented layout of the four-member payload, and a
  decoder for exactly that layout.
- `LlmPrompts`: the three layouts, the lookup, the error and the user
  message.
- `Optimizer`: `optimize_prompt`, with the chat-completion service as a
  function parameter.

The decoders exist only to state round trips. The source never reads its
own text back.

## Model

| member | source | states |
|---|---|---|
| `Text.Lower` | backend/app/core/LLM_prompts.py:138 | `model_name.lower()` keeps the length and lower-cases each letter A–Z at its own position |
| `Text.LowerEqualsWord` | backend/app/core/LLM_prompts.py:138-142 | a name lower-cases to a lower-case word exactly when it has the word's length and each character is the word's letter in either case |
| `LlmPrompts.GetPromptStructureForModel` | backend/app/core/LLM_prompts.py:137-145 | a layout comes back exactly when the lower-cased name is one of "gpt", "claude", "gemini"; otherwise the error carries the name as it was given |
| `LlmPrompts.ModelError.Message` | backend/app/core/LLM_prompts.py:145 | the error message is "Unsupported model name: " followed by the name, unchanged |
| `LlmPrompts.LookupExact` | backend/app/core/LLM_prompts.py:137-145 | each supported name, in any case, gives its own layout; with the function's contract this fixes the result for every name |
| `LlmPrompts.LayoutsDistinct` | backend/app/core/LLM_prompts.py:3-73 | the three layouts are three different texts, so no name gets another name's layout |
| `LlmPrompts.LookupIgnoresCase` | backend/app/core/LLM_prompts.py:138-143 | names equal once lower-cased get the same layout, or both fail |
| `LlmPrompts.LookupOfLowered` | backend/app/core/LLM_prompts.py:138-143 | a name and its lower-case form get the same layout, or both fail |
| `LlmPrompts.SupportedSpellings` | backend/app/core/LLM_prompts.py:138-142 | a name is accepted exactly when it is "gpt", "claude" or "gemini" with any of its letters in upper case, and each of those spellings lower-cases to its own name |
| `LlmPrompts.LookupExamples` | backend/app/core/LLM_prompts.py:137-145 | "GPT", "Gpt" and "gpt" give the GPT layout; "llama" gives the error naming "llama" |
| `LlmPrompts.EffectivePreferences` | backend/app/core/LLM_prompts.py:154 | `user_preferences or {}`: given preferences are kept as they are; the result is empty exactly when the preferences are missing or empty |
| `LlmPrompts.UserMessage` | backend/app/core/LLM_prompts.py:157 | the message starts with the `INPUT_PAYLOAD:` line |
| `LlmPrompts.ConstructUserPrompt` | backend/app/core/LLM_prompts.py:149-157 | building succeeds exactly for supported names; any other name fails the whole call with the lookup's error naming it, before a payload exists; a message always starts with the `INPUT_PAYLOAD:` line |
| `LlmPrompts.UserMessageRoundTrip` | backend/app/core/LLM_prompts.py:150-157 | the message reads back as the payload it was built from |
| `LlmPrompts.ConstructUserPromptRoundTrip` | backend/app/core/LLM_prompts.py:149-157 | the message reads back as: the target name exactly as passed, the looked-up layout, the raw prompt character for character, and the preferences (empty when missing) |
| `LlmPrompts.UserMessageInjective` | backend/app/core/LLM_prompts.py:150-157 | different payloads never give the same message |
| `LlmPrompts.MissingPreferences` | backend/app/core/LLM_prompts.py:154 | missing and empty preferences give the same message, whose last member is `"user_preferences": {}` |
| `LlmPrompts.ConstructUserPromptAscii` | backend/app/core/LLM_prompts.py:157 | the message holds only printable ASCII and line breaks, whatever the inputs contain |
| `Optimizer.OptimizePrompt` | backend/app/core/optimizer.py:13-24 | an unsupported name fails with the lookup's error and makes no call to the completion service; a supported name makes exactly one call |
| `Optimizer.Exchange` | backend/app/core/optimizer.py:15-24 | sending a user message makes exactly one call to the completion service, and succeeds exactly when that call does |
| `JsonString.HexValueOfDigit` | backend/app/core/LLM_prompts.py:157 | a hexadecimal digit as written reads back as the number it was written for |
| `JsonString.ParseUnicodeEscape` | backend/app/core/LLM_prompts.py:157 | the four digits of a `\uXXXX` escape read back as its code unit |
| `JsonString.EscapeChar` | backend/app/core/LLM_prompts.py:157 | a character is left as it is exactly when it is printable ASCII other than quote and backslash; otherwise its escape starts with a backslash; never a bare quote |
| `JsonString.Escape` | backend/app/core/LLM_prompts.py:157 | the escaped body of a string literal is never shorter than the string; `DecodeBodyOfEscape` reads it back |
| `JsonString.EncodeString` | backend/app/core/LLM_prompts.py:157 | a string literal is at least two characters longer than the string and is enclosed in double quotes |
| `JsonString.DecodeUnicodeOfBasic` | backend/app/core/LLM_prompts.py:157 | the `\uXXXX` escape of a basic-plane character reads back as that character |
| `JsonString.DecodeUnicodeOfAstral` | backend/app/core/LLM_prompts.py:157 | the surrogate pair written for a character above U+FFFF reads back as that character |
| `JsonString.NextCharOfEscape` | backend/app/core/LLM_prompts.py:157 | each character's escape reads back as that character, using the whole escape |
| `JsonString.DecodeBodyOfEscape` | backend/app/core/LLM_prompts.py:157 | an escaped body followed by a quote reads back as the string and what follows |
| `JsonString.DecodeEncodeString` | backend/app/core/LLM_prompts.py:153 | every string, the raw prompt among them, survives writing and reading back unchanged, whatever text follows the literal |
| `JsonString.EncodeStringInjective` | backend/app/core/LLM_prompts.py:157 | escaping is injective |
| `JsonString.EncodeStringPrintable` | backend/app/core/LLM_prompts.py:157 | with `ensure_ascii`, every character of a string literal is printable ASCII |
| `JsonString.EscapeOfPlain` | backend/app/core/LLM_prompts.py:157 | a string with nothing to escape is written as it is |
| `JsonString.EscapeRightSingleQuote` | backend/app/core/LLM_prompts.py:157 | U+2019 RIGHT SINGLE QUOTATION MARK is written as the six characters `\u2019` |
| `PayloadJson.DecodeEntriesOf` | backend/app/core/LLM_prompts.py:154-157 | the preference items read back, in insertion order |
| `PayloadJson.DumpEntries` | backend/app/core/LLM_prompts.py:154-157 | the items of a non-empty preferences object start with the first key's string literal, so with a double quote; `DecodeEntriesOf` reads them back |
| `PayloadJson.DumpPreferences` | backend/app/core/LLM_prompts.py:154-157 | the preferences value is a braced object, and it is `{}` exactly when there are no preferences |
| `PayloadJson.Dumps` | backend/app/core/LLM_prompts.py:150-157 | `json.dumps(payload, indent=2)` always ends with the `user_preferences` member and the closing brace, so that member is never absent; `DecodeDumps` reads the whole text back |
| `PayloadJson.DecodeDumps` | backend/app/core/LLM_prompts.py:150-157 | the payload's JSON text reads back as the same four members, in the order `target_llm`, `best_practice_prompt_structure`, `raw_user_prompt`, `user_preferences` |
| `PayloadJson.DumpsInjective` | backend/app/core/LLM_prompts.py:150-157 | two payloads with the same JSON text are equal |
| `PayloadJson.DumpsAscii` | backend/app/core/LLM_prompts.py:157 | the JSON text holds only printable ASCII and line breaks |
| `Optimizer.ExchangeSendsOneRequest` | backend/app/core/optimizer.py:15-24 | one call to the completion service, naming the model `gpt-4o-mini`, with the system instruction and then the user message; the reply's text comes back unchanged, or the service's failure |
| `Optimizer.SupportedSendsUserMessage` | backend/app/core/optimizer.py:13-24 | a supported name passes the completion service exactly the message `construct_user_prompt` builds, which reads back as the payload |

## Left out

- The chat-completion call is not modelled. The client, the API key read from the environment, `load_dotenv` and the network are all left out. The service is the parameter `complete` of `Optimizer.OptimizePrompt`.
- A reply whose `choices[0].message.content` is `None` is not modelled. The model's reply is always text.
- The HTTP route and the browser front end are callers of this core and are not part of the model.
- `SystemPrompt`: the wording of the system instruction is left unspecified. The model fixes only that the same string is sent as the system message of every request, and no property depends on its words.
- `Text.Lower`: lower-casing covers ASCII letters only. Python's `str.lower` also maps non-ASCII letters, and can lengthen a string. No non-ASCII character lower-cases to a letter of "gpt", "claude" or "gemini" by itself, so the set of accepted names is the same. The error carries the name as given, not its lower-case form.
- A Python `str` can hold lone surrogates, which a Dafny `char` cannot. Those strings are not modelled.
- `Preferences` holds only string keys and string values, in insertion order. It does not rule out a key appearing twice, which a dict cannot do. Nested values, numbers and other JSON values of a preferences dict are left out.
- `user_preferences or {}` also replaces other falsy values, such as `0` or `""`. The model has only a missing value (`None`) and a preferences list.
- Only the layout that `json.dumps(indent=2)` writes for this payload is modelled. General `json.dumps` options and general JSON parsing are left out. `PayloadJson.DecodePayload` accepts exactly the written layout.
- `LlmPrompts.LookupExact`: the "only that name" direction is not restated as an if-and-only-if. It follows from this lemma, the contract of `GetPromptStructureForModel` and `LlmPrompts.LayoutsDistinct`.
