# Groq chat proxy: model fallback and request logic

This project models the request logic of a small Express server
(`server.js`). The server sits between a browser chat client and the
Groq chat-completion API. The model covers:

- the start-up sanitiser, which replaces an unset or retired model id with
  `llama-3.1-8b-instant`;
- the candidate list: the configured model, then four fixed fallbacks,
  without empty ids and without repeats, in first-seen order;
- the decommission classifier, which decides from a failure's raw text
  whether the provider retired the model;
- the outcome of one completion attempt;
- the fallback loop `callGroqChat`. It returns the first success, skips
  failures that say the model is retired, and rethrows any other failure
  at once;
- transcript formatting and the message lists for `/api/chat` and
  `/api/summarize`;
- both handlers, including the order in which `/api/chat` validates a
  request.

The network is an oracle: `upstream(modelId, messages)` gives a `Response`.
That is a non-OK status with its body, an OK body with or without
`choices[0].message.content`, a thrown error, or the 25-second abort.
The classifier's `try` block is an oracle too. When the block completes,
`parse(text)` gives the `error.code` and `error.message` fields of the parsed
value, each as the string a regex test would see. When the block throws,
`parse(text)` gives `ParseFailed`. The block throws when the text is not
JSON, and also when a field's conversion to a string throws. The resolver and the handlers return a
ghost list `tried`, which records the candidates attempted in order.

Three definitions serve as references for the fallback loop
(server.js:108-126). `Upstream.Retryable` is the `isDecom` decision of
server.js:113-115: the attempt failed, and its judged text classifies as
decommissioned. `Resolver.Resolution` is the outcome the loop must
produce, and `Resolver.Attempted` is the list of candidates it must try.
Both are defined from the first candidate that is not retryable.
`ResolveOver` is proved to compute exactly these.

Files: `wrappers.dfy` (Option, Result), `text.dfy` (the JavaScript string
built-ins the code uses), `config.dfy`, `classifier.dfy`, `prompt.dfy`,
`upstream.dfy`, `resolver.dfy`, `handlers.dfy`.

Case-insensitive tests: a `/pattern/i` regex without the `u` flag folds a
character onto an ASCII letter only when that character is itself an ASCII
letter. Every pattern here is ASCII, so `/p/i.test(s)` is modelled exactly
as a substring (or, for `^…$`, an equality) test on `s` with its ASCII
capitals lowered.

The fixed fallbacks are never empty, so `CandidateModels` never returns an
empty list. The "No valid model available" branch of `callGroqChat`
therefore cannot be reached from the server. `ResolveOver` still models it,
because it takes any list of candidates.

## Model

| member | source | states |
|---|---|---|
| Text.LowerMeaning | server.js:17 | after lower-casing no ASCII capital is left; every other character stays in place; each capital becomes its lower-case letter; a string without capitals is unchanged |
| Text.ContainsIffOccurs | server.js:57-61 | the substring scan behind a literal regex test succeeds exactly when the needle occurs at some index |
| Text.ContainsTransitive | server.js:57-58 | a string found inside a found string is found in the whole text |
| Text.NotContainsMissingChar | server.js:61 | a needle with a character missing from the text never matches |
| Text.Trim | server.js:91 | `trim` returns the slice of the input left after removing its leading and trailing JavaScript white space; the result is empty exactly when the input is all white space, and otherwise starts and ends with a non-space |
| Text.DecimalRoundTrip | server.js:85 | the status code written into an HTTP error message reads back as the same number |
| Config.LoadSettings | server.js:14-20 | the API key is kept; an unset, empty or retired model id becomes `llama-3.1-8b-instant`; any other id is kept; the result is never empty and never retired |
| Config.SafeDefaultNotDeprecated | server.js:16-19 | the replacement id is not itself retired, so sanitising twice changes nothing more |
| Config.DeprecatedExamples | server.js:17 | examples: `Gemma2-9b-IT` and `LLaMA3-70B-8192` are retired, and `llama3-8b-8192-v2` is not, because the fixed ids match only whole; the general rule is in DeprecatedIffOccurs and DeprecatedIgnoresCase |
| Config.DeprecatedIffOccurs | server.js:17 | an id is retired exactly when `gemma` occurs somewhere in its lower-cased form, or that form is `llama3-8b-8192` or `llama3-70b-8192` |
| Config.DeprecatedIgnoresCase | server.js:17 | changing an id's case never changes whether it is retired |
| Config.IndexOf | server.js:106 | `indexOf` answers -1 or an index that holds the id |
| Config.IndexOfFinds | server.js:106 | `indexOf` is -1 exactly when the id is absent, and otherwise an index holding the id with no earlier index holding it |
| Config.KeepFirstFrom | server.js:106 | the filter never keeps more ids than it scans; which ids it keeps is stated in KeepFirstFromMembers, and their order in KeepFirstFromOrdered |
| Config.KeepFirstFromMembers | server.js:106 | the filter keeps, from a given index on, exactly the non-empty ids whose first occurrence is at or after that index |
| Config.KeepFirstFromOrdered | server.js:106 | the filter keeps ids in the strictly increasing order of their first occurrences, all at or after the starting index |
| Config.FirstOccurrences | server.js:106 | the filtered list holds exactly the non-empty ids of the input, none twice, in first-seen order, and starts with the input's first id when that is non-empty |
| Config.CandidateModels | server.js:100-106 | the candidates are the configured id, when non-empty, plus the four fallbacks; there are no repeats; they come in the order of their first position in the literal list, so the configured id comes first and the remaining fallbacks keep their listed order; the list is never empty |
| Config.CandidatesForDefault | server.js:100-106 | with the default configured, its repeat among the fallbacks collapses: exactly the four fallbacks are tried |
| Config.CandidatesForCustomModel | server.js:100-106 | any other non-empty id is tried first, ahead of all four fallbacks |
| Classifier.IsDecommissionedPayload | server.js:51-63 | a total verdict; a positive one always rests on "decommissioned", in any case, in the code or message of a payload whose `try` block completes, or in the raw text of one whose block throws |
| Classifier.DecommissionedIffOccurs | server.js:51-63 | for every payload, both directions: when the `try` block completes, the verdict is true exactly when `model_decommissioned` occurs in the lower-cased code or `decommissioned` in the lower-cased message; otherwise exactly when `decommissioned` occurs in the lower-cased raw text |
| Classifier.CodeMarkerDecides | server.js:54-57 | an error code holding `model_decommissioned` in any mix of cases is a decommission, whatever the message |
| Classifier.MessagePhraseDecides | server.js:55-58 | an error message holding `decommissioned` in any mix of cases is a decommission, whatever the code |
| Classifier.RawTextDecides | server.js:60-61 | a payload on which the `try` block throws is a decommission whenever its raw text holds `decommissioned` in any mix of cases |
| Classifier.ParsedWithoutErrorFields | server.js:52-59 | a payload whose `try` block completes without an error code or message is not a decommission, even if "decommissioned" appears elsewhere in it |
| Classifier.ParsedIgnoresRawText | server.js:52-59 | for a payload whose `try` block completes, the raw-text fallback is never consulted: only the parsed fields decide |
| Classifier.CodeExample | server.js:54-57 | `{"error":{"code":"model_decommissioned","message":"x"}}` is a decommission |
| Classifier.CodeExampleUpperCase | server.js:57 | example: the code `MODEL_Decommissioned` is a decommission; the general rule is in CodeMarkerDecides |
| Classifier.MessageExample | server.js:55-58 | example: the message "The model `x` has been Decommissioned" is a decommission; the general rule is in MessagePhraseDecides |
| Classifier.RawTextExample | server.js:60-61 | example: the text `model DECOMMISSIONED`, on which the `try` block throws, is a decommission; the general rule is in RawTextDecides |
| Classifier.InvalidKeyExample | server.js:54-59 | `{"error":{"code":"invalid_api_key"}}` is not a decommission |
| Prompt.SpeakerLines | server.js:46-47 | one line per transcript entry, in input order; a line starts with `Assistant: ` exactly for the `assistant` role and with `User: ` for every other role, and it ends with the entry's content, with nothing else in between |
| Prompt.SpeakerPrefix | server.js:47 | a line starts with `Assistant: ` exactly when the role is `assistant`; every other role gets `User: ` |
| Prompt.JoinLinesAppend | server.js:48 | joining two non-empty runs of lines puts exactly one newline between their joins |
| Prompt.FormatHistory | server.js:45-49 | the formatted transcript is empty exactly when the transcript is, and otherwise starts with the first entry's line |
| Prompt.FormatHistoryAppend | server.js:45-49 | formatting keeps order: a transcript's text is its first part's text, a newline, then the rest's text |
| Prompt.FormatHistoryShort | server.js:45-49 | an empty transcript formats as `""`; a single entry formats as its own line |
| Prompt.FormatHistoryExample | server.js:45-49 | `[user "hi", assistant "hello"]` formats as `User: hi\nAssistant: hello` |
| Prompt.SystemMessage | server.js:139 | the system message has role `system` and reads the fixed opening `You are a helpful assistant specialized in `, then the topic as given, then a full stop |
| Prompt.ChatMessages | server.js:137-146 | a chat turn is the topic's system message, then one user message. That message starts with the fixed intro, the formatted transcript follows it intact, and then the respond-to instruction and the user input, as given, end it |
| Prompt.ChatMessagesExample | server.js:137-146 | the two-entry transcript with input `bye` gives the intro, `User: hi\nAssistant: hello`, the instruction, then `bye` |
| Prompt.SummaryTopic | server.js:163 | a missing or empty topic becomes `general topics`; any other topic is kept |
| Prompt.SummaryMessages | server.js:161-170 | a summary request is the system message for the defaulted topic, then one user message that starts with the summary instruction, with the formatted transcript after it to the end; an empty transcript leaves the instruction alone |
| Prompt.SummaryMessagesAppend | server.js:161-168 | the summary request keeps transcript order: for two non-empty parts, its text is the request text for the first part, a newline, then the second part's lines; the system message does not depend on the transcript |
| Upstream.TryChatWithModel | server.js:83-93 | an attempt succeeds exactly when the OK content is present and not blank, and then yields that content trimmed. A non-OK response yields an HTTP error with its status and body. Missing or blank content yields the empty-content error. A thrown error keeps its message, and a timeout yields the abort error |
| Upstream.ErrorOf | server.js:85-92 | only an HTTP failure carries a raw body and a status, and its message starts with `Groq API error ` |
| Upstream.ErrorOfMessages | server.js:85-92 | an HTTP failure's message is `Groq API error <status>: <body>`; an empty completion throws `No content returned from Groq`; a thrown error keeps its message unchanged |
| Upstream.HttpErrorStatusReadsBack | server.js:85 | the digits after `Groq API error ` in an HTTP failure's message read back as the response status |
| Upstream.ClassifiedTextIsBodyOrMessage | server.js:113 | the text judged for a failure is its raw body when that is non-empty, and otherwise its message; it is empty only when the message is |
| Upstream.TimeoutNeverRetried | server.js:66-67 | an aborted attempt is never taken for a retired model, given that the classifier's `try` block throws on its message |
| Upstream.EmptyContentNeverRetried | server.js:92 | an empty completion is never taken for a retired model, given that the classifier's `try` block throws on its message |
| Upstream.EmptyBodyHttpErrorNeverRetried | server.js:113 | an HTTP failure with an empty body is judged by its message, which never holds the phrase; so, given that the classifier's `try` block throws on that message, it is never retried, whatever the status |
| Upstream.HttpErrorJudgedByBody | server.js:113-114 | an HTTP failure with a non-empty body is judged by that body alone |
| Resolver.StopFrom | server.js:109-122 | scanning from an index, the stop is the first candidate there or later whose attempt is not a retryable failure, or the list length when there is none |
| Resolver.FirstStop | server.js:109-122 | the stopping index is the first candidate whose attempt is not a retryable failure; every candidate before it is retryable; it is the list length when all are |
| Resolver.ResolveOver | server.js:108-126 | the loop returns the stopping candidate's text or error. If every candidate is retryable, it throws the last one's error, or the configuration error for an empty list. It tries exactly the candidates up to the stop, in order |
| Resolver.CallGroqChat | server.js:99-127 | a completion request resolves over the candidate list. It tries at least one candidate, the configured one first when set |
| Resolver.SuccessAfterRetiredFailures | server.js:109-118 | if candidate k succeeds and all earlier ones failed as retired, its text is returned and exactly candidates 0..k were tried |
| Resolver.OtherFailurePropagates | server.js:112-121 | a failure that is not a retired model is propagated unchanged, and no later candidate is tried |
| Resolver.AllRetiredThrowsLast | server.js:124-125 | when every candidate fails as retired, all are tried and the last one's error is thrown |
| Resolver.EmptyListFails | server.js:126 | an empty list tries nothing and fails with "No valid model available to complete the request." |
| Resolver.ResolutionFromLastTried | server.js:109-125 | the outcome is always that of the last candidate tried |
| Handlers.ErrorText | server.js:151 | the reported message is the error's own, or `Unknown error` when that is empty; it is never empty |
| Handlers.ChatReply | server.js:148-153 | status 200 exactly when the resolution succeeded, with the reply text; otherwise 500 with `Failed to get response: ` followed by the error's message, or `Unknown error` when that is empty |
| Handlers.SummaryReply | server.js:171-175 | status 200 exactly when the resolution succeeded, with the summary; otherwise 500 with `Failed to summarize: ` followed by the error's message, or `Unknown error` when that is empty |
| Handlers.HandleChat | server.js:130-154 | a missing topic gives 400 before a blank input gives 400, and both come before a missing key gives 500. Nothing is tried until all three checks pass. After that, the reply is that of the resolution over the chat messages |
| Handlers.HandleSummarize | server.js:157-176 | only a missing key is rejected (500). Otherwise the reply is that of the resolution over the summary messages |
| Handlers.ChatSuccessHasText | server.js:91-93 | a 200 chat reply always carries non-blank text that starts with a non-space |
| Handlers.HttpFailureReachesClient | server.js:148-153 | a surfaced HTTP failure reaches the client whole: the 500 body is `Failed to get response: Groq API error <status>: <body>` |

## Left out

- The network, the `AbortController` and the timer (server.js:66-82, 94-96): each attempt's result is an oracle `Response`. Clearing the timer on every path is not modelled.
- JSON parsing (server.js:53, 90): the parser, and with it the classifier's `try` block, is an oracle. Three lemmas assume that the classifier's `try` block throws on the message they classify: the ones that a timeout, an empty completion, or an HTTP failure with an empty body is never retried (TimeoutNeverRetried, EmptyContentNeverRetried, EmptyBodyHttpErrorNeverRetried). Each of those messages starts with a letter, so the real `JSON.parse` rejects it.
- Transcript entries are modelled as a role and a content string. An entry without `content` renders as `<speaker>: undefined`, that is `User: undefined` or `Assistant: undefined` by role (server.js:47), and a `null` entry makes `formatHistory` throw, which gives a 500 reply. Neither is modelled.
- `TryChatWithModel` does not model a `content` that is neither a string nor missing, such as a number, which makes `.trim()` throw. Such a call would surface as a thrown error.
- `HandleChat`, `HandleSummarize` do not model a `history` that is present but not an array (for instance `null`), which makes `.map` throw and yields a 500 reply. A missing history is modelled: it defaults to `[]`.
- Request fields are modelled as strings or missing. JavaScript truthiness of other JSON values (numbers, booleans) is not.
- Strings are sequences of Unicode scalar values, not UTF-16 code units, so lone surrogates cannot be written.
- The `/api/models` endpoint, Express, dotenv and cors wiring, and `app.listen` (server.js:1-12, 26-43, 178-180) are plumbing around network calls.
- The sampling constants `temperature: 0.7` and `max_tokens: 512`, the bearer header and the serialisation of the request body (server.js:69-81) are not modelled.
- The `console.warn` diagnostics (server.js:18, 23, 116) are observability only.
- The browser client, `public/app.js`, is not part of this model.
