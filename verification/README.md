# Codemorpher in Dafny

Codemorpher translates Java code into another language with a large language
model. It has three parts, and this project models the logic of each:

- **The backend.** `useOpenRouter` asks a model for a translation. It rejects
  an empty reply. `parseGPTOutput` cuts the free-form reply into three lists of
  lines: translated code, debugging steps and algorithm. The `/translate`
  handler checks the request body. It then answers with the complete result, an
  incomplete result with `fallback: true`, or sentinel texts when the translator
  throws. Every request that reaches the translator writes exactly one log entry.
- **The Telegram bot.** It is a state machine over a per-chat map. The Java-code
  heuristic decides what is stored. Language buttons send the stored code to the
  backend. The "translate another?" answers reset the chat. The polling-error
  listener handles back-off.
- **The web page.** It checks the input before posting. It renders what the
  backend sends, escapes HTML, and picks an online compiler. It runs the
  progress bar and the countdown, and it keeps the interval handles of the
  loading overlay. It also counts the lines of the input.

The modules follow the program:

| module | models |
|---|---|
| `Outcomes` | `Option` and `Result` |
| `JsText` | the JavaScript string operations the code relies on: `\s`, `trim`, `split('\n')`, `join('\n')`, ASCII case folding |
| `OutputParser`, `ParserLemmas`, `CleanupLemmas` | `useOpenRouter.js`: the three section regexes, `cleanupLine`, the filters, the empty-reply guard |
| `SectionMatchLemmas` | the other direction of the section regexes: a section laid out as its pattern describes is found |
| `ReplyFormat` | the reply layout the prompt of `useOpenRouter.js` asks for, and its exact parse |
| `TranslateEndpoint`, `EndpointLemmas` | the `/translate` handler of `server.js` |
| `JavaHeuristic` | `isValidJavaCode` of `bot.js`: the four regexes, run by a greedy engine and proved equal to their regular languages |
| `ChatBot`, `BotLemmas` | the listeners of `bot.js` |
| `Frontend`, `FrontendLemmas` | `app.js` |

Some things outside the model are turned into parameters:

- The model call becomes the reply text (`Option<string>`; `None` stands for a
  reply without content).
- The translator is a function the handler is given.
- The bot's backend call is a function from request to outcome.
  `BotLemmas.LiveBackend` connects it to the modelled handler, with axios's
  behaviour on non-2xx statuses.
- Timers become explicit ticks.
- The DOM becomes the values the page would write into it.

The regular expressions are modelled by hand as functions over the text.
Case-insensitive patterns are matched on the ASCII-folded reply, and the
captures are cut from the original reply. The leftmost match wins, as with
`String.prototype.match`. Greedy and lazy quantifiers are modelled with their
backtracking.

The `/translate` handler defines a sentinel text for each section
(`server.js:41-43` and `server.js:57-65`), and the page renders only arrays.
So an answer is meant to carry content in every section. The code does not
guarantee this: `||` keeps an empty array, so the sentinel is never used on
that path (Finding 1). The model follows the code.

## Model

| member | source | states |
|---|---|---|
| OutputParser.UseOpenRouter | codemorpher-backend/translators/useOpenRouter.js:60-70 | fails, with "OpenRouter response incomplete.", exactly when the reply content is missing or empty; otherwise returns the parse of the reply |
| OutputParser.ParseGPTOutput | codemorpher-backend/translators/useOpenRouter.js:73-109 | is total; the code list is empty exactly when the code pattern finds no match; code lines hold no newline; a missing debug or algorithm section gives an empty list; kept steps are non-empty and trimmed, and kept algorithm lines do not start with a fence; that a well-formed section is found is `SectionMatchLemmas.CodeParsed`, `DebugParsed` and `AlgoParsed` |
| OutputParser.CleanupLine | codemorpher-backend/translators/useOpenRouter.js:80-84 | the result is trimmed and no longer than the line; a bare fence line becomes empty |
| OutputParser.CleanSteps | codemorpher-backend/translators/useOpenRouter.js:88-94 | keeps only non-empty, trimmed cleaned lines of the input; when no line cleans to empty it is the cleaned list itself (order and completeness: `CleanupLemmas.CleanStepsAppend`, `CleanStepsSingle`) |
| OutputParser.CleanAlgorithm | codemorpher-backend/translators/useOpenRouter.js:96-102 | keeps only non-empty cleaned lines that do not start with a fence; when every line passes it is the cleaned list itself (order and completeness: `CleanupLemmas.CleanAlgorithmAppend`, `CleanAlgorithmSingle`) |
| OutputParser.SectionLines | codemorpher-backend/translators/useOpenRouter.js:86 | the lines joined with newlines give back the trimmed capture |
| OutputParser.Keep | codemorpher-backend/translators/useOpenRouter.js:93 | the filter keeps only accepted elements taken from the input, keeps every accepted element, and keeps everything when everything is accepted |
| OutputParser.FencedBlockAt | codemorpher-backend/translators/useOpenRouter.js:75 | a fenced block's capture starts right after a line break and ends at a fence; the converse is `SectionMatchLemmas.FencedBlockFound` |
| OutputParser.AlgoAt | codemorpher-backend/translators/useOpenRouter.js:77 | the algorithm capture starts after a line break and runs to the end of the text; the converse is `SectionMatchLemmas.AlgoFound` |
| OutputParser.FirstAlgorithmMark | codemorpher-backend/translators/useOpenRouter.js:76 | finds the first `(=== )?Algorithm` at or after a position, or reports that there is none |
| OutputParser.DecorationEnd | codemorpher-backend/translators/useOpenRouter.js:75-77 | the optional `( ===)?:?` after a heading ends within the reply, no earlier than where it starts (`SectionMatchLemmas.DecorationAccepted` gives each form) |
| OutputParser.CodeAt | codemorpher-backend/translators/useOpenRouter.js:75 | a code match at a position starts with `Translated Code` there, and its capture lies within the reply |
| OutputParser.DebugAt | codemorpher-backend/translators/useOpenRouter.js:76 | a debug match starts with `Debugging Steps`; its capture begins after a line break past the heading and ends at the first `Algorithm` mark after that |
| OutputParser.Locate | codemorpher-backend/translators/useOpenRouter.js:75-77 | a found section's capture lies within the reply (`ParserLemmas.LocateIsLeftmost` says which one is found) |
| OutputParser.StripMarker | codemorpher-backend/translators/useOpenRouter.js:83 | the result is a suffix of the line: the replace only removes a prefix |
| ParserLemmas.LocateIsLeftmost | codemorpher-backend/translators/useOpenRouter.js:75-77 | a section's capture is that of the leftmost start position where its whole pattern matches; nothing is found only when no position matches |
| ParserLemmas.OpenerIsTransparent | codemorpher-backend/translators/useOpenRouter.js:75-77 | the optional `=== ` before a heading never changes what a pattern captures |
| ParserLemmas.MatchingIgnoresCase | codemorpher-backend/translators/useOpenRouter.js:75-77 | the `/i` flag: changing the case of ASCII letters in a reply moves no section boundary |
| ParserLemmas.CodeStopsAtFirstFence | codemorpher-backend/translators/useOpenRouter.js:75 | the code capture starts after a line break and stops at the first closing fence after it |
| ParserLemmas.DebugStopsAtFirstAlgorithm | codemorpher-backend/translators/useOpenRouter.js:76 | the debug capture starts after a line break and stops at the first `Algorithm` after it |
| ParserLemmas.DebugNeedsAlgorithmMark | codemorpher-backend/translators/useOpenRouter.js:76 | when no `Algorithm` occurs from some position `m` on, and no debugging heading before `m`, there are no debugging steps; this covers an `Algorithm` that only comes before the heading |
| ParserLemmas.AlgorithmRunsToEnd | codemorpher-backend/translators/useOpenRouter.js:77 | the algorithm runs from after its heading's line break to the end of the reply |
| ParserLemmas.FencedBlockStopsAtFirstFence | codemorpher-backend/translators/useOpenRouter.js:75 | the lazy interior of a fenced block contains no fence |
| SectionMatchLemmas.DecorationAccepted | codemorpher-backend/translators/useOpenRouter.js:75-77 | each of the four forms ``, `:`, ` ===` and ` ===:` after a heading is taken whole when whitespace or a fence follows |
| SectionMatchLemmas.FencedBlockFound | codemorpher-backend/translators/useOpenRouter.js:75 | a fence, ASCII letters, a newline, and a later fence with none between match the fenced part, capturing the interior |
| SectionMatchLemmas.CodeFound | codemorpher-backend/translators/useOpenRouter.js:75 | `Translated Code`, any decoration, whitespace and a fenced block match at the heading, capturing the block's interior |
| SectionMatchLemmas.DebugFound | codemorpher-backend/translators/useOpenRouter.js:76 | `Debugging Steps`, a decoration, whitespace ending in a line break and a later `Algorithm` match, capturing up to the first `Algorithm` |
| SectionMatchLemmas.AlgoFound | codemorpher-backend/translators/useOpenRouter.js:77 | `Algorithm`, a decoration and whitespace ending in a line break match, capturing the rest of the reply |
| SectionMatchLemmas.FirstHeadingMatches | codemorpher-backend/translators/useOpenRouter.js:75-77 | when the first occurrence of a heading starts a match, the search returns that match |
| SectionMatchLemmas.CodeParsed | codemorpher-backend/translators/useOpenRouter.js:75-86 | a reply whose first `Translated Code` starts a well-formed section yields the split trimmed interior as its code |
| SectionMatchLemmas.DebugParsed | codemorpher-backend/translators/useOpenRouter.js:76-94 | a reply whose first `Debugging Steps` starts a well-formed section yields the cleaned lines up to the first `Algorithm` |
| SectionMatchLemmas.AlgoParsed | codemorpher-backend/translators/useOpenRouter.js:77-102 | a reply whose first `Algorithm` starts a well-formed heading line yields the cleaned lines to the end of the reply |
| SectionMatchLemmas.DebugAttemptIff | codemorpher-backend/translators/useOpenRouter.js:76 | the debug pattern matches at a position exactly when the heading is there, a line break follows it, and some `Algorithm` comes after that line break |
| SectionMatchLemmas.NoDebuggingSteps | codemorpher-backend/translators/useOpenRouter.js:76-94 | the steps are empty exactly when the debug pattern fails at every position, or every line of its capture cleans to nothing |
| SectionMatchLemmas.CleanStepsEmpty | codemorpher-backend/translators/useOpenRouter.js:88-94 | the cleaned steps are empty exactly when every line cleans to nothing |
| ReplyFormat.FormatReplyParses | codemorpher-backend/translators/useOpenRouter.js:73-109 | a reply in the layout of the prompt (lines 22-38: titled sections, a fenced code block, numbered steps and algorithm lines) parses to exactly the code lines, steps and algorithm lines written into it |
| ReplyFormat.OrdinaryReplyParses | codemorpher-backend/translators/useOpenRouter.js:73-109 | the reply the prompt asks for, with 3 code lines and 5 numbered points in each list, parses to 3 code lines, 5 steps and 5 algorithm lines, each the one written |
| ReplyFormat.ExampleReplyParses | codemorpher-backend/translators/useOpenRouter.js:73-109 | one concrete Java-tagged reply of that shape gives back its 3 code lines, 5 steps and 5 algorithm lines |
| ReplyFormat.CodeOfFormatReply | codemorpher-backend/translators/useOpenRouter.js:75-86 | the code section of such a reply gives back the code lines |
| ReplyFormat.StepsOfFormatReply | codemorpher-backend/translators/useOpenRouter.js:76-94 | the debugging section gives back the steps, with their numbers stripped |
| ReplyFormat.AlgorithmOfFormatReply | codemorpher-backend/translators/useOpenRouter.js:77-102 | the algorithm section gives back the algorithm lines, with their numbers stripped |
| CleanupLemmas.PlainLineUnchanged | codemorpher-backend/translators/useOpenRouter.js:80-84 | a trimmed line with no bullet, number or step marker is left as it is |
| CleanupLemmas.NumberedLineCleaned | codemorpher-backend/translators/useOpenRouter.js:83 | `N. text` becomes `text` |
| CleanupLemmas.StepLineCleaned | codemorpher-backend/translators/useOpenRouter.js:83 | `Step N: text`, with `Step` in any letter case, becomes `text` |
| CleanupLemmas.NumberMarkerLineCleaned | codemorpher-backend/translators/useOpenRouter.js:83 | `N. text` and `N: text` become `text` |
| CleanupLemmas.NumberColonLineCleaned | codemorpher-backend/translators/useOpenRouter.js:83 | `N: text` becomes `text` |
| CleanupLemmas.StepDotLineKept | codemorpher-backend/translators/useOpenRouter.js:83 | `Step N. text` matches no marker alternative and is kept whole |
| CleanupLemmas.BulletNumberedLineCleaned | codemorpher-backend/translators/useOpenRouter.js:83 | a bullet, a space and `N. text` lose both the bullet and the number: `- 1. text` becomes `text`, for every bullet character of the class |
| CleanupLemmas.BulletLineCleaned | codemorpher-backend/translators/useOpenRouter.js:83 | a bullet and a space before a plain line lose only the bullet |
| CleanupLemmas.KeepAppend | codemorpher-backend/translators/useOpenRouter.js:93 | the filter works element by element: filtering a concatenation concatenates the filtered parts, so order is kept |
| CleanupLemmas.KeepSingle | codemorpher-backend/translators/useOpenRouter.js:93 | one element is kept exactly when it is accepted |
| CleanupLemmas.CleanStepsAppend | codemorpher-backend/translators/useOpenRouter.js:88-94 | the steps of a block of lines are the steps of its parts, in order |
| CleanupLemmas.CleanStepsSingle | codemorpher-backend/translators/useOpenRouter.js:92-93 | one line gives its cleaned form exactly when that is not empty |
| CleanupLemmas.CleanAlgorithmAppend | codemorpher-backend/translators/useOpenRouter.js:96-102 | the algorithm of a block of lines is that of its parts, in order |
| CleanupLemmas.CleanAlgorithmSingle | codemorpher-backend/translators/useOpenRouter.js:100-101 | one line gives its cleaned form exactly when that is not empty and does not start with a fence |
| CleanupLemmas.StrippedAfterMarker | codemorpher-backend/translators/useOpenRouter.js:83-84 | after the marker and one space, the trimmed rest is what remains |
| CleanupLemmas.CleanupNotIdempotent | codemorpher-backend/translators/useOpenRouter.js:83 | only one marker is stripped: `1. 2. text` becomes `2. text`, and cleaning twice differs from cleaning once |
| CleanupLemmas.FenceLineDropped | codemorpher-backend/translators/useOpenRouter.js:80-102 | a bare fence line cleans to nothing and is dropped from both lists |
| CleanupLemmas.KeepDropsRejected | codemorpher-backend/translators/useOpenRouter.js:93 | a filter that rejects some element shortens the list |
| TranslateEndpoint.HandleTranslate | codemorpher-backend/server.js:21-68 | a request missing either field gets 400 with the error text, no translator call and no log; an accepted request calls the translator once on itself and is answered 200 with exactly one log; a throw gives the three sentinels with `fallback`; a complete result is sent as it is; an incomplete one gets the or-operator fallback with `fallback` |
| TranslateEndpoint.ToSections | codemorpher-backend/translators/useOpenRouter.js:104-108 | the parser's record reaches the handler as three arrays, complete for the handler exactly when the parse is |
| TranslateEndpoint.OpenRouterTranslator | codemorpher-backend/server.js:33 | the translator throws exactly when the reply is missing or empty |
| TranslateEndpoint.ServeReply | codemorpher-backend/server.js:31-66 | an empty reply gives the sentinel body and an error log; any other reply is answered with its parse, marked as a fallback exactly when the parse is incomplete |
| TranslateEndpoint.HandleTranslateIntended | codemorpher-backend/server.js:37-45 | corrected fallback: every section of every answer has content, and a non-fallback answer is the translator's result |
| TranslateEndpoint.ServeReplyIntended | codemorpher-backend/server.js:37-45 | corrected fallback applied to a reply: always 200 with three non-empty sections; it agrees with the written handler whenever the parse is complete |
| EndpointLemmas.RejectionIgnoresTranslator | codemorpher-backend/server.js:25-27 | the answer to a rejected request does not depend on the translator |
| EndpointLemmas.OnlyThisRequestIsTranslated | codemorpher-backend/server.js:29-33 | the handler depends on the translator only through its answer for this request |
| EndpointLemmas.NoCodeInPlainReply | codemorpher-backend/translators/useOpenRouter.js:75-86 | the reply `x` has no code section |
| EndpointLemmas.EmptyCodeSectionReachesClient | codemorpher-backend/server.js:41 | a non-empty reply without code is answered with `fallback` and an empty code array, never the code sentinel |
| EndpointLemmas.IntendedFallbackSendsCodeSentinel | codemorpher-backend/server.js:41 | with the corrected fallback the same reply gets the code sentinel |
| EndpointLemmas.IntendedAgreesOutsideIncompletePath | codemorpher-backend/server.js:21-68 | the corrected handler differs from the written one only on the incomplete path |
| JavaHeuristic.ValidJavaMeaning | bot.js:37-45 | the trimmed text passes the test exactly when some substring of it is in the language of one of the four patterns |
| JavaHeuristic.TestMeansLanguage | bot.js:39-44 | for patterns whose runs can be taken greedily, the engine's test and the pattern's language agree |
| JavaHeuristic.MatchIsDerivation | bot.js:39-44 | every match the engine finds is a word of the pattern's language |
| JavaHeuristic.DerivationIsMatch | bot.js:39-44 | every word of the language is found by the engine from the same start |
| JavaHeuristic.JavaPatternsAreGreedySafe | bot.js:38-43 | none of the four patterns loses a match by taking `\s+`, `\s*` or `\w+` greedily |
| JavaHeuristic.ValidJavaIsNonEmpty | bot.js:37-45 | accepted text is never empty |
| ChatBot.OnMessage | bot.js:33-86 | every message resets the error count; a text that mentions `/start` is welcomed; a slash command is otherwise ignored; a chat waiting for an answer is reprompted and unchanged; Java code is stored with the menu; other text is refused and changes nothing; other chats are untouched |
| ChatBot.OnCallback | bot.js:88-190 | the backend is called exactly for a `lang_` button on a chat with code, no pending answer and a known language, with that code and language; otherwise the bot asks for code first or reports an invalid language; `ack_yes` and `ack_no` reset the chat; other data does nothing; other chats are untouched |
| ChatBot.Translate | bot.js:115-174 | a fallback answer shows the incomplete code and the error and forgets the chat; a full answer shows the code and waits for the answer; a failure reports it and forgets the chat |
| ChatBot.FailureReply | bot.js:168-170 | a 401 reports failed authentication; otherwise the backend's error message when present, else axios's message |
| ChatBot.PollDelay | bot.js:26 | the delay is `1000 * 2^n` ms while that is below 30 s, and 30 s otherwise |
| ChatBot.OnPollingError | bot.js:17-31 | as written: counts the error and always throws before it can exit or restart |
| ChatBot.OnPollingErrorIntended | bot.js:14-30 | corrected: exits exactly from the fifth consecutive error; a restart waits the back-off delay, at most 16 s |
| BotLemmas.RunKeepsWellFormed | bot.js:53-187 | over any run of events, stored code always passed the Java test, a chat waits for an answer only while it holds code, and every backend request carries valid Java code and one of the six languages |
| BotLemmas.CallbackKeepsWellFormed | bot.js:103-187 | one callback keeps the chats well-formed, and the request it makes is good |
| BotLemmas.MessageKeepsWellFormed | bot.js:53-86 | one message keeps the chats well-formed |
| BotLemmas.LanguageMapValues | bot.js:94-101 | the six languages of the menu |
| BotLemmas.LanguageMapKeys | bot.js:94-101 | each button's data is `lang_` followed by its language |
| BotLemmas.GoodRequestIsAccepted | bot.js:124-131 | the backend's validation always accepts the bot's requests |
| BotLemmas.FromEndpoint | bot.js:124-170 | a 2xx answer yields the code and the fallback flag; any other status is an axios error with that status and no backend message |
| BotLemmas.EmptyReplyEndsConversation | bot.js:136-143 | when the model's reply is empty, the bot shows the code sentinel as an incomplete translation, reports the error and forgets the chat |
| BotLemmas.ClearedActsAsAbsentOnMessage | bot.js:61-66 | the `{}` left by an answer acts like no state at all for messages |
| BotLemmas.ClearedActsAsAbsentOnCallback | bot.js:103-113 | the `{}` left by an answer acts like no state at all for callbacks |
| BotLemmas.PollDelayShape | bot.js:26 | the delay never decreases with the count and is 30 s from the fifth error on |
| BotLemmas.PollingNeverRestarts | bot.js:21 | as written, no polling error ever leads to a restart or an exit |
| BotLemmas.IntendedBackOff | bot.js:14-30 | corrected: the first four errors restart after 2, 4, 8 and 16 s, and the fifth stops the bot |
| Frontend.EscapeHTML | codemorpher-frontend/public/scripts/app.js:114-122 | the result contains no `<`, `>`, `'` or `"`; it is no shorter than the text, and text without the five characters is unchanged |
| Frontend.StartTranslation | codemorpher-frontend/public/scripts/app.js:8-22 | nothing is posted exactly when the trimmed code or the language is empty; otherwise the trimmed code and the selected language are posted, and the backend accepts them |
| Frontend.ShowResult | codemorpher-frontend/public/scripts/app.js:24-48 | as written: the three sections render exactly when all three are arrays; a truthy `error` shows the generic text; anything else ends in the network-error text |
| Frontend.ShowResultIntended | codemorpher-frontend/public/scripts/app.js:24-41 | corrected: every section body renders, with a string section as one line |
| Frontend.RunCode | codemorpher-frontend/public/scripts/app.js:59-99 | empty trimmed code runs nothing; otherwise the trimmed code is copied and the language's compiler is opened when there is one |
| Frontend.CompilerUrl | codemorpher-frontend/public/scripts/app.js:74-96 | a compiler exists exactly for the six lower-cased language names of the switch, and it is that case's URL |
| Frontend.ProgressTick | codemorpher-frontend/public/scripts/app.js:160-167 | a running bar below 100% grows by 2; at 100% the interval stops and the bar stays; a stopped interval does nothing |
| Frontend.CountdownTick | codemorpher-frontend/public/scripts/app.js:171-178 | while seconds remain it shows them and counts down by one; at 0 it shows the finalizing text and stays at 0 |
| Frontend.StartLoading | codemorpher-frontend/public/scripts/app.js:157-178 | clears the two stored intervals and stores two fresh ones, which then run |
| Frontend.StopLoading | codemorpher-frontend/public/scripts/app.js:182-186 | clears both stored intervals and changes nothing else |
| Frontend.LineCount | codemorpher-frontend/public/scripts/app.js:211-213 | the count is the number of newlines plus one |
| FrontendLemmas.UnescapeEscape | codemorpher-frontend/public/scripts/app.js:114-122 | reading the escaped text back as HTML gives the original text |
| FrontendLemmas.EscapeAppend | codemorpher-frontend/public/scripts/app.js:115 | escaping works character by character, so it distributes over concatenation |
| FrontendLemmas.EscapeNotIdempotent | codemorpher-frontend/public/scripts/app.js:116 | `&` escapes to `&amp;`, and escaping again gives `&amp;amp;` |
| FrontendLemmas.ListHtmlTags | codemorpher-frontend/public/scripts/app.js:102-111 | the step list holds exactly two `<` per step, so step text cannot open a tag |
| FrontendLemmas.ProgressSchedule | codemorpher-frontend/public/scripts/app.js:157-167 | after n ticks the bar is at 2n% while n <= 50; after that it is at 100% with its interval stopped |
| FrontendLemmas.CountdownSchedule | codemorpher-frontend/public/scripts/app.js:169-178 | ticks 1 to 12 show 12 down to 1 seconds remaining; from tick 13 the finalizing text shows and the count stays at 0 |
| FrontendLemmas.TimersNeverLeak | codemorpher-frontend/public/scripts/app.js:157-185 | over any sequence of starts, stops and full bars, only the two stored intervals can run; a stop leaves none running |
| FrontendLemmas.TimersFromLoad | codemorpher-frontend/public/scripts/app.js:1-3 | from page load, at most two intervals ever run, and none after a stop |
| FrontendLemmas.TimerEventKeepsTracked | codemorpher-frontend/public/scripts/app.js:157-185 | each start replaces both intervals with two new ones, and each stop leaves none |
| FrontendLemmas.LineCountJoin | codemorpher-frontend/public/scripts/app.js:212 | joining two texts with a line break adds their line counts |
| FrontendLemmas.PageRequestsAreAccepted | codemorpher-frontend/public/scripts/app.js:12-22 | whatever the translator does, a request the page posts reaches it and is answered with 200, never 400 |
| FrontendLemmas.ParsedReplyIsRendered | codemorpher-frontend/public/scripts/app.js:33-35 | any non-empty model reply reaches the page as three arrays and is rendered |
| FrontendLemmas.BackendFailureShownAsNetworkError | codemorpher-frontend/public/scripts/app.js:33-39 | as written: when the translator fails, the page shows the network-error text although the backend answered |
| FrontendLemmas.IntendedShowsSentinels | codemorpher-frontend/public/scripts/app.js:33-35 | corrected: the same answer renders the three sentinel texts |
| FrontendLemmas.IntendedAgreesOnArrays | codemorpher-frontend/public/scripts/app.js:33-35 | the corrected rendering agrees with the written one wherever the written one renders |
| FrontendLemmas.CompilersMatchBotLanguages | codemorpher-frontend/public/scripts/app.js:74-92 | the page has a compiler for exactly the six languages the bot offers |
| FrontendLemmas.CompilerChoice | codemorpher-frontend/public/scripts/app.js:74 | the language's letter case does not matter, and two languages open the same compiler only when they differ at most in case |

## Left out

- The model call, its prompt and its SDK. The reply text is a parameter, and `None` stands for a completion without content.
- The HTTP transport of the backend and the bot. A response is a status and a body, and axios's rejection is given by status, backend message and axios's own message.
- The session id, `Date.now`, the console output, and the provider argument of the logging calls. The logging service itself is not part of this model: only which entries are written, and what they carry, is modelled.
- Failures of the logging calls. An `await` on a rejecting log call would end the handler in its `catch`.
- The Telegram transport. Replies are named by an enumeration instead of their exact wording, and `answerCallbackQuery` and the chat action are not modelled.
- Messages without text. For those, `text.startsWith` throws inside the listener.
- The order in which the `/start` and message listeners fire. The welcome is listed after the message listener's reply.
- Interleaving of several chats' callbacks across `await`. Each event is one atomic step.
- Image uploads and their vision parser, the Firestore logging service, Cypress tests and the report generator. These are outside this model.
- The DOM, Prism, the clipboard, `window.open`, `alert`, the fun facts with `Math.random`, and the language-selection buttons of the page. Their effects appear as returned values.
- Frontend.ShowResult: when the code is an array but a later section is not, the page has already written the code before the error overlay appears. The model reports only the overlay.
- Request fields that are numbers are integers (no `NaN`, no fractions). `null` and `undefined` are one `Absent` value in the sections.
- Heading and keyword comparisons fold only ASCII letters, for `toLowerCase` and the `/i` flag. JavaScript also folds other letters, but no non-ASCII letter folds into the ASCII names and headings compared here. The bullet class of `cleanupLine` keeps its non-ASCII case partners. Strings are sequences of code points, not UTF-16 units.
- ReplyFormat.FormatReplyParses: the round trip is claimed only for parts that the parser cannot confuse with the layout. These are a letter-only language tag, one-line items, code lines that mention no fence and no later heading, and steps that do not say `algorithm`. When a part breaks one of these rules, the regexes cut the reply at that point, so the parse does not give the part back.
- The timing of the intervals. The progress and countdown intervals are modelled as sequences of ticks.

## Findings

| source | as written | input that shows it | evidently intended | confidence | as-written member | corrected member |
|---|---|---|---|---|---|---|
| codemorpher-backend/server.js:41-43 | `result.translatedCode` or-ed with its sentinel never uses the sentinel, because the parser always returns an array and an empty array is truthy | a non-empty model reply with no code section, such as `x`: the client receives `fallback: true` with `translatedCode: []` | an empty section is replaced by its sentinel, so every field of a fallback answer has content | medium, not executed | EndpointLemmas.EmptyCodeSectionReachesClient | EndpointLemmas.IntendedFallbackSendsCodeSentinel |
| bot.js:21 | the limit is compared with `maxRetries`, which is declared nowhere (the constant is `max_SOLID`), so every polling error throws a `ReferenceError` before the exit or the restart | any `polling_error` event | stop after five consecutive errors, otherwise restart polling after the back-off delay | high, not executed | BotLemmas.PollingNeverRestarts | BotLemmas.IntendedBackOff |
| codemorpher-frontend/public/scripts/app.js:33-35 | the page calls `lines.map` on each section, but the backend's error answer (server.js:61-66) sends the sections as strings, so the call throws and the `.catch` reports a network error | an empty model reply: the backend answers 200 with the three sentinel strings | show the sentinel texts that the backend sent | medium, not executed | FrontendLemmas.BackendFailureShownAsNetworkError | FrontendLemmas.IntendedShowsSentinels |
