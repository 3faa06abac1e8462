/**
  The Telegram bot as a state machine over a per-chat map. A message is
  Java code, a command or anything else. A `lang_*` callback sends the stored
  code to the backend. An `ack_*` callback answers the "translate another?"
  question.

  Sending messages, answering callback queries and the HTTP call are
  transport. A step returns the replies it sends, in order, and the backend
  request it makes. The backend's answer to that request is a parameter.
 */
module ChatBot {
  import opened Outcomes
  import opened JsText
  import opened JavaHeuristic
  import TranslateEndpoint

  /**
    The state of one chat: the code waiting for a language, and whether the
    bot is waiting for the answer to "translate another code?". The empty
    object `{}` is `ChatState(None, false)`.
   */
  datatype ChatState = ChatState(javaCode: Option<string>, waitingForAck: bool)

  const Cleared: ChatState := ChatState(None, false)

  /** The per-chat map and the count of consecutive polling errors. */
  datatype Bot = Bot(chats: map<int, ChatState>, pollingErrors: nat)

  /** The messages the bot sends; their exact wording is not modelled. */
  datatype Reply =
    | Welcome
    | ConfirmFirst
    | LanguageMenu
    | NotJava
    | SendCodeFirst
    | InvalidLanguage
    | Translating
    | IncompleteTranslation(language: string, code: string)
    | BackendError
    | TranslatedCode(language: string, code: string)
    | AskAnother
    | AwaitingAnswer
    | AuthFailed
    | TranslationFailed(detail: string)
    | NextCode
    | Goodbye

  datatype BackendRequest = BackendRequest(javaCode: string, targetLanguage: string)

  /**
    What the backend call produced: the response data, or the error axios
    throws, with `err.response?.status`, `err.response?.data?.error?.message`
    and `err.message`.
   */
  datatype BackendOutcome =
    | Answered(translatedCode: TranslateEndpoint.Field, fallback: bool)
    | Rejected(status: Option<int>, errorMessage: Option<string>, message: string)

  /** The result of one event: the new bot, the replies sent, and the backend request made, if any. */
  datatype Step = Step(bot: Bot, replies: seq<Reply>, request: Option<BackendRequest>)

  /** The callback data of the language buttons and the language each one selects. */
  const LanguageMap: map<string, string> := map[
    "lang_javascript" := "javascript",
    "lang_python" := "python",
    "lang_c" := "c",
    "lang_csharp" := "csharp",
    "lang_cpp" := "cpp",
    "lang_php" := "php"
  ]

  /** The stored code is truthy. */
  predicate HasCode(st: ChatState) {
    st.javaCode.Some? && st.javaCode.value != ""
  }

  /** `userState[chatId]?.waitingForAck` */
  predicate WaitingForAck(chats: map<int, ChatState>, chat: int) {
    chat in chats && chats[chat].waitingForAck
  }

  /** The code as it is shown: an array is joined with newlines, a string is used as it is, an absent value reads `undefined`. */
  function ShownCode(f: TranslateEndpoint.Field): string {
    match f
    case Lines(ls) => JoinLines(ls)
    case Text(t) => t
    case Absent => "undefined"
  }

  /** The reply of the `/start` listener, which fires on any text that mentions `/start`. */
  function Welcomes(text: string): seq<Reply> {
    if Mentions(text, "/start") then [Welcome] else []
  }

  /**
    The `message` listeners for a message with text. Every message resets the
    polling-error count. A text that mentions `/start` also gets the welcome.
    A text starting with `/` is otherwise ignored. While the chat waits for an
    answer, any other text only gets the reprompt. Java code is stored and
    answered with the language menu. Anything else is refused and changes
    nothing.
   */
  function OnMessage(bot: Bot, chat: int, text: string): (st: Step)
    ensures st.request.None? && st.bot.pollingErrors == 0
    ensures st.bot.chats - {chat} == bot.chats - {chat}
    ensures StartsWith(text, "/") ==> st.bot.chats == bot.chats && st.replies == Welcomes(text)
    ensures !StartsWith(text, "/") && WaitingForAck(bot.chats, chat) ==>
              st.bot.chats == bot.chats && st.replies == [ConfirmFirst] + Welcomes(text)
    ensures !StartsWith(text, "/") && !WaitingForAck(bot.chats, chat) && IsValidJavaCode(text) ==>
              st.bot.chats == bot.chats[chat := ChatState(Some(text), false)] && st.replies == [LanguageMenu] + Welcomes(text)
    ensures !StartsWith(text, "/") && !WaitingForAck(bot.chats, chat) && !IsValidJavaCode(text) ==>
              st.bot.chats == bot.chats && st.replies == [NotJava] + Welcomes(text)
  {
    var welcome := Welcomes(text);
    var reset := bot.(pollingErrors := 0);
    if StartsWith(text, "/") then Step(reset, welcome, None)
    else if WaitingForAck(bot.chats, chat) then Step(reset, [ConfirmFirst] + welcome, None)
    else if IsValidJavaCode(text) then
      Step(reset.(chats := bot.chats[chat := ChatState(Some(text), false)]), [LanguageMenu] + welcome, None)
    else Step(reset, [NotJava] + welcome, None)
  }

  /** The error reply: authentication failure for a 401, otherwise the backend's message or axios's own. */
  function FailureReply(status: Option<int>, errorMessage: Option<string>, message: string): (r: Reply)
    ensures status == Some(401) ==> r == AuthFailed
    ensures status != Some(401) && errorMessage.Some? && errorMessage.value != "" ==> r == TranslationFailed(errorMessage.value)
    ensures status != Some(401) && (errorMessage.None? || errorMessage.value == "") ==> r == TranslationFailed(message)
  {
    if status == Some(401) then AuthFailed
    else if errorMessage.Some? && errorMessage.value != "" then TranslationFailed(errorMessage.value)
    else TranslationFailed(message)
  }

  /** The `lang_*` part of the callback handler, once the stored code and the language are known. */
  function Translate(bot: Bot, chat: int, st: ChatState, lang: string, outcome: BackendOutcome): (r: Step)
    requires HasCode(st)
    ensures r.request == Some(BackendRequest(st.javaCode.value, lang))
    ensures r.bot.pollingErrors == bot.pollingErrors
    ensures r.replies != [] && r.replies[0] == Translating
    ensures outcome.Answered? && !outcome.fallback ==>
              r.bot.chats == bot.chats[chat := st.(waitingForAck := true)]
              && r.replies == [Translating, TranslatedCode(lang, ShownCode(outcome.translatedCode)), AskAnother, AwaitingAnswer]
    ensures outcome.Answered? && outcome.fallback ==>
              r.bot.chats == bot.chats - {chat}
              && r.replies == [Translating, IncompleteTranslation(lang, ShownCode(outcome.translatedCode)), BackendError]
    ensures outcome.Rejected? ==>
              r.bot.chats == bot.chats - {chat}
              && r.replies == [Translating, FailureReply(outcome.status, outcome.errorMessage, outcome.message)]
  {
    var req := BackendRequest(st.javaCode.value, lang);
    match outcome
    case Answered(code, fallback) =>
      if fallback then
        Step(bot.(chats := bot.chats - {chat}), [Translating, IncompleteTranslation(lang, ShownCode(code)), BackendError], Some(req))
      else
        Step(bot.(chats := bot.chats[chat := st.(waitingForAck := true)]),
             [Translating, TranslatedCode(lang, ShownCode(code)), AskAnother, AwaitingAnswer], Some(req))
    case Rejected(status, errorMessage, message) =>
      Step(bot.(chats := bot.chats - {chat}), [Translating, FailureReply(status, errorMessage, message)], Some(req))
  }

  /**
    The `callback_query` listener. A `lang_*` button needs stored code and no
    pending answer, and a known language; then the code is sent to the
    backend. `ack_yes` and `ack_no` reset the chat to `{}`. Other data does
    nothing.
   */
  function OnCallback(bot: Bot, chat: int, data: string, backend: BackendRequest -> BackendOutcome): (st: Step)
    ensures st.bot.pollingErrors == bot.pollingErrors
    ensures st.bot.chats - {chat} == bot.chats - {chat}
    ensures st.request.Some? <==>
              StartsWith(data, "lang_") && chat in bot.chats && HasCode(bot.chats[chat])
              && !bot.chats[chat].waitingForAck && data in LanguageMap
    ensures st.request.Some? ==>
              st.request.value == BackendRequest(bot.chats[chat].javaCode.value, LanguageMap[data])
    ensures StartsWith(data, "lang_") && (chat !in bot.chats || !HasCode(bot.chats[chat]) || bot.chats[chat].waitingForAck) ==>
              st.bot == bot && st.replies == [SendCodeFirst]
    ensures StartsWith(data, "lang_") && chat in bot.chats && HasCode(bot.chats[chat]) && !bot.chats[chat].waitingForAck
            && data !in LanguageMap ==>
              st.bot == bot && st.replies == [InvalidLanguage]
    ensures data == "ack_yes" ==> st.bot.chats == bot.chats[chat := Cleared] && st.replies == [NextCode]
    ensures data == "ack_no" ==> st.bot.chats == bot.chats[chat := Cleared] && st.replies == [Goodbye]
    ensures !StartsWith(data, "lang_") && data != "ack_yes" && data != "ack_no" ==> st == Step(bot, [], None)
  {
    if StartsWith(data, "lang_") then
      assert data[0] == 'l';
      if chat !in bot.chats || !HasCode(bot.chats[chat]) || bot.chats[chat].waitingForAck then
        Step(bot, [SendCodeFirst], None)
      else if data !in LanguageMap then
        Step(bot, [InvalidLanguage], None)
      else
        var st := bot.chats[chat];
        var lang := LanguageMap[data];
        Translate(bot, chat, st, lang, backend(BackendRequest(st.javaCode.value, lang)))
    else if data == "ack_yes" then
      Step(bot.(chats := bot.chats[chat := Cleared]), [NextCode], None)
    else if data == "ack_no" then
      Step(bot.(chats := bot.chats[chat := Cleared]), [Goodbye], None)
    else
      Step(bot, [], None)
  }

  /** `2^n` */
  function Pow2(n: nat): (r: nat)
    ensures r >= 1
  {
    if n == 0 then 1 else 2 * Pow2(n - 1)
  }

  /** The wait before polling restarts after the `n`-th consecutive error. */
  function PollDelay(n: nat): (d: nat)
    ensures d <= 30000
    ensures d == 30000 || d == 1000 * Pow2(n)
  {
    if 1000 * Pow2(n) < 30000 then 1000 * Pow2(n) else 30000
  }

  /** What a polling error leads to. */
  datatype PollingOutcome = RestartAfter(delay: nat) | Exit | Threw(message: string)

  /** The number of consecutive polling errors after which the bot evidently should stop. */
  const MaxPollingErrors: nat := 5

  /**
    The `polling_error` listener as written: it counts the error and then
    compares the count with `maxRetries`, a name declared nowhere (the
    constant is called `max_SOLID`), so it throws a `ReferenceError` before it
    can exit or schedule a restart, on every polling error.
   */
  function OnPollingError(bot: Bot): (r: (Bot, PollingOutcome))
    ensures r.0 == bot.(pollingErrors := bot.pollingErrors + 1)
    ensures r.1.Threw? && !r.1.RestartAfter?
  {
    (bot.(pollingErrors := bot.pollingErrors + 1), Threw("maxRetries is not defined"))
  }

  /** The listener as intended: stop after `max_SOLID` consecutive errors, otherwise restart after the back-off delay. */
  function OnPollingErrorIntended(bot: Bot): (r: (Bot, PollingOutcome))
    ensures r.0 == bot.(pollingErrors := bot.pollingErrors + 1)
    ensures r.1.Exit? <==> bot.pollingErrors + 1 >= MaxPollingErrors
    ensures r.1.RestartAfter? ==> r.1.delay == PollDelay(bot.pollingErrors + 1) && r.1.delay <= 16000
  {
    var n := bot.pollingErrors + 1;
    if n >= MaxPollingErrors then (bot.(pollingErrors := n), Exit)
    else
      assert Pow2(n) <= 16 by {
        assert n <= 4;
      }
      (bot.(pollingErrors := n), RestartAfter(PollDelay(n)))
  }
}
