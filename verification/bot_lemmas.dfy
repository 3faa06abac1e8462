/**
  Properties of the bot over whole conversations: what every stored state
  looks like, what every backend request carries, how `{}` compares with no
  state at all, and how the bot's requests fare at the backend.
 */
module BotLemmas {
  import opened Outcomes
  import opened JsText
  import opened JavaHeuristic
  import opened ChatBot
  import TranslateEndpoint
  import OutputParser

  /** A stored state holds code only if it passed the Java test, and waits for an answer only while it holds code. */
  predicate StoredOk(st: ChatState) {
    && (st.javaCode.Some? ==> IsValidJavaCode(st.javaCode.value))
    && (st.waitingForAck ==> HasCode(st))
  }

  predicate WellFormed(chats: map<int, ChatState>) {
    forall c :: c in chats ==> StoredOk(chats[c])
  }

  /** Everything that can happen to the bot. */
  datatype Event = Message(chat: int, text: string) | Callback(chat: int, data: string) | PollingFailure

  /** One event, with the polling-error listener as written. */
  function StepOn(bot: Bot, e: Event, backend: BackendRequest -> BackendOutcome): Step {
    match e
    case Message(chat, text) => OnMessage(bot, chat, text)
    case Callback(chat, data) => OnCallback(bot, chat, data, backend)
    case PollingFailure => Step(OnPollingError(bot).0, [], None)
  }

  /** A run of events: the final bot and every backend request made, in order. */
  function Run(bot: Bot, events: seq<Event>, backend: BackendRequest -> BackendOutcome): (r: (Bot, seq<BackendRequest>))
    ensures |r.1| <= |events|
    decreases |events|
  {
    if events == [] then (bot, [])
    else
      var st := StepOn(bot, events[0], backend);
      var rest := Run(st.bot, events[1..], backend);
      (rest.0, (if st.request.Some? then [st.request.value] else []) + rest.1)
  }

  /** A request the bot can make: valid Java code and one of the six languages. */
  predicate GoodRequest(req: BackendRequest) {
    IsValidJavaCode(req.javaCode) && req.targetLanguage in LanguageMap.Values
  }

  lemma MessageKeepsWellFormed(bot: Bot, chat: int, text: string)
    requires WellFormed(bot.chats)
    ensures WellFormed(OnMessage(bot, chat, text).bot.chats)
  {
  }

  lemma CallbackKeepsWellFormed(bot: Bot, chat: int, data: string, backend: BackendRequest -> BackendOutcome)
    requires WellFormed(bot.chats)
    ensures WellFormed(OnCallback(bot, chat, data, backend).bot.chats)
    ensures OnCallback(bot, chat, data, backend).request.Some? ==>
              GoodRequest(OnCallback(bot, chat, data, backend).request.value)
  {
    var st := OnCallback(bot, chat, data, backend);
    if st.request.Some? {
      assert LanguageMap[data] in LanguageMap.Values;
    }
  }

  lemma StepKeepsWellFormed(bot: Bot, e: Event, backend: BackendRequest -> BackendOutcome)
    requires WellFormed(bot.chats)
    ensures WellFormed(StepOn(bot, e, backend).bot.chats)
    ensures StepOn(bot, e, backend).request.Some? ==> GoodRequest(StepOn(bot, e, backend).request.value)
  {
    match e
    case Message(chat, text) => MessageKeepsWellFormed(bot, chat, text);
    case Callback(chat, data) => CallbackKeepsWellFormed(bot, chat, data, backend);
    case PollingFailure =>
  }

  /**
    Over any run that starts from well-formed state (for example the empty
    map), the state stays well-formed and every backend request carries code
    that passed the Java test and one of the six languages.
   */
  lemma {:induction false} RunKeepsWellFormed(bot: Bot, events: seq<Event>, backend: BackendRequest -> BackendOutcome)
    requires WellFormed(bot.chats)
    ensures WellFormed(Run(bot, events, backend).0.chats)
    ensures forall i :: 0 <= i < |Run(bot, events, backend).1| ==> GoodRequest(Run(bot, events, backend).1[i])
    decreases |events|
  {
    if events != [] {
      var st := StepOn(bot, events[0], backend);
      StepKeepsWellFormed(bot, events[0], backend);
      RunKeepsWellFormed(st.bot, events[1..], backend);
    }
  }

  /** The languages the bot offers. */
  lemma LanguageMapValues()
    ensures LanguageMap.Values == {"javascript", "python", "c", "csharp", "cpp", "php"}
  {
    var six := {"javascript", "python", "c", "csharp", "cpp", "php"};
    forall v | v in LanguageMap.Values
      ensures v in six
    {
      var d :| d in LanguageMap && LanguageMap[d] == v;
    }
    assert LanguageMap["lang_javascript"] in LanguageMap.Values;
    assert LanguageMap["lang_python"] in LanguageMap.Values;
    assert LanguageMap["lang_c"] in LanguageMap.Values;
    assert LanguageMap["lang_csharp"] in LanguageMap.Values;
    assert LanguageMap["lang_cpp"] in LanguageMap.Values;
    assert LanguageMap["lang_php"] in LanguageMap.Values;
  }

  /** Each language is selected by `lang_` followed by its own name. */
  lemma LanguageMapKeys()
    ensures forall d :: d in LanguageMap ==> d == "lang_" + LanguageMap[d]
  {
  }

  /** A request the bot makes passes the backend's validation: stored Java code is never empty. */
  lemma GoodRequestIsAccepted(req: BackendRequest)
    requires GoodRequest(req)
    ensures TranslateEndpoint.Accepted(ToEndpoint(req))
  {
    ValidJavaIsNonEmpty(req.javaCode);
    LanguageMapValues();
  }

  /** The JSON body the bot posts. */
  function ToEndpoint(req: BackendRequest): TranslateEndpoint.Request {
    TranslateEndpoint.Request(TranslateEndpoint.Str(req.javaCode), TranslateEndpoint.Str(req.targetLanguage))
  }

  /**
    How axios reports an endpoint response: a 2xx status yields the data;
    any other status throws, and since the 400 body's `error` is a string it
    has no `message`, so only axios's own message is left.
   */
  function FromEndpoint(resp: TranslateEndpoint.Response): (o: BackendOutcome)
    ensures 200 <= resp.status < 300 && resp.body.SectionsBody? ==>
              o == Answered(resp.body.sections.translatedCode, resp.body.fallback)
    ensures !(200 <= resp.status < 300) ==> o.Rejected? && o.status == Some(resp.status) && o.errorMessage.None?
  {
    if 200 <= resp.status < 300 then
      match resp.body
      case SectionsBody(sections, fallback) => Answered(sections.translatedCode, fallback)
      case ErrorBody(_) => Answered(TranslateEndpoint.Absent, false)
    else Rejected(Some(resp.status), None, "Request failed with status code " + NatToString(resp.status))
  }

  /** The bot's backend when it is the endpoint in front of a model that replied `content`. */
  function LiveBackend(content: Option<string>): BackendRequest -> BackendOutcome {
    req => if TranslateEndpoint.Accepted(ToEndpoint(req))
           then FromEndpoint(TranslateEndpoint.ServeReply(ToEndpoint(req), content).response)
           else Rejected(Some(400), None, "Request failed with status code 400")
  }

  /**
    An empty model reply ends the conversation: the bot shows the code
    sentinel as an incomplete translation, reports the backend error and
    forgets the chat.
   */
  lemma EmptyReplyEndsConversation(bot: Bot, chat: int, data: string)
    requires WellFormed(bot.chats)
    requires OnCallback(bot, chat, data, LiveBackend(None)).request.Some?
    ensures OnCallback(bot, chat, data, LiveBackend(None)).bot.chats == bot.chats - {chat}
    ensures OnCallback(bot, chat, data, LiveBackend(None)).replies ==
              [Translating, IncompleteTranslation(LanguageMap[data], TranslateEndpoint.CodeSentinel), BackendError]
  {
    var req := OnCallback(bot, chat, data, LiveBackend(None)).request.value;
    CallbackKeepsWellFormed(bot, chat, data, LiveBackend(None));
    GoodRequestIsAccepted(req);
  }

  /** The empty object `{}` behaves like no state at all under a message: same replies, same state elsewhere. */
  lemma ClearedActsAsAbsentOnMessage(bot: Bot, chat: int, c: int, text: string)
    requires chat !in bot.chats
    ensures var s1 := OnMessage(bot.(chats := bot.chats[chat := Cleared]), c, text);
            var s2 := OnMessage(bot, c, text);
            s1.replies == s2.replies && s1.bot.chats - {chat} == s2.bot.chats - {chat}
  {
  }

  /** The empty object `{}` behaves like no state at all under a callback: same replies, same request, same state elsewhere. */
  lemma ClearedActsAsAbsentOnCallback(bot: Bot, chat: int, c: int, data: string, backend: BackendRequest -> BackendOutcome)
    requires chat !in bot.chats
    ensures var s1 := OnCallback(bot.(chats := bot.chats[chat := Cleared]), c, data, backend);
            var s2 := OnCallback(bot, c, data, backend);
            s1.replies == s2.replies && s1.request == s2.request && s1.bot.chats - {chat} == s2.bot.chats - {chat}
  {
    var b1 := bot.(chats := bot.chats[chat := Cleared]);
    if c == chat {
      assert !HasCode(b1.chats[c]);
    } else {
      assert (c in b1.chats) == (c in bot.chats);
      assert c in bot.chats ==> b1.chats[c] == bot.chats[c];
    }
  }

  /** `2^n` grows with `n`. */
  lemma {:induction false} Pow2Monotone(m: nat, n: nat)
    requires m <= n
    ensures Pow2(m) <= Pow2(n)
    decreases n - m
  {
    if m < n {
      Pow2Monotone(m, n - 1);
    }
  }

  /** The back-off delay never decreases and is capped at 30 seconds from the fifth error on. */
  lemma PollDelayShape(m: nat, n: nat)
    requires m <= n
    ensures PollDelay(m) <= PollDelay(n)
    ensures n >= 5 ==> PollDelay(n) == 30000
  {
    Pow2Monotone(m, n);
    if n >= 5 {
      Pow2Monotone(5, n);
    }
  }

  /** As written, no polling error ever leads to a restart, whatever the count. */
  lemma PollingNeverRestarts(bot: Bot)
    ensures !OnPollingError(bot).1.RestartAfter? && !OnPollingError(bot).1.Exit?
  {
  }

  /** As intended, four consecutive errors restart after 2, 4, 8 and 16 seconds and the fifth stops the bot. */
  lemma IntendedBackOff(bot: Bot)
    requires bot.pollingErrors == 0
    ensures var r1 := OnPollingErrorIntended(bot);
            var r2 := OnPollingErrorIntended(r1.0);
            var r3 := OnPollingErrorIntended(r2.0);
            var r4 := OnPollingErrorIntended(r3.0);
            var r5 := OnPollingErrorIntended(r4.0);
            && r1.1 == RestartAfter(2000) && r2.1 == RestartAfter(4000)
            && r3.1 == RestartAfter(8000) && r4.1 == RestartAfter(16000) && r5.1 == Exit
  {
    assert Pow2(4) == 16;
  }
}
