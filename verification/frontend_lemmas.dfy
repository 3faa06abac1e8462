/**
  Properties of the page's helpers: escaping is undone by unescaping and keeps
  step text from adding tags, the timers never leak an interval, the bar and
  the countdown follow their schedules, and how the page shows what the
  backend sends.
 */
module FrontendLemmas {
  import opened Outcomes
  import opened JsText
  import opened Frontend
  import TranslateEndpoint
  import OutputParser
  import ChatBot
  import BotLemmas

  /** An entity is read back as its character. */
  lemma UnescapeAmp(rest: string)
    ensures UnescapeHTML("&amp;" + rest) == "&" + UnescapeHTML(rest)
  {
    var s := "&amp;" + rest;
    assert s[..5] == "&amp;" && s[5..] == rest;
  }

  lemma UnescapeLt(rest: string)
    ensures UnescapeHTML("&lt;" + rest) == "<" + UnescapeHTML(rest)
  {
    var s := "&lt;" + rest;
    assert s[1] == 'l';
    assert s[..4] == "&lt;" && s[4..] == rest;
  }

  lemma UnescapeGt(rest: string)
    ensures UnescapeHTML("&gt;" + rest) == ">" + UnescapeHTML(rest)
  {
    var s := "&gt;" + rest;
    assert s[1] == 'g';
    assert s[..4] == "&gt;" && s[4..] == rest;
  }

  lemma UnescapeApos(rest: string)
    ensures UnescapeHTML("&#39;" + rest) == "'" + UnescapeHTML(rest)
  {
    var s := "&#39;" + rest;
    assert s[1] == '#';
    assert s[..5] == "&#39;" && s[5..] == rest;
  }

  lemma UnescapeQuot(rest: string)
    ensures UnescapeHTML("&quot;" + rest) == "\"" + UnescapeHTML(rest)
  {
    var s := "&quot;" + rest;
    assert s[1] == 'q';
    assert s[..6] == "&quot;" && s[6..] == rest;
  }

  lemma UnescapePlain(c: char, rest: string)
    requires !IsMarkup(c)
    ensures UnescapeHTML([c] + rest) == [c] + UnescapeHTML(rest)
  {
    var s := [c] + rest;
    assert s[0] == c && s[1..] == rest;
    DifferentHead(s, "&amp;");
    DifferentHead(s, "&lt;");
    DifferentHead(s, "&gt;");
    DifferentHead(s, "&#39;");
    DifferentHead(s, "&quot;");
  }

  lemma DifferentHead(s: string, w: string)
    requires s != [] && w != [] && s[0] != w[0]
    ensures !StartsWith(s, w)
  {
    if |w| <= |s| {
      assert s[..|w|][0] == s[0];
    }
  }

  /** Unescaping an entity, or a plain character, followed by anything. */
  lemma UnescapeEntity(c: char, rest: string)
    ensures UnescapeHTML(Entity(c) + rest) == [c] + UnescapeHTML(rest)
  {
    if c == '&' {
      UnescapeAmp(rest);
    } else if c == '<' {
      UnescapeLt(rest);
    } else if c == '>' {
      UnescapeGt(rest);
    } else if c == '\'' {
      UnescapeApos(rest);
    } else if c == '"' {
      UnescapeQuot(rest);
    } else {
      UnescapePlain(c, rest);
    }
  }

  /** Unescaping gives back the text that was escaped. */
  lemma {:induction false} UnescapeEscape(text: string)
    ensures UnescapeHTML(EscapeHTML(text)) == text
    decreases |text|
  {
    if text != [] {
      UnescapeEntity(text[0], EscapeHTML(text[1..]));
      UnescapeEscape(text[1..]);
      assert [text[0]] + text[1..] == text;
    }
  }

  /** Escaping works character by character, so it distributes over concatenation. */
  lemma {:induction false} EscapeAppend(a: string, b: string)
    ensures EscapeHTML(a + b) == EscapeHTML(a) + EscapeHTML(b)
    decreases |a|
  {
    if a == [] {
      assert a + b == b;
    } else {
      assert (a + b)[0] == a[0] && (a + b)[1..] == a[1..] + b;
      EscapeAppend(a[1..], b);
    }
  }

  /** Escaping is not idempotent: `&` becomes `&amp;`, which becomes `&amp;amp;`. */
  lemma EscapeNotIdempotent()
    ensures EscapeHTML("&") == "&amp;"
    ensures EscapeHTML(EscapeHTML("&")) == "&amp;amp;"
    ensures EscapeHTML(EscapeHTML("&")) != EscapeHTML("&")
  {
    assert EscapeHTML("&") == Entity('&') + EscapeHTML("");
    assert "&amp;" == "&" + "amp;";
    EscapeAppend("&", "amp;");
    assert EscapeHTML("amp;") == "amp;";
  }

  /** A string without `<` has no `<` to count. */
  lemma {:induction false} NoLessThanCounted(s: string)
    requires forall k :: 0 <= k < |s| ==> s[k] != '<'
    ensures Count(s, '<') == 0
    decreases |s|
  {
    if s != [] {
      NoLessThanCounted(s[1..]);
    }
  }

  /** Step text cannot open a tag: the list markup holds exactly the two `<` of each item's `<li>` and `</li>`. */
  lemma {:induction false} ListHtmlTags(steps: seq<string>)
    ensures Count(ListHtml(steps), '<') == 2 * |steps|
    decreases |steps|
  {
    if steps != [] {
      var e := EscapeHTML(steps[0]);
      NoLessThanCounted(e);
      ListHtmlTags(steps[1..]);
      CountAppend("<li>", e, '<');
      CountAppend("<li>" + e, "</li>", '<');
      CountAppend("<li>" + e + "</li>", ListHtml(steps[1..]), '<');
      assert Count("<li>", '<') == 1;
      assert Count("</li>", '<') == 1;
    }
  }

  /** The bar grows by 2 every tick, is full after 50 ticks, and its interval stops on the 51st. */
  lemma {:induction false} ProgressSchedule(n: nat)
    ensures n <= 50 ==> ProgressAfter(n) == Progress(2 * n, true)
    ensures n > 50 ==> ProgressAfter(n) == Progress(100, false)
  {
    if n > 0 {
      ProgressSchedule(n - 1);
    }
  }

  /** The countdown shows 12, 11, ..., 1 seconds on its first twelve ticks and the finalizing text from then on. */
  lemma {:induction false} CountdownSchedule(n: nat)
    ensures n <= 12 ==> CountdownAfter(n).remaining == 12 - n
    ensures n > 12 ==> CountdownAfter(n).remaining == 0
    ensures 1 <= n <= 12 ==> CountdownAfter(n).shown == RemainingText(13 - n)
    ensures n > 12 ==> CountdownAfter(n).shown == Finalizing
  {
    if n > 0 {
      CountdownSchedule(n - 1);
    }
  }

  /** What can happen to the two intervals. */
  datatype TimerEvent = Start | Stop | BarFull

  function ApplyTimer(t: Timers, e: TimerEvent): Timers {
    match e
    case Start => StartLoading(t)
    case Stop => StopLoading(t)
    case BarFull => ProgressFull(t)
  }

  function ApplyTimers(t: Timers, events: seq<TimerEvent>): Timers
    decreases |events|
  {
    if events == [] then t else ApplyTimers(ApplyTimer(t, events[0]), events[1..])
  }

  function Handles(t: Timers): set<nat> {
    (if t.progress.Some? then {t.progress.value} else {}) + (if t.countdown.Some? then {t.countdown.value} else {})
  }

  /** Every running interval is one of the two stored handles, and the handles are older than the next id. */
  predicate Tracked(t: Timers) {
    && t.live <= Handles(t)
    && (t.progress.Some? ==> t.progress.value < t.nextId)
    && (t.countdown.Some? ==> t.countdown.value < t.nextId)
    && (t.progress.Some? && t.countdown.Some? ==> t.progress.value != t.countdown.value)
  }

  lemma TimerEventKeepsTracked(t: Timers, e: TimerEvent)
    requires Tracked(t)
    ensures Tracked(ApplyTimer(t, e))
    ensures e.Start? ==> ApplyTimer(t, e).live == {t.nextId, t.nextId + 1}
    ensures e.Stop? ==> ApplyTimer(t, e).live == {}
  {
  }

  /**
    Whatever the page does, starting with no intervals: at most the two
    current intervals run, each start replaces both, and a stop leaves none
    running.
   */
  lemma {:induction false} TimersNeverLeak(t: Timers, events: seq<TimerEvent>)
    requires Tracked(t)
    ensures Tracked(ApplyTimers(t, events))
    ensures |ApplyTimers(t, events).live| <= 2
    ensures events != [] && events[|events| - 1] == Stop ==> ApplyTimers(t, events).live == {}
    decreases |events|
  {
    if events == [] {
      assert |Handles(t)| <= 2;
      SubsetCard(t.live, Handles(t));
    } else {
      TimerEventKeepsTracked(t, events[0]);
      TimersNeverLeak(ApplyTimer(t, events[0]), events[1..]);
      if |events| == 1 && events[0] == Stop {
        assert ApplyTimers(t, events) == ApplyTimers(ApplyTimer(t, Stop), []);
      }
    }
  }

  /** From page load, with no interval running. */
  lemma TimersFromLoad(events: seq<TimerEvent>)
    ensures |ApplyTimers(NoTimers, events).live| <= 2
    ensures events != [] && events[|events| - 1] == Stop ==> ApplyTimers(NoTimers, events).live == {}
  {
    TimersNeverLeak(NoTimers, events);
  }

  lemma SubsetCard(a: set<nat>, b: set<nat>)
    requires a <= b
    ensures |a| <= |b|
  {
    assert b == a + (b - a);
  }

  /** Breaking a line adds one to the count. */
  lemma LineCountJoin(a: string, b: string)
    ensures LineCount(a + "\n" + b) == LineCount(a) + LineCount(b)
  {
    CountAppend(a, "\n", '\n');
    CountAppend(a + "\n", b, '\n');
  }

  /**
    The page only ever posts requests the backend accepts: whatever the
    translator does, the handler passes the request on and answers 200.
   */
  lemma PageRequestsAreAccepted(input: string, lang: string, translator: TranslateEndpoint.Request -> TranslateEndpoint.TranslatorOutcome)
    requires StartTranslation(input, lang).Some?
    ensures var x := TranslateEndpoint.HandleTranslate(StartTranslation(input, lang).value, translator);
            x.translatorInput == Some(StartTranslation(input, lang).value) && x.response.status == 200
  {
  }

  /** Any non-empty model reply reaches the page as three arrays and is rendered. */
  lemma ParsedReplyIsRendered(req: TranslateEndpoint.Request, reply: string)
    requires TranslateEndpoint.Accepted(req) && reply != ""
    ensures ShowResult(Delivered(TranslateEndpoint.ServeReply(req, Some(reply)).response.body)).Rendered?
  {
  }

  /**
    As written, a failure of the model call reaches the page as three
    strings; `lines.map` throws on the first of them, and the page reports a
    network error although the backend answered.
   */
  lemma BackendFailureShownAsNetworkError(req: TranslateEndpoint.Request, content: Option<string>)
    requires TranslateEndpoint.Accepted(req) && (content.None? || content.value == "")
    ensures ShowResult(Delivered(TranslateEndpoint.ServeReply(req, content).response.body)) == ErrorShown(NetworkError)
  {
  }

  /** Rendered as intended, the same answer shows the three sentinel texts. */
  lemma IntendedShowsSentinels(req: TranslateEndpoint.Request, content: Option<string>)
    requires TranslateEndpoint.Accepted(req) && (content.None? || content.value == "")
    ensures ShowResultIntended(Delivered(TranslateEndpoint.ServeReply(req, content).response.body)) ==
              Rendered(EscapeHTML(TranslateEndpoint.CodeSentinel),
                       "<li>" + EscapeHTML(TranslateEndpoint.StepsSentinel) + "</li>",
                       "<li>" + EscapeHTML(TranslateEndpoint.AlgorithmSentinel) + "</li>")
  {
    var body := TranslateEndpoint.ServeReply(req, content).response.body;
    assert body == TranslateEndpoint.SectionsBody(TranslateEndpoint.SentinelSections, true);
    TextSectionsRendered(TranslateEndpoint.CodeSentinel, TranslateEndpoint.StepsSentinel, TranslateEndpoint.AlgorithmSentinel, true);
  }

  /** Three string sections render, as intended, as one escaped line and two one-item lists. */
  lemma TextSectionsRendered(code: string, steps: string, algorithm: string, fallback: bool)
    ensures ShowResultIntended(Delivered(TranslateEndpoint.SectionsBody(
              TranslateEndpoint.Sections(TranslateEndpoint.Text(code), TranslateEndpoint.Text(steps), TranslateEndpoint.Text(algorithm)), fallback))) ==
            Rendered(EscapeHTML(code), "<li>" + EscapeHTML(steps) + "</li>", "<li>" + EscapeHTML(algorithm) + "</li>")
  {
    SingleLineHtml(code);
    SingleLineHtml(steps);
    SingleLineHtml(algorithm);
  }

  /** One line renders as its escaped text, one step as a single list item. */
  lemma SingleLineHtml(x: string)
    ensures CodeHtml([x]) == EscapeHTML(x)
    ensures ListHtml([x]) == "<li>" + EscapeHTML(x) + "</li>"
  {
    assert EscapeAll([x]) == [EscapeHTML(x)];
    assert ListHtml([x]) == "<li>" + EscapeHTML(x) + "</li>" + ListHtml([]);
  }

  /** The intended rendering agrees with the written one wherever the written one renders. */
  lemma IntendedAgreesOnArrays(r: FetchResult)
    requires ShowResult(r).Rendered?
    ensures ShowResultIntended(r) == ShowResult(r)
  {
  }

  /** A string with no upper-case ASCII letter is its own lower case. */
  lemma FoldLowerCase(s: string)
    requires forall k :: 0 <= k < |s| ==> !('A' <= s[k] <= 'Z')
    ensures FoldAll(s) == s
  {
  }

  /** The page has a compiler for exactly the languages the bot offers. */
  lemma CompilersMatchBotLanguages()
    ensures Compilers.Keys == ChatBot.LanguageMap.Values
    ensures forall v :: v in ChatBot.LanguageMap.Values ==> CompilerUrl(v) == Some(Compilers[v])
  {
    assert Compilers.Keys == {"javascript", "python", "c", "csharp", "cpp", "php"};
    BotLemmas.LanguageMapValues();
    forall v | v in ChatBot.LanguageMap.Values
      ensures CompilerUrl(v) == Some(Compilers[v])
    {
      FoldLowerCase(v);
    }
  }

  /** Different languages open different compilers, and the language's letter case does not matter. */
  lemma CompilerChoice(a: string, b: string)
    ensures CompilerUrl(a).Some? && CompilerUrl(b).Some? && CompilerUrl(a) == CompilerUrl(b) ==> SameUpToCase(a, b)
    ensures SameUpToCase(a, b) ==> CompilerUrl(a) == CompilerUrl(b)
  {
  }
}
