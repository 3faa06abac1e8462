/**
  The browser page's logic without the DOM: the input guard of the translate
  button, what the page shows for a backend answer, HTML escaping, the choice
  of online compiler, the progress bar and countdown, the interval bookkeeping
  of the loading overlay, and the line counter.
 */
module Frontend {
  import opened Outcomes
  import opened JsText
  import TranslateEndpoint

  /** The characters `escapeHTML` replaces. */
  predicate IsMarkup(c: char) {
    c == '&' || c == '<' || c == '>' || c == '\'' || c == '"'
  }

  /** The replacement of one character. */
  function Entity(c: char): (r: string)
    ensures |r| >= 1
    ensures !IsMarkup(c) ==> r == [c]
    ensures IsMarkup(c) ==> r[0] == '&' && r[|r| - 1] == ';'
  {
    if c == '&' then "&amp;"
    else if c == '<' then "&lt;"
    else if c == '>' then "&gt;"
    else if c == '\'' then "&#39;"
    else if c == '"' then "&quot;"
    else [c]
  }

  /** The string contains none of the characters that end text in HTML: `<`, `>`, `'`, `"`. */
  predicate FreeOfMarkup(s: string) {
    forall k :: 0 <= k < |s| ==> s[k] != '<' && s[k] != '>' && s[k] != '\'' && s[k] != '"'
  }

  /** `escapeHTML`: each of the five markup characters becomes its entity, everything else is copied. */
  function EscapeHTML(text: string): (r: string)
    ensures FreeOfMarkup(r)
    ensures |r| >= |text|
    ensures (forall k :: 0 <= k < |text| ==> !IsMarkup(text[k])) ==> r == text
  {
    if text == [] then []
    else Entity(text[0]) + EscapeHTML(text[1..])
  }

  /** Reading HTML text back: the five entities become their characters again. */
  function UnescapeHTML(html: string): string
    decreases |html|
  {
    if html == [] then []
    else if StartsWith(html, "&amp;") then "&" + UnescapeHTML(html[5..])
    else if StartsWith(html, "&lt;") then "<" + UnescapeHTML(html[4..])
    else if StartsWith(html, "&gt;") then ">" + UnescapeHTML(html[4..])
    else if StartsWith(html, "&#39;") then "'" + UnescapeHTML(html[5..])
    else if StartsWith(html, "&quot;") then "\"" + UnescapeHTML(html[6..])
    else [html[0]] + UnescapeHTML(html[1..])
  }

  /** `updateTranslatedCode`'s markup: the escaped lines joined with newlines. */
  function CodeHtml(lines: seq<string>): string {
    JoinLines(EscapeAll(lines))
  }

  function EscapeAll(lines: seq<string>): (r: seq<string>)
    ensures |r| == |lines| && forall i :: 0 <= i < |lines| ==> r[i] == EscapeHTML(lines[i])
  {
    if lines == [] then [] else [EscapeHTML(lines[0])] + EscapeAll(lines[1..])
  }

  /** `updateDebuggingSteps` and `updateAlgorithm`: one `<li>` per escaped step, joined with nothing. */
  function ListHtml(steps: seq<string>): string {
    if steps == [] then "" else "<li>" + EscapeHTML(steps[0]) + "</li>" + ListHtml(steps[1..])
  }

  const GenericError: string := "Something went wrong."
  const NetworkError: string := "Network error or server unreachable."

  /**
    The translate button: the code is trimmed; with no code or no language it
    alerts and sends nothing, otherwise it posts the trimmed code and the language.
   */
  function StartTranslation(input: string, targetLanguage: string): (r: Option<TranslateEndpoint.Request>)
    ensures r.None? <==> (Trim(input) == "" || targetLanguage == "")
    ensures r.Some? ==> TranslateEndpoint.Accepted(r.value)
    ensures r.Some? ==> r.value.javaCode == TranslateEndpoint.Str(Trim(input))
    ensures r.Some? ==> r.value.targetLanguage == TranslateEndpoint.Str(targetLanguage)
  {
    var code := Trim(input);
    if code == "" || targetLanguage == "" then None
    else Some(TranslateEndpoint.Request(TranslateEndpoint.Str(code), TranslateEndpoint.Str(targetLanguage)))
  }

  /** How the fetch ended: a parsed JSON body, or a failure of the request itself. */
  datatype FetchResult = Delivered(body: TranslateEndpoint.Body) | Unreachable

  /** What the page ends up showing: the three rendered sections, or the error overlay with a message. */
  datatype Display = Rendered(codeHtml: string, stepsHtml: string, algorithmHtml: string) | ErrorShown(message: string)

  /**
    The `.then` and `.catch` handlers as written. A truthy `error` shows
    `data.message`, which the backend never sets, or the generic text.
    Otherwise the three sections are rendered with `lines.map`, which throws on
    anything but an array; the `.catch` then shows the network-error text.
   */
  function ShowResult(r: FetchResult): (d: Display)
    ensures r.Unreachable? ==> d == ErrorShown(NetworkError)
    ensures r.Delivered? && r.body.ErrorBody? && r.body.error != "" ==> d == ErrorShown(GenericError)
    ensures d.Rendered? <==> r.Delivered? && r.body.SectionsBody?
                             && r.body.sections.translatedCode.Lines?
                             && r.body.sections.debuggingSteps.Lines?
                             && r.body.sections.algorithm.Lines?
    ensures d.ErrorShown? ==> d.message == GenericError || d.message == NetworkError
  {
    match r
    case Unreachable => ErrorShown(NetworkError)
    case Delivered(body) =>
      match body
      case ErrorBody(e) => if e != "" then ErrorShown(GenericError) else ErrorShown(NetworkError)
      case SectionsBody(s, _) =>
        if s.translatedCode.Lines? && s.debuggingSteps.Lines? && s.algorithm.Lines? then
          Rendered(CodeHtml(s.translatedCode.lines), ListHtml(s.debuggingSteps.lines), ListHtml(s.algorithm.lines))
        else ErrorShown(NetworkError)
  }

  /** A section as the page evidently means to show it: a string is one line, an absent section none. */
  function LinesOf(f: TranslateEndpoint.Field): (ls: seq<string>)
    ensures f.Lines? ==> ls == f.lines
    ensures f.Text? ==> ls == [f.text]
    ensures f.Absent? ==> ls == []
  {
    match f
    case Lines(ls) => ls
    case Text(t) => [t]
    case Absent => []
  }

  /** The handlers as intended: every section body is rendered, a string section as a single line. */
  function ShowResultIntended(r: FetchResult): (d: Display)
    ensures r.Delivered? && r.body.SectionsBody? ==>
              d == Rendered(CodeHtml(LinesOf(r.body.sections.translatedCode)),
                            ListHtml(LinesOf(r.body.sections.debuggingSteps)),
                            ListHtml(LinesOf(r.body.sections.algorithm)))
    ensures !(r.Delivered? && r.body.SectionsBody?) ==> d == ShowResult(r)
  {
    match r
    case Delivered(SectionsBody(s, _)) =>
      Rendered(CodeHtml(LinesOf(s.translatedCode)), ListHtml(LinesOf(s.debuggingSteps)), ListHtml(LinesOf(s.algorithm)))
    case _ => ShowResult(r)
  }

  /** The online compilers, by lower-cased language. */
  const Compilers: map<string, string> := map[
    "python" := "https://www.programiz.com/python-programming/online-compiler/",
    "javascript" := "https://playcode.io/new",
    "c" := "https://www.onlinegdb.com/online_c_compiler",
    "cpp" := "https://www.onlinegdb.com/online_c++_compiler",
    "csharp" := "https://dotnetfiddle.net/",
    "php" := "https://phpfiddle.org/"
  ]

  /** The `switch` on `language.toLowerCase()`. */
  function CompilerUrl(language: string): (url: Option<string>)
    ensures url.Some? <==> FoldAll(language) in Compilers
    ensures url.Some? ==> url.value == Compilers[FoldAll(language)]
  {
    var key := FoldAll(language);
    if key in Compilers then Some(Compilers[key]) else None
  }

  /** What the run button does: nothing to run, a copy with no compiler to open, or a copy and a compiler opened. */
  datatype RunOutcome = NothingToRun | NoCompiler(copied: string) | OpenCompiler(copied: string, url: string)

  /**
    `runCode`: the code block's text is trimmed; empty text alerts and stops.
    Otherwise the text is copied, and the compiler for the language is opened
    when there is one.
   */
  function RunCode(code: string, language: string): (r: RunOutcome)
    ensures r == NothingToRun <==> Trim(code) == ""
    ensures r.OpenCompiler? ==> r.copied == Trim(code) && Some(r.url) == CompilerUrl(language)
    ensures r.NoCompiler? ==> r.copied == Trim(code) && CompilerUrl(language).None?
  {
    var c := Trim(code);
    if c == "" then NothingToRun
    else match CompilerUrl(language)
      case None => NoCompiler(c)
      case Some(url) => OpenCompiler(c, url)
  }

  /** The progress bar: its width in percent, and whether its interval still runs. */
  datatype Progress = Progress(width: int, running: bool)

  const ProgressStart: Progress := Progress(0, true)

  /** One 200 ms tick: at 100 the interval clears itself, below it the bar grows by 2. */
  function ProgressTick(p: Progress): (q: Progress)
    ensures !p.running ==> q == p
    ensures p.running && p.width < 100 ==> q == Progress(p.width + 2, true)
    ensures p.running && p.width >= 100 ==> q == Progress(p.width, false)
  {
    if !p.running then p
    else if p.width >= 100 then p.(running := false)
    else p.(width := p.width + 2)
  }

  function ProgressAfter(n: nat): Progress {
    if n == 0 then ProgressStart else ProgressTick(ProgressAfter(n - 1))
  }

  /** The countdown: seconds left, and the text it last wrote. */
  datatype Countdown = Countdown(remaining: int, shown: string)

  const Finalizing: string := "Almost done... Finalizing translation! \U{2728}"

  /** The countdown's text before its first tick is the fun fact, which is left out. */
  const CountdownStart: Countdown := Countdown(12, "")

  function RemainingText(n: nat): string {
    "Translating... ~" + NatToString(n) + " seconds remaining"
  }

  /** One 1 s tick: while seconds remain it shows them and counts down, then it shows the finalizing text. */
  function CountdownTick(c: Countdown): (d: Countdown)
    ensures c.remaining > 0 ==> d == Countdown(c.remaining - 1, RemainingText(c.remaining))
    ensures c.remaining <= 0 ==> d == Countdown(c.remaining, Finalizing)
  {
    if c.remaining > 0 then Countdown(c.remaining - 1, RemainingText(c.remaining))
    else c.(shown := Finalizing)
  }

  function CountdownAfter(n: nat): Countdown {
    if n == 0 then CountdownStart else CountdownTick(CountdownAfter(n - 1))
  }

  /**
    The two interval handles of the page, the set of intervals the browser
    still runs, and the next id it will hand out (ids are positive, so a
    stored handle is truthy).
   */
  datatype Timers = Timers(progress: Option<nat>, countdown: Option<nat>, live: set<nat>, nextId: nat)

  const NoTimers: Timers := Timers(None, None, {}, 1)

  /** `clearInterval` on a stored handle, when there is one. */
  function Clear(live: set<nat>, handle: Option<nat>): (r: set<nat>)
    ensures handle.None? ==> r == live
    ensures handle.Some? ==> r == live - {handle.value}
  {
    if handle.Some? then live - {handle.value} else live
  }

  /** `startLoading`: each old interval is cleared before its replacement starts. */
  function StartLoading(t: Timers): (u: Timers)
    ensures u.progress == Some(t.nextId) && u.countdown == Some(t.nextId + 1) && u.nextId == t.nextId + 2
    ensures t.countdown.None? || t.countdown.value < t.nextId ==>
              u.live == Clear(Clear(t.live, t.progress), t.countdown) + {t.nextId, t.nextId + 1}
  {
    var live := Clear(t.live, t.progress) + {t.nextId};
    var live' := Clear(live, t.countdown) + {t.nextId + 1};
    Timers(Some(t.nextId), Some(t.nextId + 1), live', t.nextId + 2)
  }

  /** `stopLoading`: both stored intervals are cleared; the handles stay stored. */
  function StopLoading(t: Timers): (u: Timers)
    ensures u.live == t.live - (if t.progress.Some? then {t.progress.value} else {})
                            - (if t.countdown.Some? then {t.countdown.value} else {})
    ensures u.progress == t.progress && u.countdown == t.countdown && u.nextId == t.nextId
  {
    t.(live := Clear(Clear(t.live, t.progress), t.countdown))
  }

  /** The progress interval clears itself once the bar is full. */
  function ProgressFull(t: Timers): (u: Timers)
    ensures u.live == Clear(t.live, t.progress)
  {
    t.(live := Clear(t.live, t.progress))
  }

  /** `updateLineCount`: the number of pieces `split('\n')` gives. */
  function LineCount(value: string): (n: nat)
    ensures n == Count(value, '\n') + 1
  {
    |Split(value)|
  }
}
