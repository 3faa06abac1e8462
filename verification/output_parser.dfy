/**
  The reply parser of the translator (`parseGPTOutput`, `cleanupLine`) and
  the empty-reply guard of `useOpenRouter`.

  Each of the three regular expressions is modelled as a function that tries
  the pattern at one start position and returns the span of its capture
  group, plus a leftmost search over start positions, which is what
  `String.prototype.match` does with a non-global pattern. All three patterns
  carry the `i` flag and every character class in them (`\s`, `[a-z]`, the
  newline, the colon) is closed under case folding, so they are tried on the
  folded reply `u`; the captures are cut from the reply itself.
 */
module OutputParser {
  import opened Outcomes
  import opened JsText

  /** The three sections a reply is cut into. */
  datatype Section = CodeSection | DebugSection | AlgoSection

  /** Half-open index range `[start, end)` of a capture group. */
  datatype Span = Span(start: nat, end: nat)

  /** What the parser returns: three ordered lists of lines. */
  datatype Translation = Translation(translatedCode: seq<string>, debuggingSteps: seq<string>, algorithm: seq<string>)
  {
    /** All three sections were found and kept at least one line. */
    predicate IsComplete() {
      translatedCode != [] && debuggingSteps != [] && algorithm != []
    }
  }

  const TranslatedCode: string := "translated code"
  const DebuggingSteps: string := "debugging steps"
  const Algorithm: string := "algorithm"
  const Fence: string := "```"
  /** The optional `(=== )?` in front of every heading. */
  const Opener: string := "=== "
  /** The optional `( ===)?` after every heading. */
  const Closer: string := " ==="
  /** `(=== )?Algorithm` with the opener present. */
  const OpenedAlgorithm: string := "=== algorithm"
  const IncompleteReply: string := "OpenRouter response incomplete."

  function Heading(sec: Section): string {
    match sec
    case CodeSection => TranslatedCode
    case DebugSection => DebuggingSteps
    case AlgoSection => Algorithm
  }

  predicate SpanIn(s: string, sp: Span) {
    sp.start <= sp.end <= |s|
  }

  function Captured(s: string, sp: Span): string
    requires SpanIn(s, sp)
  {
    s[sp.start..sp.end]
  }

  /** `( ===)?:?` after a heading that ends at `i`: both parts are taken whenever present. */
  function DecorationEnd(u: string, i: nat): (j: nat)
    requires i <= |u|
    ensures i <= j <= |u|
  {
    var k := if LiteralAt(u, i, Closer) then i + |Closer| else i;
    if k < |u| && u[k] == ':' then k + 1 else k
  }

  /** One past the last newline in `u[i..e]`, if there is one. */
  function LastNewlineEnd(u: string, i: nat, e: nat): (r: Option<nat>)
    requires i <= e <= |u|
    ensures r.None? <==> forall k :: i <= k < e ==> u[k] != '\n'
    ensures r.Some? ==> i < r.value <= e && u[r.value - 1] == '\n'
                        && forall k :: r.value <= k < e ==> u[k] != '\n'
    decreases e - i
  {
    if e == i then None
    else if u[e - 1] == '\n' then Some(e)
    else LastNewlineEnd(u, i, e - 1)
  }

  /**
    `\s*\n` at `i`. The greedy `\s*` takes the whole whitespace run and then
    gives characters back until a newline follows, so the match ends just past
    the LAST newline of the run; it fails when the run holds no newline.
   */
  function LineBreakEnd(u: string, i: nat): (r: Option<nat>)
    requires i <= |u|
    ensures r.Some? ==> i < r.value <= |u| && u[r.value - 1] == '\n'
                        && (forall k :: i <= k < r.value ==> IsSpace(u[k]))
                        && (forall k :: r.value <= k < SpaceEnd(u, i) ==> u[k] != '\n')
    ensures r.None? <==> forall k :: i <= k < SpaceEnd(u, i) ==> u[k] != '\n'
  {
    LastNewlineEnd(u, i, SpaceEnd(u, i))
  }

  /** `(=== )?Algorithm` can start at `r`: where the lazy interior of the debug pattern stops. */
  predicate AlgorithmMarkAt(u: string, r: nat) {
    LiteralAt(u, r, OpenedAlgorithm) || LiteralAt(u, r, Algorithm)
  }

  function FirstAlgorithmMark(u: string, from: nat): (r: Option<nat>)
    requires from <= |u|
    ensures r.None? <==> forall k :: from <= k <= |u| ==> !AlgorithmMarkAt(u, k)
    ensures r.Some? ==> from <= r.value <= |u| && AlgorithmMarkAt(u, r.value)
                        && forall k :: from <= k < r.value ==> !AlgorithmMarkAt(u, k)
    decreases |u| - from
  {
    if AlgorithmMarkAt(u, from) then Some(from)
    else if from == |u| then None
    else FirstAlgorithmMark(u, from + 1)
  }

  /** ```` ```(?:[a-z]*)?\n([\s\S]*?)``` ```` tried at `a`: a fenced block and its interior. */
  function FencedBlockAt(u: string, a: nat): (r: Option<Span>)
    requires a <= |u|
    ensures r.Some? ==> SpanIn(u, r.value) && LiteralAt(u, a, Fence)
    ensures r.Some? ==> 0 < r.value.start && u[r.value.start - 1] == '\n' && LiteralAt(u, r.value.end, Fence)
  {
    if !LiteralAt(u, a, Fence) then None
    else
      var b := RunEnd(u, a + |Fence|, IsAsciiLetter);
      if b == |u| || u[b] != '\n' then None
      else
        match IndexOf(u, Fence, b + 1)
        case None => None
        case Some(c) => Some(Span(b + 1, c))
  }

  /** `Translated Code( ===)?:?\s*` followed by a fenced block, tried at `q`. */
  function CodeAt(u: string, q: nat): (r: Option<Span>)
    requires q <= |u|
    ensures r.Some? ==> SpanIn(u, r.value) && LiteralAt(u, q, TranslatedCode)
  {
    if !LiteralAt(u, q, TranslatedCode) then None
    else FencedBlockAt(u, SpaceEnd(u, DecorationEnd(u, q + |TranslatedCode|)))
  }

  /** `Debugging Steps( ===)?:?\s*\n([\s\S]*?)((=== )?Algorithm( ===)?:?)` tried at `q`. */
  function DebugAt(u: string, q: nat): (r: Option<Span>)
    requires q <= |u|
    ensures r.Some? ==> SpanIn(u, r.value) && LiteralAt(u, q, DebuggingSteps)
    ensures r.Some? ==> q + |DebuggingSteps| < r.value.start && u[r.value.start - 1] == '\n'
                        && AlgorithmMarkAt(u, r.value.end)
                        && forall k :: r.value.start <= k < r.value.end ==> !AlgorithmMarkAt(u, k)
  {
    if !LiteralAt(u, q, DebuggingSteps) then None
    else
      match LineBreakEnd(u, DecorationEnd(u, q + |DebuggingSteps|))
      case None => None
      case Some(j) =>
        match FirstAlgorithmMark(u, j)
        case None => None
        case Some(e) => Some(Span(j, e))
  }

  /** `Algorithm( ===)?:?\s*\n([\s\S]*)` tried at `q`. */
  function AlgoAt(u: string, q: nat): (r: Option<Span>)
    requires q <= |u|
    ensures r.Some? ==> SpanIn(u, r.value) && LiteralAt(u, q, Algorithm)
    ensures r.Some? ==> 0 < r.value.start && u[r.value.start - 1] == '\n' && r.value.end == |u|
  {
    if !LiteralAt(u, q, Algorithm) then None
    else
      match LineBreakEnd(u, DecorationEnd(u, q + |Algorithm|))
      case None => None
      case Some(j) => Some(Span(j, |u|))
  }

  /** The part of a section's pattern after the optional opener, tried at `q`. */
  function BodyAt(sec: Section, u: string, q: nat): (r: Option<Span>)
    requires q <= |u|
    ensures r.Some? ==> SpanIn(u, r.value) && LiteralAt(u, q, Heading(sec))
  {
    match sec
    case CodeSection => CodeAt(u, q)
    case DebugSection => DebugAt(u, q)
    case AlgoSection => AlgoAt(u, q)
  }

  /** The whole pattern tried at `p`: the greedy `(=== )?` is taken first and dropped only if the rest fails. */
  function PatternAt(sec: Section, u: string, p: nat): (r: Option<Span>)
    requires p <= |u|
    ensures r.Some? ==> SpanIn(u, r.value)
  {
    if LiteralAt(u, p, Opener) && BodyAt(sec, u, p + |Opener|).Some? then BodyAt(sec, u, p + |Opener|)
    else BodyAt(sec, u, p)
  }

  /** The whole pattern tried at every start position of `u`. */
  function Attempts(sec: Section, u: string): nat -> Option<Span> {
    (p: nat) => if p <= |u| then PatternAt(sec, u, p) else None
  }

  /** The leftmost match in the folded text `u`. */
  function LocateFolded(sec: Section, u: string): (r: Option<Span>)
    ensures r.Some? ==> SpanIn(u, r.value)
  {
    match Leftmost(Attempts(sec, u), 0, |u|)
    case None => None
    case Some(p) => PatternAt(sec, u, p)
  }

  /** The capture of a section's pattern in the reply, as `reply.match(...)[3]` sees it: the leftmost match wins. */
  function Locate(sec: Section, reply: string): (r: Option<Span>)
    ensures r.Some? ==> SpanIn(reply, r.value)
  {
    LocateFolded(sec, FoldAll(reply))
  }

  /* ---------------------------------------------------------------- */
  /* cleanupLine                                                      */
  /* ---------------------------------------------------------------- */

  /**
    The bullet class at the head of the cleanup pattern on line 83, taken
    character by character as the file spells it: `-`, `*` and the four
    characters U+201A, U+00C4, U+010F, U+0118; under the `i` flag the case
    partners U+00E4, U+010E and U+0119 match too.
   */
  predicate IsBullet(c: char) {
    || c == '-' || c == '*' || c == '\U{201A}'
    || c == '\U{00C4}' || c == '\U{00E4}'
    || c == '\U{010F}' || c == '\U{010E}'
    || c == '\U{0118}' || c == '\U{0119}'
  }

  /** `^```+$`: the whole line is three or more backticks. */
  predicate IsFenceLine(l: string) {
    |l| >= 3 && forall k :: 0 <= k < |l| ==> l[k] == '`'
  }

  /** `\d+[\.\:]` at `i`, or `i` itself when it does not match. */
  function NumberMarkerEnd(l: string, i: nat): (e: nat)
    requires i <= |l|
    ensures i <= e <= |l|
    ensures e > i ==> IsDigit(l[i]) && (l[e - 1] == '.' || l[e - 1] == ':')
  {
    var d := DigitEnd(l, i);
    if i < d < |l| && (l[d] == '.' || l[d] == ':') then d + 1 else i
  }

  /** `(step\s*\d+:|\d+[\.\:])?` at `i`, alternatives tried in order, empty when neither matches. */
  function MarkerEnd(l: string, i: nat): (e: nat)
    requires i <= |l|
    ensures i <= e <= |l|
  {
    if LiteralAt(FoldAll(l), i, "step") then
      var d := SpaceEnd(l, i + 4);
      var e := DigitEnd(l, d);
      if d < e < |l| && l[e] == ':' then e + 1 else NumberMarkerEnd(l, i)
    else NumberMarkerEnd(l, i)
  }

  /**
    `^[bullet]?\s*(step\s*\d+:|\d+[\.\:])?\s*` replaced by nothing. Every part
    is optional, so the first path the engine tries succeeds: one bullet if
    present, all whitespace, one marker if present, all whitespace.
   */
  function StripMarker(l: string): (r: string)
    ensures |r| <= |l| && r == l[|l| - |r|..]
  {
    var b := if 0 < |l| && IsBullet(l[0]) then 1 else 0;
    var i := SpaceEnd(l, MarkerEnd(l, SpaceEnd(l, b)));
    l[i..]
  }

  /** `cleanupLine`: drop a bare fence line, strip one bullet and one step marker, trim. */
  function CleanupLine(l: string): (r: string)
    ensures IsTrimmed(r)
    ensures IsFenceLine(l) ==> r == ""
    ensures |r| <= |l|
  {
    var unfenced := if IsFenceLine(l) then "" else l;
    var stripped := StripMarker(unfenced);
    var r := Trim(stripped);
    r
  }

  /** `.map(cleanupLine)` */
  function CleanAll(lines: seq<string>): (r: seq<string>)
    ensures |r| == |lines|
    ensures forall i :: 0 <= i < |r| ==> r[i] == CleanupLine(lines[i]) && IsTrimmed(r[i])
  {
    seq(|lines|, i requires 0 <= i < |lines| => CleanupLine(lines[i]))
  }

  /** `.filter(keep)`: the elements satisfying `keep`, in their original order. */
  function Keep(xs: seq<string>, keep: string -> bool): (r: seq<string>)
    ensures |r| <= |xs|
    ensures forall i :: 0 <= i < |r| ==> keep(r[i]) && r[i] in xs
    ensures forall i :: 0 <= i < |xs| && keep(xs[i]) ==> xs[i] in r
    ensures (forall i :: 0 <= i < |xs| ==> keep(xs[i])) ==> r == xs
  {
    if xs == [] then []
    else
      var rest := Keep(xs[1..], keep);
      assert forall x :: x in xs[1..] ==> x in xs;
      if keep(xs[0]) then [xs[0]] + rest else rest
  }

  predicate NonEmpty(line: string) {
    line != ""
  }

  /** The algorithm filter `line.length && !/^```/.test(line)`. */
  predicate KeptAlgorithmLine(line: string) {
    line != "" && !StartsWith(line, Fence)
  }

  /** `.map(cleanupLine).filter(line => line.length)` */
  function CleanSteps(lines: seq<string>): (r: seq<string>)
    ensures |r| <= |lines|
    ensures forall i :: 0 <= i < |r| ==> r[i] != "" && IsTrimmed(r[i]) && r[i] in CleanAll(lines)
    ensures (forall j :: 0 <= j < |lines| ==> CleanupLine(lines[j]) != "") ==> r == CleanAll(lines)
  {
    Keep(CleanAll(lines), NonEmpty)
  }

  /** `.map(cleanupLine).filter(line => line.length && !/^```/.test(line))` */
  function CleanAlgorithm(lines: seq<string>): (r: seq<string>)
    ensures |r| <= |lines|
    ensures forall i :: 0 <= i < |r| ==>
              r[i] != "" && IsTrimmed(r[i]) && !StartsWith(r[i], Fence) && r[i] in CleanAll(lines)
    ensures (forall j :: 0 <= j < |lines| ==> KeptAlgorithmLine(CleanupLine(lines[j]))) ==> r == CleanAll(lines)
  {
    Keep(CleanAll(lines), KeptAlgorithmLine)
  }

  /** `match[3].trim().split('\n')` */
  function SectionLines(reply: string, sp: Span): (lines: seq<string>)
    requires SpanIn(reply, sp)
    ensures |lines| >= 1 && Join(lines) == Trim(Captured(reply, sp))
  {
    Split(Trim(Captured(reply, sp)))
  }

  /** `parseGPTOutput`: total on every reply; a section whose pattern does not match comes back empty. */
  function ParseGPTOutput(reply: string): (t: Translation)
    ensures Locate(CodeSection, reply).None? <==> t.translatedCode == []
    ensures Locate(CodeSection, reply).Some? ==>
              Join(t.translatedCode) == Trim(Captured(reply, Locate(CodeSection, reply).value))
    ensures forall i :: 0 <= i < |t.translatedCode| ==> '\n' !in t.translatedCode[i]
    ensures Locate(DebugSection, reply).None? ==> t.debuggingSteps == []
    ensures Locate(AlgoSection, reply).None? ==> t.algorithm == []
    ensures forall i :: 0 <= i < |t.debuggingSteps| ==> t.debuggingSteps[i] != "" && IsTrimmed(t.debuggingSteps[i])
    ensures forall i :: 0 <= i < |t.algorithm| ==>
              t.algorithm[i] != "" && IsTrimmed(t.algorithm[i]) && !StartsWith(t.algorithm[i], Fence)
  {
    var code := Locate(CodeSection, reply);
    var debug := Locate(DebugSection, reply);
    var algo := Locate(AlgoSection, reply);
    Translation(
      if code.Some? then SectionLines(reply, code.value) else [],
      if debug.Some? then CleanSteps(SectionLines(reply, debug.value)) else [],
      if algo.Some? then CleanAlgorithm(SectionLines(reply, algo.value)) else [])
  }

  /**
    `useOpenRouter` after the model call: a missing or empty reply content
    throws before any parsing; anything else is parsed.
   */
  function UseOpenRouter(content: Option<string>): (r: Result<Translation>)
    ensures r.Failure? <==> (content.None? || content.value == "")
    ensures r.Failure? ==> r.error == IncompleteReply
    ensures r.Success? ==> content.Some? && r.value == ParseGPTOutput(content.value)
  {
    var reply := if content.Some? then content.value else "";
    if reply == "" then Failure(IncompleteReply) else Success(ParseGPTOutput(reply))
  }
}
