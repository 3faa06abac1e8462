/**
  The other direction of the section patterns: a reply laid out the way each
  pattern describes is matched, and the capture is exactly the text the
  layout puts there. Each layout is stated on the folded reply `u`, position
  by position, as the regular expression reads it.
 */
module SectionMatchLemmas {
  import opened Outcomes
  import opened JsText
  import opened OutputParser
  import opened ParserLemmas

  /**
    `deco` is the `( ===)?:?` written after a heading that ends at `i`: one of
    the four forms, and not the empty one when a closer follows.
   */
  predicate DecorationAt(u: string, i: nat, deco: string) {
    && (deco == "" || deco == ":" || deco == Closer || deco == Closer + ":")
    && LiteralAt(u, i, deco)
    && (deco == "" ==> !LiteralAt(u, i, Closer))
  }

  /** All four decorations are taken whole when whitespace or a fence follows them. */
  lemma DecorationAccepted(u: string, i: nat, deco: string)
    requires DecorationAt(u, i, deco) && i + |deco| < |u|
    requires IsSpace(u[i + |deco|]) || u[i + |deco|] == '`'
    ensures DecorationEnd(u, i) == i + |deco|
  {
    if deco == ":" {
      assert u[i] == u[i..i + 1][0];
    } else if deco == Closer + ":" {
      assert u[i..i + 4] == u[i..i + 5][..4];
      assert u[i + 4] == u[i..i + 5][4];
    }
  }

  /* ---------------------------------------------------------------- */
  /* Code                                                             */
  /* ---------------------------------------------------------------- */

  /**
    A fence at `a`, ASCII letters up to a newline at `b`, and the next fence
    at `c`.
   */
  predicate FencedBlockLayout(u: string, a: nat, b: nat, c: nat) {
    && LiteralAt(u, a, Fence) && a + |Fence| <= b < c && LiteralAt(u, c, Fence)
    && (forall k :: a + |Fence| <= k < b ==> IsAsciiLetter(u[k]))
    && u[b] == '\n'
    && (forall k :: b < k < c ==> !LiteralAt(u, k, Fence))
  }

  lemma FencedBlockFound(u: string, a: nat, b: nat, c: nat)
    requires FencedBlockLayout(u, a, b, c)
    ensures FencedBlockAt(u, a) == Some(Span(b + 1, c))
  {
    RunEndIs(u, a + |Fence|, b, IsAsciiLetter);
  }

  /**
    `Translated Code` at `q`, the decoration `deco`, whitespace up to a fenced
    block at `a` whose language tag ends at the newline `b` and whose closing
    fence is at `c`.
   */
  predicate CodeLayout(u: string, q: nat, deco: string, a: nat, b: nat, c: nat) {
    && LiteralAt(u, q, TranslatedCode)
    && DecorationAt(u, q + |TranslatedCode|, deco)
    && q + |TranslatedCode| + |deco| <= a
    && FencedBlockLayout(u, a, b, c)
    && (forall k :: q + |TranslatedCode| + |deco| <= k < a ==> IsSpace(u[k]))
  }

  /** A code section laid out as the pattern describes matches, capturing the block's interior. */
  lemma CodeFound(u: string, q: nat, deco: string, a: nat, b: nat, c: nat)
    requires CodeLayout(u, q, deco, a, b, c)
    ensures CodeAt(u, q) == Some(Span(b + 1, c))
  {
    CodeHeadingEnd(u, q, deco, a, b, c);
    FencedBlockFound(u, a, b, c);
  }

  /** `Translated Code( ===)?:?\s*` laid out this way ends at the fence. */
  lemma CodeHeadingEnd(u: string, q: nat, deco: string, a: nat, b: nat, c: nat)
    requires CodeLayout(u, q, deco, a, b, c)
    ensures SpaceEnd(u, DecorationEnd(u, q + |TranslatedCode|)) == a
  {
    assert u[a] == '`' by {
      assert u[a..a + 3][0] == '`';
    }
    DecorationAccepted(u, q + |TranslatedCode|, deco);
    RunEndIs(u, q + |TranslatedCode| + |deco|, a, IsSpace);
  }

  /* ---------------------------------------------------------------- */
  /* Debugging steps and algorithm                                    */
  /* ---------------------------------------------------------------- */

  /**
    The heading `w` at `q`, the decoration `deco`, and a whitespace run up to
    `s` whose last newline ends at `j`.
   */
  predicate HeadingLineLayout(u: string, w: string, q: nat, deco: string, j: nat, s: nat) {
    && LiteralAt(u, q, w)
    && DecorationAt(u, q + |w|, deco)
    && q + |w| + |deco| < j <= s <= |u|
    && (forall k :: q + |w| + |deco| <= k < s ==> IsSpace(u[k]))
    && (s == |u| || !IsSpace(u[s]))
    && u[j - 1] == '\n'
    && (forall k :: j <= k < s ==> u[k] != '\n')
  }

  /** `( ===)?:?\s*\n` after a heading laid out this way ends at `j`. */
  lemma HeadingLineBreak(u: string, w: string, q: nat, deco: string, j: nat, s: nat)
    requires HeadingLineLayout(u, w, q, deco, j, s)
    ensures DecorationEnd(u, q + |w|) == q + |w| + |deco|
    ensures LineBreakEnd(u, q + |w| + |deco|) == Some(j)
  {
    DecorationAccepted(u, q + |w|, deco);
    RunEndIs(u, q + |w| + |deco|, s, IsSpace);
    LastNewlineIs(u, q + |w| + |deco|, j, s);
  }

  lemma LastNewlineIs(u: string, i: nat, j: nat, s: nat)
    requires i < j <= s <= |u| && u[j - 1] == '\n'
    requires forall k :: j <= k < s ==> u[k] != '\n'
    ensures LastNewlineEnd(u, i, s) == Some(j)
  {
    var r := LastNewlineEnd(u, i, s);
    assert r.Some?;
    assert !(r.value < j);
    assert !(j < r.value);
  }

  /** A debug section laid out this way, with the first `Algorithm` after `j` at `e`. */
  predicate DebugLayout(u: string, q: nat, deco: string, j: nat, s: nat, e: nat) {
    && HeadingLineLayout(u, DebuggingSteps, q, deco, j, s)
    && j <= e <= |u|
    && AlgorithmMarkAt(u, e)
    && (forall k :: j <= k < e ==> !AlgorithmMarkAt(u, k))
  }

  /** A debug section laid out as the pattern describes matches, capturing up to the first `Algorithm`. */
  lemma DebugFound(u: string, q: nat, deco: string, j: nat, s: nat, e: nat)
    requires DebugLayout(u, q, deco, j, s, e)
    ensures DebugAt(u, q) == Some(Span(j, e))
  {
    HeadingLineBreak(u, DebuggingSteps, q, deco, j, s);
    FirstAlgorithmMarkIs(u, j, e);
  }

  lemma FirstAlgorithmMarkIs(u: string, j: nat, e: nat)
    requires j <= e <= |u| && AlgorithmMarkAt(u, e)
    requires forall k :: j <= k < e ==> !AlgorithmMarkAt(u, k)
    ensures FirstAlgorithmMark(u, j) == Some(e)
  {
    var r := FirstAlgorithmMark(u, j);
    assert r.Some?;
    assert !(r.value < e);
    assert !(e < r.value);
  }

  /** An algorithm section laid out as the pattern describes matches, capturing the rest of the reply. */
  lemma AlgoFound(u: string, q: nat, deco: string, j: nat, s: nat)
    requires HeadingLineLayout(u, Algorithm, q, deco, j, s)
    ensures AlgoAt(u, q) == Some(Span(j, |u|))
  {
    HeadingLineBreak(u, Algorithm, q, deco, j, s);
  }

  /* ---------------------------------------------------------------- */
  /* From one attempt to the parse                                    */
  /* ---------------------------------------------------------------- */

  /** The heading of `sec` does not occur before `q`. */
  predicate NoHeadingBefore(u: string, sec: Section, q: nat) {
    forall p :: 0 <= p < q ==> !LiteralAt(u, p, Heading(sec))
  }

  /** When the first occurrence of a heading starts a match, that match is the one the search returns. */
  lemma FirstHeadingMatches(sec: Section, reply: string, q: nat)
    requires q <= |reply| && BodyAt(sec, FoldAll(reply), q).Some?
    requires NoHeadingBefore(FoldAll(reply), sec, q)
    ensures Locate(sec, reply) == BodyAt(sec, FoldAll(reply), q)
  {
    FirstHeadingLeads(sec, FoldAll(reply), q);
    OpenerIsTransparent(sec, reply);
  }

  lemma FirstHeadingLeads(sec: Section, u: string, q: nat)
    requires q <= |u| && BodyAt(sec, u, q).Some?
    requires NoHeadingBefore(u, sec, q)
    ensures Leftmost(BodyAttempts(sec, u), 0, |u|) == Some(q)
  {
    NoAttemptBefore(sec, u, q);
    LeftmostIs(BodyAttempts(sec, u), |u|, q);
  }

  lemma NoAttemptBefore(sec: Section, u: string, q: nat)
    requires NoHeadingBefore(u, sec, q)
    ensures forall p: nat :: p < q ==> BodyAttempts(sec, u)(p).None?
  {
  }

  lemma LeftmostIs<T>(f: nat -> Option<T>, last: nat, q: nat)
    requires q <= last && f(q).Some?
    requires forall p: nat :: p < q ==> f(p).None?
    ensures Leftmost(f, 0, last) == Some(q)
  {
    var r := Leftmost(f, 0, last);
    assert !(r.value < q);
  }

  /** The code the parser returns for a reply whose first `Translated Code` starts a well-formed section. */
  lemma CodeParsed(reply: string, q: nat, deco: string, a: nat, b: nat, c: nat)
    requires CodeLayout(FoldAll(reply), q, deco, a, b, c)
    requires NoHeadingBefore(FoldAll(reply), CodeSection, q)
    ensures ParseGPTOutput(reply).translatedCode == Split(Trim(reply[b + 1..c]))
  {
    CodeFound(FoldAll(reply), q, deco, a, b, c);
    FirstHeadingMatches(CodeSection, reply, q);
  }

  /** The steps the parser returns for a reply whose first `Debugging Steps` starts a well-formed section. */
  lemma DebugParsed(reply: string, q: nat, deco: string, j: nat, s: nat, e: nat)
    requires DebugLayout(FoldAll(reply), q, deco, j, s, e)
    requires NoHeadingBefore(FoldAll(reply), DebugSection, q)
    ensures ParseGPTOutput(reply).debuggingSteps == CleanSteps(Split(Trim(reply[j..e])))
  {
    DebugFound(FoldAll(reply), q, deco, j, s, e);
    FirstHeadingMatches(DebugSection, reply, q);
  }

  /** The algorithm the parser returns for a reply whose first `Algorithm` starts a well-formed section. */
  lemma AlgoParsed(reply: string, q: nat, deco: string, j: nat, s: nat)
    requires HeadingLineLayout(FoldAll(reply), Algorithm, q, deco, j, s)
    requires NoHeadingBefore(FoldAll(reply), AlgoSection, q)
    ensures ParseGPTOutput(reply).algorithm == CleanAlgorithm(Split(Trim(reply[j..])))
  {
    AlgoFound(FoldAll(reply), q, deco, j, s);
    FirstHeadingMatches(AlgoSection, reply, q);
    assert Locate(AlgoSection, reply) == Some(Span(j, |reply|));
    assert Captured(reply, Span(j, |reply|)) == reply[j..];
  }
  /* ---------------------------------------------------------------- */
  /* When the debugging steps come back empty                         */
  /* ---------------------------------------------------------------- */

  /**
    One attempt of the debug pattern succeeds exactly when the heading is
    there, a line break follows it, and some `Algorithm` occurs after that
    line break.
   */
  lemma DebugAttemptIff(u: string, q: nat)
    requires q <= |u|
    ensures DebugAt(u, q).Some? <==>
              && LiteralAt(u, q, DebuggingSteps)
              && LineBreakEnd(u, DecorationEnd(u, q + |DebuggingSteps|)).Some?
              && exists k :: LineBreakEnd(u, DecorationEnd(u, q + |DebuggingSteps|)).value <= k <= |u|
                             && AlgorithmMarkAt(u, k)
  {
    if DebugAt(u, q).Some? {
      var e := DebugAt(u, q).value.end;
      assert AlgorithmMarkAt(u, e);
    }
  }

  /**
    The parser returns no debugging steps exactly when the debug pattern
    fails at every start position, or when it matches but every line of the
    capture cleans to nothing.
   */
  lemma NoDebuggingSteps(reply: string)
    ensures var u := FoldAll(reply);
            ParseGPTOutput(reply).debuggingSteps == [] <==>
              || (forall p :: 0 <= p <= |u| ==> PatternAt(DebugSection, u, p).None?)
              || (&& Locate(DebugSection, reply).Some?
                  && forall l :: l in SectionLines(reply, Locate(DebugSection, reply).value) ==> CleanupLine(l) == "")
  {
    LocateIsLeftmost(DebugSection, reply);
    if Locate(DebugSection, reply).Some? {
      var lines := SectionLines(reply, Locate(DebugSection, reply).value);
      assert ParseGPTOutput(reply).debuggingSteps == CleanSteps(lines);
      CleanStepsEmpty(lines);
    }
  }

  /** The cleaned steps are empty exactly when every line cleans to nothing. */
  lemma CleanStepsEmpty(lines: seq<string>)
    ensures CleanSteps(lines) == [] <==> forall l :: l in lines ==> CleanupLine(l) == ""
  {
    var cleaned := CleanAll(lines);
    if CleanSteps(lines) != [] {
      var r := CleanSteps(lines);
      assert r[0] in cleaned;
      var i :| 0 <= i < |cleaned| && cleaned[i] == r[0];
      assert lines[i] in lines;
    } else {
      forall l | l in lines ensures CleanupLine(l) == "" {
        var i :| 0 <= i < |lines| && lines[i] == l;
        assert !NonEmpty(cleaned[i]);
      }
    }
  }
}
