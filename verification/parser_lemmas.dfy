/**
  Properties of the reply parser that relate several of its functions:
  which match `String.prototype.match` picks, how the optional `=== `
  opener and letter case affect it, and where each capture starts and stops.
 */
module ParserLemmas {
  import opened Outcomes
  import opened JsText
  import opened OutputParser

  /* ---------------------------------------------------------------- */
  /* The leftmost-match search                                        */
  /* ---------------------------------------------------------------- */

  /**
    `Locate` is the match at the leftmost start position where the whole
    pattern matches, and it finds nothing only when no start position works.
   */
  lemma LocateIsLeftmost(sec: Section, s: string)
    ensures var u := FoldAll(s);
            Locate(sec, s).None? <==> forall p :: 0 <= p <= |u| ==> PatternAt(sec, u, p).None?
    ensures var u := FoldAll(s);
            Locate(sec, s).Some? ==>
              exists p :: 0 <= p <= |u| && Locate(sec, s) == PatternAt(sec, u, p)
                          && forall p' :: 0 <= p' < p ==> PatternAt(sec, u, p').None?
  {
    var u := FoldAll(s);
    var f := Attempts(sec, u);
    var m := Leftmost(f, 0, |u|);
    if m.Some? {
      var p := m.value;
      assert Locate(sec, s) == PatternAt(sec, u, p);
      assert forall p' :: 0 <= p' < p ==> PatternAt(sec, u, p').None? by {
        forall p' | 0 <= p' < p ensures PatternAt(sec, u, p').None? {
          assert f(p').None?;
        }
      }
    } else {
      assert forall p :: 0 <= p <= |u| ==> PatternAt(sec, u, p).None? by {
        forall p | 0 <= p <= |u| ensures PatternAt(sec, u, p).None? {
          assert f(p).None?;
        }
      }
    }
  }

  /* ---------------------------------------------------------------- */
  /* The optional `=== ` opener                                       */
  /* ---------------------------------------------------------------- */

  /** The pattern without its opener tried at every start position of `u`. */
  function BodyAttempts(sec: Section, u: string): nat -> Option<Span> {
    (p: nat) => if p <= |u| then BodyAt(sec, u, p) else None
  }

  /** The leftmost match of a section's pattern with the `(=== )?` opener left out. */
  function LocateWithoutOpener(sec: Section, reply: string): (r: Option<Span>)
    ensures r.Some? ==> SpanIn(reply, r.value)
  {
    var u := FoldAll(reply);
    match Leftmost(BodyAttempts(sec, u), 0, |u|)
    case None => None
    case Some(q) => BodyAt(sec, u, q)
  }

  /** Every value of `g` is the value of `f` at the same position, and `h` holds there. */
  ghost predicate BodiesLead<T>(f: nat -> Option<T>, g: nat -> Option<T>, h: nat -> bool, last: nat) {
    forall q: nat :: q <= last && g(q).Some? ==> f(q) == g(q) && h(q)
  }

  /** Every value of `f` is the value of `g` at the same position, or four later with `h` false in between. */
  ghost predicate OpenersShift<T>(f: nat -> Option<T>, g: nat -> Option<T>, h: nat -> bool, last: nat) {
    forall p: nat {:trigger f(p)} :: p <= last && f(p).Some? ==>
      || f(p) == g(p)
      || (p + 4 <= last && f(p) == g(p + 4) && !h(p) && !h(p + 1) && !h(p + 2) && !h(p + 3))
  }

  /** Where `g` has no value at `p` nor four positions later, `f` has none at `p`. */
  lemma ShiftedSearchAt<T>(f: nat -> Option<T>, g: nat -> Option<T>, h: nat -> bool, last: nat, p: nat)
    requires OpenersShift(f, g, h, last) && p <= last
    ensures g(p).None? && (p + 4 <= last ==> g(p + 4).None?) ==> f(p).None?
  {
  }

  lemma ShiftedSearchesFailTogether<T>(f: nat -> Option<T>, g: nat -> Option<T>, h: nat -> bool, last: nat)
    requires OpenersShift(f, g, h, last)
    requires Leftmost(g, 0, last).None?
    ensures Leftmost(f, 0, last).None?
  {
    forall p: nat | p <= last ensures f(p).None? {
      ShiftedSearchAt(f, g, h, last, p);
    }
  }

  /** Where `f` has a value at or before the first value `q` of `g`, it is `g`'s value at `q`. */
  lemma ShiftLanding<T>(f: nat -> Option<T>, g: nat -> Option<T>, h: nat -> bool, last: nat, p: nat, q: nat)
    requires OpenersShift(f, g, h, last)
    requires p <= q <= last && f(p).Some? && g(q).Some? && h(q)
    requires forall r: nat :: r < q ==> g(r).None?
    ensures f(p) == g(q)
  {
    if f(p) != g(p) {
      assert f(p) == g(p + 4) && !h(p) && !h(p + 1) && !h(p + 2) && !h(p + 3);
    }
  }

  lemma ShiftedSearchesAgree<T>(f: nat -> Option<T>, g: nat -> Option<T>, h: nat -> bool, last: nat)
    requires BodiesLead(f, g, h, last) && OpenersShift(f, g, h, last)
    requires Leftmost(g, 0, last).Some?
    ensures Leftmost(f, 0, last).Some? && f(Leftmost(f, 0, last).value) == g(Leftmost(g, 0, last).value)
  {
    var q := Leftmost(g, 0, last).value;
    assert f(q) == g(q) && h(q);
    var p := Leftmost(f, 0, last).value;
    ShiftLanding(f, g, h, last, p, q);
  }

  /**
    A leftmost search over `f` gives the same value as one over `g` when every
    value of `g` is also one of `f`, and every value of `f` is a value of `g`
    at the same position or four positions later, with no position between
    where `g` could hold a value (`h` marks those that could).
   */
  lemma LeftmostSkipsOpener<T>(f: nat -> Option<T>, g: nat -> Option<T>, h: nat -> bool, last: nat)
    requires BodiesLead(f, g, h, last) && OpenersShift(f, g, h, last)
    ensures var m := Leftmost(f, 0, last);
            var n := Leftmost(g, 0, last);
            m.Some? == n.Some? && (m.Some? ==> f(m.value) == g(n.value))
  {
    if Leftmost(g, 0, last).None? {
      ShiftedSearchesFailTogether(f, g, h, last);
    } else {
      ShiftedSearchesAgree(f, g, h, last);
    }
  }

  /** The whole pattern at `p` is the rest of the pattern at `p`, or at `p + 4` behind an opener. */
  lemma PatternIsShiftedBody(sec: Section, u: string, p: nat)
    requires p <= |u| && PatternAt(sec, u, p).Some?
    ensures || PatternAt(sec, u, p) == BodyAt(sec, u, p)
            || (p + 4 <= |u| && PatternAt(sec, u, p) == BodyAt(sec, u, p + 4) && LiteralAt(u, p, Opener))
  {
  }

  /** Positions of `u` holding an ASCII letter, where every heading starts. */
  function LetterAt(u: string): nat -> bool {
    (q: nat) => q < |u| && IsAsciiLetter(u[q])
  }

  /** None of the four characters of an opener is a letter. */
  lemma OpenerHasNoLetter(u: string, p: nat)
    requires LiteralAt(u, p, Opener)
    ensures !LetterAt(u)(p) && !LetterAt(u)(p + 1) && !LetterAt(u)(p + 2) && !LetterAt(u)(p + 3)
  {
    assert u[p..p + 4][0] == u[p] && u[p..p + 4][1] == u[p + 1];
    assert u[p..p + 4][2] == u[p + 2] && u[p..p + 4][3] == u[p + 3];
  }

  /** A word that starts with a letter occurs only where a letter stands. */
  lemma WordStartsWithLetter(u: string, q: nat, w: string)
    requires LiteralAt(u, q, w) && |w| > 0 && IsAsciiLetter(w[0])
    ensures LetterAt(u)(q)
  {
    assert u[q..q + |w|][0] == u[q];
  }

  /** The rest of a pattern only matches where a heading, hence a letter, starts. */
  lemma BodyStartsWithLetter(sec: Section, u: string, q: nat)
    requires q <= |u| && BodyAt(sec, u, q).Some?
    ensures LetterAt(u)(q)
  {
    var w := Heading(sec);
    assert |w| > 0 && IsAsciiLetter(w[0]);
    WordStartsWithLetter(u, q, w);
  }

  /** Where the rest of a pattern matches, the whole pattern matches the same way. */
  lemma BodyIsPattern(sec: Section, u: string, q: nat)
    requires q <= |u| && BodyAttempts(sec, u)(q).Some?
    ensures Attempts(sec, u)(q) == BodyAttempts(sec, u)(q) && LetterAt(u)(q)
  {
    BodyStartsWithLetter(sec, u, q);
    if LiteralAt(u, q, Opener) {
      OpenerHasNoLetter(u, q);
    }
  }

  lemma BodiesArePatterns(sec: Section, u: string)
    ensures BodiesLead(Attempts(sec, u), BodyAttempts(sec, u), LetterAt(u), |u|)
  {
    forall q: nat | q <= |u| && BodyAttempts(sec, u)(q).Some?
      ensures Attempts(sec, u)(q) == BodyAttempts(sec, u)(q) && LetterAt(u)(q)
    {
      BodyIsPattern(sec, u, q);
    }
  }

  /** `PatternIsShiftedBody` restated on the search functions at one position. */
  lemma ShiftedBodyAt(sec: Section, u: string, p: nat)
    requires p <= |u| && Attempts(sec, u)(p).Some?
    ensures || Attempts(sec, u)(p) == BodyAttempts(sec, u)(p)
            || (p + 4 <= |u| && Attempts(sec, u)(p) == BodyAttempts(sec, u)(p + 4)
                && !LetterAt(u)(p) && !LetterAt(u)(p + 1) && !LetterAt(u)(p + 2) && !LetterAt(u)(p + 3))
  {
    PatternIsShiftedBody(sec, u, p);
    if PatternAt(sec, u, p) != BodyAt(sec, u, p) {
      OpenerHasNoLetter(u, p);
    }
  }

  lemma PatternsAreShiftedBodies(sec: Section, u: string)
    ensures OpenersShift(Attempts(sec, u), BodyAttempts(sec, u), LetterAt(u), |u|)
  {
    forall p: nat | p <= |u| && Attempts(sec, u)(p).Some?
      ensures || Attempts(sec, u)(p) == BodyAttempts(sec, u)(p)
              || (p + 4 <= |u| && Attempts(sec, u)(p) == BodyAttempts(sec, u)(p + 4)
                  && !LetterAt(u)(p) && !LetterAt(u)(p + 1) && !LetterAt(u)(p + 2) && !LetterAt(u)(p + 3))
    {
      ShiftedBodyAt(sec, u, p);
    }
  }

  /**
    The optional `=== ` in front of a heading never changes what a pattern
    captures: the capture is the one of the first heading whose rest matches,
    decorated or not.
   */
  lemma OpenerIsTransparent(sec: Section, reply: string)
    ensures Locate(sec, reply) == LocateWithoutOpener(sec, reply)
  {
    var u := FoldAll(reply);
    var f, g := Attempts(sec, u), BodyAttempts(sec, u);
    BodiesArePatterns(sec, u);
    PatternsAreShiftedBodies(sec, u);
    LeftmostSkipsOpener(f, g, LetterAt(u), |u|);
    var m, n := Leftmost(f, 0, |u|), Leftmost(g, 0, |u|);
    if m.Some? {
      assert Locate(sec, reply) == f(m.value);
      assert LocateWithoutOpener(sec, reply) == g(n.value);
    }
  }

  /* ---------------------------------------------------------------- */
  /* Letter case                                                      */
  /* ---------------------------------------------------------------- */

  /**
    Headings, fences and the `algorithm` stop word are matched without regard
    to letter case: changing the case of any ASCII letters of a reply leaves
    every section boundary where it was.
   */
  lemma MatchingIgnoresCase(sec: Section, s: string, t: string)
    requires SameUpToCase(s, t)
    ensures Locate(sec, s) == Locate(sec, t)
  {
  }

  /* ---------------------------------------------------------------- */
  /* Where each capture starts and stops                              */
  /* ---------------------------------------------------------------- */

  /** Case folding keeps a newline a newline and makes nothing else one. */
  lemma FoldedNewline(s: string, k: nat)
    requires k < |s|
    ensures (FoldAll(s)[k] == '\n') == (s[k] == '\n')
  {
  }

  /** Backticks have no case: a fence occurs in a text exactly where it occurs in its folded form. */
  lemma FoldedFence(s: string, k: nat)
    ensures LiteralAt(s, k, Fence) == LiteralAt(FoldAll(s), k, Fence)
  {
    var u := FoldAll(s);
    if k + 3 <= |s| {
      assert u[k..k + 3] == Fence <==> s[k..k + 3] == Fence by {
        assert forall j :: k <= j < k + 3 ==> (u[j] == '`' <==> s[j] == '`');
      }
    }
  }

  /** What one successful attempt of the debug pattern captures. */
  lemma DebugPatternCapture(u: string, p: nat)
    requires p <= |u| && PatternAt(DebugSection, u, p).Some?
    ensures var sp := PatternAt(DebugSection, u, p).value;
            && 0 < sp.start && u[sp.start - 1] == '\n'
            && AlgorithmMarkAt(u, sp.end)
            && forall k :: sp.start <= k < sp.end ==> !AlgorithmMarkAt(u, k)
  {
    PatternIsShiftedBody(DebugSection, u, p);
  }

  /**
    An attempt of the debug pattern at `p` fails when no `Algorithm` occurs
    from `m` on and the heading does not occur before `m`: the heading it
    needs lies at `m` or later, and so would the `Algorithm` it stops at.
   */
  lemma NoDebugAttempt(u: string, p: nat, m: nat)
    requires p <= |u|
    requires forall r :: m <= r <= |u| ==> !AlgorithmMarkAt(u, r)
    requires forall r :: 0 <= r < m ==> !LiteralAt(u, r, DebuggingSteps)
    ensures PatternAt(DebugSection, u, p).None?
  {
    if PatternAt(DebugSection, u, p).Some? {
      PatternIsShiftedBody(DebugSection, u, p);
    }
  }

  /**
    The debugging steps stay empty unless some `Algorithm` (with or without
    its `=== ` opener, in any case) occurs after a `Debugging Steps` heading:
    with no `Algorithm` from `m` on and no heading before `m`, the debug
    pattern has nothing to stop at. `m = 0` is a reply without any
    `Algorithm`; a reply that puts its `Algorithm` section first is another
    case.
   */
  lemma DebugNeedsAlgorithmMark(reply: string, m: nat)
    requires forall r :: m <= r <= |reply| ==> !AlgorithmMarkAt(FoldAll(reply), r)
    requires forall r :: 0 <= r < m ==> !LiteralAt(FoldAll(reply), r, DebuggingSteps)
    ensures ParseGPTOutput(reply).debuggingSteps == []
  {
    var u := FoldAll(reply);
    forall p: nat | p <= |u| ensures Attempts(DebugSection, u)(p).None? {
      NoDebugAttempt(u, p, m);
    }
    assert Locate(DebugSection, reply).None?;
  }

  /**
    When the debugging steps are found, their text starts right after a line
    break and stops at the first `Algorithm` occurrence after that point.
   */
  lemma DebugStopsAtFirstAlgorithm(reply: string)
    requires Locate(DebugSection, reply).Some?
    ensures var sp := Locate(DebugSection, reply).value;
            var u := FoldAll(reply);
            && 0 < sp.start && reply[sp.start - 1] == '\n'
            && AlgorithmMarkAt(u, sp.end)
            && forall k :: sp.start <= k < sp.end ==> !AlgorithmMarkAt(u, k)
  {
    var u := FoldAll(reply);
    var p := Leftmost(Attempts(DebugSection, u), 0, |u|).value;
    assert Locate(DebugSection, reply) == PatternAt(DebugSection, u, p);
    DebugPatternCapture(u, p);
    FoldedNewline(reply, Locate(DebugSection, reply).value.start - 1);
  }

  /** What one successful attempt of the algorithm pattern captures. */
  lemma AlgoPatternCapture(u: string, p: nat)
    requires p <= |u| && PatternAt(AlgoSection, u, p).Some?
    ensures var sp := PatternAt(AlgoSection, u, p).value;
            0 < sp.start && u[sp.start - 1] == '\n' && sp.end == |u|
  {
    PatternIsShiftedBody(AlgoSection, u, p);
  }

  /**
    The algorithm is everything from just after the line break that ends its
    heading up to the end of the reply.
   */
  lemma AlgorithmRunsToEnd(reply: string)
    requires Locate(AlgoSection, reply).Some?
    ensures var sp := Locate(AlgoSection, reply).value;
            0 < sp.start && reply[sp.start - 1] == '\n' && sp.end == |reply|
  {
    var u := FoldAll(reply);
    var p := Leftmost(Attempts(AlgoSection, u), 0, |u|).value;
    assert Locate(AlgoSection, reply) == PatternAt(AlgoSection, u, p);
    AlgoPatternCapture(u, p);
    FoldedNewline(reply, Locate(AlgoSection, reply).value.start - 1);
  }

  /** The interior of a fenced block holds no fence: the lazy `[\s\S]*?` stops at the first one. */
  lemma FencedBlockStopsAtFirstFence(u: string, a: nat)
    requires a <= |u| && FencedBlockAt(u, a).Some?
    ensures var sp := FencedBlockAt(u, a).value;
            forall k :: sp.start <= k < sp.end ==> !LiteralAt(u, k, Fence)
  {
  }

  /** What one successful attempt of the code pattern after its opener captures. */
  lemma CodeAttemptCapture(u: string, q: nat)
    requires q <= |u| && CodeAt(u, q).Some?
    ensures var sp := CodeAt(u, q).value;
            && 0 < sp.start && u[sp.start - 1] == '\n'
            && LiteralAt(u, sp.end, Fence)
            && forall k :: sp.start <= k < sp.end ==> !LiteralAt(u, k, Fence)
  {
    var a := SpaceEnd(u, DecorationEnd(u, q + |TranslatedCode|));
    assert CodeAt(u, q) == FencedBlockAt(u, a);
    FencedBlockStopsAtFirstFence(u, a);
  }

  /** What one successful attempt of the code pattern captures. */
  lemma CodePatternCapture(u: string, p: nat)
    requires p <= |u| && PatternAt(CodeSection, u, p).Some?
    ensures var sp := PatternAt(CodeSection, u, p).value;
            && 0 < sp.start && u[sp.start - 1] == '\n'
            && LiteralAt(u, sp.end, Fence)
            && forall k :: sp.start <= k < sp.end ==> !LiteralAt(u, k, Fence)
  {
    PatternIsShiftedBody(CodeSection, u, p);
    if PatternAt(CodeSection, u, p) == BodyAt(CodeSection, u, p) {
      CodeAttemptCapture(u, p);
    } else {
      CodeAttemptCapture(u, p + 4);
    }
  }

  /**
    The code is the interior of a fenced block: it starts after the newline
    that ends the opening fence line and stops at the first later fence.
   */
  lemma CodeStopsAtFirstFence(reply: string)
    requires Locate(CodeSection, reply).Some?
    ensures var sp := Locate(CodeSection, reply).value;
            && 0 < sp.start && reply[sp.start - 1] == '\n'
            && LiteralAt(reply, sp.end, Fence)
            && forall k :: sp.start <= k < sp.end ==> !LiteralAt(reply, k, Fence)
  {
    var u := FoldAll(reply);
    var p := Leftmost(Attempts(CodeSection, u), 0, |u|).value;
    assert Locate(CodeSection, reply) == PatternAt(CodeSection, u, p);
    CodePatternCapture(u, p);
    var sp := Locate(CodeSection, reply).value;
    FoldedNewline(reply, sp.start - 1);
    FoldedFence(reply, sp.end);
    forall k | sp.start <= k < sp.end ensures !LiteralAt(reply, k, Fence) {
      FoldedFence(reply, k);
    }
  }
}
