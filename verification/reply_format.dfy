/**
  The reply the prompt asks the model for, and the theorem that the parser
  gives back exactly the code, the steps and the algorithm written into it.
 */
module ReplyFormat {
  import opened Outcomes
  import opened JsText
  import opened OutputParser
  import CleanupLemmas
  import opened SectionMatchLemmas

  /* ---------------------------------------------------------------- */
  /* The requested layout                                             */
  /* ---------------------------------------------------------------- */

  const CodeTitle: string := "Translated Code:"
  const StepsTitle: string := "Debugging Steps:"
  const AlgorithmTitle: string := "Algorithm:"

  /** Items as the numbered lines `n. item`, `n+1. item`, ... */
  function Numbered(items: seq<string>, n: nat): (lines: seq<string>)
    ensures |lines| == |items|
  {
    seq(|items|, i requires 0 <= i < |items| => NatToString(n + i) + ". " + items[i])
  }

  /** The code section: its title, a fence with a language tag, the code lines, a closing fence. */
  function CodeBlock(lang: string, code: seq<string>): string
    requires |code| >= 1
  {
    CodeTitle + "\n" + Fence + lang + "\n" + Join(code) + "\n" + Fence
  }

  /** A reply in the layout the prompt asks for, the steps and the algorithm numbered from 1. */
  function FormatReply(lang: string, code: seq<string>, steps: seq<string>, algo: seq<string>): string
    requires |code| >= 1 && |steps| >= 1 && |algo| >= 1
  {
    CodeBlock(lang, code) + "\n" + StepsTitle + "\n" + Join(Numbered(steps, 1)) + "\n" + AlgorithmTitle + "\n" + Join(Numbered(algo, 1))
  }

  /** A language tag: ASCII letters that do not spell `algorithm`. */
  predicate LanguageTag(lang: string) {
    && (forall k :: 0 <= k < |lang| ==> IsAsciiLetter(lang[k]))
    && !Mentions(FoldAll(lang), Algorithm)
  }

  /** A line of code: no line break, and neither a fence nor a later section's heading in any case. */
  predicate CodeLine(l: string) {
    && '\n' !in l
    && !Mentions(FoldAll(l), Fence)
    && !Mentions(FoldAll(l), DebuggingSteps)
    && !Mentions(FoldAll(l), Algorithm)
  }

  /** A debugging step: one trimmed, non-empty line that does not say `algorithm`. */
  predicate StepItem(l: string) {
    l != "" && IsTrimmed(l) && '\n' !in l && !Mentions(FoldAll(l), Algorithm)
  }

  /** An algorithm step: one trimmed, non-empty line that does not start with a fence. */
  predicate AlgorithmItem(l: string) {
    l != "" && IsTrimmed(l) && '\n' !in l && !StartsWith(l, Fence)
  }

  /** What the theorem asks of the parts of a reply. */
  predicate WellFormedParts(lang: string, code: seq<string>, steps: seq<string>, algo: seq<string>) {
    && |code| >= 1 && |steps| >= 1 && |algo| >= 1
    && LanguageTag(lang)
    && (forall i :: 0 <= i < |code| ==> CodeLine(code[i]))
    && IsTrimmed(Join(code))
    && (forall i :: 0 <= i < |steps| ==> StepItem(steps[i]))
    && (forall i :: 0 <= i < |algo| ==> AlgorithmItem(algo[i]))
  }

  /* ---------------------------------------------------------------- */
  /* Folding                                                          */
  /* ---------------------------------------------------------------- */

  lemma FoldAppend(a: string, b: string)
    ensures FoldAll(a + b) == FoldAll(a) + FoldAll(b)
  {
  }

  /** A piece written at `i` is found, folded, at `i` of the folded text. */
  lemma FoldedPieceAt(s: string, i: nat, piece: string)
    requires LiteralAt(s, i, piece)
    ensures LiteralAt(FoldAll(s), i, FoldAll(piece))
  {
    assert FoldAll(s)[i..i + |piece|] == FoldAll(s[i..i + |piece|]);
  }

  lemma CodeTitleFolds()
    ensures FoldAll(CodeTitle) == TranslatedCode + ":"
  {
  }

  lemma StepsTitleFolds()
    ensures FoldAll(StepsTitle) == DebuggingSteps + ":"
  {
  }

  lemma AlgorithmTitleFolds()
    ensures FoldAll(AlgorithmTitle) == Algorithm + ":"
  {
  }

  /* ---------------------------------------------------------------- */
  /* Where the pieces sit                                             */
  /* ---------------------------------------------------------------- */

  /** The code section's pieces at their places in `r`: title, fence and tag, code, fence. */
  predicate CodeText(r: string, lang: string, c: string) {
    var L := |lang|;
    var n := |c|;
    && LiteralAt(r, 0, CodeTitle) && LiteralAt(r, 17, Fence + lang) && r[16] == '\n'
    && LiteralAt(r, 21 + L, c) && r[20 + L] == '\n'
    && LiteralAt(r, 22 + L + n, Fence) && r[21 + L + n] == '\n'
  }

  /** The pieces of the code section, by position. */
  lemma CodeBlockText(lang: string, code: seq<string>, rest: string)
    requires |code| >= 1
    ensures |CodeBlock(lang, code)| == 25 + |lang| + |Join(code)|
    ensures CodeText(CodeBlock(lang, code) + rest, lang, Join(code))
  {
    CodePieces(lang, Join(code), rest);
  }

  lemma CodePieces(lang: string, c: string, rest: string)
    ensures CodeText(CodeTitle + "\n" + Fence + lang + "\n" + c + "\n" + Fence + rest, lang, c)
  {
    var r := CodeTitle + "\n" + Fence + lang + "\n" + c + "\n" + Fence + rest;
    var L := |lang|;
    var n := |c|;
    assert r[0..16] == CodeTitle;
    assert r[17..20 + L] == Fence + lang;
    assert r[21 + L..21 + L + n] == c;
    assert r[22 + L + n..25 + L + n] == Fence;
  }

  /**
    The pieces after a code section that ends at `k`: the steps title, the
    text `s` of the steps, the algorithm title and the text `a` of the
    algorithm, each on its own line.
   */
  predicate TailText(r: string, k: nat, s: string, a: string) {
    var m := |s|;
    && |r| == k + 30 + m + |a|
    && r[k] == '\n' && LiteralAt(r, k + 1, StepsTitle) && r[k + 17] == '\n'
    && LiteralAt(r, k + 18, s) && r[k + 18 + m] == '\n' && r[k + 18..k + 19 + m] == s + "\n"
    && LiteralAt(r, k + 19 + m, AlgorithmTitle) && r[k + 29 + m] == '\n'
    && r[k + 30 + m..] == a
  }

  /** The pieces after the code section, by position. */
  lemma FormatReplyText(lang: string, code: seq<string>, steps: seq<string>, algo: seq<string>)
    requires |code| >= 1 && |steps| >= 1 && |algo| >= 1
    ensures var r := FormatReply(lang, code, steps, algo);
            var k := |CodeBlock(lang, code)|;
            && r == CodeBlock(lang, code) + r[k..]
            && TailText(r, k, Join(Numbered(steps, 1)), Join(Numbered(algo, 1)))
  {
    TailPieces(CodeBlock(lang, code), Join(Numbered(steps, 1)), Join(Numbered(algo, 1)));
  }

  lemma TailPieces(cb: string, s: string, a: string)
    ensures var r := cb + "\n" + StepsTitle + "\n" + s + "\n" + AlgorithmTitle + "\n" + a;
            r == cb + r[|cb|..] && TailText(r, |cb|, s, a)
  {
    var r := cb + "\n" + StepsTitle + "\n" + s + "\n" + AlgorithmTitle + "\n" + a;
    var k := |cb|;
    var m := |s|;
    assert r[k + 1..k + 17] == StepsTitle;
    assert r[k + 18..k + 18 + m] == s;
    assert r[k + 18..k + 19 + m] == s + "\n";
    assert r[k + 19 + m..k + 29 + m] == AlgorithmTitle;
  }

  /* ---------------------------------------------------------------- */
  /* Where a word cannot occur                                        */
  /* ---------------------------------------------------------------- */

  /** `w` starts nowhere in `[lo, hi]`. */
  predicate Absent(u: string, w: string, lo: nat, hi: nat) {
    forall k :: lo <= k <= hi ==> !LiteralAt(u, k, w)
  }

  lemma SliceOfSlice(s: string, i: nat, j: nat, a: nat, b: nat)
    requires i <= j <= |s| && a <= b <= j - i
    ensures s[i..j][a..b] == s[i + a..i + b]
  {
    assert forall k :: 0 <= k < b - a ==> s[i..j][a..b][k] == s[i + a + k];
  }

  lemma SubLiteral(s: string, i: nat, x: string, a: nat, b: nat)
    requires LiteralAt(s, i, x) && a <= b <= |x|
    ensures LiteralAt(s, i + a, x[a..b])
  {
    SliceOfSlice(s, i, i + |x|, a, b);
  }

  /** An occurrence in the second half of `t + y` is an occurrence in `y`. */
  lemma LiteralShift(t: string, y: string, i: nat, w: string)
    ensures LiteralAt(t + y, |t| + i, w) <==> LiteralAt(y, i, w)
  {
    if |t| + i + |w| <= |t + y| {
      assert (t + y)[|t| + i..|t| + i + |w|] == y[i..i + |w|];
    }
  }

  /**
    A piece that does not mention the newline-free word `w`, followed by a
    line break, leaves no occurrence of `w` starting inside it.
   */
  lemma PieceAbsent(u: string, w: string, lo: nat, x: string)
    requires '\n' !in w && !Mentions(x, w)
    requires LiteralAt(u, lo, x) && lo + |x| < |u| && u[lo + |x|] == '\n'
    ensures Absent(u, w, lo, lo + |x|)
  {
    forall k | lo <= k <= lo + |x| ensures !LiteralAt(u, k, w) {
      if k + |w| <= lo + |x| {
        assert !LiteralAt(x, k - lo, w);
        SliceOfSlice(u, lo, lo + |x|, k - lo, k - lo + |w|);
      } else if k + |w| <= |u| {
        assert u[k..k + |w|][lo + |x| - k] == '\n';
      }
    }
  }

  /** A word without a line break is not mentioned across one. */
  lemma NoMentionAcrossNewline(x: string, y: string, w: string)
    requires '\n' !in w && !Mentions(x, w) && !Mentions(y, w)
    ensures !Mentions(x + "\n" + y, w)
  {
    var s := x + "\n" + y;
    PieceAbsent(s, w, 0, x);
    forall i | |x| + 1 <= i <= |s| ensures !LiteralAt(s, i, w) {
      LiteralShift(x + "\n", y, i - |x| - 1, w);
    }
  }

  /** A prefix none of whose characters can start `w` adds no mention of it. */
  lemma NoMentionAfterPrefix(pre: string, t: string, w: string)
    requires |w| > 0 && !Mentions(t, w)
    requires forall k :: 0 <= k < |pre| ==> pre[k] != w[0]
    ensures !Mentions(pre + t, w)
  {
    var s := pre + t;
    forall i | 0 <= i <= |s| ensures !LiteralAt(s, i, w) {
      if i < |pre| {
        if i + |w| <= |s| {
          assert s[i..i + |w|][0] == pre[i];
        }
      } else {
        LiteralShift(pre, t, i - |pre|, w);
      }
    }
  }

  /** A text lacking one of the characters of `w` does not mention `w`. */
  lemma NoMentionMissingChar(s: string, w: string, c: nat)
    requires c < |w| && forall k :: 0 <= k < |s| ==> s[k] != w[c]
    ensures !Mentions(s, w)
  {
    forall i | 0 <= i <= |s| ensures !LiteralAt(s, i, w) {
      if i + |w| <= |s| {
        assert s[i..i + |w|][c] == s[i + c];
      }
    }
  }

  /** `=== algorithm` contains `algorithm`. */
  lemma NoOpenedAlgorithm(s: string)
    requires !Mentions(s, Algorithm)
    ensures !Mentions(s, OpenedAlgorithm)
  {
    forall i | 0 <= i <= |s| ensures !LiteralAt(s, i, OpenedAlgorithm) {
      if i + |OpenedAlgorithm| <= |s| {
        assert !LiteralAt(s, i + 4, Algorithm);
        assert OpenedAlgorithm[4..] == Algorithm;
        assert s[i + 4..i + 13] == s[i..i + 13][4..];
      }
    }
  }

  /** Lines that do not mention the newline-free `w`, in any case, joined do not either. */
  lemma {:induction false} NoMentionInJoin(lines: seq<string>, w: string)
    requires |lines| >= 1 && '\n' !in w
    requires forall i :: 0 <= i < |lines| ==> !Mentions(FoldAll(lines[i]), w)
    ensures !Mentions(FoldAll(Join(lines)), w)
    decreases |lines|
  {
    if |lines| > 1 {
      NoMentionInJoin(lines[1..], w);
      FoldAppend(lines[0] + "\n", Join(lines[1..]));
      FoldAppend(lines[0], "\n");
      assert FoldAll("\n") == "\n";
      NoMentionAcrossNewline(FoldAll(lines[0]), FoldAll(Join(lines[1..])), w);
    }
  }

  /* ---------------------------------------------------------------- */
  /* The numbered lists and their cleanup                             */
  /* ---------------------------------------------------------------- */

  lemma JoinFirst(parts: seq<string>)
    requires |parts| >= 1 && parts[0] != ""
    ensures |Join(parts)| >= 1 && Join(parts)[0] == parts[0][0]
  {
  }

  lemma {:induction false} JoinLast(parts: seq<string>)
    requires |parts| >= 1 && parts[|parts| - 1] != ""
    ensures var j := Join(parts); var last := parts[|parts| - 1];
            |j| >= 1 && j[|j| - 1] == last[|last| - 1]
    decreases |parts|
  {
    if |parts| > 1 {
      JoinLast(parts[1..]);
    }
  }

  /** `trim` drops a line break written after a trimmed text. */
  lemma TrimDropsNewline(s: string)
    requires IsTrimmed(s)
    ensures Trim(s + "\n") == s
  {
    var t := s + "\n";
    if s != [] {
      assert SpaceEnd(t, 0) == 0;
      assert TrimEndIndex(t, |t|) == TrimEndIndex(t, |s|) == |s|;
      assert t[0..|s|] == s;
    } else {
      assert t == "\n";
    }
  }

  /** A non-empty trimmed line without a line break. */
  predicate PlainItem(l: string) {
    l != "" && IsTrimmed(l) && '\n' !in l
  }

  /** The numbered list joined into text starts with a digit, is trimmed, and splits back into its lines. */
  lemma NumberedText(items: seq<string>)
    requires |items| >= 1 && forall i :: 0 <= i < |items| ==> PlainItem(items[i])
    ensures var text := Join(Numbered(items, 1));
            && text != "" && IsDigit(text[0]) && IsTrimmed(text)
            && Split(text) == Numbered(items, 1)
  {
    var lines := Numbered(items, 1);
    NumberedEnds(items);
    JoinFirst(lines);
    JoinLast(lines);
    NumberedLinesPlain(items);
    SplitJoin(lines);
  }

  lemma NumberedEnds(items: seq<string>)
    requires |items| >= 1 && items[0] != "" && IsTrimmed(items[|items| - 1]) && items[|items| - 1] != ""
    ensures var lines := Numbered(items, 1); var last := lines[|lines| - 1];
            && lines[0] != "" && IsDigit(lines[0][0])
            && last != "" && !IsSpace(last[|last| - 1])
  {
    var lines := Numbered(items, 1);
    var z := |items| - 1;
    assert lines[0] == NatToString(1) + ". " + items[0];
    assert lines[z] == NatToString(1 + z) + ". " + items[z];
    assert lines[z][|lines[z]| - 1] == items[z][|items[z]| - 1];
  }

  lemma NumberedLinesPlain(items: seq<string>)
    requires forall i :: 0 <= i < |items| ==> '\n' !in items[i]
    ensures forall i :: 0 <= i < |items| ==> '\n' !in Numbered(items, 1)[i]
  {
    forall i | 0 <= i < |items| ensures '\n' !in Numbered(items, 1)[i] {
      var d := NatToString(1 + i);
      assert Numbered(items, 1)[i] == d + ". " + items[i];
      assert forall k :: 0 <= k < |d| ==> d[k] != '\n';
    }
  }

  /** Cleaning a numbered list gives back its items. */
  lemma CleanNumbered(items: seq<string>)
    requires forall i :: 0 <= i < |items| ==> items[i] != "" && IsTrimmed(items[i])
    ensures CleanAll(Numbered(items, 1)) == items
  {
    var lines := Numbered(items, 1);
    forall i | 0 <= i < |items| ensures CleanupLine(lines[i]) == items[i] {
      NumberedItemCleaned(items, i);
    }
  }

  lemma NumberedItemCleaned(items: seq<string>, i: nat)
    requires i < |items| && IsTrimmed(items[i])
    ensures CleanupLine(Numbered(items, 1)[i]) == items[i]
  {
    var d := NatToString(1 + i);
    assert Numbered(items, 1)[i] == d + ". " + items[i];
    CleanupLemmas.NumberedLineCleaned(d, items[i]);
  }

  /** Numbered debugging steps clean back to the steps. */
  lemma StepsCleanBack(steps: seq<string>)
    requires forall i :: 0 <= i < |steps| ==> StepItem(steps[i])
    ensures CleanSteps(Numbered(steps, 1)) == steps
  {
    CleanNumbered(steps);
  }

  /** Numbered algorithm steps clean back to the steps. */
  lemma AlgorithmCleansBack(algo: seq<string>)
    requires forall i :: 0 <= i < |algo| ==> AlgorithmItem(algo[i])
    ensures CleanAlgorithm(Numbered(algo, 1)) == algo
  {
    CleanNumbered(algo);
  }

  /* ---------------------------------------------------------------- */
  /* The reply, folded                                                */
  /* ---------------------------------------------------------------- */

  lemma FenceFolds()
    ensures FoldAll(Fence) == Fence
  {
  }

  /** The title folds to `translated code:` followed by a line break. */
  lemma CodeTitleFolded(r: string)
    requires LiteralAt(r, 0, CodeTitle) && |r| > 16 && r[16] == '\n'
    ensures var u := FoldAll(r);
            LiteralAt(u, 0, TranslatedCode) && LiteralAt(u, 15, ":") && u[16] == '\n'
            && LiteralAt(u, 0, TranslatedCode + ":")
  {
    var u := FoldAll(r);
    FoldedPieceAt(r, 0, CodeTitle);
    CodeTitleFolds();
    SubLiteral(u, 0, TranslatedCode + ":", 0, 15);
    assert (TranslatedCode + ":")[0..15] == TranslatedCode;
    SubLiteral(u, 0, TranslatedCode + ":", 15, 16);
    assert (TranslatedCode + ":")[15..16] == ":";
  }

  /** The opening fence folds to itself, followed by the tag's letters. */
  lemma FenceTagFolded(r: string, lang: string)
    requires LanguageTag(lang) && LiteralAt(r, 17, Fence + lang)
    ensures var u := FoldAll(r);
            && LiteralAt(u, 17, Fence) && LiteralAt(u, 17, Fence + FoldAll(lang))
            && forall k :: 20 <= k < 20 + |lang| ==> IsAsciiLetter(u[k])
  {
    var u := FoldAll(r);
    FoldedPieceAt(r, 17, Fence + lang);
    FoldAppend(Fence, lang);
    FenceFolds();
    SubLiteral(u, 17, Fence + FoldAll(lang), 0, 3);
    assert (Fence + FoldAll(lang))[0..3] == Fence;
    forall k | 20 <= k < 20 + |lang| ensures IsAsciiLetter(u[k]) {
      assert u[k] == u[17..20 + |lang|][k - 17] == FoldAll(lang)[k - 20];
    }
  }

  /** The code section of a formatted reply is laid out as the code pattern describes. */
  lemma CodeSectionFolded(r: string, lang: string, code: seq<string>)
    requires |code| >= 1 && LanguageTag(lang) && forall i :: 0 <= i < |code| ==> CodeLine(code[i])
    requires CodeText(r, lang, Join(code))
    ensures CodeLayout(FoldAll(r), 0, ":", 17, 20 + |lang|, 22 + |lang| + |Join(code)|)
  {
    var u := FoldAll(r);
    var L := |lang|;
    var c := Join(code);
    var n := |c|;
    CodeTitleFolded(r);
    FenceTagFolded(r, lang);
    FenceFolds();
    FoldedPieceAt(r, 22 + L + n, Fence);
    FoldedPieceAt(r, 21 + L, c);
    NoMentionInJoin(code, Fence);
    PieceAbsent(u, Fence, 21 + L, FoldAll(c));
    CodeLayoutFrom(u, 20 + L, 21 + L, 21 + L + n, 22 + L + n);
  }

  /**
    A folded code title, an opening fence with a letter tag ending at `b`,
    no fence in `[lo, hi]` and a closing fence at `c` make a code section.
   */
  lemma CodeLayoutFrom(u: string, b: nat, lo: nat, hi: nat, c: nat)
    requires LiteralAt(u, 0, TranslatedCode) && LiteralAt(u, 15, ":") && 20 <= b < |u| && u[16] == '\n'
    requires LiteralAt(u, 17, Fence) && u[b] == '\n'
    requires forall k :: 20 <= k < b ==> IsAsciiLetter(u[k])
    requires lo == b + 1 && c == hi + 1 && b < c && LiteralAt(u, c, Fence) && Absent(u, Fence, lo, hi)
    ensures CodeLayout(u, 0, ":", 17, b, c)
  {
    assert FencedBlockLayout(u, 17, b, c);
  }

  /** A title written at `p` and followed by a line break folds to its heading, a colon and the break. */
  lemma TitleFolded(r: string, p: nat, title: string, w: string)
    requires FoldAll(title) == w + ":"
    requires LiteralAt(r, p, title) && p + |title| < |r| && r[p + |title|] == '\n'
    ensures var u := FoldAll(r);
            && LiteralAt(u, p, w + ":") && LiteralAt(u, p, w) && LiteralAt(u, p + |w|, ":")
            && u[p + |w| + 1] == '\n'
  {
    var u := FoldAll(r);
    FoldedPieceAt(r, p, title);
    SubLiteral(u, p, w + ":", 0, |w|);
    assert (w + ":")[0..|w|] == w;
    SubLiteral(u, p, w + ":", |w|, |w| + 1);
    assert (w + ":")[|w|..|w| + 1] == ":";
  }

  /**
    A title written at `p`, followed by a line break and then a digit at
    `j`, folds to a heading line as the section patterns describe.
   */
  lemma TitleLineFolded(r: string, p: nat, title: string, w: string, j: nat)
    requires FoldAll(title) == w + ":"
    requires LiteralAt(r, p, title) && j == p + |title| + 1 && j < |r|
    requires r[j - 1] == '\n' && IsDigit(r[j])
    ensures HeadingLineLayout(FoldAll(r), w, p, ":", j, j)
  {
    var u := FoldAll(r);
    TitleFolded(r, p, title, w);
    assert IsDigit(u[j]);
  }

  /** A numbered line says `algorithm` only if its item does. */
  lemma NumberedLineNoAlgorithm(items: seq<string>, i: nat)
    requires i < |items| && !Mentions(FoldAll(items[i]), Algorithm)
    ensures !Mentions(FoldAll(Numbered(items, 1)[i]), Algorithm)
  {
    var pre := NatToString(1 + i) + ". ";
    assert Numbered(items, 1)[i] == pre + items[i];
    FoldAppend(pre, items[i]);
    forall k | 0 <= k < |pre| ensures FoldAll(pre)[k] != Algorithm[0] {
      assert IsDigit(pre[k]) || pre[k] == '.' || pre[k] == ' ';
    }
    NoMentionAfterPrefix(FoldAll(pre), FoldAll(items[i]), Algorithm);
  }

  lemma NumberedNoAlgorithm(items: seq<string>)
    requires |items| >= 1 && forall i :: 0 <= i < |items| ==> !Mentions(FoldAll(items[i]), Algorithm)
    ensures !Mentions(FoldAll(Join(Numbered(items, 1))), Algorithm)
  {
    var lines := Numbered(items, 1);
    forall i | 0 <= i < |lines| ensures !Mentions(FoldAll(lines[i]), Algorithm) {
      NumberedLineNoAlgorithm(items, i);
    }
    NoMentionInJoin(lines, Algorithm);
  }

  /** The steps section of a formatted reply, for any steps text that starts with a digit and never says `algorithm`, is laid out as the debug pattern describes. */
  lemma StepsTextFolded(r: string, k: nat, text: string, a: string)
    requires text != "" && IsDigit(text[0]) && !Mentions(FoldAll(text), Algorithm)
    requires TailText(r, k, text, a)
    ensures var m := |text|;
            && DebugLayout(FoldAll(r), k + 1, ":", k + 18, k + 18, k + 19 + m)
            && Absent(FoldAll(r), Algorithm, k + 1, k + 18 + m)
  {
    var u := FoldAll(r);
    var m := |text|;
    assert HeadingLineLayout(u, DebuggingSteps, k + 1, ":", k + 18, k + 18) && Absent(u, Algorithm, k + 1, k + 17) by {
      StepsHeadingFolded(r, k, text, a);
    }
    assert LiteralAt(u, k + 19 + m, Algorithm) by {
      AlgorithmTitleFolds();
      TitleFolded(r, k + 19 + m, AlgorithmTitle, Algorithm);
    }
    assert Absent(u, Algorithm, k + 18, k + 18 + m) && Absent(u, OpenedAlgorithm, k + 18, k + 18 + m) by {
      StepsTextAbsent(r, k, text, a);
    }
    DebugLayoutAt(u, k + 1, k + 18, k + 18 + m, k + 19 + m);
    AbsentJoin(u, Algorithm, k + 1, k + 17, k + 18 + m);
  }

  /** Neither `algorithm` nor its opened form starts inside the steps text of a formatted reply. */
  lemma StepsTextAbsent(r: string, k: nat, text: string, a: string)
    requires !Mentions(FoldAll(text), Algorithm)
    requires TailText(r, k, text, a)
    ensures var u := FoldAll(r); var m := |text|;
            && Absent(u, Algorithm, k + 18, k + 18 + m)
            && Absent(u, OpenedAlgorithm, k + 18, k + 18 + m)
  {
    var u := FoldAll(r);
    FoldedPieceAt(r, k + 18, text);
    PieceAbsent(u, Algorithm, k + 18, FoldAll(text));
    NoOpenedAlgorithm(FoldAll(text));
    PieceAbsent(u, OpenedAlgorithm, k + 18, FoldAll(text));
  }

  /** A heading line at `q`, a first `algorithm` at `e` and none in `[j, h]` with `e == h + 1` make a debug section. */
  lemma DebugLayoutAt(u: string, q: nat, j: nat, h: nat, e: nat)
    requires HeadingLineLayout(u, DebuggingSteps, q, ":", j, j)
    requires j <= e && e == h + 1 && LiteralAt(u, e, Algorithm)
    requires Absent(u, Algorithm, j, h) && Absent(u, OpenedAlgorithm, j, h)
    ensures DebugLayout(u, q, ":", j, j, e)
  {
  }

  /** Two adjacent ranges without `w` make one. */
  lemma AbsentJoin(u: string, w: string, lo: nat, mid: nat, hi: nat)
    requires Absent(u, w, lo, mid) && Absent(u, w, mid + 1, hi)
    ensures Absent(u, w, lo, hi)
  {
  }

  /** The steps title folds to the heading line, which does not say `algorithm`, and a digit follows it. */
  lemma StepsHeadingFolded(r: string, k: nat, text: string, a: string)
    requires text != "" && IsDigit(text[0])
    requires TailText(r, k, text, a)
    ensures var u := FoldAll(r);
            && HeadingLineLayout(u, DebuggingSteps, k + 1, ":", k + 18, k + 18)
            && Absent(u, Algorithm, k + 1, k + 17)
  {
    var u := FoldAll(r);
    StepsTitleFolds();
    assert r[k + 18] == r[k + 18..k + 18 + |text|][0];
    TitleLineFolded(r, k + 1, StepsTitle, DebuggingSteps, k + 18);
    FoldedPieceAt(r, k + 1, StepsTitle);
    NoMentionMissingChar(DebuggingSteps + ":", Algorithm, 0);
    PieceAbsent(u, Algorithm, k + 1, DebuggingSteps + ":");
  }

  /** The algorithm title folds to the heading line, and the numbered algorithm follows it. */
  lemma AlgorithmSectionFolded(r: string, k: nat, text: string, a: string)
    requires a != "" && IsDigit(a[0]) && TailText(r, k, text, a)
    ensures var p := k + 19 + |text|;
            HeadingLineLayout(FoldAll(r), Algorithm, p, ":", p + 11, p + 11)
  {
    var p := k + 19 + |text|;
    AlgorithmTitleFolds();
    assert r[p + 11] == a[0];
    TitleLineFolded(r, p, AlgorithmTitle, Algorithm, p + 11);
  }

  /** A word that none of the code section's pieces mentions starts nowhere in it. */
  lemma CodeBlockAbsent(r: string, lang: string, code: seq<string>, w: string, k: nat)
    requires |code| >= 1 && LanguageTag(lang) && CodeText(r, lang, Join(code))
    requires k == 25 + |lang| + |Join(code)| && k < |r| && r[k] == '\n'
    requires '\n' !in w && |w| > |Fence|
    requires !Mentions(TranslatedCode + ":", w) && !Mentions(Fence + FoldAll(lang), w)
    requires forall i :: 0 <= i < |code| ==> !Mentions(FoldAll(code[i]), w)
    ensures Absent(FoldAll(r), w, 0, k)
  {
    var u := FoldAll(r);
    var L := |lang|;
    var c := Join(code);
    var n := |c|;
    CodeTitleFolded(r);
    PieceAbsent(u, w, 0, TranslatedCode + ":");
    FenceTagFolded(r, lang);
    assert u[20 + L] == '\n';
    PieceAbsent(u, w, 17, Fence + FoldAll(lang));
    FoldedPieceAt(r, 21 + L, c);
    NoMentionInJoin(code, w);
    assert u[21 + L + n] == '\n';
    PieceAbsent(u, w, 21 + L, FoldAll(c));
    FenceFolds();
    FoldedPieceAt(r, 22 + L + n, Fence);
    assert u[k] == '\n';
    PieceAbsent(u, w, 22 + L + n, Fence);
  }

  /** `debugging steps` occurs nowhere in a well-formed code section. */
  lemma CodeBlockNoSteps(r: string, lang: string, code: seq<string>, k: nat)
    requires |code| >= 1 && LanguageTag(lang) && forall i :: 0 <= i < |code| ==> CodeLine(code[i])
    requires CodeText(r, lang, Join(code))
    requires k == 25 + |lang| + |Join(code)| && k < |r| && r[k] == '\n'
    ensures Absent(FoldAll(r), DebuggingSteps, 0, k)
  {
    NoMentionMissingChar(TranslatedCode + ":", DebuggingSteps, 2);
    var tag := Fence + FoldAll(lang);
    forall k | 0 <= k < |tag| ensures tag[k] != DebuggingSteps[9] {
      if k >= 3 {
        assert tag[k] == Fold(lang[k - 3]);
      }
    }
    NoMentionMissingChar(tag, DebuggingSteps, 9);
    CodeBlockAbsent(r, lang, code, DebuggingSteps, k);
  }

  /** `algorithm` occurs nowhere in a well-formed code section. */
  lemma CodeBlockNoAlgorithm(r: string, lang: string, code: seq<string>, k: nat)
    requires |code| >= 1 && LanguageTag(lang) && forall i :: 0 <= i < |code| ==> CodeLine(code[i])
    requires CodeText(r, lang, Join(code))
    requires k == 25 + |lang| + |Join(code)| && k < |r| && r[k] == '\n'
    ensures Absent(FoldAll(r), Algorithm, 0, k)
  {
    NoMentionMissingChar(TranslatedCode + ":", Algorithm, 2);
    NoMentionAfterPrefix(Fence, FoldAll(lang), Algorithm);
    CodeBlockAbsent(r, lang, code, Algorithm, k);
  }

  /* ---------------------------------------------------------------- */
  /* The round trip                                                   */
  /* ---------------------------------------------------------------- */

  /**
    A reply in the requested layout parses back to exactly its parts: the
    code lines as written, and the steps and algorithm lines without their
    numbers.
   */
  lemma FormatReplyParses(lang: string, code: seq<string>, steps: seq<string>, algo: seq<string>)
    requires WellFormedParts(lang, code, steps, algo)
    ensures ParseGPTOutput(FormatReply(lang, code, steps, algo)) == Translation(code, steps, algo)
  {
    CodeOfFormatReply(lang, code, steps, algo);
    StepsOfFormatReply(lang, code, steps, algo);
    AlgorithmOfFormatReply(lang, code, steps, algo);
  }

  /** An ordinary reply, with three code lines, five steps and five algorithm lines, parses back to all of them. */
  lemma OrdinaryReplyParses(lang: string, code: seq<string>, steps: seq<string>, algo: seq<string>)
    requires WellFormedParts(lang, code, steps, algo)
    requires |code| == 3 && |steps| == 5 && |algo| == 5
    ensures var t := ParseGPTOutput(FormatReply(lang, code, steps, algo));
            && |t.translatedCode| == 3 && |t.debuggingSteps| == 5 && |t.algorithm| == 5
            && t.translatedCode == code && t.debuggingSteps == steps && t.algorithm == algo
  {
    FormatReplyParses(lang, code, steps, algo);
  }

  /** A sample reply in the requested layout: three code lines, five steps and five algorithm lines. */
  const ExampleCode: seq<string> := ["int x = 1;", "int y = x;", "x = y + 1;"]
  const ExampleSteps: seq<string> := ["Declare x.", "Declare y.", "Copy x into y.", "Add one to y.", "Store it in x."]
  const ExampleAlgorithm: seq<string> := ["Set x to 1.", "Set y to x.", "Add 1 to y.", "Put it in x.", "Stop."]

  /** The sample reply parses back to its three code lines, five steps and five algorithm lines. */
  lemma ExampleReplyParses()
    ensures var t := ParseGPTOutput(FormatReply("java", ExampleCode, ExampleSteps, ExampleAlgorithm));
            && t == Translation(ExampleCode, ExampleSteps, ExampleAlgorithm)
            && |t.translatedCode| == 3 && |t.debuggingSteps| == 5 && |t.algorithm| == 5
  {
    ExampleIsWellFormed();
    OrdinaryReplyParses("java", ExampleCode, ExampleSteps, ExampleAlgorithm);
  }

  lemma ExampleIsWellFormed()
    ensures WellFormedParts("java", ExampleCode, ExampleSteps, ExampleAlgorithm)
  {
    NoMentionWithout(FoldAll("java"), Algorithm, 2);
    ExampleCodeLines();
    ExampleCodeTrimmed();
    ExampleStepItems();
    ExampleAlgorithmItems();
  }

  lemma ExampleCodeLines()
    ensures forall i :: 0 <= i < |ExampleCode| ==> CodeLine(ExampleCode[i])
  {
    SampleCodeLine(ExampleCode[0]);
    SampleCodeLine(ExampleCode[1]);
    SampleCodeLine(ExampleCode[2]);
  }

  lemma ExampleCodeTrimmed()
    ensures IsTrimmed(Join(ExampleCode))
  {
    assert Join(ExampleCode) == ExampleCode[0] + "\n" + (ExampleCode[1] + "\n" + ExampleCode[2]);
  }

  lemma ExampleStepItems()
    ensures forall i :: 0 <= i < |ExampleSteps| ==> StepItem(ExampleSteps[i])
  {
    SampleStep(ExampleSteps[0]);
    SampleStep(ExampleSteps[1]);
    SampleStep(ExampleSteps[2]);
    SampleStep(ExampleSteps[3]);
    SampleStep(ExampleSteps[4]);
  }

  /** A trimmed one-line step none of whose characters folds to `g` is a step item. */
  lemma SampleStep(l: string)
    requires l != "" && IsTrimmed(l) && '\n' !in l && forall k :: 0 <= k < |l| ==> Fold(l[k]) != 'g'
    ensures StepItem(l)
  {
    NoMentionWithout(FoldAll(l), Algorithm, 2);
  }

  lemma ExampleAlgorithmItems()
    ensures forall i :: 0 <= i < |ExampleAlgorithm| ==> AlgorithmItem(ExampleAlgorithm[i])
  {
  }

  /** A line none of whose characters folds to a backquote, `b` or `g` is a code line. */
  lemma SampleCodeLine(l: string)
    requires '\n' !in l && forall k :: 0 <= k < |l| ==> Fold(l[k]) !in "`bg"
    ensures CodeLine(l)
  {
    NoMentionWithout(FoldAll(l), Fence, 0);
    NoMentionWithout(FoldAll(l), DebuggingSteps, 2);
    NoMentionWithout(FoldAll(l), Algorithm, 2);
  }

  /** A text lacking one of the characters of `w` does not mention `w`. */
  lemma NoMentionWithout(s: string, w: string, c: nat)
    requires c < |w| && w[c] !in s
    ensures !Mentions(s, w)
  {
    NoMentionMissingChar(s, w, c);
  }

  lemma CodeOfFormatReply(lang: string, code: seq<string>, steps: seq<string>, algo: seq<string>)
    requires WellFormedParts(lang, code, steps, algo)
    ensures ParseGPTOutput(FormatReply(lang, code, steps, algo)).translatedCode == code
  {
    var r := FormatReply(lang, code, steps, algo);
    var b := 20 + |lang|;
    var c := 22 + |lang| + |Join(code)|;
    FormatReplyCodeReady(lang, code, steps, algo, b, c);
    CodeCaptured(r, b, c, code);
  }

  /** The code section of a formatted reply, with the block's interior at `[b + 1, c)`. */
  lemma FormatReplyCodeReady(lang: string, code: seq<string>, steps: seq<string>, algo: seq<string>, b: nat, c: nat)
    requires WellFormedParts(lang, code, steps, algo)
    requires b == 20 + |lang| && c == 22 + |lang| + |Join(code)|
    ensures var r := FormatReply(lang, code, steps, algo);
            && CodeLayout(FoldAll(r), 0, ":", 17, b, c)
            && c <= |r| && Split(Trim(r[b + 1..c])) == code
  {
    var r := FormatReply(lang, code, steps, algo);
    var k := |CodeBlock(lang, code)|;
    FormatReplyText(lang, code, steps, algo);
    CodeBlockText(lang, code, r[k..]);
    CodeReady(r, lang, code);
  }

  lemma StepsOfFormatReply(lang: string, code: seq<string>, steps: seq<string>, algo: seq<string>)
    requires WellFormedParts(lang, code, steps, algo)
    ensures ParseGPTOutput(FormatReply(lang, code, steps, algo)).debuggingSteps == steps
  {
    var r := FormatReply(lang, code, steps, algo);
    var k := 25 + |lang| + |Join(code)|;
    var text := Join(Numbered(steps, 1));
    var q := k + 1;
    var j := k + 18;
    var e := k + 19 + |text|;
    FormatReplyStepsReady(lang, code, steps, algo, k, text, q, j, e);
    StepsCaptured(r, k, q, j, e, steps);
  }

  /**
    The steps section of a formatted reply whose code section ends at `k`
    and whose numbered steps are `text`: heading at `q`, lines at `[j, e)`.
   */
  lemma FormatReplyStepsReady(lang: string, code: seq<string>, steps: seq<string>, algo: seq<string>,
                              k: nat, text: string, q: nat, j: nat, e: nat)
    requires WellFormedParts(lang, code, steps, algo)
    requires k == 25 + |lang| + |Join(code)| && text == Join(Numbered(steps, 1))
    requires q == k + 1 && j == k + 18 && e == k + 19 + |text|
    ensures var r := FormatReply(lang, code, steps, algo);
            && DebugLayout(FoldAll(r), q, ":", j, j, e)
            && Absent(FoldAll(r), DebuggingSteps, 0, k)
            && CleanSteps(Split(Trim(r[j..e]))) == steps
  {
    var r := FormatReply(lang, code, steps, algo);
    var a := Join(Numbered(algo, 1));
    FormatReplyText(lang, code, steps, algo);
    CodeBlockText(lang, code, r[k..]);
    StepsFirst(r, lang, code, steps, a, k, text);
    StepsBack(r, steps, a, k, text, j, e);
    StepsLayoutAt(r, steps, a, k, text, q, j, e);
  }

  lemma AlgorithmOfFormatReply(lang: string, code: seq<string>, steps: seq<string>, algo: seq<string>)
    requires WellFormedParts(lang, code, steps, algo)
    ensures ParseGPTOutput(FormatReply(lang, code, steps, algo)).algorithm == algo
  {
    var r := FormatReply(lang, code, steps, algo);
    var k := 25 + |lang| + |Join(code)|;
    var text := Join(Numbered(steps, 1));
    var q := k + 1;
    var h := k + 18 + |text|;
    var p := h + 1;
    var j := p + 11;
    FormatReplyAlgorithmReady(lang, code, steps, algo, k, text, q, h, p, j);
    AlgorithmNotBefore(FoldAll(r), k, q, h, p);
    AlgorithmCaptured(r, p, j, algo);
  }

  /**
    The algorithm section of a formatted reply whose code section ends at
    `k` and whose numbered steps are `text`: `algorithm` nowhere in `[0, k]`
    or `[q, h]`, the heading at `p`, and the numbered algorithm from `j` on.
   */
  lemma FormatReplyAlgorithmReady(lang: string, code: seq<string>, steps: seq<string>, algo: seq<string>,
                                  k: nat, text: string, q: nat, h: nat, p: nat, j: nat)
    requires WellFormedParts(lang, code, steps, algo)
    requires k == 25 + |lang| + |Join(code)| && text == Join(Numbered(steps, 1))
    requires q == k + 1 && h == k + 18 + |text| && p == h + 1 && j == p + 11
    ensures var r := FormatReply(lang, code, steps, algo);
            && Absent(FoldAll(r), Algorithm, 0, k) && Absent(FoldAll(r), Algorithm, q, h)
            && HeadingLineLayout(FoldAll(r), Algorithm, p, ":", j, j)
            && j <= |r| && CleanAlgorithm(Split(Trim(r[j..]))) == algo
  {
    var r := FormatReply(lang, code, steps, algo);
    var a := Join(Numbered(algo, 1));
    FormatReplyText(lang, code, steps, algo);
    CodeBlockText(lang, code, r[k..]);
    AlgorithmFirst(r, lang, code, text, a, k);
    AlgorithmAfterSteps(r, steps, a, k, text, q, h);
    AlgorithmLayoutAt(r, algo, k, text, p, j);
    AlgorithmBack(r, algo, k, text, j);
  }

  /** The parts of `WellFormedParts` that the code section needs. */
  predicate CodeParts(lang: string, code: seq<string>) {
    && |code| >= 1 && LanguageTag(lang)
    && (forall i :: 0 <= i < |code| ==> CodeLine(code[i]))
  }

  /** What the code pattern needs to find, and the parser to return, the code section of a formatted reply. */
  lemma CodeReady(r: string, lang: string, code: seq<string>)
    requires CodeParts(lang, code) && IsTrimmed(Join(code))
    requires CodeText(r, lang, Join(code))
    ensures var b := 20 + |lang|; var c := 22 + |lang| + |Join(code)|;
            && CodeLayout(FoldAll(r), 0, ":", 17, b, c)
            && c <= |r| && Split(Trim(r[b + 1..c])) == code
  {
    var b := 20 + |lang|;
    var c := 22 + |lang| + |Join(code)|;
    CodeSectionFolded(r, lang, code);
    CodeLinesBack(r, b + 1, c, code);
  }

  /** The code lines, followed by a line break, split back into the lines. */
  lemma CodeLinesBack(r: string, i: nat, e: nat, code: seq<string>)
    requires |code| >= 1 && IsTrimmed(Join(code)) && forall k :: 0 <= k < |code| ==> '\n' !in code[k]
    requires LiteralAt(r, i, Join(code)) && i + |Join(code)| < |r| && r[i + |Join(code)|] == '\n' && e == i + |Join(code)| + 1
    ensures Split(Trim(r[i..e])) == code
  {
    var c := Join(code);
    var t := r[i..e];
    LineAt(r, i, e, c);
    TrimDropsNewline(c);
    assert Trim(t) == c;
    SplitJoin(code);
  }

  lemma CodeCaptured(r: string, b: nat, c: nat, code: seq<string>)
    requires CodeLayout(FoldAll(r), 0, ":", 17, b, c)
    requires Split(Trim(r[b + 1..c])) == code
    ensures ParseGPTOutput(r).translatedCode == code
  {
    CodeParsed(r, 0, ":", 17, b, c);
  }

  /** A heading absent from `[0, k]` and from `[k + 1, q - 1]` does not occur before `q`. */
  lemma NothingBefore(u: string, sec: Section, k: nat, q: nat)
    requires k < q && Absent(u, Heading(sec), 0, k) && (k + 1 < q ==> Absent(u, Heading(sec), k + 1, q - 1))
    ensures NoHeadingBefore(u, sec, q)
  {
  }

  /** A piece followed by a line break. */
  lemma LineAt(r: string, i: nat, e: nat, x: string)
    requires LiteralAt(r, i, x) && i + |x| < |r| && r[i + |x|] == '\n' && e == i + |x| + 1
    ensures r[i..e] == x + "\n"
  {
  }


  /** No `debugging steps` before the steps title of a formatted reply. */
  lemma StepsFirst(r: string, lang: string, code: seq<string>, steps: seq<string>, a: string, k: nat, text: string)
    requires CodeParts(lang, code) && CodeText(r, lang, Join(code))
    requires k == 25 + |lang| + |Join(code)| && TailText(r, k, text, a)
    ensures Absent(FoldAll(r), DebuggingSteps, 0, k)
  {
    CodeBlockNoSteps(r, lang, code, k);
  }

  /** The numbered steps of a formatted reply, at `[j, e)`, clean back into the steps. */
  lemma StepsBack(r: string, steps: seq<string>, a: string, k: nat, text: string, j: nat, e: nat)
    requires |steps| >= 1 && forall i :: 0 <= i < |steps| ==> StepItem(steps[i])
    requires text == Join(Numbered(steps, 1)) && TailText(r, k, text, a)
    requires j == k + 18 && e == k + 19 + |text|
    ensures e <= |r| && CleanSteps(Split(Trim(r[j..e]))) == steps
  {
    assert r[j..e] == text + "\n";
    NumberedText(steps);
    TrimDropsNewline(text);
    StepsCleanBack(steps);
  }

  /** The steps section of a formatted reply is laid out as the debug pattern describes. */
  lemma StepsLayoutAt(r: string, steps: seq<string>, a: string, k: nat, text: string, q: nat, j: nat, e: nat)
    requires |steps| >= 1 && forall i :: 0 <= i < |steps| ==> StepItem(steps[i])
    requires text == Join(Numbered(steps, 1)) && TailText(r, k, text, a)
    requires q == k + 1 && j == k + 18 && e == k + 19 + |text|
    ensures DebugLayout(FoldAll(r), q, ":", j, j, e)
  {
    NumberedText(steps);
    NumberedNoAlgorithm(steps);
    StepsTextFolded(r, k, text, a);
  }

  lemma StepsCaptured(r: string, k: nat, q: nat, j: nat, e: nat, steps: seq<string>)
    requires DebugLayout(FoldAll(r), q, ":", j, j, e)
    requires q == k + 1 && Absent(FoldAll(r), DebuggingSteps, 0, k)
    requires CleanSteps(Split(Trim(r[j..e]))) == steps
    ensures ParseGPTOutput(r).debuggingSteps == steps
  {
    NothingBefore(FoldAll(r), DebugSection, k, q);
    DebugParsed(r, q, ":", j, j, e);
  }

  /** No `algorithm` in the code section of a formatted reply. */
  lemma AlgorithmFirst(r: string, lang: string, code: seq<string>, text: string, a: string, k: nat)
    requires CodeParts(lang, code) && CodeText(r, lang, Join(code))
    requires k == 25 + |lang| + |Join(code)| && TailText(r, k, text, a)
    ensures Absent(FoldAll(r), Algorithm, 0, k)
  {
    CodeBlockNoAlgorithm(r, lang, code, k);
  }

  /** No `algorithm` from the steps title to the end of the numbered steps of a formatted reply. */
  lemma AlgorithmAfterSteps(r: string, steps: seq<string>, a: string, k: nat, text: string, q: nat, h: nat)
    requires |steps| >= 1 && forall i :: 0 <= i < |steps| ==> StepItem(steps[i])
    requires text == Join(Numbered(steps, 1)) && TailText(r, k, text, a)
    requires q == k + 1 && h == k + 18 + |text|
    ensures Absent(FoldAll(r), Algorithm, q, h)
  {
    NumberedText(steps);
    NumberedNoAlgorithm(steps);
    StepsTextFolded(r, k, text, a);
  }

  /** The algorithm title of a formatted reply, at `p`, is laid out as the algorithm pattern describes. */
  lemma AlgorithmLayoutAt(r: string, algo: seq<string>, k: nat, text: string, p: nat, j: nat)
    requires |algo| >= 1 && forall i :: 0 <= i < |algo| ==> AlgorithmItem(algo[i])
    requires TailText(r, k, text, Join(Numbered(algo, 1)))
    requires p == k + 19 + |text| && j == p + 11
    ensures HeadingLineLayout(FoldAll(r), Algorithm, p, ":", j, j)
  {
    NumberedText(algo);
    AlgorithmSectionFolded(r, k, text, Join(Numbered(algo, 1)));
  }

  /** The numbered algorithm of a formatted reply, from `j` on, cleans back into its steps. */
  lemma AlgorithmBack(r: string, algo: seq<string>, k: nat, text: string, j: nat)
    requires |algo| >= 1 && forall i :: 0 <= i < |algo| ==> AlgorithmItem(algo[i])
    requires TailText(r, k, text, Join(Numbered(algo, 1)))
    requires j == k + 30 + |text|
    ensures j <= |r| && CleanAlgorithm(Split(Trim(r[j..]))) == algo
  {
    NumberedText(algo);
    TrimIdentity(Join(Numbered(algo, 1)));
    AlgorithmCleansBack(algo);
  }

  /** `algorithm` absent from `[0, k]` and `[q, h]`, with `p` just past `h`, does not occur before `p`. */
  lemma AlgorithmNotBefore(u: string, k: nat, q: nat, h: nat, p: nat)
    requires q == k + 1 && p == h + 1 && k < p
    requires Absent(u, Algorithm, 0, k) && Absent(u, Algorithm, q, h)
    ensures NoHeadingBefore(u, AlgoSection, p)
  {
  }

  lemma AlgorithmCaptured(r: string, p: nat, j: nat, algo: seq<string>)
    requires NoHeadingBefore(FoldAll(r), AlgoSection, p)
    requires HeadingLineLayout(FoldAll(r), Algorithm, p, ":", j, j)
    requires j <= |r| && CleanAlgorithm(Split(Trim(r[j..]))) == algo
    ensures ParseGPTOutput(r).algorithm == algo
  {
    AlgoParsed(r, p, ":", j, j);
  }
}
