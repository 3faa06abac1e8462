/**
  The bot's test for "this looks like Java": the trimmed message matches one
  of four case-sensitive regular expressions.

  Each expression is a sequence of tokens. `Matches` is how a backtracking
  engine runs them here: whitespace and word-character runs are taken
  greedily, and an optional literal is tried first with and then without it.
  `Derives` is the meaning of the same tokens as a regular language, with
  every run length chosen freely. For the four expressions, where every run of
  whitespace is followed by a literal that starts with a non-space character
  and a word-character run ends the expression, the two agree.
 */
module JavaHeuristic {
  import opened JsText

  datatype Token =
    | Lit(w: string)          // the characters of `w`
    | Spaces(atLeastOne: bool) // `\s+` or `\s*`
    | WordChars                // `\w+`
    | Optional(w: string)     // `(w)?`

  /** `/public\s+class\s+\w+/` */
  const ClassPattern: seq<Token> := [Lit("public"), Spaces(true), Lit("class"), Spaces(true), WordChars]
  /** `/public\s+static\s+void\s+main\s*\(/` */
  const MainPattern: seq<Token> :=
    [Lit("public"), Spaces(true), Lit("static"), Spaces(true), Lit("void"), Spaces(true), Lit("main"), Spaces(false), Lit("(")]
  /** `/System\.out\.print(ln)?\s*\(/` */
  const PrintPattern: seq<Token> := [Lit("System.out.print"), Optional("ln"), Spaces(false), Lit("(")]
  /** `/import\s+java\./` */
  const ImportPattern: seq<Token> := [Lit("import"), Spaces(true), Lit("java.")]

  const JavaPatterns: seq<seq<Token>> := [ClassPattern, MainPattern, PrintPattern, ImportPattern]

  /** The engine: the tokens match starting at `i`, runs taken greedily, an optional literal tried first. */
  predicate MatchesFrom(toks: seq<Token>, s: string, i: nat)
    requires i <= |s|
    decreases |toks|
  {
    if toks == [] then true
    else match toks[0]
      case Lit(w) => LiteralAt(s, i, w) && MatchesFrom(toks[1..], s, i + |w|)
      case Spaces(one) =>
        var e := SpaceEnd(s, i);
        (!one || e > i) && MatchesFrom(toks[1..], s, e)
      case WordChars =>
        var e := RunEnd(s, i, IsWordChar);
        e > i && MatchesFrom(toks[1..], s, e)
      case Optional(w) =>
        (LiteralAt(s, i, w) && MatchesFrom(toks[1..], s, i + |w|)) || MatchesFrom(toks[1..], s, i)
  }

  /** `pattern.test(s)`: a match starts somewhere in `s`. */
  predicate Test(toks: seq<Token>, s: string) {
    exists i :: 0 <= i <= |s| && MatchesFrom(toks, s, i)
  }

  /** `isValidJavaCode`: the trimmed text passes at least one of the four tests. */
  predicate IsValidJavaCode(text: string) {
    exists k :: 0 <= k < |JavaPatterns| && Test(JavaPatterns[k], Trim(text))
  }

  predicate AllIn(s: string, i: nat, j: nat, p: char -> bool)
    requires i <= j <= |s|
  {
    forall k :: i <= k < j ==> p(s[k])
  }

  /** The language of the tokens: they match exactly `s[i..j]` for some choice of run lengths. */
  predicate Derives(toks: seq<Token>, s: string, i: nat, j: nat)
    requires i <= j <= |s|
    decreases |toks|
  {
    if toks == [] then i == j
    else match toks[0]
      case Lit(w) => i + |w| <= j && LiteralAt(s, i, w) && Derives(toks[1..], s, i + |w|, j)
      case Spaces(one) =>
        exists k :: i <= k <= j && (one ==> k > i) && AllIn(s, i, k, IsSpace) && Derives(toks[1..], s, k, j)
      case WordChars =>
        exists k :: i < k <= j && AllIn(s, i, k, IsWordChar) && Derives(toks[1..], s, k, j)
      case Optional(w) =>
        (i + |w| <= j && LiteralAt(s, i, w) && Derives(toks[1..], s, i + |w|, j)) || Derives(toks[1..], s, i, j)
  }

  /** What a regular-expression test means: some substring of `s` is in the language. */
  predicate InLanguage(toks: seq<Token>, s: string) {
    exists i, j :: 0 <= i <= j <= |s| && Derives(toks, s, i, j)
  }

  /**
    The first token loses nothing by being greedy: a whitespace run is followed
    by a word-character run or by a literal that starts with a non-space
    character, a word-character run comes last, and literals are non-empty.
   */
  predicate SafeHead(toks: seq<Token>)
    requires toks != []
  {
    match toks[0]
    case Lit(w) => w != []
    case Optional(w) => w != []
    case Spaces(_) => |toks| > 1 && (toks[1].WordChars? || (toks[1].Lit? && toks[1].w != [] && !IsSpace(toks[1].w[0])))
    case WordChars => |toks| == 1
  }

  /** Token sequences on which greedy runs lose nothing: every suffix has a safe head. */
  predicate GreedySafe(toks: seq<Token>)
    decreases |toks|
  {
    toks == [] || (SafeHead(toks) && GreedySafe(toks[1..]))
  }

  /** Every greedy match is a match of the language. */
  lemma {:induction false} MatchIsDerivation(toks: seq<Token>, s: string, i: nat)
    requires i <= |s| && MatchesFrom(toks, s, i)
    ensures exists j :: i <= j <= |s| && Derives(toks, s, i, j)
    decreases |toks|
  {
    if toks == [] {
      assert Derives(toks, s, i, i);
    } else {
      var rest := toks[1..];
      match toks[0]
      case Lit(w) =>
        MatchIsDerivation(rest, s, i + |w|);
        var j :| i + |w| <= j <= |s| && Derives(rest, s, i + |w|, j);
        assert Derives(toks, s, i, j);
      case Spaces(one) =>
        var e := SpaceEnd(s, i);
        MatchIsDerivation(rest, s, e);
        var j :| e <= j <= |s| && Derives(rest, s, e, j);
        assert AllIn(s, i, e, IsSpace);
        assert Derives(toks, s, i, j);
      case WordChars =>
        var e := RunEnd(s, i, IsWordChar);
        MatchIsDerivation(rest, s, e);
        var j :| e <= j <= |s| && Derives(rest, s, e, j);
        assert AllIn(s, i, e, IsWordChar);
        assert Derives(toks, s, i, j);
      case Optional(w) =>
        if LiteralAt(s, i, w) && MatchesFrom(rest, s, i + |w|) {
          MatchIsDerivation(rest, s, i + |w|);
          var j :| i + |w| <= j <= |s| && Derives(rest, s, i + |w|, j);
          assert Derives(toks, s, i, j);
        } else {
          MatchIsDerivation(rest, s, i);
          var j :| i <= j <= |s| && Derives(rest, s, i, j);
          assert Derives(toks, s, i, j);
        }
    }
  }

  /** A derivation that starts with a literal puts that literal at its start. */
  lemma DerivationStartsWithLiteral(toks: seq<Token>, s: string, i: nat, j: nat)
    requires i <= j <= |s| && toks != [] && toks[0].Lit? && Derives(toks, s, i, j)
    ensures LiteralAt(s, i, toks[0].w)
  {
  }

  /** What may follow a whitespace run in a greedy-safe sequence starts with a non-space character. */
  lemma NoSpaceAfterRun(toks: seq<Token>, s: string, i: nat, j: nat)
    requires i <= j <= |s| && toks != [] && Derives(toks, s, i, j)
    requires toks[0].WordChars? || (toks[0].Lit? && toks[0].w != [] && !IsSpace(toks[0].w[0]))
    ensures i < |s| && !IsSpace(s[i])
  {
    if toks[0].Lit? {
      DerivationStartsWithLiteral(toks, s, i, j);
      assert s[i] == toks[0].w[0];
    } else {
      var k :| i < k <= j && AllIn(s, i, k, IsWordChar) && Derives(toks[1..], s, k, j);
      assert IsWordChar(s[i]);
    }
  }

  /** On greedy-safe tokens every match of the language is found by the engine from the same start. */
  lemma {:induction false} DerivationIsMatch(toks: seq<Token>, s: string, i: nat, j: nat)
    requires i <= j <= |s| && GreedySafe(toks) && Derives(toks, s, i, j)
    ensures MatchesFrom(toks, s, i)
    decreases |toks|
  {
    if toks != [] {
      var rest := toks[1..];
      match toks[0]
      case Lit(w) =>
        DerivationIsMatch(rest, s, i + |w|, j);
      case Spaces(one) =>
        var k :| i <= k <= j && (one ==> k > i) && AllIn(s, i, k, IsSpace) && Derives(rest, s, k, j);
        assert SafeHead(toks) && toks[1] == rest[0];
        NoSpaceAfterRun(rest, s, k, j);
        RunEndIs(s, i, k, IsSpace);
        DerivationIsMatch(rest, s, k, j);
      case WordChars =>
        var k :| i < k <= j && AllIn(s, i, k, IsWordChar) && Derives(rest, s, k, j);
        assert IsWordChar(s[i]);
        assert rest == [];
      case Optional(w) =>
        if i + |w| <= j && LiteralAt(s, i, w) && Derives(rest, s, i + |w|, j) {
          DerivationIsMatch(rest, s, i + |w|, j);
        } else {
          DerivationIsMatch(rest, s, i, j);
        }
    }
  }

  /** On greedy-safe tokens the engine's test and the language agree. */
  lemma TestMeansLanguage(toks: seq<Token>, s: string)
    requires GreedySafe(toks)
    ensures Test(toks, s) <==> InLanguage(toks, s)
  {
    if Test(toks, s) {
      var i :| 0 <= i <= |s| && MatchesFrom(toks, s, i);
      MatchIsDerivation(toks, s, i);
    }
    if InLanguage(toks, s) {
      var i, j :| 0 <= i <= j <= |s| && Derives(toks, s, i, j);
      DerivationIsMatch(toks, s, i, j);
    }
  }

  lemma ClassPatternIsGreedySafe()
    ensures GreedySafe(ClassPattern)
  {
    assert GreedySafe(ClassPattern[4..]);
    assert GreedySafe(ClassPattern[3..]);
    assert GreedySafe(ClassPattern[2..]);
    assert GreedySafe(ClassPattern[1..]);
    assert ClassPattern[0..] == ClassPattern;
  }

  lemma MainPatternIsGreedySafe()
    ensures GreedySafe(MainPattern)
  {
    assert GreedySafe(MainPattern[8..]);
    assert GreedySafe(MainPattern[7..]);
    assert GreedySafe(MainPattern[6..]);
    assert GreedySafe(MainPattern[5..]);
    assert GreedySafe(MainPattern[4..]);
    assert GreedySafe(MainPattern[3..]);
    assert GreedySafe(MainPattern[2..]);
    assert GreedySafe(MainPattern[1..]);
    assert MainPattern[0..] == MainPattern;
  }

  lemma PrintPatternIsGreedySafe()
    ensures GreedySafe(PrintPattern)
  {
    assert GreedySafe(PrintPattern[3..]);
    assert GreedySafe(PrintPattern[2..]);
    assert GreedySafe(PrintPattern[1..]);
    assert PrintPattern[0..] == PrintPattern;
  }

  lemma ImportPatternIsGreedySafe()
    ensures GreedySafe(ImportPattern)
  {
    assert GreedySafe(ImportPattern[2..]);
    assert GreedySafe(ImportPattern[1..]);
    assert ImportPattern[0..] == ImportPattern;
  }

  lemma JavaPatternsAreGreedySafe()
    ensures forall k :: 0 <= k < |JavaPatterns| ==> GreedySafe(JavaPatterns[k])
  {
    ClassPatternIsGreedySafe();
    MainPatternIsGreedySafe();
    PrintPatternIsGreedySafe();
    ImportPatternIsGreedySafe();
  }

  lemma JavaPatternsStartWithLiteral()
    ensures forall k :: 0 <= k < |JavaPatterns| ==>
              JavaPatterns[k] != [] && JavaPatterns[k][0].Lit? && JavaPatterns[k][0].w != []
  {
  }

  /** `isValidJavaCode` holds exactly when the trimmed text contains a word of one of the four languages. */
  lemma ValidJavaMeaning(text: string)
    ensures IsValidJavaCode(text) <==>
              exists k :: 0 <= k < |JavaPatterns| && InLanguage(JavaPatterns[k], Trim(text))
  {
    JavaPatternsAreGreedySafe();
    forall k | 0 <= k < |JavaPatterns|
      ensures Test(JavaPatterns[k], Trim(text)) <==> InLanguage(JavaPatterns[k], Trim(text))
    {
      TestMeansLanguage(JavaPatterns[k], Trim(text));
    }
  }

  /** A match that starts with a non-empty literal needs text to match. */
  lemma MatchNeedsText(toks: seq<Token>, s: string, i: nat)
    requires i <= |s| && toks != [] && toks[0].Lit? && toks[0].w != [] && MatchesFrom(toks, s, i)
    ensures |s| > 0
  {
  }

  /** Text that passes the test is not empty, so it is truthy when stored. */
  lemma ValidJavaIsNonEmpty(text: string)
    requires IsValidJavaCode(text)
    ensures text != ""
  {
    var k :| 0 <= k < |JavaPatterns| && Test(JavaPatterns[k], Trim(text));
    var u := Trim(text);
    var i :| 0 <= i <= |u| && MatchesFrom(JavaPatterns[k], u, i);
    JavaPatternsStartWithLiteral();
    MatchNeedsText(JavaPatterns[k], u, i);
  }
}
