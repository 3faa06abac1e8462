/**
  What `cleanupLine` does to the lines a model typically writes: it strips one
  list marker, leaves a plain line alone, and is not idempotent.
 */
module CleanupLemmas {
  import opened JsText
  import opened OutputParser

  predicate AllDigits(d: string) {
    forall k :: 0 <= k < |d| ==> IsDigit(d[k])
  }

  /** A line that is already trimmed and starts with none of the stripped markers. */
  predicate IsPlainLine(l: string) {
    && IsTrimmed(l)
    && !IsFenceLine(l)
    && (l == [] || (!IsBullet(l[0]) && !IsDigit(l[0]) && !LiteralAt(FoldAll(l), 0, "step")))
  }

  /** `cleanupLine` leaves a plain line as it is. */
  lemma PlainLineUnchanged(l: string)
    requires IsPlainLine(l)
    ensures CleanupLine(l) == l
  {
    if l != [] {
      RunEndIs(l, 0, 0, IsSpace);
      assert DigitEnd(l, 0) == 0 by { RunEndIs(l, 0, 0, IsDigit); }
      assert MarkerEnd(l, 0) == 0;
      assert StripMarker(l) == l;
    }
    TrimIdentity(l);
  }

  /** Where the marker of a line that starts with neither bullet nor space ends at `m`, followed by one space and trimmed text, the text is what remains. */
  lemma StrippedAfterMarker(s: string, m: nat, l: string)
    requires 0 < |s| && !IsBullet(s[0]) && !IsSpace(s[0]) && !IsFenceLine(s)
    requires m + 1 <= |s| && MarkerEnd(s, 0) == m && s[m] == ' ' && s[m + 1..] == l && IsTrimmed(l)
    ensures CleanupLine(s) == l
  {
    RunEndIs(s, 0, 0, IsSpace);
    assert m + 1 == |s| || s[m + 1] == l[0];
    RunEndIs(s, m, m + 1, IsSpace);
    assert StripMarker(s) == l;
    TrimIdentity(l);
  }

  /** `step` does not start at a digit. */
  lemma NoStepAtDigit(s: string, i: nat)
    requires i < |s| && IsDigit(s[i])
    ensures !LiteralAt(FoldAll(s), i, "step")
  {
    assert FoldAll(s)[i] == s[i];
  }

  /** A numbered line `N. text` or `N: text` loses its number and the space after it. */
  lemma NumberMarkerLineCleaned(d: string, sep: string, l: string)
    requires |d| > 0 && AllDigits(d) && (sep == ". " || sep == ": ") && IsTrimmed(l)
    ensures CleanupLine(d + sep + l) == l
  {
    var s := d + sep + l;
    var n := |d|;
    assert s[n] == sep[0] && s[n + 1] == ' ' && s[n + 2..] == l;
    assert IsDigit(s[0]);
    NoStepAtDigit(s, 0);
    RunEndIs(s, 0, n, IsDigit);
    assert DigitEnd(s, 0) == n;
    assert NumberMarkerEnd(s, 0) == n + 1;
    assert MarkerEnd(s, 0) == n + 1;
    StrippedAfterMarker(s, n + 1, l);
  }

  /** The form the prompt asks for, `N. text`. */
  lemma NumberedLineCleaned(d: string, l: string)
    requires |d| > 0 && AllDigits(d) && IsTrimmed(l)
    ensures CleanupLine(d + ". " + l) == l
  {
    NumberMarkerLineCleaned(d, ". ", l);
  }

  /** `N: text` loses its marker as well. */
  lemma NumberColonLineCleaned(d: string, l: string)
    requires |d| > 0 && AllDigits(d) && IsTrimmed(l)
    ensures CleanupLine(d + ": " + l) == l
  {
    NumberMarkerLineCleaned(d, ": ", l);
  }

  /** A four-letter word that folds to `step`, such as `Step` or `STEP`. */
  predicate IsStepWord(h: string) {
    |h| == 4 && FoldAll(h) == "step"
  }

  /** A line that starts with such a word has the `step` of the marker pattern at its head. */
  lemma StepAtStart(h: string, rest: string)
    requires IsStepWord(h)
    ensures LiteralAt(FoldAll(h + rest), 0, "step")
  {
    var u := FoldAll(h + rest);
    assert u[..4] == FoldAll(h);
  }

  /** `Step N: text`, in any letter case, loses the whole marker. */
  lemma StepLineCleaned(h: string, d: string, l: string)
    requires IsStepWord(h) && |d| > 0 && AllDigits(d) && IsTrimmed(l)
    ensures CleanupLine(h + " " + d + ": " + l) == l
  {
    var s := h + " " + d + ": " + l;
    var n := |d|;
    assert s == h + (" " + d + ": " + l);
    StepAtStart(h, " " + d + ": " + l);
    assert s[4] == ' ' && s[5 + n] == ':' && s[6 + n] == ' ' && s[7 + n..] == l;
    assert !IsBullet(s[0]) && !IsSpace(s[0]) by {
      assert Fold(s[0]) == FoldAll(h)[0] == 's';
    }
    RunEndIs(s, 4, 5, IsSpace);
    assert SpaceEnd(s, 4) == 5;
    RunEndIs(s, 5, 5 + n, IsDigit);
    assert DigitEnd(s, 5) == 5 + n;
    assert MarkerEnd(s, 0) == 6 + n;
    StrippedAfterMarker(s, 6 + n, l);
  }

  /** A run of digits `d` at `i`, followed by a non-digit, is what the greedy `\d*` takes. */
  lemma DigitsAt(s: string, i: nat, d: string)
    requires LiteralAt(s, i, d) && AllDigits(d)
    requires i + |d| == |s| || !IsDigit(s[i + |d|])
    ensures DigitEnd(s, i) == i + |d|
  {
    forall k | i <= k < i + |d| ensures IsDigit(s[k]) {
      assert s[k] == s[i..i + |d|][k - i];
    }
    RunEndIs(s, i, i + |d|, IsDigit);
  }

  /** Neither marker alternative matches `Step N. text`. */
  lemma StepDotNotStripped(h: string, d: string, l: string)
    requires IsStepWord(h) && |d| > 0 && AllDigits(d)
    ensures var s := h + " " + d + ". " + l; StripMarker(s) == s && !IsSpace(s[0])
  {
    var s := h + " " + d + ". " + l;
    assert s == h + (" " + d + ". " + l);
    assert Fold(s[0]) == 's' by {
      assert Fold(s[0]) == FoldAll(h)[0];
    }
    assert MarkerEnd(s, 0) == 0 by {
      var n := |d|;
      StepAtStart(h, " " + d + ". " + l);
      assert s[4] == ' ' && s[5 + n] == '.';
      assert LiteralAt(s, 5, d) by {
        assert s[5..5 + n] == d;
      }
      RunEndIs(s, 4, 5, IsSpace);
      DigitsAt(s, 5, d);
      RunEndIs(s, 0, 0, IsDigit);
      assert NumberMarkerEnd(s, 0) == 0;
    }
    assert !IsBullet(s[0]) && !IsSpace(s[0]) by {
      assert s[0] == 's' || s[0] == 'S';
    }
    assert SpaceEnd(s, 0) == 0 by {
      RunEndIs(s, 0, 0, IsSpace);
    }
    assert StripMarker(s) == s[0..];
  }

  /**
    The `step` alternative only takes a colon: `Step N. text` matches neither
    alternative (the digit alternative needs a digit at the head), so the line
    is kept whole.
   */
  lemma StepDotLineKept(h: string, d: string, l: string)
    requires IsStepWord(h) && |d| > 0 && AllDigits(d) && l != [] && IsTrimmed(l)
    ensures CleanupLine(h + " " + d + ". " + l) == h + " " + d + ". " + l
  {
    var s := h + " " + d + ". " + l;
    StepDotNotStripped(h, d, l);
    assert s[4] == ' ' && s[|s| - 1] == l[|l| - 1];
    assert !IsFenceLine(s);
    TrimIdentity(s);
  }

  lemma BulletNumberedStripped(b: char, d: string, l: string)
    requires IsBullet(b) && |d| > 0 && AllDigits(d) && IsTrimmed(l)
    ensures StripMarker([b] + " " + d + ". " + l) == l
  {
    var s := [b] + " " + d + ". " + l;
    var n := |d|;
    var e := 2 + n;
    var m := e + 1;
    var t := m + 1;
    assert s[e] == '.' && s[m] == ' ' && s[t..] == l;
    assert MarkerEnd(s, 2) == m by {
      assert s[2] == d[0];
      assert LiteralAt(s, 2, d) by {
        assert s[2..e] == d;
      }
      NoStepAtDigit(s, 2);
      DigitsAt(s, 2, d);
    }
    assert SpaceEnd(s, 1) == 2 by {
      RunEndIs(s, 1, 2, IsSpace);
    }
    assert SpaceEnd(s, m) == t by {
      assert t == |s| || s[t] == l[0];
      RunEndIs(s, m, t, IsSpace);
    }
    assert s[0] == b;
  }

  /** One leading bullet and the space after it go, then the number marker. */
  lemma BulletNumberedLineCleaned(b: char, d: string, l: string)
    requires IsBullet(b) && |d| > 0 && AllDigits(d) && IsTrimmed(l)
    ensures CleanupLine([b] + " " + d + ". " + l) == l
  {
    var s := [b] + " " + d + ". " + l;
    BulletNumberedStripped(b, d, l);
    assert !IsFenceLine(s) by {
      assert s[1] == ' ';
    }
    TrimIdentity(l);
  }

  /** A bulleted plain line loses only its bullet. */
  lemma BulletLineCleaned(b: char, l: string)
    requires IsBullet(b) && IsPlainLine(l)
    ensures CleanupLine([b] + " " + l) == l
  {
    var s := [b] + " " + l;
    assert s[1] == ' ' && s[2..] == l;
    assert !IsFenceLine(s);
    if l == [] {
      RunEndIs(s, 1, 2, IsSpace);
    } else {
      assert s[2] == l[0];
      RunEndIs(s, 1, 2, IsSpace);
      assert !LiteralAt(FoldAll(s), 2, "step") by {
        assert FoldAll(s)[2..] == FoldAll(l);
      }
      RunEndIs(s, 2, 2, IsDigit);
      assert MarkerEnd(s, 2) == 2;
      RunEndIs(s, 2, 2, IsSpace);
    }
    assert StripMarker(s) == l;
    TrimIdentity(l);
  }

  /**
    Only one marker goes per call: `1. 2. x` becomes `2. x`, which a second
    call turns into `x`, so `cleanupLine` is not idempotent.
   */
  lemma CleanupNotIdempotent(d1: string, d2: string, l: string)
    requires |d1| > 0 && AllDigits(d1) && |d2| > 0 && AllDigits(d2)
    requires l != [] && IsTrimmed(l)
    ensures CleanupLine(d1 + ". " + d2 + ". " + l) == d2 + ". " + l
    ensures CleanupLine(CleanupLine(d1 + ". " + d2 + ". " + l)) == l
    ensures CleanupLine(CleanupLine(d1 + ". " + d2 + ". " + l)) != CleanupLine(d1 + ". " + d2 + ". " + l)
  {
    var once := d2 + ". " + l;
    assert d1 + ". " + d2 + ". " + l == d1 + ". " + once;
    assert IsTrimmed(once) by {
      assert once[0] == d2[0] && once[|once| - 1] == l[|l| - 1];
    }
    NumberedLineCleaned(d1, once);
    NumberedLineCleaned(d2, l);
    assert |once| > |l|;
  }

  /** A filter that rejects some element returns fewer elements than it was given. */
  lemma {:induction false} KeepDropsRejected(xs: seq<string>, keep: string -> bool, i: nat)
    requires i < |xs| && !keep(xs[i])
    ensures |Keep(xs, keep)| < |xs|
  {
    if i > 0 {
      KeepDropsRejected(xs[1..], keep, i - 1);
    }
  }

  /** A bare fence line among the debugging steps or the algorithm cleans to nothing and is dropped. */
  lemma FenceLineDropped(lines: seq<string>, i: nat)
    requires i < |lines| && IsFenceLine(lines[i])
    ensures CleanupLine(lines[i]) == ""
    ensures |CleanSteps(lines)| < |lines| && |CleanAlgorithm(lines)| < |lines|
  {
    var cleaned := CleanAll(lines);
    assert cleaned[i] == "";
    KeepDropsRejected(cleaned, NonEmpty, i);
    KeepDropsRejected(cleaned, KeptAlgorithmLine, i);
  }
  /** A filter works element by element: filtering a concatenation concatenates the filtered parts. */
  lemma {:induction false} KeepAppend(a: seq<string>, b: seq<string>, keep: string -> bool)
    ensures Keep(a + b, keep) == Keep(a, keep) + Keep(b, keep)
    decreases |a|
  {
    if a == [] {
      assert a + b == b;
    } else {
      assert (a + b)[0] == a[0] && (a + b)[1..] == a[1..] + b;
      KeepAppend(a[1..], b, keep);
    }
  }

  /** One element is kept exactly when the filter accepts it. */
  lemma KeepSingle(x: string, keep: string -> bool)
    ensures Keep([x], keep) == if keep(x) then [x] else []
  {
    assert [x][1..] == [];
  }

  lemma CleanAllAppend(a: seq<string>, b: seq<string>)
    ensures CleanAll(a + b) == CleanAll(a) + CleanAll(b)
  {
  }

  /** Cleaning the debugging steps is line by line: a block of lines gives the results of its parts, in order. */
  lemma CleanStepsAppend(a: seq<string>, b: seq<string>)
    ensures CleanSteps(a + b) == CleanSteps(a) + CleanSteps(b)
  {
    CleanAllAppend(a, b);
    KeepAppend(CleanAll(a), CleanAll(b), NonEmpty);
  }

  /** One line contributes its cleaned form exactly when that is not empty. */
  lemma CleanStepsSingle(l: string)
    ensures CleanSteps([l]) == if CleanupLine(l) != "" then [CleanupLine(l)] else []
  {
    assert CleanAll([l]) == [CleanupLine(l)];
    KeepSingle(CleanupLine(l), NonEmpty);
  }

  /** The same for the algorithm, line by line. */
  lemma CleanAlgorithmAppend(a: seq<string>, b: seq<string>)
    ensures CleanAlgorithm(a + b) == CleanAlgorithm(a) + CleanAlgorithm(b)
  {
    CleanAllAppend(a, b);
    KeepAppend(CleanAll(a), CleanAll(b), KeptAlgorithmLine);
  }

  /** One line of the algorithm is kept when its cleaned form is neither empty nor starts with a fence. */
  lemma CleanAlgorithmSingle(l: string)
    ensures CleanAlgorithm([l]) == if KeptAlgorithmLine(CleanupLine(l)) then [CleanupLine(l)] else []
  {
    assert CleanAll([l]) == [CleanupLine(l)];
    KeepSingle(CleanupLine(l), KeptAlgorithmLine);
  }
}
