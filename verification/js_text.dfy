/**
  The slice of JavaScript's string semantics the program relies on: the `\s`
  class and `trim`, `split('\n')` and `join('\n')`, ASCII case folding as
  used by regular expressions with the `i` flag, and literal search.
  Strings are sequences of code points.
 */
module JsText {
  import opened Outcomes

  /** ECMAScript WhiteSpace and LineTerminator: what `\s` matches and `trim` removes. */
  predicate IsSpace(c: char) {
    || c == '\t' || c == '\n' || c == '\U{000B}' || c == '\U{000C}' || c == '\r' || c == ' '
    || c == '\U{00A0}' || c == '\U{1680}' || ('\U{2000}' <= c <= '\U{200A}')
    || c == '\U{2028}' || c == '\U{2029}' || c == '\U{202F}' || c == '\U{205F}'
    || c == '\U{3000}' || c == '\U{FEFF}'
  }

  predicate IsDigit(c: char) {
    '0' <= c <= '9'
  }

  predicate IsAsciiLetter(c: char) {
    'a' <= c <= 'z' || 'A' <= c <= 'Z'
  }

  /** `\w` */
  predicate IsWordChar(c: char) {
    IsAsciiLetter(c) || IsDigit(c) || c == '_'
  }

  /**
    Canonical form of a character under a non-Unicode `i` regular expression,
    restricted to what the patterns here can observe: ASCII upper case folds to
    lower case, and no non-ASCII character ever folds onto an ASCII one.
   */
  function Fold(c: char): char {
    if 'A' <= c <= 'Z' then (c as int + 32) as char else c
  }

  /**
    `s` with every character replaced by its canonical form. An `i` pattern
    whose classes are closed under folding matches `s` exactly where the same
    pattern, in lower case, matches `FoldAll(s)`.
   */
  function FoldAll(s: string): (r: string)
    ensures |r| == |s| && forall k :: 0 <= k < |s| ==> r[k] == Fold(s[k])
  {
    seq(|s|, k requires 0 <= k < |s| => Fold(s[k]))
  }

  /** `s` and `t` differ at most in the case of ASCII letters. */
  predicate SameUpToCase(s: string, t: string) {
    FoldAll(s) == FoldAll(t)
  }

  /** The first index at or after `i` whose character does not satisfy `p` (or `|s|`): a greedy `p*`. */
  function RunEnd(s: string, i: nat, p: char -> bool): (e: nat)
    requires i <= |s|
    ensures i <= e <= |s|
    ensures forall k :: i <= k < e ==> p(s[k])
    ensures e == |s| || !p(s[e])
    decreases |s| - i
  {
    if i < |s| && p(s[i]) then RunEnd(s, i + 1, p) else i
  }

  /** A greedy run stops exactly at the first character outside its class. */
  lemma {:induction false} RunEndIs(s: string, i: nat, e: nat, p: char -> bool)
    requires i <= e <= |s|
    requires forall k :: i <= k < e ==> p(s[k])
    requires e == |s| || !p(s[e])
    ensures RunEnd(s, i, p) == e
    decreases e - i
  {
    if i < e {
      RunEndIs(s, i + 1, e, p);
    }
  }

  /** Greedy `\s*` starting at `i`. */
  function SpaceEnd(s: string, i: nat): (e: nat)
    requires i <= |s|
    ensures i <= e <= |s|
    ensures forall k :: i <= k < e ==> IsSpace(s[k])
    ensures e == |s| || !IsSpace(s[e])
  {
    RunEnd(s, i, IsSpace)
  }

  /** Greedy `\d*` starting at `i`. */
  function DigitEnd(s: string, i: nat): (e: nat)
    requires i <= |s|
    ensures i <= e <= |s|
    ensures forall k :: i <= k < e ==> IsDigit(s[k])
    ensures e == |s| || !IsDigit(s[e])
  {
    RunEnd(s, i, IsDigit)
  }

  /** One past the last non-space character of `s[..e]`, or 0. */
  function TrimEndIndex(s: string, e: nat): (b: nat)
    requires e <= |s|
    ensures b <= e
    ensures forall k :: b <= k < e ==> IsSpace(s[k])
    ensures b == 0 || !IsSpace(s[b - 1])
  {
    if e > 0 && IsSpace(s[e - 1]) then TrimEndIndex(s, e - 1) else e
  }

  /** `String.prototype.trim`. */
  function Trim(s: string): (r: string)
    ensures r == [] || (!IsSpace(r[0]) && !IsSpace(r[|r| - 1]))
    ensures r == [] <==> forall k :: 0 <= k < |s| ==> IsSpace(s[k])
    ensures exists a, b :: 0 <= a <= b <= |s| && r == s[a..b]
                           && (forall k :: 0 <= k < a ==> IsSpace(s[k]))
                           && (forall k :: b <= k < |s| ==> IsSpace(s[k]))
  {
    var a := SpaceEnd(s, 0);
    var b := TrimEndIndex(s, |s|);
    if b <= a then
      assert forall k :: 0 <= k < |s| ==> IsSpace(s[k]) by {
        forall k | 0 <= k < |s| ensures IsSpace(s[k]) {
          if k >= b { } else { assert k < a; }
        }
      }
      assert s[0..0] == [];
      []
    else
      s[a..b]
  }

  /** A string that `trim` leaves alone. */
  predicate IsTrimmed(s: string) {
    s == [] || (!IsSpace(s[0]) && !IsSpace(s[|s| - 1]))
  }

  lemma TrimIdentity(s: string)
    requires IsTrimmed(s)
    ensures Trim(s) == s
  {
    if s != [] {
      assert SpaceEnd(s, 0) == 0;
      assert TrimEndIndex(s, |s|) == |s|;
    }
  }

  /** `s` starts with the literal `w` (case-sensitive). */
  predicate StartsWith(s: string, w: string) {
    |w| <= |s| && s[..|w|] == w
  }

  /** The literal `w` occurs in `s` at `i` (case-sensitive). */
  predicate LiteralAt(s: string, i: nat, w: string) {
    i + |w| <= |s| && s[i..i + |w|] == w
  }

  /** `w` occurs somewhere in `s`. */
  predicate Mentions(s: string, w: string) {
    exists i :: 0 <= i <= |s| && LiteralAt(s, i, w)
  }

  /** `s.indexOf(w, from)`: the first index at or after `from` where `w` occurs. */
  function IndexOf(s: string, w: string, from: nat): (r: Option<nat>)
    requires from <= |s|
    ensures r.None? <==> forall k :: from <= k <= |s| ==> !LiteralAt(s, k, w)
    ensures r.Some? ==> from <= r.value <= |s| && LiteralAt(s, r.value, w)
                        && forall k :: from <= k < r.value ==> !LiteralAt(s, k, w)
    decreases |s| - from
  {
    if LiteralAt(s, from, w) then Some(from)
    else if from == |s| then None
    else IndexOf(s, w, from + 1)
  }

  /** The first position `p` in `[from, last]` where `f(p)` holds a value: a leftmost-match search. */
  function Leftmost<T>(f: nat -> Option<T>, from: nat, last: nat): (r: Option<nat>)
    ensures r.None? <==> forall p :: from <= p <= last ==> f(p).None?
    ensures r.Some? ==> from <= r.value <= last && f(r.value).Some?
                        && forall p :: from <= p < r.value ==> f(p).None?
    decreases last + 1 - from
  {
    if from > last then None
    else if f(from).Some? then Some(from)
    else Leftmost(f, from + 1, last)
  }

  /** `Array.prototype.join('\n')` on a non-empty array. */
  function Join(parts: seq<string>): string
    requires |parts| >= 1
  {
    if |parts| == 1 then parts[0] else parts[0] + "\n" + Join(parts[1..])
  }

  /** Number of occurrences of `c` in `s`. */
  function Count(s: string, c: char): nat {
    if s == [] then 0 else (if s[0] == c then 1 else 0) + Count(s[1..], c)
  }

  lemma JoinCons(c: char, head: string, tail: seq<string>)
    ensures Join([[c] + head] + tail) == [c] + Join([head] + tail)
  {
    if tail != [] {
      assert ([[c] + head] + tail)[1..] == tail;
      assert ([head] + tail)[1..] == tail;
    }
  }

  /**
    `String.prototype.split('\n')`: every piece is newline-free, the pieces
    joined with newlines give back the input, and there is one piece more than
    there are newlines (so even `""` yields one piece).
   */
  function Split(s: string): (parts: seq<string>)
    ensures |parts| == Count(s, '\n') + 1
    ensures forall i :: 0 <= i < |parts| ==> '\n' !in parts[i]
    ensures Join(parts) == s
  {
    if s == [] then [""]
    else
      var rest := Split(s[1..]);
      if s[0] == '\n' then
        assert ([""] + rest)[1..] == rest;
        assert s == "\n" + s[1..];
        [""] + rest
      else
        var parts := [[s[0]] + rest[0]] + rest[1..];
        JoinCons(s[0], rest[0], rest[1..]);
        assert [rest[0]] + rest[1..] == rest;
        assert s == [s[0]] + s[1..];
        parts
  }

  /** Splitting undoes joining newline-free pieces. */
  lemma {:induction false} SplitJoin(parts: seq<string>)
    requires |parts| >= 1
    requires forall i :: 0 <= i < |parts| ==> '\n' !in parts[i]
    ensures Split(Join(parts)) == parts
    decreases |Join(parts)|
  {
    var head := parts[0];
    if |parts| == 1 {
      if head == [] {
      } else {
        var s := Join(parts);
        assert s == head;
        var shorter := [head[1..]];
        SplitJoin(shorter);
        assert Join(shorter) == s[1..];
      }
    } else if head == [] {
      var s := Join(parts);
      assert s == "\n" + Join(parts[1..]);
      assert s[1..] == Join(parts[1..]);
      SplitJoin(parts[1..]);
      assert parts == [""] + parts[1..];
    } else {
      var s := Join(parts);
      var shorter := [head[1..]] + parts[1..];
      JoinCons(head[0], head[1..], parts[1..]);
      assert [head[0]] + head[1..] == head;
      assert parts == [[head[0]] + head[1..]] + parts[1..];
      assert s == [head[0]] + Join(shorter);
      assert s[1..] == Join(shorter);
      SplitJoin(shorter);
      assert shorter[0] == head[1..] && shorter[1..] == parts[1..];
    }
  }

  /** `Array.prototype.join('\n')`, also on an empty array; splitting gives back newline-free lines. */
  function JoinLines(lines: seq<string>): (r: string)
    ensures lines == [] ==> r == ""
    ensures lines != [] && (forall i :: 0 <= i < |lines| ==> '\n' !in lines[i]) ==> Split(r) == lines
  {
    if lines == [] then ""
    else
      if forall i :: 0 <= i < |lines| ==> '\n' !in lines[i] then
        SplitJoin(lines);
        Join(lines)
      else
        Join(lines)
  }

  /** Decimal digits of a natural number. */
  function NatToString(n: nat): (r: string)
    ensures |r| >= 1 && forall k :: 0 <= k < |r| ==> IsDigit(r[k])
    decreases n
  {
    var d := [('0' as int + n % 10) as char];
    if n < 10 then d else NatToString(n / 10) + d
  }

  /** Occurrences add up over concatenation. */
  lemma {:induction false} CountAppend(a: string, b: string, c: char)
    ensures Count(a + b, c) == Count(a, c) + Count(b, c)
    decreases |a|
  {
    if a != [] {
      assert (a + b)[1..] == a[1..] + b;
      CountAppend(a[1..], b, c);
    } else {
      assert a + b == b;
    }
  }
}
