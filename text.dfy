/**
 * The few Python 2 `str` operations the server relies on, on `seq<char>`:
 * `s.split(c)` for a one-character separator, `s.splitlines()`, ASCII
 * `s.lower()`, and the `sub in s` substring test.
 */
module Text {

  /** The index of an occurrence of `c` in `s`: the first one, as `IndexOfSplit` shows. */
  function IndexOf(s: string, c: char): (i: nat)
    requires c in s
    ensures i < |s| && s[i] == c
  {
    if s[0] == c then 0 else IndexOf(s[1..], c) + 1
  }

  /** No `c` occurs before `IndexOf(s, c)`. */
  lemma {:induction false} IndexOfFirst(s: string, c: char)
    requires c in s
    ensures forall k :: 0 <= k < IndexOf(s, c) ==> s[k] != c
  {
    if s[0] != c {
      IndexOfFirst(s[1..], c);
      assert forall k :: 1 <= k < IndexOf(s, c) ==> s[k] == s[1..][k - 1];
    }
  }

  /** The text splits around its first `c`, with no `c` before it. */
  lemma IndexOfSplit(s: string, c: char)
    requires c in s
    ensures var i := IndexOf(s, c);
      s == s[..i] + [c] + s[i + 1..] && c !in s[..i]
  {
    var i := IndexOf(s, c);
    IndexOfFirst(s, c);
    assert forall k :: 0 <= k < i ==> s[..i][k] == s[k];
  }

  /** The first index is determined by the text before it. */
  lemma IndexOfAfter(a: string, c: char, b: string)
    requires c !in a
    ensures c in a + [c] + b && IndexOf(a + [c] + b, c) == |a|
  {
    var s := a + [c] + b;
    assert s[|a|] == c;
    assert forall k :: 0 <= k < |a| ==> s[k] == a[k];
    IndexOfFirst(s, c);
  }

  /** Joins `parts` with `sep` between each two, the inverse of `Split`. */
  function Join(parts: seq<string>, sep: char): string
    requires |parts| >= 1
  {
    if |parts| == 1 then parts[0] else parts[0] + [sep] + Join(parts[1..], sep)
  }

  /**
   * Python's `s.split(sep)`: the maximal pieces of `s` between occurrences of
   * `sep`, empty pieces included, so there is always at least one piece.
   */
  function Split(s: string, sep: char): (parts: seq<string>)
    ensures |parts| >= 1
    decreases |s|
  {
    if sep !in s then [s]
    else
      var i := IndexOf(s, sep);
      [s[..i]] + Split(s[i + 1..], sep)
  }

  /** No piece of `s.split(sep)` contains the separator. */
  lemma {:induction false} SplitPiecesFree(s: string, sep: char)
    ensures forall i :: 0 <= i < |Split(s, sep)| ==> sep !in Split(s, sep)[i]
    decreases |s|
  {
    if sep in s {
      var i := IndexOf(s, sep);
      var rest := Split(s[i + 1..], sep);
      IndexOfSplit(s, sep);
      SplitPiecesFree(s[i + 1..], sep);
      assert Split(s, sep) == [s[..i]] + rest;
      forall k | 0 <= k < |Split(s, sep)|
        ensures sep !in Split(s, sep)[k]
      {
        if k > 0 {
          assert Split(s, sep)[k] == rest[k - 1];
        }
      }
    }
  }

  /** There is more than one piece exactly when the separator occurs. */
  lemma SplitCount(s: string, sep: char)
    ensures (sep in s) <==> |Split(s, sep)| >= 2
  {
  }

  /** Round trip: joining the pieces of `s` gives `s` back. */
  lemma {:induction false} JoinSplit(s: string, sep: char)
    ensures Join(Split(s, sep), sep) == s
    decreases |s|
  {
    if sep in s {
      var i := IndexOf(s, sep);
      var rest := Split(s[i + 1..], sep);
      JoinSplit(s[i + 1..], sep);
      assert ([s[..i]] + rest)[1..] == rest;
      assert s == s[..i] + [sep] + s[i + 1..];
    }
  }

  /** Splitting at a first separator gives the text before it, then the split of the rest. */
  lemma SplitAt(a: string, sep: char, b: string)
    requires sep !in a
    ensures Split(a + [sep] + b, sep) == [a] + Split(b, sep)
  {
    IndexOfAfter(a, sep, b);
    var s := a + [sep] + b;
    assert s[..|a|] == a && s[|a| + 1..] == b;
  }

  /** A piece that ends at a separator or at the end of the text is the first piece. */
  lemma SplitFirst(a: string, sep: char, rest: string)
    requires sep !in a
    requires rest == [] || rest[0] == sep
    ensures Split(a + rest, sep)[0] == a
  {
    if rest == [] {
      assert a + rest == a;
    } else {
      assert a + rest == a + [sep] + rest[1..];
      SplitAt(a, sep, rest[1..]);
    }
  }

  /**
   * `s.split(sep)[-1]`, the text after the last separator: the whole text
   * when there is none, otherwise the last piece of what follows the first.
   */
  function LastPiece(s: string, sep: char): string
    decreases |s|
  {
    if sep !in s then s else LastPiece(s[IndexOf(s, sep) + 1..], sep)
  }

  /** `LastPiece` is the last element of `Split`. */
  lemma LastPieceOfSplit(s: string, sep: char)
    ensures var parts := Split(s, sep); LastPiece(s, sep) == parts[|parts| - 1]
  {
    var parts := Split(s, sep);
    LastPieceSuffix(s, sep);
    SplitLastSuffix(s, sep);
    LastSuffixUnique(s, sep, LastPiece(s, sep), parts[|parts| - 1]);
  }

  /** The last element of `Split` is the longest separator-free suffix. */
  lemma {:induction false} SplitLastSuffix(s: string, sep: char)
    ensures var parts := Split(s, sep); IsLastSuffix(s, sep, parts[|parts| - 1])
    decreases |s|
  {
    var parts := Split(s, sep);
    if sep !in s {
      WholeIsLastSuffix(s, sep, parts);
    } else {
      var i := IndexOf(s, sep);
      var rest := Split(s[i + 1..], sep);
      SplitLastSuffix(s[i + 1..], sep);
      assert parts == [s[..i]] + rest;
      LastSuffixStep(s, sep, i, s[..i], rest, parts);
    }
  }

  /** A text without the separator is its own last piece. */
  lemma WholeIsLastSuffix(s: string, sep: char, parts: seq<string>)
    requires sep !in s && parts == [s]
    ensures IsLastSuffix(s, sep, parts[|parts| - 1])
  {
    assert s[0..] == s;
  }

  /** The step of `SplitLastSuffix`: a piece put in front keeps the last piece. */
  lemma LastSuffixStep(s: string, sep: char, i: nat, x: string, rest: seq<string>, parts: seq<string>)
    requires i < |s| && s[i] == sep && |rest| >= 1 && parts == [x] + rest
    requires IsLastSuffix(s[i + 1..], sep, rest[|rest| - 1])
    ensures IsLastSuffix(s, sep, parts[|parts| - 1])
  {
    LastOfCons(x, rest, parts);
    SuffixOfTail(s, sep, i, s[i + 1..], rest[|rest| - 1]);
  }

  /** There is only one longest separator-free suffix. */
  lemma LastSuffixUnique(s: string, sep: char, e1: string, e2: string)
    requires IsLastSuffix(s, sep, e1) && IsLastSuffix(s, sep, e2)
    ensures e1 == e2
  {
    SuffixFree(s, sep, e1);
    SuffixFree(s, sep, e2);
    assert |e1| == |e2|;
  }

  /** No character of a separator-free suffix is the separator. */
  lemma SuffixFree(s: string, sep: char, e: string)
    requires IsLastSuffix(s, sep, e)
    ensures forall k :: |s| - |e| <= k < |s| ==> s[k] != sep
  {
    forall k | |s| - |e| <= k < |s|
      ensures s[k] != sep
    {
      assert s[k] == e[k - (|s| - |e|)];
    }
  }

  lemma LastOfCons<T>(x: T, xs: seq<T>, ys: seq<T>)
    requires |xs| >= 1 && ys == [x] + xs
    ensures ys[|ys| - 1] == xs[|xs| - 1]
  {
  }

  /** Text before a separator does not change the last piece. */
  lemma LastPieceAfter(a: string, sep: char, b: string)
    requires sep !in a
    ensures LastPiece(a + [sep] + b, sep) == LastPiece(b, sep)
  {
    IndexOfAfter(a, sep, b);
    var s := a + [sep] + b;
    assert s[|a| + 1..] == b;
  }

  /** The text after the last separator is the last piece. */
  lemma {:induction false} SplitLast(p: string, sep: char, e: string)
    requires sep !in e
    ensures LastPiece(p + [sep] + e, sep) == e
    decreases |p|
  {
    if sep !in p {
      LastPieceAfter(p, sep, e);
    } else {
      var i := IndexOf(p, sep);
      var p1, p2 := p[..i], p[i + 1..];
      var tail := p2 + [sep] + e;
      IndexOfSplit(p, sep);
      assert p + [sep] + e == p1 + [sep] + tail;
      LastPieceAfter(p1, sep, tail);
      SplitLast(p2, sep, e);
    }
  }

  /**
   * `e` is the longest suffix of `s` free of the separator: the whole text
   * when it has no separator, otherwise what follows a separator.
   */
  predicate IsLastSuffix(s: string, sep: char, e: string) {
    && |e| <= |s| && s[|s| - |e|..] == e && sep !in e
    && (sep !in s ==> e == s)
    && (sep in s ==> |e| < |s| && s[|s| - |e| - 1] == sep)
  }

  /** The last piece is the longest separator-free suffix. */
  lemma {:induction false} LastPieceSuffix(s: string, sep: char)
    ensures IsLastSuffix(s, sep, LastPiece(s, sep))
    decreases |s|
  {
    if sep !in s {
      assert s[0..] == s;
    } else {
      var i := IndexOf(s, sep);
      var b := s[i + 1..];
      LastPieceSuffix(b, sep);
      SuffixOfTail(s, sep, i, b, LastPiece(b, sep));
    }
  }

  /** A separator-led suffix of the text after index `i` is one of the whole text. */
  lemma SuffixOfTail(s: string, sep: char, i: nat, b: string, e: string)
    requires i < |s| && s[i] == sep && b == s[i + 1..]
    requires IsLastSuffix(b, sep, e)
    ensures IsLastSuffix(s, sep, e)
  {
    assert s[|s| - |e|..] == b[|b| - |e|..];
    if sep in b {
      assert s[|s| - |e| - 1] == b[|b| - |e| - 1];
    } else {
      assert |s| - |e| - 1 == i;
    }
  }


  /** Round trip: splitting the join of separator-free pieces gives the pieces back. */
  lemma {:induction false} SplitJoin(parts: seq<string>, sep: char)
    requires |parts| >= 1
    requires forall i :: 0 <= i < |parts| ==> sep !in parts[i]
    ensures Split(Join(parts, sep), sep) == parts
    decreases |parts|
  {
    if |parts| > 1 {
      var tail := parts[1..];
      var rest := Join(tail, sep);
      assert Join(parts, sep) == parts[0] + [sep] + rest;
      assert sep !in parts[0];
      assert forall i :: 0 <= i < |tail| ==> sep !in tail[i] by {
        forall i | 0 <= i < |tail|
          ensures sep !in tail[i]
        {
          assert tail[i] == parts[i + 1];
        }
      }
      SplitJoin(tail, sep);
      SplitAt(parts[0], sep, rest);
      assert [parts[0]] + tail == parts;
    }
  }

  predicate IsBreak(c: char) { c == '\r' || c == '\n' }

  predicate HasBreak(s: string) { exists i :: 0 <= i < |s| && IsBreak(s[i]) }

  /** The index of the first line-break character of `s`. */
  function FirstBreak(s: string): (i: nat)
    requires HasBreak(s)
    ensures i < |s| && IsBreak(s[i]) && !HasBreak(s[..i])
  {
    if IsBreak(s[0]) then 0
    else
      assert HasBreak(s[1..]) by {
        var k :| 0 <= k < |s| && IsBreak(s[k]);
        assert s[1..][k - 1] == s[k];
      }
      var j := FirstBreak(s[1..]);
      assert s[..j + 1] == [s[0]] + s[1..][..j];
      j + 1
  }

  /**
   * Python 2's `str.splitlines()`: the lines of `s`, each without its
   * terminator, where `\r\n`, `\n` and `\r` end a line, and a terminator at
   * the very end does not start a further, empty line.
   */
  function SplitLines(s: string): (lines: seq<string>)
    ensures s != [] <==> lines != []
    decreases |s|
  {
    if s == [] then []
    else if !HasBreak(s) then [s]
    else [s[..FirstBreak(s)]] + SplitLines(s[NextLineStart(s)..])
  }

  /** No line of `splitlines()` holds a line break. */
  lemma {:induction false} SplitLinesNoBreak(s: string)
    ensures forall k :: 0 <= k < |SplitLines(s)| ==> !HasBreak(SplitLines(s)[k])
    decreases |s|
  {
    if s != [] && HasBreak(s) {
      var rest := s[NextLineStart(s)..];
      SplitLinesNoBreak(rest);
      var lines := SplitLines(s);
      assert lines == [s[..FirstBreak(s)]] + SplitLines(rest);
      forall k | 0 <= k < |lines|
        ensures !HasBreak(lines[k])
      {
        if k > 0 {
          assert lines[k] == SplitLines(rest)[k - 1];
        }
      }
    }
  }

  /** `s.splitlines()[-1]` on a non-empty `s`. */
  function LastLine(s: string): string
    requires s != []
  {
    var lines := SplitLines(s);
    lines[|lines| - 1]
  }

  /** Appending text after a line break does not move the first line break. */
  lemma FirstBreakAppend(p: string, b: string)
    requires HasBreak(p)
    ensures HasBreak(p + b) && FirstBreak(p + b) == FirstBreak(p)
  {
    var s := p + b;
    var i := FirstBreak(p);
    assert s[i] == p[i];
    assert forall k :: 0 <= k < |p| ==> s[k] == p[k];
  }

  /** Where the text after the first line of `s` starts. */
  function NextLineStart(s: string): (j: nat)
    requires HasBreak(s)
    ensures FirstBreak(s) < j <= |s|
  {
    var i := FirstBreak(s);
    if s[i] == '\r' && i + 1 < |s| && s[i + 1] == '\n' then i + 2 else i + 1
  }

  /** Text without line breaks that follows a line break is the last line. */
  lemma {:induction false} SplitLinesAppend(p: string, b: string)
    requires p != [] && IsBreak(p[|p| - 1])
    requires b != [] && !HasBreak(b)
    ensures SplitLines(p + b) == SplitLines(p) + [b]
    decreases |p|
  {
    var s := p + b;
    assert HasBreak(p) by { assert IsBreak(p[|p| - 1]); }
    FirstBreakAppend(p, b);
    var i := FirstBreak(p);
    assert !IsBreak(b[0]) by { assert !HasBreak(b); }
    assert s[i] == p[i] && s[..i] == p[..i];
    assert i + 1 == |p| ==> s[i + 1] == b[0];
    var j := NextLineStart(p);
    assert NextLineStart(s) == j;
    assert j <= |p|;
    assert s[j..] == p[j..] + b;
    SplitLinesTail(p, b, i, j);
  }

  /** The step of `SplitLinesAppend` after the first line of `p` is split off. */
  lemma {:induction false} SplitLinesTail(p: string, b: string, i: nat, j: nat)
    requires p != [] && IsBreak(p[|p| - 1])
    requires b != [] && !HasBreak(b)
    requires HasBreak(p) && HasBreak(p + b)
    requires i == FirstBreak(p) == FirstBreak(p + b) && j == NextLineStart(p) == NextLineStart(p + b)
    requires j <= |p| && (p + b)[..i] == p[..i] && (p + b)[j..] == p[j..] + b
    ensures SplitLines(p + b) == SplitLines(p) + [b]
    decreases |p|, 0
  {
    SplitLinesUnfold(p + b);
    SplitLinesUnfold(p);
    var t := p[j..];
    if j == |p| {
      LineAlone(t, b);
    } else {
      assert t[|t| - 1] == p[|p| - 1];
      SplitLinesAppend(t, b);
    }
    ConsAppend(p[..i], SplitLines(t), b);
  }

  /** Text without line breaks is one line. */
  lemma LineAlone(t: string, b: string)
    requires t == [] && b != [] && !HasBreak(b)
    ensures SplitLines(t + b) == SplitLines(t) + [b]
  {
    assert t + b == b;
  }

  /** A text with a line break splits into its first line, then the lines after its terminator. */
  lemma SplitLinesUnfold(s: string)
    requires HasBreak(s)
    ensures SplitLines(s) == [s[..FirstBreak(s)]] + SplitLines(s[NextLineStart(s)..])
  {
  }

  lemma ConsAppend<T>(x: T, xs: seq<T>, y: T)
    ensures [x] + (xs + [y]) == [x] + xs + [y]
  {
  }

  /** The last line of a text ending `<line break><body>` is the body. */
  lemma LastLineIsBody(p: string, b: string)
    requires p != [] && IsBreak(p[|p| - 1])
    requires b != [] && !HasBreak(b)
    ensures LastLine(p + b) == b
  {
    SplitLinesAppend(p, b);
  }

  /** `s` without the one line terminator it ends with, if it ends with one. */
  function DropTerminator(s: string): (d: string)
    ensures |d| <= |s| && s[..|d|] == d
  {
    if |s| >= 2 && s[|s| - 2] == '\r' && s[|s| - 1] == '\n' then s[..|s| - 2]
    else if s != [] && IsBreak(s[|s| - 1]) then s[..|s| - 1]
    else s
  }

  /**
   * `e` is the final line of `t`: a suffix without line breaks that is all
   * of `t` or follows a line break.
   */
  predicate IsFinalLine(t: string, e: string) {
    && |e| <= |t| && t[|t| - |e|..] == e && !HasBreak(e)
    && (|e| < |t| ==> IsBreak(t[|t| - |e| - 1]))
  }

  /** A text has only one final line. */
  lemma FinalLineUnique(t: string, e1: string, e2: string)
    requires IsFinalLine(t, e1) && IsFinalLine(t, e2)
    ensures e1 == e2
  {
  }

  /**
   * The last element of `splitlines()` is the final line of the text once
   * its one trailing terminator, if any, is dropped.
   */
  lemma {:induction false} LastLineFinal(s: string)
    requires s != []
    ensures IsFinalLine(DropTerminator(s), LastLine(s))
    decreases |s|
  {
    if !HasBreak(s) {
      WholeLineFinal(s);
    } else {
      var j := NextLineStart(s);
      if j == |s| {
        LastTerminatorDropped(s, FirstBreak(s), j);
      } else {
        LastLineFinal(s[j..]);
        LastLineStep(s, j);
      }
    }
  }

  /** Text without line breaks is its own last line and final line. */
  lemma WholeLineFinal(s: string)
    requires s != [] && !HasBreak(s)
    ensures IsFinalLine(DropTerminator(s), LastLine(s))
  {
    assert !IsBreak(s[|s| - 1]);
    assert s[0..] == s;
  }

  /** A text whose first line ends with its only terminator: dropping it leaves that line. */
  lemma LastTerminatorDropped(s: string, i: nat, j: nat)
    requires HasBreak(s) && i == FirstBreak(s) && j == NextLineStart(s) && j == |s|
    ensures IsFinalLine(DropTerminator(s), LastLine(s))
  {
    SplitLinesUnfold(s);
    assert s[j..] == [];
    var x := s[..i];
    assert LastLine(s) == x;
    assert x[0..] == x;
    if i > 0 {
      assert x[i - 1] == s[i - 1];
    }
    assert DropTerminator(s) == x;
  }

  /** The step of `LastLineFinal`: a first line put in front keeps the last line. */
  lemma LastLineStep(s: string, j: nat)
    requires HasBreak(s) && j == NextLineStart(s) && j < |s|
    requires IsFinalLine(DropTerminator(s[j..]), LastLine(s[j..]))
    ensures IsFinalLine(DropTerminator(s), LastLine(s))
  {
    LastLineOfTail(s, j);
    BreakBeforeTail(s, j);
    FinalLineOfTail(s, j, LastLine(s[j..]));
  }

  /** The final line of the text after a line break is the final line of the whole text. */
  lemma FinalLineOfTail(s: string, j: nat, e: string)
    requires 0 < j < |s| && IsBreak(s[j - 1]) && !(s[j - 1] == '\r' && s[j] == '\n')
    requires IsFinalLine(DropTerminator(s[j..]), e)
    ensures IsFinalLine(DropTerminator(s), e)
  {
    DropAfterBreak(s, j, s[j..]);
    FinalLineAfterBreak(s[..j], DropTerminator(s[j..]), e);
  }

  /** The last line of a text is that of the text after its first line, when there is some. */
  lemma LastLineOfTail(s: string, j: nat)
    requires HasBreak(s) && j == NextLineStart(s) && j < |s|
    ensures LastLine(s) == LastLine(s[j..])
  {
    SplitLinesUnfold(s);
    LastOfCons(s[..FirstBreak(s)], SplitLines(s[j..]), SplitLines(s));
  }

  /** The first terminator ends in a line break, and a `\r` in it is not followed by `\n`. */
  lemma BreakBeforeTail(s: string, j: nat)
    requires HasBreak(s) && j == NextLineStart(s) && j < |s|
    ensures IsBreak(s[j - 1]) && !(s[j - 1] == '\r' && s[j] == '\n')
  {
  }

  /** Dropping the terminator of a text after a line break drops it from the part after the break. */
  lemma DropAfterBreak(s: string, j: nat, r: string)
    requires 0 < j < |s| && r == s[j..] && IsBreak(s[j - 1])
    requires !(s[j - 1] == '\r' && s[j] == '\n')
    ensures DropTerminator(s) == s[..j] + DropTerminator(r)
  {
    var n := |s|;
    assert s[n - 1] == r[|r| - 1];
    if |r| >= 2 {
      assert s[n - 2] == r[|r| - 2];
      assert s[..n - 2] == s[..j] + r[..|r| - 2];
      assert s[..n - 1] == s[..j] + r[..|r| - 1];
      assert s == s[..j] + r;
    } else {
      assert s[n - 2] == s[j - 1];
      assert s[..n - 1] == s[..j] + r[..0];
      assert s == s[..j] + r;
    }
  }

  /** Text ending in a line break, put in front, keeps the final line. */
  lemma FinalLineAfterBreak(p: string, d: string, e: string)
    requires p != [] && IsBreak(p[|p| - 1]) && IsFinalLine(d, e)
    ensures IsFinalLine(p + d, e)
  {
    var t := p + d;
    assert t[|t| - |e|..] == d[|d| - |e|..];
    if |e| < |d| {
      assert t[|t| - |e| - 1] == d[|d| - |e| - 1];
    } else {
      assert t[|t| - |e| - 1] == p[|p| - 1];
    }
  }

  /** A text whose last line is blank, after its terminator is dropped, has `""` as its last line. */
  lemma LastLineBlank(s: string)
    requires s != []
    requires var d := DropTerminator(s); d != [] && IsBreak(d[|d| - 1])
    ensures LastLine(s) == ""
  {
    LastLineFinal(s);
  }

  /** Text put in front of a text of two or more characters does not change which terminator is dropped. */
  lemma DropTerminatorAppend(p: string, h: string)
    requires |h| >= 2
    ensures DropTerminator(p + h) == p + DropTerminator(h)
  {
    var s, n, m := p + h, |p + h|, |h|;
    assert s[n - 1] == h[m - 1] && s[n - 2] == h[m - 2];
    assert s[..n - 2] == p + h[..m - 2];
    assert s[..n - 1] == p + h[..m - 1];
  }

  /** Lines without breaks, each followed by `\n`. */
  function JoinLines(lines: seq<string>): string
  {
    if lines == [] then "" else lines[0] + "\n" + JoinLines(lines[1..])
  }

  /** Round trip: `splitlines()` of lines each ended by `\n` gives the lines back. */
  lemma {:induction false} SplitLinesJoin(lines: seq<string>)
    requires forall k :: 0 <= k < |lines| ==> !HasBreak(lines[k])
    ensures SplitLines(JoinLines(lines)) == lines
    decreases |lines|
  {
    if lines != [] {
      var l, rest := lines[0], JoinLines(lines[1..]);
      var s := JoinLines(lines);
      assert s == l + "\n" + rest;
      assert s[|l|] == '\n' && s[..|l|] == l;
      assert HasBreak(s) by { assert IsBreak(s[|l|]); }
      FirstBreakAt(s, |l|);
      assert s[|l| + 1..] == rest;
      SplitLinesUnfold(s);
      SplitLinesJoin(lines[1..]);
      assert lines == [l] + lines[1..];
    }
  }

  /** A line break with none before it is the first line break. */
  lemma FirstBreakAt(s: string, k: nat)
    requires k < |s| && IsBreak(s[k]) && !HasBreak(s[..k])
    ensures HasBreak(s) && FirstBreak(s) == k
  {
  }

  /** Python 2's `c.lower()` on one character: ASCII letters only. */
  function LowerChar(c: char): (l: char)
    ensures 'A' <= c <= 'Z' ==> l as int == c as int + 32
    ensures !('A' <= c <= 'Z') ==> l == c
  {
    if 'A' <= c <= 'Z' then (c as int + 32) as char else c
  }

  /** Python 2's `s.lower()` under the default locale. */
  function Lower(s: string): (r: string)
    ensures |r| == |s|
    ensures forall i :: 0 <= i < |s| ==> r[i] == LowerChar(s[i])
  {
    if s == [] then [] else [LowerChar(s[0])] + Lower(s[1..])
  }

  /** Lower-casing works character by character, so it distributes over concatenation. */
  lemma {:induction false} LowerAppend(a: string, b: string)
    ensures Lower(a + b) == Lower(a) + Lower(b)
  {
    if a == [] {
      assert a + b == b;
    } else {
      assert (a + b)[1..] == a[1..] + b;
      LowerAppend(a[1..], b);
    }
  }

  /** Python's `sub in s` on strings. */
  predicate Contains(s: string, sub: string) {
    exists i :: 0 <= i <= |s| && OccursAt(s, sub, i)
  }

  /** Text placed between two others occurs where it was placed. */
  lemma OccursInMiddle(a: string, b: string, c: string)
    ensures OccursAt(a + b + c, b, |a|)
  {
    assert (a + b + c)[|a|..|a| + |b|] == b;
  }

  /** Surrounding text keeps what a text contains. */
  lemma ContainsWithin(a: string, b: string, c: string, sub: string)
    requires Contains(b, sub)
    ensures Contains(a + b + c, sub)
  {
    var i :| 0 <= i <= |b| && OccursAt(b, sub, i);
    assert (a + b + c)[|a| + i..|a| + i + |sub|] == b[i..i + |sub|];
    assert OccursAt(a + b + c, sub, |a| + i);
  }

  /** `sub` occurs in `s` starting at index `i`. */
  predicate OccursAt(s: string, sub: string, i: nat) {
    i + |sub| <= |s| && s[i..i + |sub|] == sub
  }
}
