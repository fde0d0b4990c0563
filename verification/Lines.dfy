/** Python's string operations on lines and white space: `splitlines(keepends=True)`, `"".join`, `strip`. */
module Lines {
  import Seqs

  predicate IsSep(c: char) {
    || c == '\n' || c == '\r' || '\U{0b}' <= c <= '\U{0c}' || '\U{1c}' <= c <= '\U{1e}'
    || c == '\U{85}' || c == '\U{2028}' || c == '\U{2029}'
  }

  /** Where the first line ends, its terminator included; `\r\n` is one terminator. */
  function LineEnd(t: string): (n: nat)
    requires t != ""
    ensures 1 <= n <= |t|
  {
    if t[0] == '\r' && |t| > 1 && t[1] == '\n' then 2
    else if IsSep(t[0]) || |t| == 1 then 1
    else 1 + LineEnd(t[1..])
  }

  function SplitLines(t: string): seq<string>
    decreases |t|
  {
    if t == "" then [] else [t[..LineEnd(t)]] + SplitLines(t[LineEnd(t)..])
  }

  function Join(ls: seq<string>): string {
    if ls == [] then "" else ls[0] + Join(ls[1..])
  }

  predicate Ended(l: string) { l != "" && IsSep(l[|l| - 1]) }

  predicate OneLine(l: string) { l != "" && LineEnd(l) == |l| }

  /** A line followed by another is terminated, and the two do not share a `\r\n`. */
  predicate Apart(l: string, next: string) {
    Ended(l) && !(l[|l| - 1] == '\r' && next != "" && next[0] == '\n')
  }

  predicate AreLines(ls: seq<string>) {
    ls != [] ==>
      && OneLine(ls[0])
      && (|ls| > 1 ==> Apart(ls[0], ls[1]))
      && AreLines(ls[1..])
  }

  predicate EachIsLine(ls: seq<string>) {
    forall i :: 0 <= i < |ls| ==> OneLine(ls[i]) && (i < |ls| - 1 ==> Ended(ls[i]))
  }

  lemma {:induction false} LinesAreEnded(ls: seq<string>)
    requires AreLines(ls)
    ensures EachIsLine(ls)
  {
    if ls != [] {
      LinesAreEnded(ls[1..]);
      assert forall i :: 1 <= i < |ls| ==> ls[i] == ls[1..][i - 1];
    }
  }

  /** Where no line has a carriage return, terminated lines are lines. */
  lemma {:induction false} EndedAreLines(ls: seq<string>)
    requires EachIsLine(ls) && forall i :: 0 <= i < |ls| ==> '\r' !in ls[i]
    ensures AreLines(ls)
  {
    if ls != [] {
      assert forall i :: 0 <= i < |ls| - 1 ==> ls[1..][i] == ls[i + 1];
      EndedAreLines(ls[1..]);
      assert ls[0][|ls[0]| - 1] in ls[0];
    }
  }

  lemma {:induction false} LineEndOfConcat(l: string, rest: string)
    requires OneLine(l) && Apart(l, rest)
    ensures LineEnd(l + rest) == |l|
  {
    if |l| > 1 && !IsSep(l[0]) {
      assert (l + rest)[1..] == l[1..] + rest;
      LineEndOfConcat(l[1..], rest);
    }
  }

  lemma {:induction false} FirstLineIsOne(t: string)
    requires t != ""
    ensures OneLine(t[..LineEnd(t)])
    ensures LineEnd(t) < |t| ==> Apart(t[..LineEnd(t)], t[LineEnd(t)..])
  {
    var n := LineEnd(t);
    if !IsSep(t[0]) && |t| > 1 {
      FirstLineIsOne(t[1..]);
      assert t[..n][1..] == t[1..][..n - 1];
      assert t[n..] == t[1..][n - 1..];
    }
  }

  /** Splitting yields lines, and joining them gives the text back. */
  lemma {:induction false} SplitThenJoin(t: string)
    ensures AreLines(SplitLines(t)) && Join(SplitLines(t)) == t
    decreases |t|
  {
    if t != "" {
      var n := LineEnd(t);
      FirstLineIsOne(t);
      SplitThenJoin(t[n..]);
      Seqs.FirstOfConcat([t[..n]], SplitLines(t[n..]));
      Seqs.Nothing(SplitLines(t[n..]));
      Seqs.TakeDrop(t, n);
      if n < |t| {
        assert SplitLines(t[n..])[0][0] == t[n..][0];
      }
    }
  }

  /** Joining lines and splitting the text yields the same lines. */
  lemma {:induction false} JoinThenSplit(ls: seq<string>)
    requires AreLines(ls)
    ensures SplitLines(Join(ls)) == ls
  {
    if ls != [] {
      var rest := ls[1..];
      JoinThenSplit(rest);
      if rest == [] {
        assert Join(ls) == ls[0];
      } else {
        assert Join(rest)[0] == rest[0][0];
        LineEndOfConcat(ls[0], Join(rest));
      }
      assert Join(ls)[..|ls[0]|] == ls[0] && Join(ls)[|ls[0]|..] == Join(rest);
    }
  }

  // ---------------------------------------------------------------------------
  // white space and prefixes
  // ---------------------------------------------------------------------------

  predicate IsSpace(c: char) {
    || '\t' <= c <= '\r' || '\U{1c}' <= c <= ' ' || c == '\U{85}' || c == '\U{a0}' || c == '\U{1680}'
    || '\U{2000}' <= c <= '\U{200a}' || c == '\U{2028}' || c == '\U{2029}' || c == '\U{202f}'
    || c == '\U{205f}' || c == '\U{3000}'
  }

  predicate StartsWith(t: string, p: string) { |p| <= |t| && t[..|p|] == p }

  function SkipSpace(t: string): string {
    if t != "" && IsSpace(t[0]) then SkipSpace(t[1..]) else t
  }

  function RStrip(t: string): string {
    if t != "" && IsSpace(t[|t| - 1]) then RStrip(t[..|t| - 1]) else t
  }

  lemma StartsWithFirst(t: string, p: string)
    requires p != ""
    ensures StartsWith(t, p) ==> t != "" && t[0] == p[0]
  {
    if StartsWith(t, p) { assert t[..|p|][0] == t[0]; }
  }

  /** What reading in text mode makes of a file's characters: every line ending becomes `\n`. */
  function Universal(raw: string): (t: string)
    ensures '\r' !in t
  {
    if raw == "" then ""
    else if raw[0] == '\r' then "\n" + Universal(if |raw| > 1 && raw[1] == '\n' then raw[2..] else raw[1..])
    else [raw[0]] + Universal(raw[1..])
  }

  lemma {:induction false} UniversalTwice(t: string)
    requires '\r' !in t
    ensures Universal(t) == t
  {
    if t != "" {
      assert t == [t[0]] + t[1..];
      Seqs.ConsAt(t[0], t[1..]);
      UniversalTwice(t[1..]);
    }
  }

  // ---------------------------------------------------------------------------
  // characters and pieces
  // ---------------------------------------------------------------------------

  /** A visible ASCII character is neither white space nor a separator; blank and tab are white space within a
      line; newline and carriage return are both, and so is every separator. */
  lemma OrdinaryCharacters(c: char)
    ensures '!' <= c <= '~' ==> !IsSpace(c) && !IsSep(c)
    ensures c == ' ' || c == '\t' ==> IsSpace(c) && !IsSep(c)
    ensures c == '\n' || c == '\r' ==> IsSep(c)
    ensures IsSep(c) ==> IsSpace(c)
  {
  }

  /** A text that ends a line and what follows it split apart. */
  lemma {:induction false} SplitConcat(pre: string, rest: string)
    requires pre != "" && pre[|pre| - 1] == '\n'
    ensures SplitLines(pre + rest) == SplitLines(pre) + SplitLines(rest)
    decreases |pre|
  {
    var n := LineEnd(pre);
    LineEndOfEnded(pre, rest);
    assert (pre + rest)[..n] == pre[..n] && (pre + rest)[n..] == pre[n..] + rest;
    if n == |pre| {
      assert pre[n..] == "" && SplitLines(pre) == [pre[..n]];
    } else {
      SplitConcat(pre[n..], rest);
      Seqs.Assoc([pre[..n]], SplitLines(pre[n..]), SplitLines(rest));
    }
  }

  lemma {:induction false} LineEndOfEnded(pre: string, rest: string)
    requires pre != "" && pre[|pre| - 1] == '\n'
    ensures LineEnd(pre + rest) == LineEnd(pre)
    ensures LineEnd(pre) < |pre| ==> pre[LineEnd(pre)..][|pre| - LineEnd(pre) - 1] == '\n'
  {
    if !IsSep(pre[0]) {
      assert (pre + rest)[1..] == pre[1..] + rest;
      LineEndOfEnded(pre[1..], rest);
    }
  }

  /** A line with no separator inside, and its newline, is the first line. */
  lemma {:induction false} FirstLineIs(a: string, b: string)
    requires forall c :: c in a ==> !IsSep(c)
    ensures SplitLines(a + "\n" + b) == [a + "\n"] + SplitLines(b)
  {
    LineEndOfPlain(a, b);
    var t := a + "\n" + b;
    assert t[..|a| + 1] == a + "\n" && t[|a| + 1..] == b;
  }

  lemma {:induction false} LineEndOfPlain(a: string, b: string)
    requires forall c :: c in a ==> !IsSep(c)
    ensures LineEnd(a + "\n" + b) == |a| + 1
  {
    var t := a + "\n" + b;
    if a == "" {
      assert t == "\n" + b;
    } else {
      assert t[1..] == a[1..] + "\n" + b;
      assert a[0] in a && forall c :: c in a[1..] ==> c in a;
      LineEndOfPlain(a[1..], b);
    }
  }

  predicate Blank(t: string) { forall i :: 0 <= i < |t| ==> IsSpace(t[i]) }

  /** Stripping at the front takes the white space there, and no more. */
  lemma {:induction false} SkipSpaceIs(t: string) returns (x: string, rest: string)
    ensures t == x + rest && SkipSpace(t) == rest
    ensures Blank(x) && (rest != "" ==> !IsSpace(rest[0]))
  {
    if t != "" && IsSpace(t[0]) {
      var y;
      y, rest := SkipSpaceIs(t[1..]);
      x := [t[0]] + y;
    } else {
      x, rest := "", t;
    }
  }

  lemma {:induction false} SkipBlank(x: string, rest: string)
    requires Blank(x) && (rest != "" ==> !IsSpace(rest[0]))
    ensures SkipSpace(x + rest) == rest
  {
    if x == "" {
      Seqs.Nothing(rest);
    } else {
      Seqs.FirstOfConcat(x, rest);
      SkipBlank(x[1..], rest);
    }
  }

  /** Stripping at the end likewise. */
  lemma {:induction false} RStripIs(t: string)
    ensures |RStrip(t)| <= |t| && RStrip(t) == t[..|RStrip(t)|]
    ensures forall i :: |RStrip(t)| <= i < |t| ==> IsSpace(t[i])
    ensures RStrip(t) != "" ==> !IsSpace(t[|RStrip(t)| - 1])
  {
    if t != "" && IsSpace(t[|t| - 1]) {
      var front := t[..|t| - 1];
      RStripIs(front);
      assert front[..|RStrip(t)|] == t[..|RStrip(t)|];
    }
  }

  lemma RStripSplits(t: string) returns (x: string)
    ensures t == RStrip(t) + x && Blank(x)
    ensures RStrip(t) != "" ==> !IsSpace(RStrip(t)[|RStrip(t)| - 1])
  {
    RStripIs(t);
    x := t[|RStrip(t)|..];
    assert forall i :: 0 <= i < |x| ==> x[i] == t[|RStrip(t)| + i];
  }

  /** Text mode, ending by ending. */
  lemma {:induction false} UniversalPieces(a: string, b: string)
    ensures Universal(a + "\r\n" + b) == Universal(a) + "\n" + Universal(b)
    ensures b == "" || b[0] != '\n' ==> Universal(a + "\r" + b) == Universal(a) + "\n" + Universal(b)
    ensures (a == "" || a[|a| - 1] != '\r') ==> Universal(a + "\n" + b) == Universal(a) + "\n" + Universal(b)
    decreases |a|
  {
    UniversalEnds(a, "\r\n" + b);
    UniversalEnds(a, "\r" + b);
    if a == "" || a[|a| - 1] != '\r' { UniversalEnds(a, "\n" + b); }
    assert a + "\r\n" + b == a + ("\r\n" + b) && a + "\r" + b == a + ("\r" + b) && a + "\n" + b == a + ("\n" + b);
    assert ("\r\n" + b)[2..] == b && ("\r" + b)[1..] == b && ("\n" + b)[1..] == b;
    Seqs.Assoc(Universal(a), "\n", Universal(b));
  }

  lemma {:induction false} UniversalEnds(a: string, b: string)
    requires b != "" && (b[0] == '\n' ==> a == "" || a[|a| - 1] != '\r')
    ensures Universal(a + b) == Universal(a) + Universal(b)
    decreases |a|
  {
    if a == "" {
      Seqs.Nothing(b);
    } else {
      var two := a[0] == '\r' && |a| > 1 && a[1] == '\n';
      var rest := if two then a[2..] else a[1..];
      assert (a + b)[1..] == a[1..] + b;
      if two { assert (a + b)[2..] == a[2..] + b; }
      UniversalEnds(rest, b);
      Seqs.Assoc(Universal(a)[..1], Universal(rest), Universal(b));
    }
  }
}
