/** What a second removal of the managed blocks would do, read off the file before the first one. Cutting
    the blocks out joins the text around them; whether the joints spell a marker is decided here from the
    file itself. */
module StripAcross {
  import Seqs
  import opened Lines
  import opened MarkerTokens
  import opened MarkerBlocks
  import opened BlockAppliers
  import opened StripTwice

  /** What follows the clean pair at the head. */
  function BehindPair(s: seq<Tok>): seq<Tok>
    requires Pair(s)
    ensures |BehindPair(s)| < |s|
  {
    AfterIsShorter(s[1..]);
    After(s[1..])[1..]
  }

  /** The plain text up to the next marker that stays, clean pairs passed over. */
  function Read(s: seq<Tok>): string
    decreases |s|
  {
    if s == [] then ""
    else if Pair(s) then Read(BehindPair(s))
    else if s[0].Chr? then [s[0].c] + Read(s[1..])
    else ""
  }

  /** Somewhere the text read in this way begins with a marker. */
  predicate SpelledAcross(s: seq<Tok>, m: Markers)
    decreases |s|
  {
    s != [] &&
    if Pair(s) then SpelledAcross(BehindPair(s), m)
    else SpelledAcross(s[1..], m) || (s[0].Chr? && (StartsWith(Read(s), m.start) || StartsWith(Read(s), m.end)))
  }

  /** Passing over `n` plain characters, and over every clean pair before them. */
  function Skip(s: seq<Tok>, n: nat): (rest: seq<Tok>)
    requires n <= |Read(s)|
    ensures |rest| + n <= |s|
    decreases |s|
  {
    if n == 0 then s
    else if Pair(s) then Skip(BehindPair(s), n)
    else Skip(s[1..], n - 1)
  }

  /** The markers that stand in the file when its clean pairs are passed over: those that are no part of
      one, and those that plain text spells across them. */
  function Standing(s: seq<Tok>, m: Markers): seq<Tok>
    requires GoodMarkers(m)
    decreases |s|
  {
    if s == [] then []
    else if Pair(s) then Standing(BehindPair(s), m)
    else if !s[0].Chr? then [s[0]] + Standing(s[1..], m)
    else if StartsWith(Read(s), m.start) then [Open] + Standing(Skip(s, |m.start|), m)
    else if StartsWith(Read(s), m.end) then [Close] + Standing(Skip(s, |m.end|), m)
    else Standing(s[1..], m)
  }

  // ---------------------------------------------------------------------------
  // the file and what the first strip leaves of it
  // ---------------------------------------------------------------------------

  lemma CutStep(s: seq<Tok>)
    requires s != []
    ensures Pair(s) ==> Rewritten(s, []) == Rewritten(BehindPair(s), [])
    ensures !Pair(s) ==> Rewritten(s, []) == [s[0]] + Rewritten(s[1..], [])
    ensures !Pair(s) ==> Rewritten(s, [])[1..] == Rewritten(s[1..], [])
  {
    if Pair(s) {
      Seqs.Nothing(Rewritten(BehindPair(s), []));
    }
  }

  lemma {:induction false} ReadIsPlainOfCut(s: seq<Tok>)
    ensures Plain(Rewritten(s, [])) == Read(s)
    decreases |s|
  {
    if s != [] {
      CutStep(s);
      ReadIsPlainOfCut(if Pair(s) then BehindPair(s) else s[1..]);
    }
  }

  lemma {:induction false} CutIsCanonicalIff(s: seq<Tok>, m: Markers)
    ensures Canonical(Rewritten(s, []), m) <==> !SpelledAcross(s, m)
    decreases |s|
  {
    if s != [] {
      CutStep(s);
      ReadIsPlainOfCut(s);
      CutIsCanonicalIff(if Pair(s) then BehindPair(s) else s[1..], m);
    }
  }

  /** Whether the cuts stitch a marker together is read off the file. */
  lemma StitchesIff(existing: string, m: Markers)
    requires GoodMarkers(m)
    ensures Stitches(existing, m) <==> SpelledAcross(Tokens(existing, m), m)
  {
    CutIsCanonicalIff(Tokens(existing, m), m);
  }

  /** What a strip leaves of `s`, as text. */
  function Cut(s: seq<Tok>, m: Markers): string {
    Text(Rewritten(s, []), m)
  }

  lemma CutText(s: seq<Tok>, m: Markers)
    requires s != []
    ensures Cut(s, m) == if Pair(s) then Cut(BehindPair(s), m) else Spelling(s[0], m) + Cut(s[1..], m)
  {
    CutStep(s);
  }

  lemma {:induction false} CutSkips(s: seq<Tok>, n: nat, m: Markers)
    requires n <= |Read(s)|
    ensures n <= |Cut(s, m)| && Cut(s, m)[n..] == Cut(Skip(s, n), m)
    decreases |s|
  {
    if 0 < n {
      CutText(s, m);
      if Pair(s) {
        CutSkips(BehindPair(s), n, m);
      } else {
        CutSkips(s[1..], n - 1, m);
        assert Cut(s, m)[n..] == Cut(s[1..], m)[n - 1..];
      }
    }
  }

  /** A marker stands at a plain character exactly if the text read from there begins with it. */
  lemma MarkerAtChar(s: seq<Tok>, m: Markers, mark: string)
    requires GoodMarkers(m) && mark in {m.start, m.end} && s != [] && s[0].Chr?
    ensures StartsWith(Cut(s, m), mark) <==> StartsWith(Read(s), mark)
  {
    var r := Rewritten(s, []);
    CutStep(s);
    ReadIsPlainOfCut(s);
    PlainThenMarker(r, m);
    if StartsWith(Text(r, m), mark) {
      HeadMarker(r, m, mark);
    }
  }

  lemma HeadTokenIs(t: string, m: Markers, k: Tok, rest: string)
    requires GoodMarkers(m) && k in {Open, Close} && t == Spelling(k, m) + rest
    ensures Marks(Tokens(t, m)) == [k] + Marks(Tokens(rest, m))
  {
    var n := |Spelling(k, m)|;
    assert t[..n] == Spelling(k, m) && t[n..] == rest;
    if StartsWith(t, m.start) {
      OnePrefix(t, m);
    }
    MarksStep(Tokens(t, m));
  }

  lemma NoMarkerHere(t: string, m: Markers)
    requires GoodMarkers(m) && t != "" && !StartsWith(t, m.start) && !StartsWith(t, m.end)
    ensures Marks(Tokens(t, m)) == Marks(Tokens(t[1..], m))
  {
    MarksStep(Tokens(t, m));
  }

  lemma MarkerTaken(t: string, m: Markers, k: Tok)
    requires GoodMarkers(m) && k in {Open, Close} && StartsWith(t, Spelling(k, m))
    ensures Marks(Tokens(t, m)) == [k] + Marks(Tokens(t[|Spelling(k, m)|..], m))
  {
    Seqs.TakeDrop(t, |Spelling(k, m)|);
    HeadTokenIs(t, m, k, t[|Spelling(k, m)|..]);
  }

  /** The markers of the stripped text are the markers that stand in the file. */
  lemma {:induction false} StandingIsLeft(s: seq<Tok>, m: Markers)
    requires GoodMarkers(m)
    ensures Marks(Tokens(Cut(s, m), m)) == Standing(s, m)
    decreases |s|
  {
    if s != [] {
      CutText(s, m);
      if Pair(s) {
        StandingIsLeft(BehindPair(s), m);
      } else if !s[0].Chr? {
        StandingIsLeft(s[1..], m);
        HeadTokenIs(Cut(s, m), m, s[0], Cut(s[1..], m));
      } else {
        StandingAtChar(s, m);
      }
    }
  }

  lemma {:induction false} StandingAtChar(s: seq<Tok>, m: Markers)
    requires GoodMarkers(m) && s != [] && s[0].Chr?
    ensures Marks(Tokens(Cut(s, m), m)) == Standing(s, m)
    decreases |s|, 0
  {
    MarkerAtChar(s, m, m.start);
    MarkerAtChar(s, m, m.end);
    if StartsWith(Read(s), m.start) || StartsWith(Read(s), m.end) {
      var k := if StartsWith(Read(s), m.start) then Open else Close;
      var n := |Spelling(k, m)|;
      CutSkips(s, n, m);
      MarkerTaken(Cut(s, m), m, k);
      StandingIsLeft(Skip(s, n), m);
    } else {
      CutText(s, m);
      NoMarkerHere(Cut(s, m), m);
      assert Cut(s, m)[1..] == Cut(s[1..], m);
      StandingIsLeft(s[1..], m);
    }
  }

  /** On every file: a second strip changes nothing exactly when, the clean pairs passed over, every END
      stands before every START. */
  lemma StripTwiceExactly(existing: string, m: Markers)
    requires GoodMarkers(m)
    ensures var once := Stripped(existing, m);
      Stripped(once, m) == once <==> EndsBeforeStarts(Standing(Tokens(existing, m), m))
  {
    StandingIsLeft(Tokens(existing, m), m);
    LeftoverDecides(existing, m);
  }

  // ---------------------------------------------------------------------------
  // files whose blocks end lines
  // ---------------------------------------------------------------------------

  /** The end of the text, a newline, or another marker. */
  predicate LineEnds(rest: seq<Tok>) {
    rest == [] || !rest[0].Chr? || rest[0] == NEWLINE
  }

  /** Every clean pair is followed by one of these. */
  predicate BlocksEndLines(s: seq<Tok>)
    decreases |s|
  {
    s == [] ||
    if Pair(s) then LineEnds(BehindPair(s)) && BlocksEndLines(BehindPair(s))
    else BlocksEndLines(s[1..])
  }

  predicate LineEndsAt(t: string, m: Markers, e: nat) {
    e == |t| || At(t, m.start, e) || At(t, m.end, e) || (e < |t| && t[e] == '\n')
  }

  /** The same by positions, for the spans that the scan finds. */
  ghost predicate SpansEndLines(t: string, m: Markers, spans: seq<(nat, nat)>) {
    forall k :: 0 <= k < |spans| ==> LineEndsAt(t, m, spans[k].1)
  }

  lemma LineEndsIff(t: string, m: Markers, e: nat)
    requires GoodMarkers(m) && e <= |t|
    ensures LineEnds(Tokens(t[e..], m)) <==> LineEndsAt(t, m, e)
  {
    AtSuffix(t, m.start, e);
    AtSuffix(t, m.end, e);
    if e < |t| {
      assert t[e..][0] == t[e];
    }
  }

  lemma {:induction false} SpansEndLinesIff(t: string, m: Markers, spans: seq<(nat, nat)>, c: nat)
    requires GoodMarkers(m) && c <= |t| && AllClean(t, m, c, spans)
    ensures BlocksEndLines(Tokens(t[c..], m)) <==> SpansEndLines(t, m, spans)
    decreases |t| - c
  {
    if c == |t| {
      NoSpanAtEnd(t, m, spans);
    } else if Pair(Tokens(t[c..], m)) {
      PairAhead(t, m, spans, c);
      AllCleanTail(t, m, c, spans);
      LineEndsIff(t, m, spans[0].1);
      SpansEndLinesIff(t, m, spans[1..], spans[0].1);
      SpansEndLinesTail(t, m, spans);
    } else {
      var next := NoPairAhead(t, m, spans, c);
      SpansEndLinesIff(t, m, spans, next);
    }
  }

  lemma SpansEndLinesTail(t: string, m: Markers, spans: seq<(nat, nat)>)
    requires spans != []
    ensures SpansEndLines(t, m, spans) <==> LineEndsAt(t, m, spans[0].1) && SpansEndLines(t, m, spans[1..])
  {
    if SpansEndLines(t, m, spans[1..]) && LineEndsAt(t, m, spans[0].1) {
      forall k | 0 <= k < |spans| ensures LineEndsAt(t, m, spans[k].1) {
        assert k > 0 ==> spans[k] == spans[1..][k - 1];
      }
    }
  }

  /** In such a file the text read across the blocks goes on, behind the plain text, with a newline. */
  lemma {:induction false} ReadsOnAtNewline(s: seq<Tok>) returns (more: string)
    requires BlocksEndLines(s)
    ensures Read(s) == Plain(s) + more && (more == "" || more[0] == '\n')
    decreases |s|
  {
    more := "";
    if s != [] {
      if Pair(s) {
        more := ReadsOnAtNewline(BehindPair(s));
        if LineEnds(BehindPair(s)) && BehindPair(s) != [] && BehindPair(s)[0].Chr? {
          more := Read(s);
        }
      } else if s[0].Chr? {
        more := ReadsOnAtNewline(s[1..]);
        Seqs.Assoc([s[0].c], Plain(s[1..]), more);
      }
    }
  }

  lemma NoMarkerOverNewline(p: string, more: string, mark: string)
    requires GoodMarker(mark) && (more == "" || more[0] == '\n')
    ensures StartsWith(p + more, mark) ==> StartsWith(p, mark)
  {
    var q := p + more;
    if StartsWith(q, mark) {
      assert forall k :: 0 <= k < |mark| ==> mark[k] == q[k];
      assert more != "" ==> q[|p|] == '\n';
      assert |mark| <= |p|;
      assert p[..|mark|] == q[..|mark|];
    }
  }

  lemma {:induction false} NothingSpelledAcross(s: seq<Tok>, m: Markers)
    requires GoodMarkers(m) && Canonical(s, m) && BlocksEndLines(s)
    ensures !SpelledAcross(s, m)
    decreases |s|
  {
    if s != [] {
      if Pair(s) {
        AfterIsCanonical(s[1..], m);
        NothingSpelledAcross(BehindPair(s), m);
      } else {
        NothingSpelledAcross(s[1..], m);
        var more := ReadsOnAtNewline(s);
        NoMarkerOverNewline(Plain(s), more, m.start);
        NoMarkerOverNewline(Plain(s), more, m.end);
      }
    }
  }

  /** If every clean block ends a line, or is followed by another marker, a second strip changes nothing
      exactly when no START is followed by clean pairs and then an END. */
  lemma StripTwiceOnWholeLines(existing: string, m: Markers)
    requires GoodMarkers(m) && BlocksEndLines(Tokens(existing, m))
    ensures var once := Stripped(existing, m);
      Stripped(once, m) == once <==> !Nested(Marks(Tokens(existing, m)))
  {
    TokensAreCanonical(existing, m);
    NothingSpelledAcross(Tokens(existing, m), m);
    StitchesIff(existing, m);
    StripTwiceIff(existing, m);
  }

  // ---------------------------------------------------------------------------
  // installing keeps that shape
  // ---------------------------------------------------------------------------

  lemma {:induction false} RewrittenEndsLines(s: seq<Tok>, block: seq<Tok>, m: Markers)
    requires GoodBlock(block, m) && BlocksEndLines(s)
    ensures BlocksEndLines(Rewritten(s, block))
    decreases |s|
  {
    if s != [] {
      var r := Rewritten(s, block);
      if Pair(s) {
        var rest := BehindPair(s);
        RewrittenEndsLines(rest, block, m);
        PairConcat(block, Rewritten(rest, block));
        RewrittenHead(rest, block, m);
      } else {
        RewrittenEndsLines(s[1..], block, m);
        assert r[1..] == Rewritten(s[1..], block);
        RewrittenHead(s[1..], block, m);
      }
    }
  }

  lemma {:induction false} AppendedEndsLines(s: seq<Tok>, block: seq<Tok>, m: Markers)
    requires GoodBlock(block, m) && !HasPair(s)
    ensures BlocksEndLines(s + (block + [NEWLINE]))
  {
    var tail := block + [NEWLINE];
    if s == [] {
      PairConcat(block, [NEWLINE]);
      Seqs.Nothing(tail);
      assert [NEWLINE][1..] == [];
    } else {
      AppendedEndsLines(s[1..], block, m);
      Seqs.FirstOfConcat(s, tail);
      AppendedOpens(s[1..], tail);
    }
  }

  lemma {:induction false} NoPairEndsLines(s: seq<Tok>)
    requires !HasPair(s)
    ensures BlocksEndLines(s)
  {
    if s != [] { NoPairEndsLines(s[1..]); }
  }

  /** An install keeps it that every block ends a line, and brings it about in a file without a block. */
  lemma ApplyEndsLines(existing: string, block: string, m: Markers)
    requires GoodMarkers(m) && OwnBlock(block, m) && BlocksEndLines(Tokens(existing, m))
    ensures BlocksEndLines(Tokens(Applied(existing, true, block, m), m))
  {
    var s, b := Tokens(existing, m), Tokens(block, m);
    if HasPair(s) {
      TokensOfRewritten(existing, block, m);
      RewrittenEndsLines(s, b, m);
    } else {
      var before := AppendedTokens(existing, block, m);
      AppendedEndsLines(before, b, m);
    }
  }
}
