/** Is removing the managed blocks a second time a no-op? Not always: cutting blocks out brings their
    surroundings together. Proved here: when exactly it is, as long as the cuts stitch no marker together.
    StripAcross.dfy drops that proviso. */
module StripTwice {
  import Seqs
  import opened Lines
  import opened MarkerTokens
  import opened MarkerBlocks
  import opened BlockAppliers

  /** The markers of a text, in order. */
  function Marks(s: seq<Tok>): seq<Tok> {
    if s == [] then []
    else (if s[0].Chr? then [] else [s[0]]) + Marks(s[1..])
  }

  predicate StartsWithPair(w: seq<Tok>) {
    2 <= |w| && w[0] == Open && w[1] == Close
  }

  /** What follows the clean pairs at the head. */
  function SkipPairs(w: seq<Tok>): seq<Tok> {
    if StartsWithPair(w) then SkipPairs(w[2..]) else w
  }

  /** Somewhere a START, then one or more clean pairs, then an END. */
  predicate Nested(w: seq<Tok>) {
    w != [] && (
    || (w[0] == Open && StartsWithPair(w[1..]) && SkipPairs(w[1..]) != [] && SkipPairs(w[1..])[0] == Close)
    || Nested(w[1..]))
  }

  predicate HasAdjacent(w: seq<Tok>) {
    w != [] && (StartsWithPair(w) || HasAdjacent(w[1..]))
  }

  /** The markers that are left when every clean pair is gone. */
  function Reduced(w: seq<Tok>): seq<Tok> {
    if w == [] then []
    else if StartsWithPair(w) then Reduced(w[2..])
    else [w[0]] + Reduced(w[1..])
  }

  /** Cutting the blocks out joins plain text into something that spells a marker. */
  ghost predicate Stitches(existing: string, m: Markers)
    requires GoodMarkers(m)
  {
    !Canonical(Rewritten(Tokens(existing, m), []), m)
  }

  lemma MarksStep(s: seq<Tok>)
    requires s != []
    ensures s[0].Chr? ==> Marks(s) == Marks(s[1..])
    ensures !s[0].Chr? ==> Marks(s) != [] && Marks(s)[0] == s[0] && Marks(s)[1..] == Marks(s[1..])
  {
    assert [] + Marks(s[1..]) == Marks(s[1..]);
    assert ([s[0]] + Marks(s[1..]))[1..] == Marks(s[1..]);
  }

  lemma {:induction false} MarksAfterPlain(s: seq<Tok>)
    ensures Marks(s) == Marks(After(s))
    ensures After(s) == [] <==> Marks(s) == []
    ensures After(s) != [] ==> Marks(s)[0] == After(s)[0] && Marks(s)[1..] == Marks(After(s)[1..])
  {
    if s != [] {
      MarksStep(s);
      if s[0].Chr? { MarksAfterPlain(s[1..]); }
    }
  }

  lemma PairIffMarks(s: seq<Tok>)
    requires s != [] && !s[0].Chr?
    ensures Pair(s) <==> StartsWithPair(Marks(s))
    ensures Pair(s) ==> Marks(s)[2..] == Marks(After(s[1..])[1..])
  {
    MarksAfterPlain(s[1..]);
    var w := Marks(s[1..]);
    assert Marks(s) == [s[0]] + w;
    if w != [] {
      assert Marks(s)[1] == w[0];
      assert Marks(s)[2..] == w[1..];
    }
  }

  lemma {:induction false} HasPairIffMarks(s: seq<Tok>)
    ensures HasPair(s) <==> HasAdjacent(Marks(s))
  {
    if s != [] {
      HasPairIffMarks(s[1..]);
      MarksStep(s);
      if !s[0].Chr? {
        PairIffMarks(s);
      }
    }
  }

  lemma {:induction false} MarksOfStripped(s: seq<Tok>)
    ensures Marks(Rewritten(s, [])) == Reduced(Marks(s))
    decreases |s|
  {
    if s != [] {
      if !s[0].Chr? {
        PairIffMarks(s);
      }
      if Pair(s) {
        AfterIsShorter(s[1..]);
        var rest := After(s[1..])[1..];
        MarksOfStripped(rest);
        assert [] + Rewritten(rest, []) == Rewritten(rest, []);
      } else {
        MarksOfStripped(s[1..]);
        assert Rewritten(s, [])[1..] == Rewritten(s[1..], []);
        MarksStep(s);
        MarksStep(Rewritten(s, []));
      }
    }
  }

  lemma {:induction false} ReducedHead(w: seq<Tok>)
    ensures Reduced(w) == Reduced(SkipPairs(w))
    ensures !StartsWithPair(SkipPairs(w))
    ensures SkipPairs(w) != [] ==> Reduced(w) != [] && Reduced(w)[0] == SkipPairs(w)[0]
    ensures SkipPairs(w) == [] ==> Reduced(w) == []
  {
    if StartsWithPair(w) { ReducedHead(w[2..]); }
  }

  lemma {:induction false} ReducedAdjacentIffNested(w: seq<Tok>)
    ensures HasAdjacent(Reduced(w)) <==> Nested(w)
  {
    if w != [] {
      if StartsWithPair(w) {
        ReducedAdjacentIffNested(w[2..]);
        assert w[1..][1..] == w[2..];
      } else {
        ReducedAdjacentIffNested(w[1..]);
        ReducedHead(w[1..]);
        var r := Reduced(w);
        assert r[1..] == Reduced(w[1..]);
        assert w[0] == Open && w[1..] != [] ==> w[1..][0] != Close;
      }
    }
  }

  lemma {:induction false} TextShrinks(s: seq<Tok>, m: Markers)
    requires GoodMarkers(m)
    ensures |Text(Rewritten(s, []), m)| <= |Text(s, m)|
    ensures HasPair(s) ==> |Text(Rewritten(s, []), m)| < |Text(s, m)|
    decreases |s|
  {
    if s != [] {
      TextOfRewritten(s, [], m);
      if Pair(s) {
        AfterIsShorter(s[1..]);
        var rest := After(s[1..]);
        TextShrinks(rest[1..], m);
        PlainThenMarker(s[1..], m);
      } else {
        TextShrinks(s[1..], m);
      }
    }
  }

  /** A text is a fixed point of stripping exactly when it holds no clean pair. */
  lemma StripFixpoint(existing: string, m: Markers)
    requires GoodMarkers(m)
    ensures Stripped(existing, m) == existing <==> !HasPair(Tokens(existing, m))
  {
    TextOfTokens(existing, m);
    TextShrinks(Tokens(existing, m), m);
    if !HasPair(Tokens(existing, m)) {
      NoPairUnchanged(Tokens(existing, m), []);
    }
  }

  /** As long as the cuts stitch no new marker together, a second strip changes nothing exactly when no
      START is followed by clean pairs and then an END. */
  lemma StripTwiceIff(existing: string, m: Markers)
    requires GoodMarkers(m) && !Stitches(existing, m)
    ensures var once := Stripped(existing, m);
      Stripped(once, m) == once <==> !Nested(Marks(Tokens(existing, m)))
  {
    var s := Tokens(existing, m);
    var left := Rewritten(s, []);
    TokensOfText(left, m);
    StripFixpoint(Stripped(existing, m), m);
    HasPairIffMarks(left);
    MarksOfStripped(s);
    ReducedAdjacentIffNested(Marks(s));
  }

  /** Read off the leftover text: a second strip is a no-op exactly when in it every END comes before every
      START. What that means for the file before the first strip is proved in StripAcross.dfy. */
  lemma LeftoverDecides(existing: string, m: Markers)
    requires GoodMarkers(m)
    ensures var once := Stripped(existing, m);
      Stripped(once, m) == once <==> EndsBeforeStarts(Marks(Tokens(once, m)))
  {
    var once := Stripped(existing, m);
    StripFixpoint(once, m);
    HasPairIffMarks(Tokens(once, m));
    TwoSorts(Tokens(once, m));
    AdjacentIffUnsorted(Marks(Tokens(once, m)));
  }

  predicate EndsBeforeStarts(w: seq<Tok>) {
    forall i, j :: 0 <= i < j < |w| && w[i] == Open ==> w[j] == Open
  }

  lemma {:induction false} TwoSorts(s: seq<Tok>)
    ensures forall x :: x in Marks(s) ==> x in {Open, Close}
  {
    if s != [] { TwoSorts(s[1..]); }
  }

  lemma {:induction false} AdjacentIffUnsorted(w: seq<Tok>)
    requires forall x :: x in w ==> x in {Open, Close}
    ensures HasAdjacent(w) <==> !EndsBeforeStarts(w)
  {
    if w != [] {
      var rest := w[1..];
      assert forall k :: 0 <= k < |rest| ==> rest[k] == w[k + 1] && rest[k] in w;
      AdjacentIffUnsorted(rest);
      if !EndsBeforeStarts(rest) {
        var i, j :| 0 <= i < j < |rest| && rest[i] == Open && rest[j] != Open;
        assert w[i + 1] == Open && w[j + 1] != Open;
      } else if rest != [] && rest[0] == Open {
        assert forall j :: 0 < j < |rest| ==> rest[j] == Open;
        assert forall j :: 0 < j < |w| ==> w[j] == rest[j - 1];
      } else if StartsWithPair(w) {
        assert w[0] == Open && w[1] != Open;
      }
    }
  }

  // ---------------------------------------------------------------------------
  // the two ways in which a second strip does change something
  // ---------------------------------------------------------------------------

  /** START, twice START END, END. */
  function TwoInner(): seq<Tok> { [Open] + PairThen(PairThen([Close])) }

  function PairThen(s: seq<Tok>): seq<Tok> { [Open] + ([Close] + s) }

  lemma PairThenText(s: seq<Tok>, m: Markers)
    ensures Text(PairThen(s), m) == m.start + (m.end + Text(s, m))
  {
    Seqs.FirstOfConcat([Open], [Close] + s);
    Seqs.Nothing([Close] + s);
    Seqs.FirstOfConcat([Close], s);
    Seqs.Nothing(s);
  }

  lemma PairThenRewritten(s: seq<Tok>)
    ensures Rewritten(PairThen(s), []) == Rewritten(s, [])
  {
    assert PairThen(s)[1..] == [Close] + s && ([Close] + s)[1..] == s;
    Seqs.Nothing(Rewritten(s, []));
  }

  lemma TwoInnerText(m: Markers)
    ensures Text(TwoInner(), m) == m.start + m.start + m.end + m.start + m.end + m.end
  {
    var x, y := m.start, m.end;
    var rest := PairThen(PairThen([Close]));
    PairThenText([Close], m);
    PairThenText(PairThen([Close]), m);
    OneCloseText(m);
    Seqs.FirstOfConcat([Open], rest);
    Seqs.Nothing(rest);
    assert Text(TwoInner(), m) == x + (x + (y + (x + (y + y))));
    Seqs.Assoc(x, x, y + (x + (y + y)));
    Seqs.Assoc(x + x, y, x + (y + y));
    Seqs.Assoc(x + x + y, x, y + y);
    Seqs.Assoc(x + x + y + x, y, y);
  }

  lemma OneCloseText(m: Markers)
    ensures Text([Close], m) == m.end
  {
    assert [Close][1..] == [];
    Seqs.Nothing(m.end);
  }

  lemma TwoInnerRewritten()
    ensures Rewritten(TwoInner(), []) == [Open, Close]
  {
    var rest := PairThen(PairThen([Close]));
    PairThenRewritten([Close]);
    PairThenRewritten(PairThen([Close]));
    assert [Close][1..] == [];
    assert Rewritten([Close], []) == [Close];
    assert TwoInner()[1..] == rest && rest[0] == Open;
    assert Rewritten(TwoInner(), []) == [Open] + Rewritten(rest, []);
  }

  lemma TwoInnerIsNested()
    ensures Marks(TwoInner()) == TwoInner() && Nested(TwoInner())
  {
    var w, rest := TwoInner(), PairThen(PairThen([Close]));
    MarksOfMarks(w);
    assert w[1..] == rest && rest[2..] == PairThen([Close]) && PairThen([Close])[2..] == [Close];
    assert SkipPairs([Close]) == [Close] && SkipPairs(PairThen([Close])) == [Close] && SkipPairs(rest) == [Close];
  }

  /** Nesting need not read START START END END: two inner blocks do it as well. */
  lemma TwoInnerBlocks(m: Markers)
    requires GoodMarkers(m)
    ensures var t := m.start + m.start + m.end + m.start + m.end + m.end;
      && Stripped(t, m) == m.start + m.end
      && Stripped(Stripped(t, m), m) == ""
      && Nested(Marks(Tokens(t, m)))
  {
    TwoInnerText(m);
    MarkersAreCanonical(TwoInner(), m);
    TokensOfText(TwoInner(), m);
    TwoInnerRewritten();
    TwoInnerIsNested();
    OnlyPair(m);
  }

  lemma OnlyPair(m: Markers)
    requires GoodMarkers(m)
    ensures Text([Open, Close], m) == m.start + m.end
    ensures Stripped(m.start + m.end, m) == ""
  {
    var s := [Open, Close];
    assert s[1..] == [Close] && s[1..][1..] == [];
    assert Text([Close], m) == m.end;
    MarkersAreCanonical(s, m);
    TokensOfText(s, m);
    assert Rewritten(s, []) == [];
  }

  lemma {:induction false} MarkersAreCanonical(s: seq<Tok>, m: Markers)
    requires forall x :: x in s ==> !x.Chr?
    ensures Canonical(s, m)
  {
    if s != [] { MarkersAreCanonical(s[1..], m); }
  }

  lemma {:induction false} MarksOfMarks(s: seq<Tok>)
    requires forall x :: x in s ==> !x.Chr?
    ensures Marks(s) == s
  {
    if s != [] { MarksOfMarks(s[1..]); }
  }

  /** A START split around a block: its first character before, the rest behind, then an END. */
  function SplitStart(m: Markers): string
    requires GoodMarkers(m)
  {
    m.start[..1] + (m.start + (m.end + (m.start[1..] + m.end)))
  }

  function SplitTail(m: Markers): seq<Tok>
    requires GoodMarkers(m)
  {
    Chars(m.start[1..]) + [Close]
  }

  lemma SplitStartTokens(m: Markers)
    requires GoodMarkers(m) && 2 <= |m.start| && 2 <= |m.end|
    ensures Tokens(SplitStart(m), m) == [Chr('#')] + ([Open] + ([Close] + SplitTail(m)))
  {
    var tail := SplitTail(m);
    CharsTokens(m.start[1..], m);
    var a := [Close] + tail;
    var b := [Open] + a;
    var c := [Chr('#')] + b;
    assert a[1..] == tail && b[1..] == a && c[1..] == b;
    assert m.start[..1] == "#";
    assert Text(a, m) == m.end + Text(tail, m);
    assert Text(b, m) == m.start + Text(a, m);
    assert Text(c, m) == SplitStart(m);
    assert Plain(b) == "" && Plain(c) == "#";
    assert Canonical(a, m) && Canonical(b, m) && Canonical(c, m);
    TokensOfText(c, m);
  }

  lemma SplitStartRewritten(m: Markers)
    requires GoodMarkers(m)
    ensures Rewritten([Chr('#')] + ([Open] + ([Close] + SplitTail(m))), []) == [Chr('#')] + SplitTail(m)
  {
    var tail := SplitTail(m);
    CharsTokens(m.start[1..], m);
    var a := [Close] + tail;
    var b := [Open] + a;
    var c := [Chr('#')] + b;
    assert a[1..] == tail && b[1..] == a && c[1..] == b;
    NoPairUnchanged(tail, []);
    assert [] + tail == tail;
    assert Rewritten(b, []) == tail;
  }

  lemma SplitStartText(m: Markers)
    requires GoodMarkers(m)
    ensures Text([Chr('#')] + SplitTail(m), m) == m.start + m.end
  {
    var tail := SplitTail(m);
    CharsTokens(m.start[1..], m);
    assert ([Chr('#')] + tail)[1..] == tail;
    assert "#" + (m.start[1..] + m.end) == m.start + m.end;
  }

  lemma SplitStartMarks(m: Markers)
    requires GoodMarkers(m)
    ensures Marks([Chr('#')] + ([Open] + ([Close] + SplitTail(m)))) == [Open, Close, Close]
  {
    var tail := SplitTail(m);
    CharsTokens(m.start[1..], m);
    var a := [Close] + tail;
    var b := [Open] + a;
    var c := [Chr('#')] + b;
    assert a[1..] == tail && b[1..] == a && c[1..] == b;
    MarksStep(c);
    MarksStep(b);
    MarksStep(a);
    assert Marks(a) == [Close] + [Close];
    assert Marks(b) == [Open] + Marks(a);
  }

  lemma OnePairIsNotNested()
    ensures !Nested([Open, Close, Close])
  {
    var w := [Open, Close, Close];
    assert w[1..] == [Close, Close] && w[1..][1..] == [Close] && w[1..][1..][1..] == [];
  }

  /** The first strip joins the two halves, and the second removes what now looks like a block, although
      no START of the text was followed by pairs and an END. */
  lemma CutsStitchAMarker(m: Markers)
    requires GoodMarkers(m) && 2 <= |m.start| && 2 <= |m.end|
    ensures Stripped(SplitStart(m), m) == m.start + m.end
    ensures Stripped(Stripped(SplitStart(m), m), m) == ""
    ensures Stitches(SplitStart(m), m) && !Nested(Marks(Tokens(SplitStart(m), m)))
  {
    SplitStartTokens(m);
    SplitStartRewritten(m);
    SplitStartText(m);
    SplitStartMarks(m);
    OnePairIsNotNested();
    OnlyPair(m);
    StitchedText([Chr('#')] + SplitTail(m), m);
  }

  function Chars(p: string): seq<Tok> {
    if p == "" then [] else [Chr(p[0])] + Chars(p[1..])
  }

  lemma {:induction false} CharsText(p: string, m: Markers)
    ensures Text(Chars(p) + [Close], m) == p + m.end && Plain(Chars(p) + [Close]) == p
  {
    var s := Chars(p) + [Close];
    if p == "" {
      assert s == [Close] && s[1..] == [];
    } else {
      CharsText(p[1..], m);
      assert s[1..] == Chars(p[1..]) + [Close];
      assert p + m.end == [p[0]] + (p[1..] + m.end);
    }
  }

  lemma {:induction false} CharsTokens(p: string, m: Markers)
    requires GoodMarkers(m) && forall k :: 0 <= k < |p| ==> p[k] != '#'
    ensures var s := Chars(p) + [Close];
      && Canonical(s, m) && Marks(s) == [Close] && !HasPair(s) && After(s) == [Close]
      && Text(s, m) == p + m.end && Plain(s) == p
  {
    var s := Chars(p) + [Close];
    CharsText(p, m);
    if p == "" {
      assert s == [Close] && s[1..] == [];
    } else {
      CharsTokens(p[1..], m);
      assert s[1..] == Chars(p[1..]) + [Close];
      MarksStep(s);
    }
  }

  lemma StitchedText(left: seq<Tok>, m: Markers)
    requires GoodMarkers(m) && left != [] && left[0].Chr? && StartsWith(Text(left, m), m.start)
    ensures !Canonical(left, m)
  {
    HeadMarker(left, m, m.start);
  }
}
