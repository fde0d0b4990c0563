/** The managed blocks of a login file: the positional scan for clean marker pairs, and the rewriting and
    stripping of exactly those spans, as the appliers do it. */
module MarkerBlocks {
  import opened Lines
  import opened MarkerTokens
  import Seqs

  /** `[s, e)` runs from a START to the next marker of either kind, which is an END. */
  ghost predicate Clean(t: string, m: Markers, s: int, e: int) {
    && At(t, m.start, s)
    && At(t, m.end, e - |m.end|)
    && s + |m.start| <= e - |m.end|
    && forall k :: s < k < e - |m.end| ==> !At(t, m.start, k) && !At(t, m.end, k)
  }

  /** The clean pairs of `t` from position `from` on, in increasing order, disjoint, and all of them. */
  ghost predicate AllClean(t: string, m: Markers, from: int, spans: seq<(nat, nat)>) {
    && (forall k :: 0 <= k < |spans| ==> from <= spans[k].0 && Clean(t, m, spans[k].0, spans[k].1))
    && (forall k :: 0 < k < |spans| ==> spans[k - 1].1 <= spans[k].0)
    && (forall s: nat, e: nat :: from <= s && Clean(t, m, s, e) ==> (s, e) in spans)
  }

  /** No marker begins strictly inside another: its first character is the only `#`. */
  lemma NoHashInside(t: string, mark: string, other: string, i: int, k: int)
    requires GoodMarker(mark) && GoodMarker(other) && At(t, mark, i) && i < k < i + |mark|
    ensures !At(t, other, k)
  {
    AtChar(t, mark, i, k - i);
    if At(t, other, k) {
      AtChar(t, other, k, 0);
    }
  }

  /** `str.find`: the first occurrence at or after `pos`, or -1. */
  method Find(t: string, mark: string, pos: nat) returns (i: int)
    requires mark != ""
    ensures i == -1 || (pos <= i && At(t, mark, i))
    ensures forall k :: pos <= k && (i == -1 || k < i) ==> !At(t, mark, k)
  {
    i := pos;
    while i + |mark| <= |t|
      invariant pos <= i
      invariant forall k :: pos <= k < i ==> !At(t, mark, k)
    {
      if t[i..i + |mark|] == mark {
        return;
      }
      i := i + 1;
    }
    i := -1;
  }

  /** The scan has found every clean pair that begins before `pos`. */
  ghost predicate ScannedTo(t: string, m: Markers, pos: nat, spans: seq<(nat, nat)>) {
    && (forall k :: 0 <= k < |spans| ==> Clean(t, m, spans[k].0, spans[k].1) && spans[k].1 <= pos)
    && (forall k :: 0 < k < |spans| ==> spans[k - 1].1 <= spans[k].0)
    && (forall s: nat, e: nat :: s < pos && Clean(t, m, s, e) ==> (s, e) in spans)
  }

  lemma ScanSkips(t: string, m: Markers, pos: nat, next: nat, spans: seq<(nat, nat)>)
    requires ScannedTo(t, m, pos, spans) && pos <= next
    requires forall k: nat, e: nat :: pos <= k < next ==> !Clean(t, m, k, e)
    ensures ScannedTo(t, m, next, spans)
  {
  }

  lemma ScanAdds(t: string, m: Markers, pos: nat, s: nat, next: nat, spans: seq<(nat, nat)>)
    requires ScannedTo(t, m, pos, spans) && pos <= s <= next && Clean(t, m, s, next)
    requires forall k: nat, e: nat :: pos <= k < next && Clean(t, m, k, e) ==> k == s && e == next
    ensures ScannedTo(t, m, next, spans + [(s, next)])
  {
    var more := spans + [(s, next)];
    assert more[|spans|] == (s, next);
    forall k: nat, e: nat | k < next && Clean(t, m, k, e) ensures (k, e) in more {
      if k < pos {
        assert (k, e) in spans;
      }
    }
  }

  lemma ScanEnds(t: string, m: Markers, pos: nat, spans: seq<(nat, nat)>)
    requires ScannedTo(t, m, pos, spans)
    requires forall k :: pos <= k ==> !At(t, m.start, k)
    ensures AllClean(t, m, 0, spans)
  {
  }

  /** The left-to-right scan. */
  method Spans(t: string, m: Markers) returns (spans: seq<(nat, nat)>)
    requires GoodMarkers(m)
    ensures AllClean(t, m, 0, spans)
  {
    spans := [];
    var pos := 0;
    while true
      invariant 0 <= pos <= |t|
      invariant ScannedTo(t, m, pos, spans)
      decreases |t| - pos
    {
      var s := Find(t, m.start, pos);
      if s == -1 {
        ScanEnds(t, m, pos, spans);
        return;
      }
      var e := Find(t, m.end, s + |m.start|);
      if e == -1 {
        SkipStart(t, m, pos, s);
        ScanSkips(t, m, pos, s + |m.start|, spans);
        pos := s + |m.start|;
        continue;
      }
      var inner := t[s + |m.start|..e];
      var opens := Find(inner, m.start, 0);
      var closes := Find(inner, m.end, 0);
      if opens != -1 || closes != -1 {
        SkipCrossed(t, m, pos, s, e, if opens != -1 then opens else closes);
        ScanSkips(t, m, pos, s + |m.start|, spans);
        pos := s + |m.start|;
        continue;
      }
      var eFull := e + |m.end|;
      SpanFound(t, m, pos, s, e);
      ScanAdds(t, m, pos, s, eFull, spans);
      spans := spans + [(s, eFull)];
      pos := eFull;
    }
  }

  /** No clean pair begins in `[pos, next)` except perhaps at `s`, the first START there. */
  lemma OnlyAtStart(t: string, m: Markers, pos: nat, s: nat, next: nat)
    requires GoodMarkers(m) && pos <= s && At(t, m.start, s)
    requires forall k :: pos <= k < s ==> !At(t, m.start, k)
    requires next <= s + |m.start|
    ensures forall k: nat, e: nat :: pos <= k < next && Clean(t, m, k, e) ==> k == s
  {
    forall k: nat, e: nat | pos <= k < next && Clean(t, m, k, e) ensures k == s {
      if s < k {
        NoHashInside(t, m.start, m.start, s, k);
      }
    }
  }

  lemma SkipStart(t: string, m: Markers, pos: nat, s: nat)
    requires GoodMarkers(m) && pos <= s && At(t, m.start, s)
    requires forall k :: pos <= k < s ==> !At(t, m.start, k)
    requires forall k :: s + |m.start| <= k ==> !At(t, m.end, k)
    ensures forall k: nat, e: nat :: pos <= k < s + |m.start| ==> !Clean(t, m, k, e)
  {
    OnlyAtStart(t, m, pos, s, s + |m.start|);
  }

  lemma SkipCrossed(t: string, m: Markers, pos: nat, s: nat, e: nat, x: nat)
    requires GoodMarkers(m) && pos <= s && At(t, m.start, s)
    requires forall k :: pos <= k < s ==> !At(t, m.start, k)
    requires s + |m.start| <= e && At(t, m.end, e)
    requires forall k :: s + |m.start| <= k < e ==> !At(t, m.end, k)
    requires var inner := t[s + |m.start|..e]; At(inner, m.start, x) || At(inner, m.end, x)
    ensures forall k: nat, e: nat :: pos <= k < s + |m.start| ==> !Clean(t, m, k, e)
  {
    OnlyAtStart(t, m, pos, s, s + |m.start|);
    var base := s + |m.start|;
    var inner := t[base..e];
    var mark := if At(inner, m.start, x) then m.start else m.end;
    AtWindow(t, mark, base, e, base + x);
    assert At(t, mark, base + x);
    assert mark == m.start;
    assert At(t, m.end, e) && s < base + x < e;
  }

  lemma SpanFound(t: string, m: Markers, pos: nat, s: nat, e: nat)
    requires GoodMarkers(m) && pos <= s && At(t, m.start, s)
    requires forall k :: pos <= k < s ==> !At(t, m.start, k)
    requires s + |m.start| <= e && At(t, m.end, e)
    requires forall k :: s + |m.start| <= k < e ==> !At(t, m.end, k)
    requires forall k {:trigger At(t[s + |m.start|..e], m.start, k)} :: 0 <= k ==> !At(t[s + |m.start|..e], m.start, k)
    ensures Clean(t, m, s, e + |m.end|)
    ensures forall k: nat, e': nat :: pos <= k < e + |m.end| && Clean(t, m, k, e') ==> k == s && e' == e + |m.end|
  {
    forall k | s < k < e ensures !At(t, m.start, k) && !At(t, m.end, k) {
      if k < s + |m.start| {
        NoHashInside(t, m.start, m.start, s, k);
        NoHashInside(t, m.start, m.end, s, k);
      } else {
        NotInInner(t, m, s + |m.start|, e, k);
      }
    }
    BothAt(t, m, e);
    forall k: nat, e': nat | pos <= k < e + |m.end| && Clean(t, m, k, e') ensures k == s && e' == e + |m.end| {
      if e < k {
        NoHashInside(t, m.end, m.start, e, k);
      }
      assert k == s;
      assert At(t, m.end, e' - |m.end|) && At(t, m.end, e);
    }
  }

  lemma NotInInner(t: string, m: Markers, base: nat, e: nat, k: nat)
    requires GoodMarkers(m) && base <= k < e && At(t, m.end, e) && !At(t[base..e], m.start, k - base)
    ensures !At(t, m.start, k)
  {
    if k + |m.start| <= e {
      AtWindow(t, m.start, base, e, k);
    } else if At(t, m.start, k) {
      NoHashInside(t, m.start, m.end, k, e);
    }
  }

  lemma BothAt(t: string, m: Markers, i: nat)
    requires GoodMarkers(m)
    ensures !(At(t, m.start, i) && At(t, m.end, i))
  {
    if i <= |t| {
      AtSuffix(t, m.start, i);
      AtSuffix(t, m.end, i);
      if StartsWith(t[i..], m.start) {
        OnePrefix(t[i..], m);
      }
    }
  }

  lemma AtSuffix(t: string, mark: string, i: nat)
    requires i <= |t|
    ensures At(t, mark, i) <==> StartsWith(t[i..], mark)
  {
    if i + |mark| <= |t| {
      assert t[i..][..|mark|] == t[i..i + |mark|];
    }
  }

  // ---------------------------------------------------------------------------
  // splicing
  // ---------------------------------------------------------------------------

  ghost predicate InOrder(t: string, spans: seq<(nat, nat)>, cursor: nat) {
    cursor <= |t| && (spans == [] ||
    (cursor <= spans[0].0 <= spans[0].1 <= |t| && InOrder(t, spans[1..], spans[0].1)))
  }

  /** The text from `cursor` on, with `filler` in place of every span. */
  ghost function Spliced(t: string, spans: seq<(nat, nat)>, filler: string, cursor: nat): string
    requires InOrder(t, spans, cursor)
  {
    if spans == [] then t[cursor..]
    else t[cursor..spans[0].0] + filler + Spliced(t, spans[1..], filler, spans[0].1)
  }

  lemma {:induction false} CleanInOrder(t: string, m: Markers, spans: seq<(nat, nat)>, cursor: nat)
    requires GoodMarkers(m) && cursor <= |t| && AllClean(t, m, cursor, spans)
    ensures InOrder(t, spans, cursor)
  {
    if spans != [] {
      AllCleanTail(t, m, cursor, spans);
      CleanInOrder(t, m, spans[1..], spans[0].1);
    }
  }

  lemma {:induction false} SpansAscend(t: string, m: Markers, from: nat, spans: seq<(nat, nat)>, k: nat)
    requires AllClean(t, m, from, spans) && 0 < k < |spans|
    ensures spans[0].1 <= spans[k].0
  {
    if 1 < k { SpansAscend(t, m, from, spans, k - 1); }
  }

  lemma AllCleanTail(t: string, m: Markers, from: nat, spans: seq<(nat, nat)>)
    requires GoodMarkers(m) && AllClean(t, m, from, spans) && spans != []
    ensures AllClean(t, m, spans[0].1, spans[1..])
  {
    var rest := spans[1..];
    forall k | 0 <= k < |rest| ensures spans[0].1 <= rest[k].0 && Clean(t, m, rest[k].0, rest[k].1) {
      SpansAscend(t, m, from, spans, k + 1);
    }
    forall s: nat, e: nat | spans[0].1 <= s && Clean(t, m, s, e) ensures (s, e) in rest {
      assert (s, e) in spans;
      assert (s, e) != spans[0];
    }
  }

  /** A stretch in which no clean pair begins can be skipped. */
  lemma AllCleanSkip(t: string, m: Markers, from: nat, to: nat, spans: seq<(nat, nat)>)
    requires AllClean(t, m, from, spans) && from <= to
    requires forall s: nat, e: nat :: from <= s < to ==> !Clean(t, m, s, e)
    ensures AllClean(t, m, to, spans)
  {
  }

  lemma SplicedSkip(t: string, spans: seq<(nat, nat)>, filler: string, from: nat, to: nat)
    requires InOrder(t, spans, to) && from <= to
    ensures InOrder(t, spans, from)
    ensures Spliced(t, spans, filler, from) == t[from..to] + Spliced(t, spans, filler, to)
  {
    if spans == [] {
      assert t[from..] == t[from..to] + t[to..];
    } else {
      assert t[from..spans[0].0] == t[from..to] + t[to..spans[0].0];
      Regroup(t[from..to], t[to..spans[0].0], filler, Spliced(t, spans[1..], filler, spans[0].1));
    }
  }

  lemma Regroup(a: string, b: string, c: string, d: string)
    ensures a + b + c + d == a + (b + c + d)
  {
  }

  /** The head of a text as tokens: how long the plain stretch is, and that no marker begins in it. */
  lemma {:induction false} PlainRun(u: string, m: Markers)
    requires GoodMarkers(m)
    ensures var s, p := Tokens(u, m), |Plain(Tokens(u, m))|;
      && p <= |u|
      && After(s) == Tokens(u[p..], m)
      && (forall k :: 0 <= k < p ==> !StartsWith(u[k..], m.start) && !StartsWith(u[k..], m.end))
      && (p < |u| ==> StartsWith(u[p..], m.start) || StartsWith(u[p..], m.end))
    decreases |u|
  {
    if u != "" && Tokens(u, m)[0].Chr? {
      PlainRun(u[1..], m);
      var p := |Plain(Tokens(u, m))|;
      assert u[1..][p - 1..] == u[p..];
      forall k | 0 <= k < p ensures !StartsWith(u[k..], m.start) && !StartsWith(u[k..], m.end) {
        if 0 < k {
          assert u[1..][k - 1..] == u[k..];
        }
      }
    }
  }

  /** No marker begins between a START at `c` and the end of the plain text behind it. */
  lemma NoMarkBeforeNext(t: string, m: Markers, c: nat, p: nat)
    requires GoodMarkers(m) && At(t, m.start, c)
    requires c + |m.start| + p <= |t|
    requires var u := t[c + |m.start|..];
      forall k :: 0 <= k < p ==> !StartsWith(u[k..], m.start) && !StartsWith(u[k..], m.end)
    ensures forall k :: c < k < c + |m.start| + p ==> !At(t, m.start, k) && !At(t, m.end, k)
  {
    var base := c + |m.start|;
    forall k | c < k < base + p ensures !At(t, m.start, k) && !At(t, m.end, k) {
      if k < base {
        NoHashInside(t, m.start, m.start, c, k);
        NoHashInside(t, m.start, m.end, c, k);
      } else {
        assert t[base..][k - base..] == t[k..];
        AtSuffix(t, m.start, k);
        AtSuffix(t, m.end, k);
      }
    }
  }

  /** The tokens behind a START at `c`, by position: the next marker, if any, is at `next`. */
  lemma NextMark(t: string, m: Markers, c: nat) returns (next: nat)
    requires GoodMarkers(m) && At(t, m.start, c)
    ensures var s := Tokens(t[c..], m);
      && s != [] && s[0] == Open
      && c + |m.start| <= next <= |t|
      && After(s[1..]) == Tokens(t[next..], m)
      && (forall k :: c < k < next ==> !At(t, m.start, k) && !At(t, m.end, k))
      && (next < |t| ==> At(t, m.start, next) || At(t, m.end, next))
  {
    var s := Tokens(t[c..], m);
    var base := c + |m.start|;
    AtSuffix(t, m.start, c);
    assert t[c..][|m.start|..] == t[base..];
    PlainRun(t[base..], m);
    var p := |Plain(s[1..])|;
    next := base + p;
    assert t[base..][p..] == t[next..];
    NoMarkBeforeNext(t, m, c, p);
    AtSuffix(t, m.start, next);
    AtSuffix(t, m.end, next);
  }

  /** A clean pair of tokens at `c` is a clean span at `c`, and the tokens behind it are those of the rest. */
  lemma PairIsClean(t: string, m: Markers, c: nat) returns (e: nat)
    requires GoodMarkers(m) && At(t, m.start, c)
    ensures var s := Tokens(t[c..], m);
      && s != [] && s[0] == Open
      && (if Pair(s) then c < e <= |t| && Clean(t, m, c, e) && Tokens(t[e..], m) == After(s[1..])[1..]
          else forall e: nat :: !Clean(t, m, c, e))
  {
    var s := Tokens(t[c..], m);
    var next := NextMark(t, m, c);
    BothAt(t, m, next);
    AtSuffix(t, m.end, next);
    AtSuffix(t, m.start, next);
    e := next + |m.end|;
    if Pair(s) {
      assert t[next..][|m.end|..] == t[e..];
      assert At(t, m.end, e - |m.end|);
    } else {
      assert !At(t, m.end, next);
      NotClean(t, m, c, next);
    }
  }

  lemma NotClean(t: string, m: Markers, c: nat, next: nat)
    requires GoodMarkers(m) && c + |m.start| <= next <= |t|
    requires forall k :: c < k < next ==> !At(t, m.end, k)
    requires !At(t, m.end, next) && (next < |t| ==> At(t, m.start, next))
    ensures forall e: nat :: !Clean(t, m, c, e)
  {
    forall e: nat ensures !Clean(t, m, c, e) {
      if next < |t| && next < e - |m.end| {
        assert At(t, m.start, next);
      }
    }
  }

  lemma NoPairAtEnd(t: string, m: Markers, c: nat)
    requires GoodMarkers(m) && At(t, m.end, c)
    ensures forall s: nat, e: nat :: c <= s < c + |m.end| ==> !Clean(t, m, s, e)
  {
    forall s: nat, e: nat | c <= s < c + |m.end| ensures !Clean(t, m, s, e) {
      BothAt(t, m, c);
      if c < s { NoHashInside(t, m.end, m.start, c, s); }
    }
  }

  lemma NoPairInStart(t: string, m: Markers, c: nat)
    requires GoodMarkers(m) && At(t, m.start, c) && forall e: nat :: !Clean(t, m, c, e)
    ensures forall s: nat, e: nat :: c <= s < c + |m.start| ==> !Clean(t, m, s, e)
  {
    forall s: nat, e: nat | c <= s < c + |m.start| ensures !Clean(t, m, s, e) {
      if c < s { NoHashInside(t, m.start, m.start, c, s); }
    }
  }

  lemma FirstSpanAt(t: string, m: Markers, c: nat, e: nat, spans: seq<(nat, nat)>)
    requires AllClean(t, m, c, spans) && Clean(t, m, c, e) && GoodMarkers(m)
    ensures spans != [] && spans[0] == (c, e)
  {
    assert (c, e) in spans;
    var k :| 0 <= k < |spans| && spans[k] == (c, e);
    if 0 < k { SpansAscend(t, m, c, spans, k); }
  }

  /** From `cursor` on, splicing gives the text of the rewritten tokens `s`. */
  ghost predicate SplicesRight(t: string, m: Markers, spans: seq<(nat, nat)>, filler: seq<Tok>, cursor: nat,
      s: seq<Tok>)
  {
    && InOrder(t, spans, cursor)
    && Spliced(t, spans, Text(filler, m), cursor) == Text(Rewritten(s, filler), m)
  }

  /** Splicing at the clean spans is rewriting the clean pairs of tokens. */
  lemma {:induction false} SplicedIsRewritten(t: string, m: Markers, spans: seq<(nat, nat)>, filler: seq<Tok>, c: nat)
    requires GoodMarkers(m) && c <= |t| && AllClean(t, m, c, spans)
    ensures SplicesRight(t, m, spans, filler, c, Tokens(t[c..], m))
    decreases |t| - c, 1
  {
    if c == |t| {
      NoSpanAtEnd(t, m, spans);
    } else if Pair(Tokens(t[c..], m)) {
      SplicedFromPair(t, m, spans, filler, c);
    } else {
      SplicedFromOther(t, m, spans, filler, c);
    }
  }

  lemma {:induction false} SplicedFromPair(t: string, m: Markers, spans: seq<(nat, nat)>, filler: seq<Tok>, c: nat)
    requires GoodMarkers(m) && c < |t| && AllClean(t, m, c, spans) && Pair(Tokens(t[c..], m))
    ensures SplicesRight(t, m, spans, filler, c, Tokens(t[c..], m))
    decreases |t| - c, 0
  {
    PairAhead(t, m, spans, c);
    AllCleanTail(t, m, c, spans);
    SplicedIsRewritten(t, m, spans[1..], filler, spans[0].1);
    SplicedPair(t, m, spans, filler, c, Tokens(t[c..], m), Tokens(t[spans[0].1..], m));
  }

  lemma {:induction false} SplicedFromOther(t: string, m: Markers, spans: seq<(nat, nat)>, filler: seq<Tok>, c: nat)
    requires GoodMarkers(m) && c < |t| && AllClean(t, m, c, spans) && !Pair(Tokens(t[c..], m))
    ensures SplicesRight(t, m, spans, filler, c, Tokens(t[c..], m))
    decreases |t| - c, 0
  {
    var next := NoPairAhead(t, m, spans, c);
    SplicedIsRewritten(t, m, spans, filler, next);
    SplicedOther(t, m, spans, filler, c, Tokens(t[c..], m), next, Tokens(t[next..], m));
  }

  lemma NoSpanAtEnd(t: string, m: Markers, spans: seq<(nat, nat)>)
    requires GoodMarkers(m) && AllClean(t, m, |t|, spans)
    ensures spans == []
  {
    if 0 < |spans| {
      FirstSpanFits(t, m, |t|, spans);
      assert false;
    }
  }

  lemma FirstSpanFits(t: string, m: Markers, from: nat, spans: seq<(nat, nat)>)
    requires GoodMarkers(m) && AllClean(t, m, from, spans) && spans != []
    ensures from <= spans[0].0 < spans[0].1 <= |t|
  {
  }

  lemma SplicedPair(t: string, m: Markers, spans: seq<(nat, nat)>, filler: seq<Tok>, c: nat, s: seq<Tok>,
      rest: seq<Tok>)
    requires Pair(s) && spans != [] && spans[0].0 == c && c <= spans[0].1 <= |t| && rest == After(s[1..])[1..]
    requires SplicesRight(t, m, spans[1..], filler, spans[0].1, rest)
    ensures SplicesRight(t, m, spans, filler, c, s)
  {
    TextOfRewritten(s, filler, m);
    assert t[c..c] == "";
    Seqs.Nothing(Text(filler, m));
  }

  lemma SplicedOther(t: string, m: Markers, spans: seq<(nat, nat)>, filler: seq<Tok>, c: nat, s: seq<Tok>,
      next: nat, rest: seq<Tok>)
    requires s != [] && !Pair(s) && c <= next <= |t| && t[c..next] == Spelling(s[0], m) && rest == s[1..]
    requires SplicesRight(t, m, spans, filler, next, rest)
    ensures SplicesRight(t, m, spans, filler, c, s)
  {
    TextOfRewritten(s, filler, m);
    SplicedSkip(t, spans, Text(filler, m), c, next);
  }

  lemma PairAhead(t: string, m: Markers, spans: seq<(nat, nat)>, c: nat)
    requires GoodMarkers(m) && c < |t| && AllClean(t, m, c, spans) && Pair(Tokens(t[c..], m))
    ensures spans != [] && spans[0].0 == c && c < spans[0].1 <= |t|
    ensures Tokens(t[spans[0].1..], m) == After(Tokens(t[c..], m)[1..])[1..]
  {
    AtSuffix(t, m.start, c);
    var e := PairIsClean(t, m, c);
    FirstSpanAt(t, m, c, e, spans);
  }

  lemma NoPairAhead(t: string, m: Markers, spans: seq<(nat, nat)>, c: nat) returns (next: nat)
    requires GoodMarkers(m) && c < |t| && AllClean(t, m, c, spans) && !Pair(Tokens(t[c..], m))
    ensures c < next <= |t| && AllClean(t, m, next, spans)
    ensures Tokens(t[c..], m) != []
    ensures Tokens(t[next..], m) == Tokens(t[c..], m)[1..]
    ensures t[c..next] == Spelling(Tokens(t[c..], m)[0], m)
  {
    var s := Tokens(t[c..], m);
    var n := |Spelling(s[0], m)|;
    next := c + n;
    AtSuffix(t, m.start, c);
    AtSuffix(t, m.end, c);
    match s[0] {
      case Open =>
        var _ := PairIsClean(t, m, c);
        NoPairInStart(t, m, c);
      case Close => NoPairAtEnd(t, m, c);
      case Chr(_) =>
    }
    AllCleanSkip(t, m, c, next, spans);
    assert t[c..][n..] == t[next..];
    assert t[c..next] == t[c..][..n];
  }
}
