/** Text with START and END markers, read as a sequence of plain characters and markers. The functions
    here say what rewriting marked blocks means; MarkerBlocks.dfy does it by positions, as the tool does. */
module MarkerTokens {
  import opened Lines
  import Seqs

  datatype Markers = Markers(start: string, end: string)

  datatype Tok = Chr(c: char) | Open | Close

  predicate At(t: string, m: string, i: int) {
    0 <= i <= |t| - |m| && t[i..i + |m|] == m
  }

  lemma AtChar(t: string, m: string, i: int, k: int)
    requires At(t, m, i) && 0 <= k < |m|
    ensures t[i + k] == m[k]
  {
    assert t[i..i + |m|][k] == t[i + k];
  }

  lemma AtWindow(t: string, m: string, from: nat, to: nat, k: nat)
    requires from <= k && k + |m| <= to <= |t|
    ensures At(t[from..to], m, k - from) <==> At(t, m, k)
  {
    var a, b := t[from..to][k - from..k - from + |m|], t[k..k + |m|];
    assert forall x :: 0 <= x < |m| ==> a[x] == t[from..to][k - from + x] == t[k + x] == b[x];
    assert a == b;
  }

  /** A marker is one line fragment whose only `#` is its first character. */
  predicate GoodMarker(m: string) {
    && 0 < |m| && m[0] == '#'
    && (forall k :: 0 < k < |m| ==> m[k] != '#')
    && (forall k :: 0 <= k < |m| ==> m[k] != '\n')
  }

  predicate GoodMarkers(m: Markers) {
    && GoodMarker(m.start) && GoodMarker(m.end)
    && !StartsWith(m.start, m.end) && !StartsWith(m.end, m.start)
  }

  function Tokens(t: string, m: Markers): seq<Tok>
    requires GoodMarkers(m)
  {
    if t == "" then []
    else if StartsWith(t, m.start) then [Open] + Tokens(t[|m.start|..], m)
    else if StartsWith(t, m.end) then [Close] + Tokens(t[|m.end|..], m)
    else [Chr(t[0])] + Tokens(t[1..], m)
  }

  function Spelling(k: Tok, m: Markers): string {
    match k
    case Chr(c) => [c]
    case Open => m.start
    case Close => m.end
  }

  function Text(s: seq<Tok>, m: Markers): string {
    if s == [] then "" else Spelling(s[0], m) + Text(s[1..], m)
  }

  /** The plain text before the first marker. */
  function Plain(s: seq<Tok>): string {
    if s != [] && s[0].Chr? then [s[0].c] + Plain(s[1..]) else ""
  }

  /** The first marker, if any. */
  function After(s: seq<Tok>): seq<Tok> {
    if s != [] && s[0].Chr? then After(s[1..]) else s
  }

  /** No stretch of plain characters spells a marker. */
  predicate Canonical(s: seq<Tok>, m: Markers) {
    s == [] || (
    && Canonical(s[1..], m)
    && (s[0].Chr? ==> !StartsWith(Plain(s), m.start) && !StartsWith(Plain(s), m.end)))
  }

  /** A clean pair at the head: START, plain text, END. */
  predicate Pair(s: seq<Tok>) {
    s != [] && s[0] == Open && After(s[1..]) != [] && After(s[1..])[0] == Close
  }

  lemma {:induction false} AfterIsShorter(s: seq<Tok>)
    ensures |After(s)| <= |s|
  {
    if s != [] && s[0].Chr? { AfterIsShorter(s[1..]); }
  }

  /** Every clean pair becomes `block`; everything else stays. */
  function Rewritten(s: seq<Tok>, block: seq<Tok>): seq<Tok>
    decreases |s|
  {
    if s == [] then []
    else if Pair(s) then
      AfterIsShorter(s[1..]);
      block + Rewritten(After(s[1..])[1..], block)
    else [s[0]] + Rewritten(s[1..], block)
  }

  // ---------------------------------------------------------------------------
  // tokens and text are the same thing
  // ---------------------------------------------------------------------------

  lemma {:induction false} TextOfTokens(t: string, m: Markers)
    requires GoodMarkers(m)
    ensures Text(Tokens(t, m), m) == t
    decreases |t|
  {
    if t != "" {
      var n := HeadToken(t, m);
      TextOfTokens(t[n..], m);
      Seqs.TakeDrop(t, n);
    }
  }

  lemma HeadToken(t: string, m: Markers) returns (n: nat)
    requires GoodMarkers(m) && t != ""
    ensures 0 < n <= |t|
    ensures Tokens(t, m) != [] && Tokens(t, m)[1..] == Tokens(t[n..], m) && Spelling(Tokens(t, m)[0], m) == t[..n]
  {
    n := |Spelling(Tokens(t, m)[0], m)|;
  }

  lemma {:induction false} TextConcat(a: seq<Tok>, b: seq<Tok>, m: Markers)
    ensures Text(a + b, m) == Text(a, m) + Text(b, m)
  {
    if a == [] {
      Seqs.Nothing(b);
    } else {
      Seqs.FirstOfConcat(a, b);
      TextConcat(a[1..], b, m);
      Seqs.Assoc(Spelling(a[0], m), Text(a[1..], m), Text(b, m));
    }
  }

  lemma {:induction false} PlainThenMarker(s: seq<Tok>, m: Markers)
    requires GoodMarkers(m)
    ensures Text(s, m) == Plain(s) + Text(After(s), m)
    ensures After(s) != [] ==> After(s)[0] in {Open, Close} && Text(After(s), m) != "" && Text(After(s), m)[0] == '#'
  {
    if s != [] && s[0].Chr? {
      PlainThenMarker(s[1..], m);
    }
  }

  /** A marker spelled at the head of the text starts with a marker token or lies in plain text. */
  lemma HeadMarker(s: seq<Tok>, m: Markers, mark: string)
    requires GoodMarkers(m) && mark in {m.start, m.end}
    requires s != [] && s[0].Chr? && StartsWith(Text(s, m), mark)
    ensures StartsWith(Plain(s), mark)
  {
    PlainThenMarker(s, m);
    assert forall k :: 0 <= k < |mark| ==> mark[k] == Text(s, m)[k];
    assert After(s) != [] ==> Text(s, m)[|Plain(s)|] == '#';
    assert 0 < |Plain(s)|;
    if |Plain(s)| < |mark| {
      assert false;
    }
    assert Plain(s)[..|mark|] == Text(s, m)[..|mark|];
  }

  lemma {:induction false} TokensOfText(s: seq<Tok>, m: Markers)
    requires GoodMarkers(m) && Canonical(s, m)
    ensures Tokens(Text(s, m), m) == s
  {
    if s != [] {
      TokensOfText(s[1..], m);
      var t := Text(s, m);
      var head := Spelling(s[0], m);
      assert t[|head|..] == Text(s[1..], m);
      match s[0]
      case Open => assert t[..|head|] == head;
      case Close =>
        assert t[..|head|] == head;
        if StartsWith(t, m.start) {
          OnePrefix(t, m);
        }
      case Chr(_) =>
        if StartsWith(t, m.start) { HeadMarker(s, m, m.start); }
        if StartsWith(t, m.end) { HeadMarker(s, m, m.end); }
    }
  }

  lemma OnePrefix(t: string, m: Markers)
    requires GoodMarkers(m) && StartsWith(t, m.start)
    ensures !StartsWith(t, m.end)
  {
    if StartsWith(t, m.end) {
      if |m.start| <= |m.end| {
        PrefixesNest(t, m.start, m.end);
      } else {
        PrefixesNest(t, m.end, m.start);
      }
    }
  }

  lemma PrefixesNest(t: string, a: string, b: string)
    requires StartsWith(t, a) && StartsWith(t, b) && |a| <= |b|
    ensures StartsWith(b, a)
  {
    assert b[..|a|] == t[..|b|][..|a|] == t[..|a|];
  }

  lemma {:induction false} PlainIsPrefix(t: string, m: Markers)
    requires GoodMarkers(m)
    ensures StartsWith(t, Plain(Tokens(t, m)))
  {
    if t != "" && Tokens(t, m)[0].Chr? {
      PlainIsPrefix(t[1..], m);
    }
  }

  lemma {:induction false} TokensAreCanonical(t: string, m: Markers)
    requires GoodMarkers(m)
    ensures Canonical(Tokens(t, m), m)
    decreases |t|
  {
    if t != "" {
      var s := Tokens(t, m);
      TokensAreCanonical(t[|Spelling(s[0], m)|..], m);
      if s[0].Chr? {
        PlainIsPrefix(t, m);
        var p := Plain(s);
        assert forall mark: string :: StartsWith(p, mark) ==> t[..|mark|] == t[..|p|][..|mark|] == mark;
      }
    }
  }

  // ---------------------------------------------------------------------------
  // rewriting
  // ---------------------------------------------------------------------------

  lemma TextOfRewritten(s: seq<Tok>, filler: seq<Tok>, m: Markers)
    requires s != []
    ensures !Pair(s) ==> Text(Rewritten(s, filler), m) == Spelling(s[0], m) + Text(Rewritten(s[1..], filler), m)
    ensures Pair(s) ==> (
      Text(Rewritten(s, filler), m) == Text(filler, m) + Text(Rewritten(After(s[1..])[1..], filler), m))
  {
    if Pair(s) {
      AfterIsShorter(s[1..]);
      TextConcat(filler, Rewritten(After(s[1..])[1..], filler), m);
    } else {
      assert Rewritten(s, filler)[1..] == Rewritten(s[1..], filler);
    }
  }

  /** A block's tokens: START, plain text, END, and no marker between. */
  ghost predicate GoodBlock(block: seq<Tok>, m: Markers) {
    Canonical(block, m) && Pair(block) && After(block[1..]) == [Close]
  }

  lemma {:induction false} AfterConcat(a: seq<Tok>, b: seq<Tok>)
    requires After(a) != []
    ensures After(a + b) == After(a) + b
    ensures Plain(a + b) == Plain(a)
  {
    if a[0].Chr? {
      AfterConcat(a[1..], b);
      assert (a + b)[1..] == a[1..] + b;
    }
  }

  lemma {:induction false} CanonicalConcat(a: seq<Tok>, b: seq<Tok>, m: Markers)
    requires Canonical(a, m) && Canonical(b, m)
    requires a != [] ==> !a[|a| - 1].Chr?
    ensures Canonical(a + b, m)
  {
    if a == [] {
      assert a + b == b;
    } else {
      assert (a + b)[1..] == a[1..] + b;
      CanonicalConcat(a[1..], b, m);
      if a[0].Chr? {
        MarkerAhead(a);
        AfterConcat(a, b);
      }
    }
  }

  lemma {:induction false} MarkerAhead(a: seq<Tok>)
    requires a != [] && !a[|a| - 1].Chr?
    ensures After(a) != []
  {
    if a[0].Chr? { MarkerAhead(a[1..]); }
  }

  /** What the head of a rewritten text looks like: the same plain text, then a marker of the same kind. */
  lemma {:induction false} RewrittenHead(s: seq<Tok>, block: seq<Tok>, m: Markers)
    requires GoodBlock(block, m)
    ensures var r := Rewritten(s, block);
      && Plain(r) == Plain(s)
      && (After(r) == [] <==> After(s) == [])
      && (After(s) != [] ==> After(r)[0] == After(s)[0])
    decreases |s|
  {
    if s != [] {
      var r := Rewritten(s, block);
      if Pair(s) {
        assert r[0] == block[0] == Open;
      } else {
        assert r[1..] == Rewritten(s[1..], block);
        if s[0].Chr? { RewrittenHead(s[1..], block, m); }
      }
    }
  }

  lemma {:induction false} RewrittenIsCanonical(s: seq<Tok>, block: seq<Tok>, m: Markers)
    requires GoodMarkers(m) && Canonical(s, m) && GoodBlock(block, m)
    ensures Canonical(Rewritten(s, block), m)
    decreases |s|
  {
    if s != [] {
      var r := Rewritten(s, block);
      if Pair(s) {
        AfterIsShorter(s[1..]);
        AfterIsCanonical(s[1..], m);
        RewrittenIsCanonical(After(s[1..])[1..], block, m);
        EndsInMarker(block[1..]);
        CanonicalConcat(block, Rewritten(After(s[1..])[1..], block), m);
      } else {
        RewrittenIsCanonical(s[1..], block, m);
        assert r[1..] == Rewritten(s[1..], block);
        RewrittenHead(s, block, m);
      }
    }
  }

  lemma {:induction false} AfterIsCanonical(s: seq<Tok>, m: Markers)
    requires Canonical(s, m)
    ensures Canonical(After(s), m)
  {
    if s != [] && s[0].Chr? { AfterIsCanonical(s[1..], m); }
  }

  lemma {:induction false} EndsInMarker(s: seq<Tok>)
    requires After(s) != []
    ensures s != [] && s[|s| - 1] == After(s)[|After(s)| - 1]
  {
    if s[0].Chr? { EndsInMarker(s[1..]); }
  }

  lemma PairConcat(block: seq<Tok>, b: seq<Tok>)
    requires Pair(block) && After(block[1..]) == [Close]
    ensures Pair(block + b) && After((block + b)[1..])[1..] == b
  {
    assert (block + b)[1..] == block[1..] + b;
    AfterConcat(block[1..], b);
  }

  /** Rewriting with `other` after rewriting with a block is rewriting with `other` at once. */
  lemma {:induction false} RewriteTwice(s: seq<Tok>, block: seq<Tok>, other: seq<Tok>, m: Markers)
    requires GoodBlock(block, m)
    ensures Rewritten(Rewritten(s, block), other) == Rewritten(s, other)
    decreases |s|
  {
    if s != [] {
      var r := Rewritten(s, block);
      if Pair(s) {
        AfterIsShorter(s[1..]);
        var rest := After(s[1..])[1..];
        RewriteTwice(rest, block, other, m);
        PairConcat(block, Rewritten(rest, block));
      } else {
        RewriteTwice(s[1..], block, other, m);
        assert r[1..] == Rewritten(s[1..], block);
        RewrittenHead(s[1..], block, m);
      }
    }
  }
}
