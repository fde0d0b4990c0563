/** Installing a managed block in a login file, and removing it: the three appliers differ only in their
    markers, their block, and in what a missing file becomes. */
module BlockAppliers {
  import opened Lines
  import opened MarkerTokens
  import opened MarkerBlocks
  import opened Options

  // ---------------------------------------------------------------------------
  // what applying means
  // ---------------------------------------------------------------------------

  /** Somewhere a START is followed, marker-wise, by an END. */
  predicate HasPair(s: seq<Tok>) {
    s != [] && (Pair(s) || HasPair(s[1..]))
  }

  function Separator(existing: string): string {
    if existing == "" || existing[|existing| - 1] == '\n' then "\n" else "\n\n"
  }

  /** The file text after an apply: every clean block replaced, or one appended, or all removed. */
  ghost function Applied(existing: string, wanted: bool, block: string, m: Markers): string
    requires GoodMarkers(m)
  {
    var s := Tokens(existing, m);
    if !wanted then Text(Rewritten(s, []), m)
    else if HasPair(s) then Text(Rewritten(s, Tokens(block, m)), m)
    else existing + Separator(existing) + block + "\n"
  }

  /** The file after an apply: it is read in text mode, and written back only if the text changes. */
  ghost function FileAfter(raw: string, wanted: bool, block: string, m: Markers): string
    requires GoodMarkers(m)
  {
    var new_ := Applied(Universal(raw), wanted, block, m);
    if new_ == Universal(raw) then raw else new_
  }

  /** The text with every clean block cut out. */
  ghost function Stripped(existing: string, m: Markers): string
    requires GoodMarkers(m)
  {
    Text(Rewritten(Tokens(existing, m), []), m)
  }

  /** The block starts with START, ends with END, and holds no other marker. */
  ghost predicate OwnBlock(block: string, m: Markers)
    requires GoodMarkers(m)
  {
    GoodBlock(Tokens(block, m), m)
  }

  /** The same, by positions: the whole block is one clean span. */
  lemma OwnBlockIff(block: string, m: Markers)
    requires GoodMarkers(m)
    ensures OwnBlock(block, m) <==> Clean(block, m, 0, |block|)
  {
    TokensAreCanonical(block, m);
    assert block[0..] == block;
    AtSuffix(block, m.start, 0);
    if StartsWith(block, m.start) {
      var e := PairIsClean(block, m, 0);
      var s := Tokens(block, m);
      if Pair(s) {
        OneEnd(block, m, e);
        if e < |block| {
          assert Tokens(block[e..], m) != [];
        } else {
          assert block[e..] == "";
          assert After(s[1..]) == [Close];
        }
      }
    }
  }

  lemma OneEnd(t: string, m: Markers, e: nat)
    requires GoodMarkers(m) && Clean(t, m, 0, e)
    ensures forall e': nat :: Clean(t, m, 0, e') ==> e' == e
  {
    forall e': nat | Clean(t, m, 0, e') ensures e' == e {
      assert At(t, m.end, e' - |m.end|) && At(t, m.end, e - |m.end|);
    }
  }

  // ---------------------------------------------------------------------------
  // the appliers
  // ---------------------------------------------------------------------------

  /** `# >>> <name> >>>` and `# <<< <name> <<<`. The names in use are `airuleset: subdev ssh auto-attach`,
      `airuleset: vps ssh auto-attach` and `airuleset: shared-stream env`. */
  function NamedMarkers(name: string): Markers {
    Markers("#" + OpenBody(name), "#" + CloseBody(name))
  }

  function OpenBody(name: string): string { " >>> " + (name + " >>>") }

  function CloseBody(name: string): string { " <<< " + (name + " <<<") }

  predicate PlainText(p: string) {
    p == "" || (p[0] != '#' && p[0] != '\n' && PlainText(p[1..]))
  }

  lemma {:induction false} PlainTextChars(p: string)
    requires PlainText(p)
    ensures forall k :: 0 <= k < |p| ==> p[k] != '#' && p[k] != '\n'
  {
    if p != "" {
      PlainTextChars(p[1..]);
      assert forall k :: 1 <= k < |p| ==> p[k] == p[1..][k - 1];
    }
  }

  lemma {:induction false} PlainTextConcat(p: string, q: string)
    requires PlainText(p) && PlainText(q)
    ensures PlainText(p + q)
  {
    if p == "" {
      assert p + q == q;
    } else {
      PlainTextConcat(p[1..], q);
      assert (p + q)[1..] == p[1..] + q;
    }
  }

  lemma HashThenPlain(p: string)
    requires PlainText(p)
    ensures GoodMarker("#" + p)
  {
    PlainTextChars(p);
    assert forall k :: 0 < k < |"#" + p| ==> ("#" + p)[k] == p[k - 1];
  }

  lemma BodiesArePlain(name: string)
    requires PlainText(name)
    ensures PlainText(OpenBody(name)) && PlainText(CloseBody(name))
  {
    assert PlainText(" >>>") && PlainText(" <<<") && PlainText(" >>> ") && PlainText(" <<< ");
    PlainTextConcat(name, " >>>");
    PlainTextConcat(" >>> ", name + " >>>");
    PlainTextConcat(name, " <<<");
    PlainTextConcat(" <<< ", name + " <<<");
  }

  /** Markers made of a name without `#` or newline are good. */
  lemma NamedMarkersAreGood(name: string)
    requires PlainText(name)
    ensures GoodMarkers(NamedMarkers(name))
  {
    var m := NamedMarkers(name);
    BodiesArePlain(name);
    HashThenPlain(OpenBody(name));
    HashThenPlain(CloseBody(name));
    ThirdCharDiffers(m.start, m.end);
    ThirdCharDiffers(m.end, m.start);
  }

  lemma ThirdCharDiffers(a: string, b: string)
    requires 3 <= |a| && 3 <= |b| && a[2] != b[2]
    ensures !StartsWith(a, b)
  {
    if StartsWith(a, b) {
      PrefixChar(a, b, 2);
    }
  }

  lemma PrefixChar(a: string, b: string, k: nat)
    requires StartsWith(a, b) && k < |b|
    ensures a[k] == b[k]
  {
    assert a[..|b|][k] == a[k];
  }

  /** Copy the text between the spans, with `filler` in place of each. */
  method Splice(existing: string, spans: seq<(nat, nat)>, filler: string) returns (new_: string)
    requires InOrder(existing, spans, 0)
    ensures new_ == Spliced(existing, spans, filler, 0)
  {
    var cursor := 0;
    new_ := "";
    for k := 0 to |spans|
      invariant InOrder(existing, spans[k..], cursor)
      invariant new_ + Spliced(existing, spans[k..], filler, cursor) == Spliced(existing, spans, filler, 0)
    {
      assert spans[k..][1..] == spans[k + 1..];
      var (s, e) := spans[k];
      Regroup(new_, existing[cursor..s], filler, Spliced(existing, spans[k + 1..], filler, e));
      new_ := new_ + existing[cursor..s] + filler;
      cursor := e;
    }
    new_ := new_ + existing[cursor..];
  }

  /** What the scan found decides which text an apply leaves. */
  lemma SplicesApply(existing: string, m: Markers, spans: seq<(nat, nat)>, block: string)
    requires GoodMarkers(m) && AllClean(existing, m, 0, spans)
    ensures InOrder(existing, spans, 0)
    ensures Applied(existing, true, block, m) ==
      if spans != [] then Spliced(existing, spans, block, 0) else existing + Separator(existing) + block + "\n"
    ensures Applied(existing, false, block, m) == if spans != [] then Spliced(existing, spans, "", 0) else existing
  {
    SpansFoundIff(existing, m, spans);
    TextOfTokens(block, m);
    assert existing[0..] == existing;
    SplicedIsRewritten(existing, m, spans, Tokens(block, m), 0);
    SplicedIsRewritten(existing, m, spans, [], 0);
    if spans == [] {
      NoPairUnchanged(Tokens(existing, m), []);
      TextOfTokens(existing, m);
    }
  }

  /** `apply_stream_ssh_attach` and `apply_owner_vps_ssh_attach`: a missing file reads as empty. */
  method ApplySshAttach(file: Option<string>, wanted: bool, block: string, m: Markers)
    returns (after: Option<string>, changed: bool)
    requires GoodMarkers(m)
    ensures var raw := if file.Some? then file.value else "";
      && changed == (Applied(Universal(raw), wanted, block, m) != Universal(raw))
      && after == (if changed then Some(FileAfter(raw, wanted, block, m)) else file)
  {
    var existing := if file.Some? then Universal(file.value) else "";
    var spans := Spans(existing, m);
    SplicesApply(existing, m, spans, block);
    var new_;
    if wanted {
      if spans != [] {
        new_ := Splice(existing, spans, block);
      } else {
        var sep := if existing == "" || existing[|existing| - 1] == '\n' then "" else "\n";
        assert sep + "\n" == Separator(existing);
        new_ := existing + (sep + "\n") + block + "\n";
      }
    } else {
      if spans == [] {
        return file, false;
      }
      new_ := Splice(existing, spans, "");
    }
    if new_ != existing {
      return Some(new_), true;
    }
    return file, false;
  }

  /** `apply_stream_env`: a missing file is created holding just the block, or left missing. */
  method ApplyStreamEnv(file: Option<string>, wanted: bool, block: string, m: Markers)
    returns (after: Option<string>, changed: bool)
    requires GoodMarkers(m)
    ensures file == None ==> changed == wanted && after == if wanted then Some(block + "\n") else None
    ensures file.Some? ==>
      && changed == (Applied(Universal(file.value), wanted, block, m) != Universal(file.value))
      && after == Some(FileAfter(file.value, wanted, block, m))
  {
    if file == None {
      if wanted {
        return Some(block + "\n"), true;
      }
      return None, false;
    }
    after, changed := ApplySshAttach(file, wanted, block, m);
  }

  lemma SpansFoundIff(t: string, m: Markers, spans: seq<(nat, nat)>)
    requires GoodMarkers(m) && AllClean(t, m, 0, spans)
    ensures spans != [] <==> HasPair(Tokens(t, m))
  {
    assert t[0..] == t;
    SpansFoundFrom(t, m, spans, 0);
  }

  lemma {:induction false} SpansFoundFrom(t: string, m: Markers, spans: seq<(nat, nat)>, c: nat)
    requires GoodMarkers(m) && c <= |t| && AllClean(t, m, c, spans)
    ensures spans != [] <==> HasPair(Tokens(t[c..], m))
    decreases |t| - c
  {
    if c == |t| {
      NoSpanAtEnd(t, m, spans);
    } else if Pair(Tokens(t[c..], m)) {
      PairAhead(t, m, spans, c);
    } else {
      var next := NoPairAhead(t, m, spans, c);
      SpansFoundFrom(t, m, spans, next);
    }
  }

  // ---------------------------------------------------------------------------
  // idempotence
  // ---------------------------------------------------------------------------

  lemma {:induction false} NoPairUnchanged(s: seq<Tok>, filler: seq<Tok>)
    requires !HasPair(s)
    ensures Rewritten(s, filler) == s
  {
    if s != [] { NoPairUnchanged(s[1..], filler); }
  }

  lemma {:induction false} RewrittenHasPair(s: seq<Tok>, block: seq<Tok>, m: Markers)
    requires GoodBlock(block, m) && HasPair(s)
    ensures HasPair(Rewritten(s, block))
  {
    if Pair(s) {
      AfterIsShorter(s[1..]);
      PairConcat(block, Rewritten(After(s[1..])[1..], block));
    } else {
      RewrittenHasPair(s[1..], block, m);
      assert Rewritten(s, block)[1..] == Rewritten(s[1..], block);
    }
  }

  /** The tokens of a rewritten text are the rewritten tokens: no marker forms across a block's edge. */
  lemma TokensOfRewritten(t: string, block: string, m: Markers)
    requires GoodMarkers(m) && OwnBlock(block, m)
    ensures Tokens(Text(Rewritten(Tokens(t, m), Tokens(block, m)), m), m) == Rewritten(Tokens(t, m), Tokens(block, m))
  {
    TokensAreCanonical(t, m);
    RewrittenIsCanonical(Tokens(t, m), Tokens(block, m), m);
    TokensOfText(Rewritten(Tokens(t, m), Tokens(block, m)), m);
  }

  /** Applying a block twice is applying it once, on every text, stray and crossed markers included. */
  lemma ApplyIsIdempotent(existing: string, block: string, m: Markers)
    requires GoodMarkers(m) && OwnBlock(block, m)
    ensures var once := Applied(existing, true, block, m);
      Applied(once, true, block, m) == once
  {
    var s, b := Tokens(existing, m), Tokens(block, m);
    if HasPair(s) {
      TokensOfRewritten(existing, block, m);
      RewrittenHasPair(s, b, m);
      RewriteTwice(s, b, b, m);
    } else {
      var before := AppendedTokens(existing, block, m);
      RewriteAppended(before, b, b, m);
      AppendedHasPair(before, b, [NEWLINE]);
      TextOfTokens(Applied(existing, true, block, m), m);
    }
  }

  /** Removing after installing is removing: what lies outside the blocks was never touched. An appended
      block leaves the newlines it was appended with. */
  lemma StripAfterApply(existing: string, block: string, m: Markers)
    requires GoodMarkers(m) && OwnBlock(block, m)
    ensures var once := Applied(existing, true, block, m);
      Stripped(once, m) == if HasPair(Tokens(existing, m)) then Stripped(existing, m)
                           else existing + Separator(existing) + "\n"
  {
    var s, b := Tokens(existing, m), Tokens(block, m);
    if HasPair(s) {
      TokensOfRewritten(existing, block, m);
      RewriteTwice(s, b, [], m);
    } else {
      var before := AppendedTokens(existing, block, m);
      RewriteAppended(before, b, [], m);
      assert [] + [NEWLINE] == [NEWLINE];
      TextConcat(before, [NEWLINE], m);
      TextOfTokens(existing + Separator(existing), m);
      assert Text([NEWLINE], m) == "\n";
    }
  }

  /** In a file without a block one is appended: the old text stays in front, the block begins a line and ends
      the file, and between the two stands exactly one empty line (in an empty file, above the block). */
  lemma AppendedOnItsOwnLine(existing: string, block: string, m: Markers)
    requires GoodMarkers(m) && !HasPair(Tokens(existing, m))
    ensures var new_ := Applied(existing, true, block, m);
      var at := |new_| - |block| - 1;
      && |existing| < at && new_[at..] == block + "\n" && new_[..|existing|] == existing
      && new_[at - 1] == '\n'
      && (existing != "" ==> new_[at - 2] == '\n' && at - 2 <= |existing|)
      && (existing != "" && existing[|existing| - 1] == '\n' ==> at == |existing| + 1)
  {
    var new_ := Applied(existing, true, block, m);
    var sep := Separator(existing);
    assert new_ == (existing + sep) + (block + "\n");
    assert new_[..|existing + sep|] == existing + sep;
    assert new_[..|existing|] == (existing + sep)[..|existing|] == existing;
  }

  /** The markers of a name: `# >>> airuleset: shared-stream env >>>` and its fellow, for example. */
  lemma NamedMarkersAre(name: string)
    ensures NamedMarkers(name) == Markers("# >>> " + name + " >>>", "# <<< " + name + " <<<")
  {
    assert "#" + (" >>> " + (name + " >>>")) == "# >>> " + name + " >>>";
    assert "#" + (" <<< " + (name + " <<<")) == "# <<< " + name + " <<<";
  }

  /** A block that was created in a file of its own is left alone. */
  lemma CreatedIsStable(block: string, m: Markers)
    requires GoodMarkers(m) && OwnBlock(block, m)
    ensures Applied(block + "\n", true, block, m) == block + "\n"
  {
    var b := Tokens(block, m);
    TokensThenNewline(block, m);
    RewriteAppended([], b, b, m);
    assert [] + (b + [NEWLINE]) == b + [NEWLINE];
    AppendedHasPair([], b, [NEWLINE]);
    TextOfTokens(block + "\n", m);
  }

  // --- the appended block ------------------------------------------------------

  const NEWLINE := Chr('\n')

  /** A newline cannot belong to a marker, so one behind a text creates none. */
  lemma {:induction false} CanonicalThenNewline(s: seq<Tok>, m: Markers)
    requires GoodMarkers(m) && Canonical(s, m)
    ensures Canonical(s + [NEWLINE], m)
    ensures Plain(s + [NEWLINE]) in {Plain(s), Plain(s) + "\n"}
  {
    if s == [] {
      assert s + [NEWLINE] == [NEWLINE];
      assert [NEWLINE][1..] == [];
      assert Plain([NEWLINE]) == ['\n'] + Plain([]) == "" + "\n";
    } else {
      assert (s + [NEWLINE])[1..] == s[1..] + [NEWLINE];
      CanonicalThenNewline(s[1..], m);
      if s[0].Chr? {
        NoNewlineInMarker(Plain(s), m.start);
        NoNewlineInMarker(Plain(s), m.end);
        assert Plain(s) + "\n" == [s[0].c] + (Plain(s[1..]) + "\n");
      }
    }
  }

  lemma NoNewlineInMarker(p: string, mark: string)
    requires GoodMarker(mark)
    ensures StartsWith(p + "\n", mark) ==> StartsWith(p, mark)
  {
    var q := p + "\n";
    if StartsWith(q, mark) {
      assert forall k :: 0 <= k < |mark| ==> mark[k] == q[k];
      assert q[|p|] == '\n';
      assert |mark| <= |p|;
      assert p[..|mark|] == q[..|mark|];
    }
  }

  lemma TokensThenNewline(t: string, m: Markers)
    requires GoodMarkers(m)
    ensures Tokens(t + "\n", m) == Tokens(t, m) + [NEWLINE]
  {
    var s := Tokens(t, m);
    TokensAreCanonical(t, m);
    CanonicalThenNewline(s, m);
    TextConcat(s, [NEWLINE], m);
    TextOfTokens(t, m);
    assert Text([NEWLINE], m) == "\n";
    TokensOfText(s + [NEWLINE], m);
  }

  lemma TokensThenBlock(t: string, block: string, m: Markers)
    requires GoodMarkers(m) && OwnBlock(block, m)
    ensures Tokens(t + block, m) == Tokens(t, m) + Tokens(block, m)
  {
    var s, b := Tokens(t, m), Tokens(block, m);
    TokensAreCanonical(t, m);
    CanonicalBeforeMarker(s, b, m);
    TextConcat(s, b, m);
    TextOfTokens(t, m);
    TextOfTokens(block, m);
    TokensOfText(s + b, m);
  }

  lemma {:induction false} CanonicalBeforeMarker(a: seq<Tok>, b: seq<Tok>, m: Markers)
    requires Canonical(a, m) && Canonical(b, m) && b != [] && !b[0].Chr?
    ensures Canonical(a + b, m)
    ensures Plain(a + b) == Plain(a)
  {
    if a == [] {
      assert a + b == b;
    } else {
      assert (a + b)[1..] == a[1..] + b;
      CanonicalBeforeMarker(a[1..], b, m);
    }
  }

  lemma {:induction false} HasPairThenNewline(s: seq<Tok>)
    requires !HasPair(s)
    ensures !HasPair(s + [NEWLINE])
  {
    if s == [] {
      assert s + [NEWLINE] == [NEWLINE];
      assert [NEWLINE][1..] == [];
    } else {
      assert (s + [NEWLINE])[1..] == s[1..] + [NEWLINE];
      HasPairThenNewline(s[1..]);
      AfterThenNewline(s[1..]);
    }
  }

  lemma {:induction false} AfterThenNewline(s: seq<Tok>)
    ensures After(s) == [] ==> After(s + [NEWLINE]) == []
    ensures After(s) != [] ==> After(s + [NEWLINE]) == After(s) + [NEWLINE]
  {
    if s == [] {
      assert s + [NEWLINE] == [NEWLINE];
      assert [NEWLINE][1..] == [];
    } else {
      assert (s + [NEWLINE])[1..] == s[1..] + [NEWLINE];
      AfterThenNewline(s[1..]);
    }
  }

  lemma AppendedTokens(existing: string, block: string, m: Markers) returns (before: seq<Tok>)
    requires GoodMarkers(m) && OwnBlock(block, m) && !HasPair(Tokens(existing, m))
    ensures before == Tokens(existing + Separator(existing), m) && !HasPair(before)
    ensures Tokens(Applied(existing, true, block, m), m) == before + (Tokens(block, m) + [NEWLINE])
  {
    SeparatorMakesNoPair(existing, m);
    var t := existing + Separator(existing);
    before := Tokens(t, m);
    TokensThenBlock(t, block, m);
    TokensThenNewline(t + block, m);
    assert before + Tokens(block, m) + [NEWLINE] == before + (Tokens(block, m) + [NEWLINE]);
  }

  lemma SeparatorMakesNoPair(existing: string, m: Markers)
    requires GoodMarkers(m) && !HasPair(Tokens(existing, m))
    ensures !HasPair(Tokens(existing + Separator(existing), m))
  {
    TokensThenNewline(existing, m);
    HasPairThenNewline(Tokens(existing, m));
    if Separator(existing) == "\n\n" {
      TokensThenNewline(existing + "\n", m);
      HasPairThenNewline(Tokens(existing + "\n", m));
      assert existing + "\n" + "\n" == existing + Separator(existing);
    }
  }

  lemma RewriteBlockAlone(block: seq<Tok>, filler: seq<Tok>)
    requires Pair(block) && After(block[1..]) == [Close]
    ensures Rewritten(block + [NEWLINE], filler) == filler + [NEWLINE]
  {
    PairConcat(block, [NEWLINE]);
    assert [NEWLINE][1..] == [];
    assert Rewritten([NEWLINE], filler) == [NEWLINE];
  }

  /** Rewriting a text without clean pairs that a block was appended to touches the block alone. */
  lemma {:induction false} RewriteAppended(s: seq<Tok>, block: seq<Tok>, filler: seq<Tok>, m: Markers)
    requires !HasPair(s) && GoodBlock(block, m)
    ensures Rewritten(s + (block + [NEWLINE]), filler) == s + (filler + [NEWLINE])
  {
    if s == [] {
      RewriteBlockAlone(block, filler);
      assert s + (block + [NEWLINE]) == block + [NEWLINE];
      assert s + (filler + [NEWLINE]) == filler + [NEWLINE];
    } else {
      RewriteAppended(s[1..], block, filler, m);
      RewriteBeforeBlock(s, block + [NEWLINE], filler);
      assert s + (filler + [NEWLINE]) == [s[0]] + (s[1..] + (filler + [NEWLINE]));
    }
  }

  lemma RewriteBeforeBlock(s: seq<Tok>, tail: seq<Tok>, filler: seq<Tok>)
    requires s != [] && !Pair(s) && tail != [] && tail[0] == Open
    ensures Rewritten(s + tail, filler) == [s[0]] + Rewritten(s[1..] + tail, filler)
  {
    assert (s + tail)[1..] == s[1..] + tail;
    AppendedOpens(s[1..], tail);
  }

  /** The first marker of a text with a block behind it is its own first, or the block's START. */
  lemma {:induction false} AppendedOpens(s: seq<Tok>, b: seq<Tok>)
    requires b != [] && b[0] == Open
    ensures var a := After(s + b);
      a != [] && a[0] == if After(s) == [] then Open else After(s)[0]
  {
    if s == [] {
      assert s + b == b;
    } else {
      assert (s + b)[1..] == s[1..] + b;
      AppendedOpens(s[1..], b);
    }
  }

  lemma {:induction false} AppendedHasPair(a: seq<Tok>, block: seq<Tok>, b: seq<Tok>)
    requires Pair(block) && After(block[1..]) == [Close]
    ensures HasPair(a + (block + b))
  {
    if a == [] {
      PairConcat(block, b);
      assert a + (block + b) == block + b;
    } else {
      AppendedHasPair(a[1..], block, b);
      assert (a + (block + b))[1..] == a[1..] + (block + b);
    }
  }
}
