/** What an apply does to the file itself. It is read in text mode, where every line ending becomes a newline,
    and written back with newlines: exactly when is everything outside the blocks kept? */
module AppliedFiles {
  import Seqs
  import opened Lines
  import opened MarkerTokens
  import opened MarkerBlocks
  import opened BlockAppliers
  import opened StripAcross
  import opened StripTwice

  predicate NoReturns(m: Markers) {
    '\r' !in m.start && '\r' !in m.end
  }

  /** Text mode, on tokens. */
  function Translated(s: seq<Tok>): seq<Tok> {
    if s == [] then []
    else if s[0] == Chr('\r') then [NEWLINE] + Translated(if |s| > 1 && s[1] == NEWLINE then s[2..] else s[1..])
    else [s[0]] + Translated(s[1..])
  }

  // ---------------------------------------------------------------------------
  // text mode and markers do not meet
  // ---------------------------------------------------------------------------

  lemma StartsWithStep(t: string, p: string)
    requires t != "" && p != ""
    ensures StartsWith(t, p) <==> t[0] == p[0] && StartsWith(t[1..], p[1..])
  {
    if StartsWith(t[1..], p[1..]) && t[0] == p[0] {
      assert t[..|p|] == [t[0]] + t[1..][..|p| - 1];
    }
  }

  /** A text starts with a piece of a line exactly if it does after text mode. */
  lemma {:induction false} PrefixSurvives(t: string, p: string)
    requires '\r' !in p && '\n' !in p
    ensures StartsWith(Universal(t), p) <==> StartsWith(t, p)
    ensures StartsWith(t, p) ==> Universal(t)[|p|..] == Universal(t[|p|..])
  {
    if p == "" {
      assert t[..0] == "" && Universal(t)[..0] == "";
    } else if t != "" {
      StartsWithStep(t, p);
      StartsWithStep(Universal(t), p);
      if t[0] != '\r' {
        PrefixSurvives(t[1..], p[1..]);
        assert Universal(t)[1..] == Universal(t[1..]);
      }
    }
  }

  lemma MarkersAreLinePieces(m: Markers)
    requires GoodMarkers(m)
    ensures '\n' !in m.start && '\n' !in m.end
  {
  }

  lemma {:induction false} TokensTranslated(t: string, m: Markers)
    requires GoodMarkers(m) && NoReturns(m)
    ensures Tokens(Universal(t), m) == Translated(Tokens(t, m))
    decreases |t|
  {
    MarkersAreLinePieces(m);
    PrefixSurvives(t, m.start);
    PrefixSurvives(t, m.end);
    if t != "" {
      if StartsWith(t, m.start) {
        TokensTranslated(t[|m.start|..], m);
      } else if StartsWith(t, m.end) {
        TokensTranslated(t[|m.end|..], m);
      } else if t[0] == '\r' {
        ReturnTranslated(t, m);
      } else {
        TokensTranslated(t[1..], m);
        assert Universal(t)[1..] == Universal(t[1..]);
      }
    }
  }

  lemma {:induction false} ReturnTranslated(t: string, m: Markers)
    requires GoodMarkers(m) && NoReturns(m) && t != "" && t[0] == '\r'
    ensures Tokens(Universal(t), m) == Translated(Tokens(t, m))
    decreases |t|, 0
  {
    var rest := if |t| > 1 && t[1] == '\n' then t[2..] else t[1..];
    TokensTranslated(rest, m);
    NoMarkerAt(t, m);
    NoMarkerAt(Universal(t), m);
    assert Universal(t)[1..] == Universal(rest);
    var s := Tokens(t, m);
    assert s[1..] == Tokens(t[1..], m);
    if |t| > 1 {
      NewlineToken(t[1..], m);
      assert s[1] == Tokens(t[1..], m)[0];
      assert t[1..][1..] == t[2..] && s[1..][1..] == s[2..];
    }
  }

  lemma NoMarkerAt(t: string, m: Markers)
    requires GoodMarkers(m) && t != "" && t[0] != '#'
    ensures Tokens(t, m) == [Chr(t[0])] + Tokens(t[1..], m)
  {
    StartsWithStep(t, m.start);
    StartsWithStep(t, m.end);
  }

  lemma NewlineToken(t: string, m: Markers)
    requires GoodMarkers(m) && t != ""
    ensures Tokens(t, m) != [] && (Tokens(t, m)[0] == NEWLINE <==> t[0] == '\n')
    ensures t[0] == '\n' ==> Tokens(t, m)[1..] == Tokens(t[1..], m)
  {
    if t[0] == '\n' {
      NoMarkerAt(t, m);
    }
  }

  // ---------------------------------------------------------------------------
  // text mode and clean pairs
  // ---------------------------------------------------------------------------

  lemma {:induction false} AfterTranslated(s: seq<Tok>)
    ensures After(Translated(s)) == Translated(After(s))
  {
    if s != [] && s[0].Chr? {
      var two := s[0] == Chr('\r') && |s| > 1 && s[1] == NEWLINE;
      var rest := if two then s[2..] else s[1..];
      assert Translated(s)[1..] == Translated(rest);
      AfterTranslated(rest);
      assert two ==> s[1..][1..] == s[2..];
    }
  }

  lemma PairTranslated(s: seq<Tok>)
    requires s != []
    ensures Pair(Translated(s)) <==> Pair(s)
    ensures Pair(s) ==> BehindPair(Translated(s)) == Translated(BehindPair(s))
  {
    if s[0] == Open {
      assert Translated(s)[1..] == Translated(s[1..]);
      AfterTranslated(s[1..]);
    }
  }

  lemma {:induction false} HasPairTranslated(s: seq<Tok>)
    ensures HasPair(Translated(s)) <==> HasPair(s)
  {
    if s != [] {
      PairTranslated(s);
      var two := s[0] == Chr('\r') && |s| > 1 && s[1] == NEWLINE;
      var rest := if two then s[2..] else s[1..];
      assert Translated(s)[1..] == Translated(rest);
      HasPairTranslated(rest);
      assert two ==> s[1..][1..] == s[2..];
    }
  }

  /** If no carriage return stands outside the clean pairs, text mode changes nothing there. */
  lemma {:induction false} CutTranslated(s: seq<Tok>)
    requires Chr('\r') !in Rewritten(s, [])
    ensures Rewritten(Translated(s), []) == Rewritten(s, [])
    decreases |s|
  {
    if s != [] {
      CutStep(s);
      PairTranslated(s);
      if Pair(s) {
        CutStep(Translated(s));
        CutTranslated(BehindPair(s));
      } else {
        Seqs.ConsAt(s[0], Rewritten(s[1..], []));
        CutStep(Translated(s));
        assert Translated(s)[1..] == Translated(s[1..]);
        CutTranslated(s[1..]);
      }
    }
  }

  // ---------------------------------------------------------------------------
  // where carriage returns can be
  // ---------------------------------------------------------------------------

  lemma {:induction false} ReturnInText(s: seq<Tok>, m: Markers)
    requires NoReturns(m)
    ensures '\r' in Text(s, m) <==> Chr('\r') in s
  {
    if s != [] {
      ReturnInText(s[1..], m);
      Seqs.InConcat(Spelling(s[0], m), Text(s[1..], m), '\r');
      Seqs.ConsAt(s[0], s[1..]);
      assert s == [s[0]] + s[1..];
    }
  }

  lemma {:induction false} ReturnInRewritten(s: seq<Tok>, block: seq<Tok>)
    ensures Chr('\r') in Rewritten(s, block) ==> Chr('\r') in s || Chr('\r') in block
    ensures HasPair(s) && Chr('\r') in block ==> Chr('\r') in Rewritten(s, block)
    decreases |s|
  {
    if s != [] {
      var x := Chr('\r');
      assert s == [s[0]] + s[1..];
      Seqs.ConsAt(s[0], s[1..]);
      if Pair(s) {
        var rest := BehindPair(s);
        ReturnInRewritten(rest, block);
        Seqs.InConcat(block, Rewritten(rest, block), x);
        BehindIsPart(s, x);
      } else {
        ReturnInRewritten(s[1..], block);
        Seqs.ConsAt(s[0], Rewritten(s[1..], block));
      }
    }
  }

  lemma BehindIsPart(s: seq<Tok>, x: Tok)
    requires Pair(s)
    ensures x in BehindPair(s) ==> x in s
  {
    AfterIsPart(s[1..], x);
  }

  lemma {:induction false} AfterIsPart(s: seq<Tok>, x: Tok)
    ensures x in After(s) ==> x in s
  {
    if s != [] && s[0].Chr? { AfterIsPart(s[1..], x); }
  }

  /** Text mode keeps what lies outside the clean blocks exactly if there is no carriage return in it. */
  lemma StrippedIsKeptIff(raw: string, m: Markers)
    requires GoodMarkers(m) && NoReturns(m)
    ensures Stripped(Universal(raw), m) == Stripped(raw, m) <==> '\r' !in Stripped(raw, m)
    ensures HasPair(Tokens(Universal(raw), m)) <==> HasPair(Tokens(raw, m))
  {
    var s := Tokens(raw, m);
    TokensTranslated(raw, m);
    HasPairTranslated(s);
    ReturnInText(Rewritten(s, []), m);
    if '\r' !in Stripped(raw, m) {
      CutTranslated(s);
    } else {
      NoReturnApplied(Universal(raw), false, "", m);
    }
  }

  lemma NoReturnApplied(t: string, wanted: bool, block: string, m: Markers)
    requires GoodMarkers(m) && NoReturns(m) && '\r' !in t && '\r' !in block
    ensures '\r' !in Applied(t, wanted, block, m)
  {
    var s, b := Tokens(t, m), if wanted then Tokens(block, m) else [];
    TextOfTokens(t, m);
    TextOfTokens(block, m);
    ReturnInText(s, m);
    ReturnInText(Tokens(block, m), m);
    ReturnInRewritten(s, b);
    ReturnInText(Rewritten(s, b), m);
  }

  lemma ReturnApplied(t: string, block: string, m: Markers)
    requires GoodMarkers(m) && NoReturns(m) && '\r' in block
    ensures '\r' in Applied(t, true, block, m)
  {
    var s, b := Tokens(t, m), Tokens(block, m);
    if HasPair(s) {
      TextOfTokens(block, m);
      ReturnInText(b, m);
      ReturnInRewritten(s, b);
      ReturnInText(Rewritten(s, b), m);
    } else {
      Seqs.InConcat(t + Separator(t), block, '\r');
      Seqs.InConcat(t + Separator(t) + block, "\n", '\r');
    }
  }

  // ---------------------------------------------------------------------------
  // the file
  // ---------------------------------------------------------------------------

  /** Outside the clean blocks `file` is what `raw` was: cut out they leave the same, and an appended block
      stands behind the old file. */
  ghost predicate OutsideKept(raw: string, file: string, wanted: bool, block: string, m: Markers)
    requires GoodMarkers(m)
  {
    if !wanted then file == Stripped(raw, m)
    else if HasPair(Tokens(raw, m)) then Stripped(file, m) == Stripped(raw, m)
    else file == raw + Separator(raw) + block + "\n"
  }

  /** An apply keeps everything outside the blocks exactly if it does not write the file, or no carriage
      return stands outside them. */
  lemma OutsideKeptIff(raw: string, wanted: bool, block: string, m: Markers)
    requires GoodMarkers(m) && NoReturns(m) && (wanted ==> OwnBlock(block, m))
    ensures OutsideKept(raw, FileAfter(raw, wanted, block, m), wanted, block, m) <==>
      Applied(Universal(raw), wanted, block, m) == Universal(raw) || '\r' !in Stripped(raw, m)
  {
    var t := Universal(raw);
    StrippedIsKeptIff(raw, m);
    if !HasPair(Tokens(raw, m)) {
      NoPairStripped(raw, m);
      NoPairStripped(t, m);
      AppendedKeptIff(raw, block);
    }
    if HasPair(Tokens(raw, m)) && wanted {
      StripAfterApply(t, block, m);
    }
    if HasPair(Tokens(raw, m)) && !wanted {
      StripFixpoint(t, m);
    }
  }

  lemma NoPairStripped(t: string, m: Markers)
    requires GoodMarkers(m) && !HasPair(Tokens(t, m))
    ensures Stripped(t, m) == t
  {
    NoPairUnchanged(Tokens(t, m), []);
    TextOfTokens(t, m);
  }

  lemma AppendedKeptIff(raw: string, block: string)
    ensures var t := Universal(raw);
      t + Separator(t) + block + "\n" == raw + Separator(raw) + block + "\n" <==> '\r' !in raw
  {
    var t := Universal(raw);
    if '\r' in raw {
      var k := FirstReturn(raw);
      assert (t + Separator(t) + block + "\n")[k] == t[k];
      assert (raw + Separator(raw) + block + "\n")[k] == raw[k];
    } else {
      UniversalTwice(raw);
    }
  }

  lemma {:induction false} FirstReturn(raw: string) returns (k: nat)
    requires '\r' in raw
    ensures k < |raw| && k < |Universal(raw)| && raw[k] != Universal(raw)[k]
  {
    if raw[0] == '\r' {
      return 0;
    }
    assert raw == [raw[0]] + raw[1..];
    Seqs.ConsAt(raw[0], raw[1..]);
    var j := FirstReturn(raw[1..]);
    return j + 1;
  }

  /** Applying to the written file again leaves it alone exactly if there is no carriage return in the block. */
  lemma SecondApplyIff(raw: string, block: string, m: Markers)
    requires GoodMarkers(m) && NoReturns(m) && OwnBlock(block, m)
    ensures var once := Universal(FileAfter(raw, true, block, m));
      Applied(once, true, block, m) == once <==> '\r' !in block
  {
    var t := Universal(raw);
    var once := FileAfter(raw, true, block, m);
    if '\r' in block {
      ReturnApplied(Universal(once), block, m);
    } else if Applied(t, true, block, m) != t {
      NoReturnApplied(t, true, block, m);
      UniversalTwice(once);
      ApplyIsIdempotent(t, block, m);
    }
  }
}
