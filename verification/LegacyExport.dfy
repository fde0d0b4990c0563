/** Removing the legacy export line from a login file without touching a managed block
    (cli_bashrc_appliers.py:1082-1190, cli_bashrc_drift.py:69-113). */
module LegacyExport {
  import opened Lines
  import opened Options
  import Seqs

  const COMMENT := "# Claude Code: " + "disable /loop and CronCreate (managed by airuleset)"
  const EXPORT := "export CLAUDE_CODE_DISABLE_CRON=1"

  // ---------------------------------------------------------------------------
  // matching a line
  // ---------------------------------------------------------------------------

  predicate IsWord(c: char) { 'a' <= c <= 'z' || 'A' <= c <= 'Z' || '0' <= c <= '9' || c == '_' }

  /** `^\s*#\s*<arrows>\s*airuleset\b` */
  predicate IsMarker(l: string, arrows: string) {
    var a := SkipSpace(l);
    && StartsWith(a, "#")
    && var b := SkipSpace(a[1..]);
    && StartsWith(b, arrows)
    && var c := SkipSpace(b[|arrows|..]);
    && StartsWith(c, "airuleset") && (|c| > 9 ==> !IsWord(c[9]))
  }

  predicate IsStart(l: string) { IsMarker(l, ">>>") }

  predicate IsEnd(l: string) { IsMarker(l, "<<<") }

  predicate IsComment(l: string) { RStrip(l) == COMMENT }

  predicate IsExport(l: string) { RStrip(l) == EXPORT }

  /** The characters of `core`, then white space alone (a line ending, for example). */
  ghost predicate IsCoreAndSpace(l: string, core: string) {
    && |core| <= |l| && l[..|core|] == core
    && forall i :: |core| <= i < |l| ==> IsSpace(l[i])
  }

  lemma StrippedIs(l: string, core: string)
    requires core != "" && !IsSpace(core[|core| - 1])
    ensures RStrip(l) == core <==> IsCoreAndSpace(l, core)
  {
    RStripIs(l);
    if IsCoreAndSpace(l, core) {
      var n := |RStrip(l)|;
      assert l[|core| - 1] == core[|core| - 1];
      assert n == |core|;
    }
  }

  ghost predicate ExportLine(l: string) { IsCoreAndSpace(l, "export CLAUDE_CODE_DISABLE_CRON=1") }

  ghost predicate CommentLine(l: string) {
    IsCoreAndSpace(l, "# Claude Code: " + "disable /loop and CronCreate (managed by airuleset)")
  }

  /** The two kinds of line that are looked for, by their characters. */
  lemma LegacyLinesAre(l: string)
    ensures IsExport(l) <==> ExportLine(l)
    ensures IsComment(l) <==> CommentLine(l)
  {
    OrdinaryCharacters('1');
    OrdinaryCharacters(')');
    LastOfComment();
    StrippedIs(l, EXPORT);
    StrippedIs(l, COMMENT);
  }

  lemma LastOfComment()
    ensures COMMENT != "" && COMMENT[|COMMENT| - 1] == ')'
  {
    var a, b := "# Claude Code: ", "disable /loop and CronCreate (managed by airuleset)";
    assert COMMENT == a + b && b[|b| - 1] == ')';
    assert (a + b)[|a| + (|b| - 1)] == b[|b| - 1];
  }

  /** A marker line by its characters: white space, `#`, white space, the arrows, white space, `airuleset`, and
      then nothing or something that does not go on with a word. */
  ghost predicate IsMarkerOf(l: string, arrows: string, x: string, y: string, z: string, rest: string) {
    && l == x + ("#" + (y + (arrows + (z + ("airuleset" + rest)))))
    && Blank(x) && Blank(y) && Blank(z)
    && (rest != "" ==>
          var c := rest[0]; c != '_' && !('0' <= c <= '9') && !('A' <= c <= 'Z') && !('a' <= c <= 'z'))
  }

  lemma MarkerIs(l: string, arrows: string)
    requires arrows == ">>>" || arrows == "<<<"
    ensures IsMarker(l, arrows) <==> exists x, y, z, rest :: IsMarkerOf(l, arrows, x, y, z, rest)
  {
    if IsMarker(l, arrows) {
      var x, y, z, rest := MarkerPieces(l, arrows);
    } else if x, y, z, rest :| IsMarkerOf(l, arrows, x, y, z, rest) {
      PiecesAreMarker(l, arrows, x, y, z, rest);
    }
  }

  lemma PiecesAreMarker(l: string, arrows: string, x: string, y: string, z: string, rest: string)
    requires arrows == ">>>" || arrows == "<<<"
    requires IsMarkerOf(l, arrows, x, y, z, rest)
    ensures IsMarker(l, arrows)
  {
    var c := "airuleset" + rest;
    var b := arrows + (z + c);
    var a := "#" + (y + b);
    VisibleHeads(arrows);
    SkipBlank(x, a);
    SkipBlank(y, b);
    SkipBlank(z, c);
    Seqs.HeadOfConcat("#", y + b);
    Seqs.HeadOfConcat(arrows, z + c);
    Seqs.HeadOfConcat("airuleset", rest);
  }

  lemma MarkerPieces(l: string, arrows: string) returns (x: string, y: string, z: string, rest: string)
    requires IsMarker(l, arrows)
    ensures IsMarkerOf(l, arrows, x, y, z, rest)
  {
    var a, b, c;
    x, a := SkipSpaceIs(l);
    y, b := SkipSpaceIs(a[1..]);
    z, c := SkipSpaceIs(b[|arrows|..]);
    rest := c[9..];
    Seqs.TakeDrop(a, 1);
    Seqs.TakeDrop(b, |arrows|);
    Seqs.TakeDrop(c, 9);
  }

  lemma VisibleHeads(arrows: string)
    requires arrows == ">>>" || arrows == "<<<"
    ensures !IsSpace('#') && !IsSpace(arrows[0]) && !IsSpace('a')
  {
    OrdinaryCharacters('#');
    OrdinaryCharacters(arrows[0]);
    OrdinaryCharacters('a');
  }

  /** The tool's own markers are such lines. */
  lemma OwnMarkersAreMarkers(rest: string)
    requires rest != "" ==> !IsWord(rest[0])
    ensures IsStart("# >>> airuleset" + rest) && IsEnd("# <<< airuleset" + rest)
  {
    OrdinaryCharacters(' ');
    assert "# >>> airuleset" + rest == "" + ("#" + (" " + (">>>" + (" " + ("airuleset" + rest)))));
    assert "# <<< airuleset" + rest == "" + ("#" + (" " + ("<<<" + (" " + ("airuleset" + rest)))));
    assert IsMarkerOf("# >>> airuleset" + rest, ">>>", "", " ", " ", rest);
    assert IsMarkerOf("# <<< airuleset" + rest, "<<<", "", " ", " ", rest);
    MarkerIs("# >>> airuleset" + rest, ">>>");
    MarkerIs("# <<< airuleset" + rest, "<<<");
  }

  lemma FirstCharDiffers(l: string, arrows: string)
    requires l != "" && l[0] != '#' && !IsSpace(l[0])
    ensures !IsMarker(l, arrows)
  {
    StartsWithFirst(l, "#");
  }

  lemma ThirdCharDiffers(l: string, arrows: string)
    requires |l| > 2 && l[0] == '#' && l[1] == ' ' && !IsSpace(l[2]) && arrows != "" && l[2] != arrows[0]
    ensures !IsMarker(l, arrows)
  {
    assert l[1..][0] == ' ' && l[1..][1..] == l[2..];
    assert SkipSpace(l[1..]) == SkipSpace(l[2..]) == l[2..];
    StartsWithFirst(l[2..], arrows);
  }

  /** What is removed is no marker, so removing it cannot change how markers pair. */
  lemma RemovedIsNoMarker(l: string)
    requires IsComment(l) || IsExport(l)
    ensures !IsStart(l) && !IsEnd(l) && !(IsComment(l) && IsExport(l))
  {
    RStripIs(l);
    if IsExport(l) {
      assert l[0] == EXPORT[0] == 'e';
      FirstCharDiffers(l, ">>>");
      FirstCharDiffers(l, "<<<");
    } else {
      assert l[0] == COMMENT[0] == '#' && l[1] == COMMENT[1] == ' ' && l[2] == COMMENT[2] == 'C';
      ThirdCharDiffers(l, ">>>");
      ThirdCharDiffers(l, "<<<");
    }
  }

  lemma {:induction false} SkipSpaceThenEnd(t: string, c: char)
    requires IsSpace(c)
    ensures SkipSpace(t + [c]) == if SkipSpace(t) == "" then "" else SkipSpace(t) + [c]
  {
    if t == "" {
      assert t + [c] == [c];
    } else if IsSpace(t[0]) {
      assert (t + [c])[1..] == t[1..] + [c];
      SkipSpaceThenEnd(t[1..], c);
    }
  }

  lemma StartsWithThenEnd(t: string, p: string, c: char)
    requires p != "" && p[|p| - 1] != c
    ensures StartsWith(t + [c], p) <==> StartsWith(t, p)
  {
    if |p| <= |t| {
      assert (t + [c])[..|p|] == t[..|p|];
    } else if |p| == |t| + 1 {
      assert (t + [c])[..|p|][|p| - 1] == c;
    }
  }

  lemma NextPieceThenEnd(t: string, p: string, c: char)
    requires p != "" && p[|p| - 1] != c && IsSpace(c)
    ensures StartsWith(SkipSpace(t + [c]), p) <==> StartsWith(SkipSpace(t), p)
    ensures StartsWith(SkipSpace(t), p) ==> SkipSpace(t + [c])[|p|..] == SkipSpace(t)[|p|..] + [c]
  {
    SkipSpaceThenEnd(t, c);
    var a := SkipSpace(t);
    if a != "" {
      StartsWithThenEnd(a, p, c);
    }
  }

  /** A line terminator makes no difference: the drift scan, which drops them, sees the same blocks. */
  lemma TerminatorIsIrrelevant(l: string, c: char, arrows: string)
    requires IsSep(c) && (arrows == ">>>" || arrows == "<<<")
    ensures IsMarker(l + [c], arrows) <==> IsMarker(l, arrows)
  {
    NextPieceThenEnd(l, "#", c);
    var a := SkipSpace(l);
    if StartsWith(a, "#") {
      NextPieceThenEnd(a[1..], arrows, c);
      var b := SkipSpace(a[1..]);
      if StartsWith(b, arrows) {
        NextPieceThenEnd(b[3..], "airuleset", c);
        SkipSpaceThenEnd(b[3..], c);
      }
    }
  }

  // ---------------------------------------------------------------------------
  // managed blocks
  // ---------------------------------------------------------------------------

  /** A START at or above line `k` with no END between the two, and an END that closes it at or below `k`:
      each START pairs with the next END, and a START that is never closed opens nothing. */
  predicate Opens(ls: seq<string>, s: nat, k: nat) {
    s <= k < |ls| && IsStart(ls[s]) && forall j :: s < j < k ==> !IsEnd(ls[j])
  }

  predicate Closes(ls: seq<string>, s: nat, k: nat, e: nat) {
    k <= e < |ls| && s < e && IsEnd(ls[e])
  }

  predicate Managed(ls: seq<string>, k: nat) {
    exists s: nat, e: nat :: s <= k <= e < |ls| && Opens(ls, s, k) && Closes(ls, s, k, e)
  }

  /** No block that starts above `i` reaches `i`. */
  ghost predicate NothingOpen(ls: seq<string>, i: nat) {
    forall s: nat, k: nat, e: nat :: s < i <= k && Opens(ls, s, k) && Closes(ls, s, k, e) ==> false
  }

  /** The lines with and without their terminators. */
  ghost predicate Bare(ls: seq<string>, bare: seq<string>) {
    |ls| == |bare| && forall i :: 0 <= i < |ls| ==>
      ls[i] == bare[i] || (Ended(ls[i]) && ls[i] == bare[i] + [ls[i][|ls[i]| - 1]])
  }

  /** The remover and the drift scan agree on what is managed. */
  lemma DriftAgrees(ls: seq<string>, bare: seq<string>, k: nat)
    requires Bare(ls, bare)
    ensures Managed(ls, k) <==> Managed(bare, k)
  {
    forall i | 0 <= i < |ls| ensures IsStart(ls[i]) == IsStart(bare[i]) && IsEnd(ls[i]) == IsEnd(bare[i]) {
      if ls[i] != bare[i] {
        TerminatorIsIrrelevant(bare[i], ls[i][|ls[i]| - 1], ">>>");
        TerminatorIsIrrelevant(bare[i], ls[i][|ls[i]| - 1], "<<<");
      }
    }
    SamePairing(ls, bare, k);
    SamePairing(bare, ls, k);
  }

  lemma SamePairing(ls: seq<string>, other: seq<string>, k: nat)
    requires |ls| == |other|
    requires forall i :: 0 <= i < |ls| ==> IsStart(ls[i]) == IsStart(other[i]) && IsEnd(ls[i]) == IsEnd(other[i])
    ensures Managed(ls, k) ==> Managed(other, k)
  {
    if Managed(ls, k) {
      var s: nat, e: nat :| s <= k <= e < |ls| && Opens(ls, s, k) && Closes(ls, s, k, e);
      assert Opens(other, s, k) && Closes(other, s, k, e);
    }
  }

  function Range(i: nat, j: nat): (r: set<nat>)
    ensures forall k: nat :: k in r <==> i <= k <= j
    decreases j + 1 - i
  {
    if i > j then {} else {i} + Range(i + 1, j)
  }

  /** `_airuleset_managed_line_indices` and `_managed_line_indices`. */
  method ManagedLines(ls: seq<string>) returns (managed: set<nat>)
    ensures forall k: nat :: k in managed <==> Managed(ls, k)
  {
    managed := {};
    var i, n := 0, |ls|;
    while i < n
      invariant 0 <= i <= n
      invariant forall k: nat :: k in managed <==> k < i && Managed(ls, k)
      invariant NothingOpen(ls, i)
    {
      if IsStart(ls[i]) {
        var j := i + 1;
        while j < n && !IsEnd(ls[j])
          invariant i < j <= n
          invariant forall x :: i < x < j ==> !IsEnd(ls[x])
        {
          j := j + 1;
        }
        if j < n {
          BlockIsManaged(ls, i, j);
          managed := managed + Range(i, j);
          i := j + 1;
          continue;
        }
        StrayStart(ls, i);
      } else {
        NotInABlock(ls, i);
      }
      i := i + 1;
    }
    forall k: nat | Managed(ls, k) ensures k < n {
    }
  }

  lemma BlockIsManaged(ls: seq<string>, i: nat, j: nat)
    requires i < j < |ls| && IsStart(ls[i]) && IsEnd(ls[j]) && forall x :: i < x < j ==> !IsEnd(ls[x])
    ensures forall k: nat :: i <= k <= j ==> Managed(ls, k)
    ensures NothingOpen(ls, i) ==> NothingOpen(ls, j + 1)
  {
    forall k: nat | i <= k <= j ensures Managed(ls, k) {
      assert Opens(ls, i, k) && Closes(ls, i, k, j);
    }
    if NothingOpen(ls, i) {
      forall s: nat, k: nat, e: nat | s < j + 1 <= k && Opens(ls, s, k) && Closes(ls, s, k, e) ensures false {
        StartIsNotEnd(ls[j]);
      }
    }
  }

  lemma StartIsNotEnd(l: string)
    ensures !(IsStart(l) && IsEnd(l))
  {
    ArrowsDiffer(SkipSpace(if SkipSpace(l) == "" then "" else SkipSpace(l)[1..]));
  }

  lemma ArrowsDiffer(b: string)
    ensures !(StartsWith(b, ">>>") && StartsWith(b, "<<<"))
  {
    StartsWithFirst(b, ">>>");
    StartsWithFirst(b, "<<<");
  }

  lemma StrayStart(ls: seq<string>, i: nat)
    requires i < |ls| && NothingOpen(ls, i) && forall x :: i < x < |ls| ==> !IsEnd(ls[x])
    ensures !Managed(ls, i) && NothingOpen(ls, i + 1)
  {
    forall s: nat, e: nat | Opens(ls, s, i) && Closes(ls, s, i, e) ensures false {
    }
    forall s: nat, k: nat, e: nat | s < i + 1 <= k && Opens(ls, s, k) && Closes(ls, s, k, e) ensures false {
    }
  }

  lemma NotInABlock(ls: seq<string>, i: nat)
    requires i < |ls| && NothingOpen(ls, i) && !IsStart(ls[i])
    ensures !Managed(ls, i) && NothingOpen(ls, i + 1)
  {
    forall s: nat, e: nat | Opens(ls, s, i) && Closes(ls, s, i, e) ensures false {
    }
    forall s: nat, k: nat, e: nat | s < i + 1 <= k && Opens(ls, s, k) && Closes(ls, s, k, e) ensures false {
    }
  }

  // ---------------------------------------------------------------------------
  // the remover
  // ---------------------------------------------------------------------------

  /** An export outside every managed block goes, and so does the legacy comment directly above one. */
  predicate Drop(ls: seq<string>, k: nat)
    requires k < |ls|
  {
    && !Managed(ls, k)
    && (IsExport(ls[k]) || (IsComment(ls[k]) && k + 1 < |ls| && !Managed(ls, k + 1) && IsExport(ls[k + 1])))
  }

  function Drops(ls: seq<string>): set<nat> { set k: nat | k < |ls| && Drop(ls, k) }

  /** The lines from `i` on without the dropped ones. */
  function Without(ls: seq<string>, drop: set<nat>, i: nat): seq<string>
    requires i <= |ls|
    decreases |ls| - i
  {
    if i == |ls| then [] else (if i in drop then [] else [ls[i]]) + Without(ls, drop, i + 1)
  }

  function Kept(ls: seq<string>): seq<string> { Without(ls, Drops(ls), 0) }

  /** The tests in the body of the loop: how many lines it steps over at line `i`, given the managed lines. */
  function Skip(ls: seq<string>, managed: set<nat>, i: nat): nat {
    if i in managed || i >= |ls| then 0
    else if IsComment(ls[i]) && i + 1 < |ls| && i + 1 !in managed && IsExport(ls[i + 1]) then 2
    else if IsExport(ls[i]) then 1
    else 0
  }

  function Skips(ls: seq<string>, managed: set<nat>): nat -> nat { i => Skip(ls, managed, i) }

  /** What a loop copies from line `i` on that steps over `skip(i)` lines there. */
  function Walked(ls: seq<string>, skip: nat -> nat, i: nat): seq<string>
    decreases |ls| - i
  {
    if i >= |ls| then []
    else if skip(i) > 0 then Walked(ls, skip, i + skip(i))
    else [ls[i]] + Walked(ls, skip, i + 1)
  }

  /** The loop steps over exactly what is to be dropped. */
  ghost predicate SkipsRightly(n: nat, skip: nat -> nat, drop: set<nat>, k: nat) {
    k + skip(k) <= n && skip(k) <= 2 && (skip(k) > 0 <==> k in drop) && (skip(k) == 2 ==> k + 1 in drop)
  }

  lemma SkipIsDrop(ls: seq<string>, managed: set<nat>, i: nat)
    requires i < |ls| && forall k: nat :: k in managed <==> Managed(ls, k)
    ensures SkipsRightly(|ls|, Skips(ls, managed), Drops(ls), i)
  {
  }

  ghost predicate AllSkipRightly(n: nat, skip: nat -> nat, drop: set<nat>) {
    forall k: nat :: k < n ==> SkipsRightly(n, skip, drop, k)
  }

  lemma SkipsAreDrops(ls: seq<string>, managed: set<nat>)
    requires forall k: nat :: k in managed <==> Managed(ls, k)
    ensures AllSkipRightly(|ls|, Skips(ls, managed), Drops(ls))
  {
    forall k: nat | k < |ls| ensures SkipsRightly(|ls|, Skips(ls, managed), Drops(ls), k) {
      SkipIsDrop(ls, managed, k);
    }
  }

  /** Where the loop stops next. */
  function Over(skip: nat -> nat, i: nat): nat { if skip(i) > 0 then skip(i) else 1 }

  /** What dropping makes of the lines from `i` to the next stop. */
  lemma WithoutTo(ls: seq<string>, drop: set<nat>, i: nat, over: nat)
    requires i + over <= |ls| && 1 <= over <= 2 && (over == 2 ==> i in drop && i + 1 in drop)
    ensures Without(ls, drop, i) == (if i in drop then [] else [ls[i]]) + Without(ls, drop, i + over)
  {
    if over == 2 {
      WithoutDropped(ls, drop, i);
      WithoutDropped(ls, drop, i + 1);
      Seqs.Nothing(Without(ls, drop, i + 2));
    }
  }

  lemma WalkedTo(ls: seq<string>, skip: nat -> nat, i: nat)
    requires i < |ls|
    ensures Walked(ls, skip, i) == (if skip(i) > 0 then [] else [ls[i]]) + Walked(ls, skip, i + Over(skip, i))
  {
    WalkedAt(ls, skip, i);
    Seqs.Nothing(Walked(ls, skip, i + Over(skip, i)));
  }

  /** Stepping over a comment and its export at once drops the same lines as judging each by itself. */
  lemma {:induction false} WalkedIsWithout(ls: seq<string>, skip: nat -> nat, drop: set<nat>, i: nat)
    requires i <= |ls| && AllSkipRightly(|ls|, skip, drop)
    ensures Walked(ls, skip, i) == Without(ls, drop, i)
    decreases |ls| - i
  {
    if i < |ls| {
      assert SkipsRightly(|ls|, skip, drop, i);
      WalkedTo(ls, skip, i);
      WithoutTo(ls, drop, i, Over(skip, i));
      WalkedIsWithout(ls, skip, drop, i + Over(skip, i));
    }
  }

  lemma WithoutDropped(ls: seq<string>, drop: set<nat>, i: nat)
    requires i < |ls| && i in drop
    ensures Without(ls, drop, i) == Without(ls, drop, i + 1)
  {
    Seqs.Nothing(Without(ls, drop, i + 1));
  }

  lemma {:induction false} WithoutLength(ls: seq<string>, drops: set<nat>, i: nat)
    requires i <= |ls|
    ensures |Without(ls, drops, i)| <= |ls| - i
    ensures |Without(ls, drops, i)| < |ls| - i <==> exists k :: i <= k < |ls| && k in drops
    decreases |ls| - i
  {
    if i < |ls| { WithoutLength(ls, drops, i + 1); }
  }

  lemma ShorterIff(ls: seq<string>)
    ensures |Kept(ls)| <= |ls| && (|Kept(ls)| < |ls| <==> Drops(ls) != {})
  {
    WithoutLength(ls, Drops(ls), 0);
    assert forall k :: k in Drops(ls) ==> 0 <= k < |ls|;
    if Drops(ls) != {} {
      var k :| k in Drops(ls);
    }
  }

  lemma WalkedAt(ls: seq<string>, skip: nat -> nat, i: nat)
    requires i < |ls|
    ensures skip(i) > 0 ==> Walked(ls, skip, i) == Walked(ls, skip, i + skip(i))
    ensures skip(i) == 0 ==> Walked(ls, skip, i) == [ls[i]] + Walked(ls, skip, i + 1)
  {
  }

  /** The loop of `remove_legacy_disable_cron_export`; `skip` is the tests in its body. */
  method Walk(ls: seq<string>, skip: nat -> nat) returns (out: seq<string>, removed: nat)
    requires forall k: nat :: k < |ls| ==> k + skip(k) <= |ls|
    ensures out == Walked(ls, skip, 0) && removed == |ls| - |out|
  {
    out, removed := [], 0;
    var i, n := 0, |ls|;
    while i < n
      invariant 0 <= i <= n
      invariant out + Walked(ls, skip, i) == Walked(ls, skip, 0) && removed == i - |out|
    {
      WalkedAt(ls, skip, i);
      var over := skip(i);
      if over > 0 {
        removed := removed + over;
        i := i + over;
        continue;
      }
      Seqs.Assoc(out, [ls[i]], Walked(ls, skip, i + 1));
      out := out + [ls[i]];
      i := i + 1;
    }
    Seqs.Nothing(out);
  }

  /** The scan and the loop together keep exactly the lines that are not to be dropped. */
  method RemoveLines(ls: seq<string>) returns (out: seq<string>, removed: nat)
    ensures out == Kept(ls) && removed == |ls| - |out|
  {
    var managed := ManagedLines(ls);
    SkipsAreDrops(ls, managed);
    WalkedIsWithout(ls, Skips(ls, managed), Drops(ls), 0);
    out, removed := Walk(ls, Skips(ls, managed));
  }

  /** `f` lists, in order, the lines of `ls` from `i` on that are not dropped: `out` is those lines. */
  ghost predicate Selects(f: seq<nat>, ls: seq<string>, drop: set<nat>, i: nat, out: seq<string>) {
    && |f| == |out|
    && (forall a :: 0 <= a < |f| ==> i <= f[a] < |ls| && f[a] !in drop && out[a] == ls[f[a]])
    && (forall a, b :: 0 <= a < b < |f| ==> f[a] < f[b])
    && (forall k: nat :: i <= k < |ls| && k !in drop ==> k in f)
  }

  lemma OneMoreSelected(g: seq<nat>, ls: seq<string>, drop: set<nat>, i: nat, out: seq<string>)
    requires i < |ls| && i !in drop && Selects(g, ls, drop, i + 1, out)
    ensures Selects([i] + g, ls, drop, i, [ls[i]] + out)
  {
    Seqs.ConsAt(i, g);
    Seqs.ConsAt(ls[i], out);
  }

  lemma OneMoreDropped(g: seq<nat>, ls: seq<string>, drop: set<nat>, i: nat, out: seq<string>)
    requires i < |ls| && i in drop && Selects(g, ls, drop, i + 1, out)
    ensures Selects(g, ls, drop, i, out)
  {
  }

  /** The result is a subsequence of the lines: every kept line once, in order, and nothing else. */
  lemma {:induction false} KeptSelects(ls: seq<string>, drop: set<nat>, i: nat) returns (f: seq<nat>)
    requires i <= |ls|
    ensures Selects(f, ls, drop, i, Without(ls, drop, i))
    decreases |ls| - i
  {
    if i == |ls| {
      f := [];
    } else {
      f := KeptSelects(ls, drop, i + 1);
      var out := Without(ls, drop, i + 1);
      if i in drop {
        OneMoreDropped(f, ls, drop, i, out);
        Seqs.Nothing(out);
      } else {
        OneMoreSelected(f, ls, drop, i, out);
        f := [i] + f;
      }
    }
  }

  /** Nothing of a managed block is removed, and a comment only together with the export below it. */
  lemma DropIsNarrow(ls: seq<string>, k: nat)
    requires k < |ls| && Drop(ls, k)
    ensures !Managed(ls, k) && !IsStart(ls[k]) && !IsEnd(ls[k])
    ensures IsExport(ls[k]) || (IsComment(ls[k]) && k + 1 < |ls| && IsExport(ls[k + 1]) && Drop(ls, k + 1))
  {
    RemovedIsNoMarker(ls[k]);
  }

  ghost predicate NoMarkerIn(ls: seq<string>, drop: set<nat>) {
    forall k: nat :: k < |ls| && (IsStart(ls[k]) || IsEnd(ls[k])) ==> k !in drop
  }

  /** Deleting lines that are no markers changes no pairing: a kept line is managed exactly if it was. */
  lemma PairingIsKept(ls: seq<string>, drop: set<nat>, f: seq<nat>, out: seq<string>, a: nat)
    requires Selects(f, ls, drop, 0, out) && NoMarkerIn(ls, drop) && a < |f|
    ensures Managed(out, a) <==> Managed(ls, f[a])
  {
    if Managed(out, a) { StillManaged(ls, drop, f, out, a); }
    if Managed(ls, f[a]) { WasManaged(ls, drop, f, out, a); }
  }

  lemma NoEndBetween(ls: seq<string>, drop: set<nat>, f: seq<nat>, out: seq<string>, s: nat, a: nat)
    requires Selects(f, ls, drop, 0, out) && NoMarkerIn(ls, drop) && s <= a < |f|
    requires forall b :: s < b < a ==> !IsEnd(out[b])
    ensures forall j :: f[s] < j < f[a] ==> !IsEnd(ls[j])
  {
    forall j | f[s] < j < f[a] ensures !IsEnd(ls[j]) {
      if j !in drop {
        var b :| 0 <= b < |f| && f[b] == j;
        Between(f, s, b, a);
        assert !IsEnd(out[b]);
      }
    }
  }

  lemma StillManaged(ls: seq<string>, drop: set<nat>, f: seq<nat>, out: seq<string>, a: nat)
    requires Selects(f, ls, drop, 0, out) && NoMarkerIn(ls, drop) && a < |f| && Managed(out, a)
    ensures Managed(ls, f[a])
  {
    var s: nat, e: nat :| s <= a <= e < |out| && Opens(out, s, a) && Closes(out, s, a, e);
    NoEndBetween(ls, drop, f, out, s, a);
    Between(f, s, s, a);
    Between(f, a, a, e);
    Between(f, s, s, e);
    assert Opens(ls, f[s], f[a]) && Closes(ls, f[s], f[a], f[e]);
  }

  lemma Between(f: seq<nat>, s: nat, b: nat, a: nat)
    requires s < |f| && b < |f| && a < |f| && forall x, y :: 0 <= x < y < |f| ==> f[x] < f[y]
    ensures f[s] < f[b] ==> s < b
    ensures f[b] < f[a] ==> b < a
    ensures f[b] <= f[a] ==> b <= a
    ensures s <= a ==> f[s] <= f[a]
    ensures s < a ==> f[s] < f[a]
  {
  }

  lemma WasManaged(ls: seq<string>, drop: set<nat>, f: seq<nat>, out: seq<string>, a: nat)
    requires Selects(f, ls, drop, 0, out) && NoMarkerIn(ls, drop) && a < |f| && Managed(ls, f[a])
    ensures Managed(out, a)
  {
    var s: nat, e: nat :| s <= f[a] <= e < |ls| && Opens(ls, s, f[a]) && Closes(ls, s, f[a], e);
    var b :| 0 <= b < |f| && f[b] == s;
    var c :| 0 <= c < |f| && f[c] == e;
    Between(f, b, c, a);
    Between(f, a, b, c);
    Between(f, b, b, a);
    Between(f, a, a, c);
    assert out[b] == ls[s] && out[c] == ls[e];
    forall j | b < j < a ensures !IsEnd(out[j]) {
      assert f[b] < f[j] < f[a];
    }
    assert Opens(out, b, a) && Closes(out, b, a, c);
  }

  lemma DropsHoldNoMarker(ls: seq<string>)
    ensures NoMarkerIn(ls, Drops(ls))
  {
    forall k | k in Drops(ls) ensures !IsStart(ls[k]) && !IsEnd(ls[k]) {
      DropIsNarrow(ls, k);
    }
  }

  /** No export is left outside a managed block, so a second run finds nothing to remove. */
  lemma NothingLeftToDrop(ls: seq<string>)
    ensures forall k: nat :: k < |Kept(ls)| && IsExport(Kept(ls)[k]) ==> Managed(Kept(ls), k)
    ensures Drops(Kept(ls)) == {}
  {
    var out, drop := Kept(ls), Drops(ls);
    var f := KeptSelects(ls, drop, 0);
    DropsHoldNoMarker(ls);
    forall k: nat | k < |out| && IsExport(out[k]) ensures Managed(out, k) {
      PairingIsKept(ls, drop, f, out, k);
      assert f[k] !in drop;
      assert !Drop(ls, f[k]);
    }
  }

  // ---------------------------------------------------------------------------
  // the file
  // ---------------------------------------------------------------------------

  datatype File = Missing | Unreadable | Text(raw: string)

  /** `remove_legacy_disable_cron_export`: the file is rewritten, and backed up once, exactly if a line is
      dropped. A file that cannot be read or decoded is left alone. */
  method Remove(file: File, backup: Option<string>) returns (after: File, kept: Option<string>, changed: bool)
    ensures changed <==> file.Text? && Drops(SplitLines(Universal(file.raw))) != {}
    ensures changed ==> after == Text(Join(Kept(SplitLines(Universal(file.raw)))))
    ensures changed ==> kept == if backup == None then Some(Universal(file.raw)) else backup
    ensures !changed ==> after == file && kept == backup
  {
    if file == Missing || file == Unreadable {
      return file, backup, false;
    }
    var existing := Universal(file.raw);
    var out, removed := RemoveLines(SplitLines(existing));
    ShorterIff(SplitLines(existing));
    if removed == 0 {
      return file, backup, false;
    }
    return Text(Join(out)), if backup == None then Some(existing) else backup, true;
  }

  /** The text that is written splits into exactly the kept lines. */
  lemma WrittenLines(raw: string)
    ensures var out := Kept(SplitLines(Universal(raw)));
      SplitLines(Universal(Join(out))) == out
  {
    var t := Universal(raw);
    var ls := SplitLines(t);
    var f := KeptSelects(ls, Drops(ls), 0);
    var out := Kept(ls);
    SplitThenJoin(t);
    LinesAreEnded(ls);
    NoReturn(ls);
    forall i | 0 <= i < |out| ensures '\r' !in out[i] && OneLine(out[i]) && (i < |out| - 1 ==> Ended(out[i])) {
      if i < |out| - 1 { assert f[i] < f[|out| - 1]; }
    }
    EndedAreLines(out);
    JoinThenSplit(out);
    NoReturnJoined(out);
    UniversalTwice(Join(out));
  }

  lemma {:induction false} NoReturn(ls: seq<string>)
    requires '\r' !in Join(ls)
    ensures forall i :: 0 <= i < |ls| ==> '\r' !in ls[i]
  {
    if ls != [] {
      assert forall c :: c in ls[0] || c in Join(ls[1..]) ==> c in Join(ls);
      NoReturn(ls[1..]);
      assert forall i :: 1 <= i < |ls| ==> ls[i] == ls[1..][i - 1];
    }
  }

  lemma {:induction false} NoReturnJoined(ls: seq<string>)
    requires forall i :: 0 <= i < |ls| ==> '\r' !in ls[i]
    ensures '\r' !in Join(ls)
  {
    if ls != [] {
      assert forall i :: 0 <= i < |ls| - 1 ==> ls[1..][i] == ls[i + 1];
      NoReturnJoined(ls[1..]);
    }
  }

  /** A second run on the written file drops no line, so it changes nothing. */
  lemma SecondRunIsNoop(raw: string)
    ensures var again := Join(Kept(SplitLines(Universal(raw))));
      Drops(SplitLines(Universal(again))) == {}
  {
    WrittenLines(raw);
    NothingLeftToDrop(SplitLines(Universal(raw)));
  }

  // ---------------------------------------------------------------------------
  // on texts
  // ---------------------------------------------------------------------------

  /** What is dropped, by its characters: a line outside every block that is the export and white space, and one
      that is the comment and white space, directly above such a line. */
  lemma DroppedIff(ls: seq<string>, k: nat)
    requires k < |ls|
    ensures k in Drops(ls) <==> (
      !Managed(ls, k) && (
        || ExportLine(ls[k])
        || (CommentLine(ls[k]) && k + 1 < |ls| && !Managed(ls, k + 1) && ExportLine(ls[k + 1]))))
  {
    LegacyLinesAre(ls[k]);
    if k + 1 < |ls| { LegacyLinesAre(ls[k + 1]); }
  }

  /** The export on a line of its own, with no START above it, goes: the file is rewritten, and when nothing
      else is to go it becomes what stood around that line. */
  lemma ExportLineGoes(pre: string, post: string)
    requires '\r' !in pre && '\r' !in post && (pre == "" || pre[|pre| - 1] == '\n')
    requires forall l :: l in SplitLines(pre) ==> !IsStart(l)
    ensures var ls, n := SplitLines(Universal(pre + "export CLAUDE_CODE_DISABLE_CRON=1\n" + post)), |SplitLines(pre)|;
      && ls == SplitLines(pre) + ["export CLAUDE_CODE_DISABLE_CRON=1\n"] + SplitLines(post)
      && n in Drops(ls)
      && (Drops(ls) == {n} ==> Join(Kept(ls)) == pre + post)
  {
    var line := EXPORT + "\n";
    assert line == "export CLAUDE_CODE_DISABLE_CRON=1\n";
    var a, b := SplitLines(pre), SplitLines(post);
    NoReturnAround(pre, line, post);
    UniversalTwice(pre + line + post);
    ExportLineSplits(pre, post);
    ExportLineIsExport();
    FirstUnmanaged(a, line, b);
    if Drops(a + [line] + b) == {|a|} {
      OnlyOneGoes(a, line, b);
      JoinConcat(a, b);
      SplitThenJoin(pre);
      SplitThenJoin(post);
    }
  }

  lemma ExportLineIsExport()
    ensures IsExport(EXPORT + "\n")
  {
    var line := EXPORT + "\n";
    OrdinaryCharacters('1');
    OrdinaryCharacters('\n');
    assert line[..|line| - 1] == EXPORT;
  }

  lemma FirstUnmanaged(a: seq<string>, line: string, b: seq<string>)
    requires (forall l :: l in a ==> !IsStart(l)) && IsExport(line)
    ensures |a| in Drops(a + [line] + b)
  {
    var ls := a + [line] + b;
    RemovedIsNoMarker(line);
    forall s: nat | s <= |a| ensures !IsStart(ls[s]) {
      if s < |a| { assert ls[s] == a[s] && a[s] in a; }
    }
    assert ls[|a|] == line && !Managed(ls, |a|);
  }

  lemma NoReturnAround(pre: string, line: string, post: string)
    requires '\r' !in pre && '\r' !in line && '\r' !in post
    ensures '\r' !in pre + line + post
  {
  }

  lemma ExportLineSplits(pre: string, post: string)
    requires pre == "" || pre[|pre| - 1] == '\n'
    ensures SplitLines(pre + (EXPORT + "\n") + post) == SplitLines(pre) + [EXPORT + "\n"] + SplitLines(post)
  {
    var line := EXPORT + "\n";
    forall c | c in EXPORT ensures !IsSep(c) {
      OrdinaryCharacters(c);
    }
    FirstLineIs(EXPORT, post);
    Seqs.Assoc(pre, line, post);
    Seqs.Assoc(SplitLines(pre), [line], SplitLines(post));
    if pre == "" {
      Seqs.Nothing(line + post);
      Seqs.Nothing([line] + SplitLines(post));
    } else {
      SplitConcat(pre, line + post);
    }
  }

  lemma {:induction false} JoinConcat(a: seq<string>, b: seq<string>)
    ensures Join(a + b) == Join(a) + Join(b)
  {
    if a == [] {
      Seqs.Nothing(b);
    } else {
      Seqs.FirstOfConcat(a, b);
      JoinConcat(a[1..], b);
      Seqs.Assoc(a[0], Join(a[1..]), Join(b));
    }
  }

  lemma OnlyOneGoes(a: seq<string>, line: string, b: seq<string>)
    ensures Without(a + [line] + b, {|a|}, 0) == a + b
  {
    var ls := a + [line] + b;
    NoneGo(ls, {|a|}, |a| + 1);
    WithoutDropped(ls, {|a|}, |a|);
    assert ls[|a| + 1..] == b;
    FirstStay(a, line, b, 0);
  }

  lemma {:induction false} NoneGo(ls: seq<string>, drop: set<nat>, i: nat)
    requires i <= |ls| && forall k :: k in drop ==> k < i
    ensures Without(ls, drop, i) == ls[i..]
    decreases |ls| - i
  {
    if i < |ls| {
      NoneGo(ls, drop, i + 1);
      Seqs.DropFirst(ls, i);
    }
  }

  lemma {:induction false} FirstStay(a: seq<string>, line: string, b: seq<string>, i: nat)
    requires i <= |a| && Without(a + [line] + b, {|a|}, |a|) == b
    ensures Without(a + [line] + b, {|a|}, i) == a[i..] + b
    decreases |a| - i
  {
    if i < |a| {
      FirstStay(a, line, b, i + 1);
      Seqs.DropFirst(a, i);
      Seqs.Assoc([a[i]], a[i + 1..], b);
    } else {
      Seqs.Nothing(b);
    }
  }
}
