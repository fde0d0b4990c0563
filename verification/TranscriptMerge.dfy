/** Merging transcript records into turns in one pass, over a chain of session files
    (cli_claude_scripts.py:618-730, 960-974). */
module TranscriptMerge {
  import opened Lines
  import opened Options
  import Seqs

  /** A block of an assistant message. `Ignored` is any other block; a `Text` block that carries no string is
      read as the empty text; a `Tool` block carries its rendered summary line. */
  datatype Block = Text(text: string) | Tool(line: string) | Ignored

  /** What the pass looks at in a record: a compaction boundary, the string of a user message, the blocks of an
      assistant message. `Undisplayed` is every other record, malformed ones included. */
  datatype Content =
    | Boundary
    | Prompt(raw: string)
    | Blocks(blocks: seq<Block>)
    | Undisplayed

  /** `uuid` is `""` for a record without one. */
  datatype Record = Record(uuid: string, stamp: string, content: Content)

  datatype Role = User | Assistant

  datatype Turn =
    | Said(role: Role, text: string, tools: seq<string>, stamp: string)
    | Compact(stamp: string)

  /** The text starts with one of the tags that are injected around what is no prompt. */
  predicate IsWrapper(t: string) {
    || StartsWith(t, "<local-command-stdout>") || StartsWith(t, "<command-name>")
    || StartsWith(t, "<command-message>") || StartsWith(t, "<task-notification>")
    || StartsWith(t, "<system-reminder>")
  }

  function Strip(t: string): string { RStrip(SkipSpace(t)) }

  // ---------------------------------------------------------------------------
  // the specification: deduplicate, drop, group, render
  // ---------------------------------------------------------------------------

  /** The records whose uuid was not seen before, over all files: the first of each, and all without one. */
  function Firsts(rs: seq<Record>, seen: set<string>): seq<Record> {
    if rs == [] then []
    else if rs[0].uuid == "" then [rs[0]] + Firsts(rs[1..], seen)
    else if rs[0].uuid in seen then Firsts(rs[1..], seen)
    else [rs[0]] + Firsts(rs[1..], seen + {rs[0].uuid})
  }

  function Uuids(rs: seq<Record>): set<string> {
    set r | r in rs && r.uuid != "" :: r.uuid
  }

  function TextsOf(bs: seq<Block>): seq<string> {
    if bs == [] then []
    else (if bs[0].Text? && bs[0].text != "" then [bs[0].text] else []) + TextsOf(bs[1..])
  }

  function ToolsOf(bs: seq<Block>): seq<string> {
    if bs == [] then [] else (if bs[0].Tool? then [bs[0].line] else []) + ToolsOf(bs[1..])
  }

  /** What a record contributes: a piece of one role, a boundary, or nothing. */
  datatype Piece = Piece(role: Role, texts: seq<string>, tools: seq<string>, stamp: string) | Cut(stamp: string)

  function PieceOf(r: Record): Option<Piece> {
    match r.content
    case Boundary => Some(Cut(r.stamp))
    case Prompt(raw) =>
      var t := Strip(raw);
      if t == "" || IsWrapper(t) then None else Some(Piece(User, [t], [], r.stamp))
    case Blocks(bs) =>
      if TextsOf(bs) == [] && ToolsOf(bs) == [] then None
      else Some(Piece(Assistant, TextsOf(bs), ToolsOf(bs), r.stamp))
    case Undisplayed => None
  }

  /** A piece, if there is one, in front of others. */
  function Ahead(piece: Option<Piece>, rest: seq<Piece>): seq<Piece> {
    if piece.Some? then [piece.value] + rest else rest
  }

  function Pieces(rs: seq<Record>): seq<Piece> {
    if rs == [] then [] else Ahead(PieceOf(rs[0]), []) + Pieces(rs[1..])
  }

  /** How many pieces from the front belong together: the maximal run of one role; a boundary stands alone. */
  function RunLength(ps: seq<Piece>): (n: nat)
    requires ps != []
    ensures 1 <= n <= |ps|
  {
    if ps[0].Piece? && |ps| > 1 && ps[1].Piece? && ps[1].role == ps[0].role then 1 + RunLength(ps[1..]) else 1
  }

  /** A run is of one role, and as long as it can be; a boundary is alone. */
  lemma {:induction false} RunIsMaximal(ps: seq<Piece>)
    requires ps != []
    ensures ps[0].Piece? ==> forall i :: 0 <= i < RunLength(ps) ==> ps[i].Piece? && ps[i].role == ps[0].role
    ensures ps[0].Piece? && RunLength(ps) < |ps| ==> ps[RunLength(ps)].Cut? || ps[RunLength(ps)].role != ps[0].role
    ensures ps[0].Cut? ==> RunLength(ps) == 1
  {
    if RunLength(ps) > 1 {
      RunIsMaximal(ps[1..]);
      assert forall i :: 1 <= i < |ps| ==> ps[i] == ps[1..][i - 1];
    }
  }

  /** The pieces in their maximal runs. */
  function Groups(ps: seq<Piece>): seq<seq<Piece>>
    decreases |ps|
  {
    if ps == [] then [] else [ps[..RunLength(ps)]] + Groups(ps[RunLength(ps)..])
  }

  function AllTexts(ps: seq<Piece>): seq<string> {
    if ps == [] then [] else (if ps[0].Piece? then ps[0].texts else []) + AllTexts(ps[1..])
  }

  function AllTools(ps: seq<Piece>): seq<string> {
    if ps == [] then [] else (if ps[0].Piece? then ps[0].tools else []) + AllTools(ps[1..])
  }

  function JoinLines(ts: seq<string>): string {
    if ts == [] then "" else if |ts| == 1 then ts[0] else ts[0] + "\n" + JoinLines(ts[1..])
  }

  /** One turn for a group, or none when it shows nothing. */
  function TurnOf(group: seq<Piece>): seq<Turn>
    requires group != []
  {
    match group[0]
    case Cut(stamp) => [Compact(stamp)]
    case Piece(role, _, _, stamp) =>
      var text, tools := Strip(JoinLines(AllTexts(group))), AllTools(group);
      if text == "" && tools == [] then [] else [Said(role, text, tools, stamp)]
  }

  function TurnsOf(groups: seq<seq<Piece>>): seq<Turn> {
    if groups == [] then [] else (if groups[0] == [] then [] else TurnOf(groups[0])) + TurnsOf(groups[1..])
  }

  function Turns(ps: seq<Piece>): seq<Turn> { TurnsOf(Groups(ps)) }

  lemma TurnsFirst(ps: seq<Piece>)
    requires ps != []
    ensures Turns(ps) == TurnOf(ps[..RunLength(ps)]) + Turns(ps[RunLength(ps)..])
  {
    assert Groups(ps)[1..] == Groups(ps[RunLength(ps)..]);
  }

  // ---------------------------------------------------------------------------
  // merging step by step
  // ---------------------------------------------------------------------------

  predicate SameRun(p: Piece, q: Piece) { p.Piece? && q.Piece? && p.role == q.role }

  /** Two neighbouring pieces of one role, taken as one. */
  function Fused(p: Piece, q: Piece): Piece
    requires SameRun(p, q)
  {
    Piece(p.role, p.texts + q.texts, p.tools + q.tools, p.stamp)
  }

  /** Taking them as one makes no difference to the turns. */
  lemma FuseKeepsTurns(p: Piece, q: Piece, rest: seq<Piece>)
    requires SameRun(p, q)
    ensures Turns([p] + ([q] + rest)) == Turns([Fused(p, q)] + rest)
  {
    var a, b, c := [p] + ([q] + rest), [q] + rest, [Fused(p, q)] + rest;
    assert a[1..] == b && b[1..] == c[1..] == rest;
    var n := RunLength(b);
    assert RunLength(a) == n + 1 && RunLength(c) == n;
    assert a[n + 1..] == b[n..] == c[n..];
    FusedGroup(p, q, rest, n);
    TurnsFirst(a);
    TurnsFirst(c);
  }

  lemma FusedGroup(p: Piece, q: Piece, rest: seq<Piece>, n: nat)
    requires SameRun(p, q) && 1 <= n <= |rest| + 1
    ensures TurnOf(([p] + ([q] + rest))[..n + 1]) == TurnOf(([Fused(p, q)] + rest)[..n])
  {
    var a, c := ([p] + ([q] + rest))[..n + 1], ([Fused(p, q)] + rest)[..n];
    assert a[1..] == [q] + rest[..n - 1] && c[1..] == rest[..n - 1];
    assert ([q] + rest[..n - 1])[1..] == rest[..n - 1];
    assert a[0] == p && c[0] == Fused(p, q);
    Seqs.Assoc(p.texts, q.texts, AllTexts(rest[..n - 1]));
    Seqs.Assoc(p.tools, q.tools, AllTools(rest[..n - 1]));
    assert AllTexts(a) == p.texts + AllTexts(a[1..]) && AllTools(a) == p.tools + AllTools(a[1..]);
  }

  /** A piece whose run ends here is a turn of its own. */
  lemma BreakTurn(p: Piece, rest: seq<Piece>)
    requires rest == [] || !SameRun(p, rest[0])
    ensures Turns([p] + rest) == TurnOf([p]) + Turns(rest)
  {
    assert ([p] + rest)[..1] == [p] && ([p] + rest)[1..] == rest;
    TurnsFirst([p] + rest);
  }

  class Merger {
    /** The uuids of the records met so far, in all files. */
    var seen: set<string>

    constructor ()
      ensures seen == {}
    {
      seen := {};
    }

    /** `merge_turns`: the pass over one file. */
    method MergeTurns(records: seq<Record>) returns (turns: seq<Turn>)
      modifies this
      ensures turns == Turns(Pieces(Firsts(records, old(seen))))
      ensures seen == old(seen) + Uuids(records)
    {
      turns := [];
      var pending: Option<Piece> := None;
      ghost var start := seen;
      ghost var goal := Turns(ToCome(records, 0, start));
      for k := 0 to |records|
        invariant pending.Some? ==> pending.value.Piece?
        invariant turns + Turns(Ahead(pending, ToCome(records, k, seen))) == goal
        invariant seen == start + Uuids(records[..k])
      {
        UuidsStep(records, k);
        turns, pending := Take(records, k, turns, pending);
      }
      assert records[..|records|] == records;
      turns := Flush(turns, pending);
    }

    /** The body of the loop: a record whose uuid was seen is passed over before anything else is asked. */
    method Take(records: seq<Record>, k: nat, turns: seq<Turn>, pending: Option<Piece>)
      returns (out: seq<Turn>, next: Option<Piece>)
      requires k < |records| && (pending.Some? ==> pending.value.Piece?)
      modifies this
      ensures next.Some? ==> next.value.Piece?
      ensures seen == old(seen) + if records[k].uuid == "" then {} else {records[k].uuid}
      ensures out + Turns(Ahead(next, ToCome(records, k + 1, seen))) ==
        turns + Turns(Ahead(pending, ToCome(records, k, old(seen))))
    {
      var rec := records[k];
      ToComeStep(records, k, seen);
      if rec.uuid != "" {
        if rec.uuid in seen {
          return turns, pending;
        }
        seen := seen + {rec.uuid};
      }
      out, next := Show(rec, turns, pending, ToCome(records, k + 1, seen));
    }
  }

  /** The pieces of the records from `k` on, when `seen` has been seen. */
  function ToCome(records: seq<Record>, k: nat, seen: set<string>): seq<Piece>
    requires k <= |records|
  {
    Pieces(Firsts(records[k..], seen))
  }

  lemma ToComeStep(records: seq<Record>, k: nat, seen: set<string>)
    requires k < |records|
    ensures var rec := records[k];
      ToCome(records, k, seen) ==
        if rec.uuid != "" && rec.uuid in seen then ToCome(records, k + 1, seen)
        else
          var later := ToCome(records, k + 1, if rec.uuid == "" then seen else seen + {rec.uuid});
          Ahead(PieceOf(rec), later)
  {
    var rec := records[k];
    assert records[k..][1..] == records[k + 1..];
    if rec.uuid == "" || rec.uuid !in seen {
      var tail := Firsts(records[k + 1..], if rec.uuid == "" then seen else seen + {rec.uuid});
      assert ([rec] + tail)[1..] == tail;
    }
  }

  lemma UuidsStep(records: seq<Record>, k: nat)
    requires k < |records|
    ensures Uuids(records[..k + 1]) == Uuids(records[..k]) + if records[k].uuid == "" then {} else {records[k].uuid}
  {
    assert records[..k + 1] == records[..k] + [records[k]];
    assert forall x :: x in records[..k + 1] <==> x in records[..k] || x == records[k];
  }

  method PieceOfRecord(rec: Record) returns (piece: Option<Piece>)
    ensures piece == PieceOf(rec)
  {
    match rec.content
    case Boundary => return Some(Cut(rec.stamp));
    case Undisplayed => return None;
    case Prompt(raw) =>
      var text := Strip(raw);
      if text == "" || IsWrapper(text) { return None; }
      return Some(Piece(User, [text], [], rec.stamp));
    case Blocks(blocks) =>
      var texts, tools := ReadBlocks(blocks);
      if texts == [] && tools == [] { return None; }
      return Some(Piece(Assistant, texts, tools, rec.stamp));
  }

  /** The loop over the blocks of an assistant message. */
  method ReadBlocks(blocks: seq<Block>) returns (texts: seq<string>, tools: seq<string>)
    ensures texts == TextsOf(blocks) && tools == ToolsOf(blocks)
  {
    texts, tools := [], [];
    for i := 0 to |blocks|
      invariant texts + TextsOf(blocks[i..]) == TextsOf(blocks)
      invariant tools + ToolsOf(blocks[i..]) == ToolsOf(blocks)
    {
      Seqs.DropFirst(blocks, i);
      match blocks[i]
      case Text(t) =>
        if t != "" {
          Seqs.Assoc(texts, [t], TextsOf(blocks[i + 1..]));
          texts := texts + [t];
        }
      case Tool(line) =>
        Seqs.Assoc(tools, [line], ToolsOf(blocks[i + 1..]));
        tools := tools + [line];
      case Ignored =>
    }
    Seqs.Nothing(texts);
    Seqs.Nothing(tools);
  }

  lemma TurnOfOne(p: Piece)
    requires p.Piece?
    ensures AllTexts([p]) == p.texts && AllTools([p]) == p.tools
  {
    assert [p][1..] == [];
    assert p.texts + [] == p.texts && p.tools + [] == p.tools;
  }

  /** `flush` */
  method Flush(turns: seq<Turn>, pending: Option<Piece>) returns (out: seq<Turn>)
    requires pending.Some? ==> pending.value.Piece?
    ensures out == turns + Turns(Ahead(pending, []))
  {
    if pending == None {
      return turns;
    }
    var p := pending.value;
    BreakTurn(p, []);
    TurnOfOne(p);
    var text := Strip(JoinLines(p.texts));
    if text != "" || p.tools != [] {
      return turns + [Said(p.role, text, p.tools, p.stamp)];
    }
    return turns;
  }

  /** What the pass does with a displayable record: extend the pending turn, or flush it and start anew. */
  method Absorb(turns: seq<Turn>, pending: Option<Piece>, piece: Piece, ghost rest: seq<Piece>)
    returns (out: seq<Turn>, next: Option<Piece>)
    requires pending.Some? ==> pending.value.Piece?
    ensures next.Some? ==> next.value.Piece?
    ensures out + Turns(Ahead(next, rest)) == turns + Turns(Ahead(pending, [piece] + rest))
  {
    if pending.Some? && SameRun(pending.value, piece) {
      FuseKeepsTurns(pending.value, piece, rest);
      return turns, Some(Fused(pending.value, piece));
    }
    BreakAhead(pending, piece, rest);
    out := Flush(turns, pending);
    Seqs.Assoc(turns, Turns(Ahead(pending, [])), Turns([piece] + rest));
    if piece.Cut? {
      BreakTurn(piece, rest);
      Seqs.Assoc(out, [Compact(piece.stamp)], Turns(rest));
      return out + [Compact(piece.stamp)], None;
    }
    return out, Some(piece);
  }

  /** A record that shows nothing leaves the pending turn as it is. */
  method Show(rec: Record, turns: seq<Turn>, pending: Option<Piece>, ghost rest: seq<Piece>)
    returns (out: seq<Turn>, next: Option<Piece>)
    requires pending.Some? ==> pending.value.Piece?
    ensures next.Some? ==> next.value.Piece?
    ensures out + Turns(Ahead(next, rest)) == turns + Turns(Ahead(pending, Ahead(PieceOf(rec), rest)))
  {
    var piece := PieceOfRecord(rec);
    if piece == None {
      return turns, pending;
    }
    out, next := Absorb(turns, pending, piece.value, rest);
  }

  lemma BreakAhead(pending: Option<Piece>, piece: Piece, rest: seq<Piece>)
    requires pending.Some? ==> !SameRun(pending.value, piece)
    ensures Turns(Ahead(pending, [piece] + rest)) == Turns(Ahead(pending, [])) + Turns([piece] + rest)
  {
    if pending.Some? {
      BreakTurn(pending.value, []);
      BreakTurn(pending.value, [piece] + rest);
    }
  }

  // ---------------------------------------------------------------------------
  // the chain of files
  // ---------------------------------------------------------------------------

  /** A session file that is not there contributes nothing. */
  function RecordsOf(file: Option<seq<Record>>): seq<Record> { if file.Some? then file.value else [] }

  function Flat(files: seq<Option<seq<Record>>>): seq<Record> {
    if files == [] then [] else RecordsOf(files[0]) + Flat(files[1..])
  }

  /** Each file is grouped by itself, with what the files before it have shown left out. */
  function ChainTurns(files: seq<Option<seq<Record>>>, seen: set<string>): seq<Turn> {
    if files == [] then []
    else
      var records := RecordsOf(files[0]);
      Turns(Pieces(Firsts(records, seen))) + ChainTurns(files[1..], seen + Uuids(records))
  }

  lemma ChainStep(files: seq<Option<seq<Record>>>, k: nat, seen: set<string>)
    requires k < |files|
    ensures ChainTurns(files[k..], seen) ==
      match files[k]
      case None => ChainTurns(files[k + 1..], seen)
      case Some(rs) => Turns(Pieces(Firsts(rs, seen))) + ChainTurns(files[k + 1..], seen + Uuids(rs))
  {
    assert files[k..][1..] == files[k + 1..];
    if files[k] == None {
      assert seen + Uuids([]) == seen;
      assert Turns(Pieces(Firsts([], seen))) == [];
    }
  }

  /** The chaining loop of `main`. */
  method Chain(files: seq<Option<seq<Record>>>) returns (turns: seq<Turn>)
    ensures turns == ChainTurns(files, {})
  {
    var merger := new Merger();
    turns := [];
    for k := 0 to |files|
      invariant turns + ChainTurns(files[k..], merger.seen) == ChainTurns(files, {})
      invariant fresh(merger)
    {
      ChainStep(files, k, merger.seen);
      if files[k].Some? {
        var more := merger.MergeTurns(files[k].value);
        Seqs.Assoc(turns, more, ChainTurns(files[k + 1..], merger.seen));
        turns := turns + more;
      }
    }
  }

  lemma {:induction false} FirstsConcat(a: seq<Record>, b: seq<Record>, seen: set<string>)
    ensures Firsts(a + b, seen) == Firsts(a, seen) + Firsts(b, seen + Uuids(a))
  {
    if a == [] {
      assert a + b == b && seen + Uuids(a) == seen;
    } else {
      assert (a + b)[1..] == a[1..] + b;
      assert forall r :: r in a <==> r == a[0] || r in a[1..];
      var more := if a[0].uuid == "" then seen else seen + {a[0].uuid};
      assert more + Uuids(a[1..]) == seen + Uuids(a);
      FirstsConcat(a[1..], b, more);
      if a[0].uuid != "" && a[0].uuid in seen {
        assert more == seen;
      }
    }
  }

  /** A record is shown exactly if it has no uuid or no record before it has the same. */
  lemma FirstOfEachUuid(before: seq<Record>, r: Record)
    ensures Firsts(before + [r], {}) == Firsts(before, {}) +
      if r.uuid != "" && exists o :: o in before && o.uuid == r.uuid then [] else [r]
  {
    FirstsConcat(before, [r], {});
    assert r.uuid != "" ==> (r.uuid in Uuids(before) <==> exists o :: o in before && o.uuid == r.uuid);
    assert [r][1..] == [];
  }

  lemma {:induction false} PiecesConcat(a: seq<Record>, b: seq<Record>)
    ensures Pieces(a + b) == Pieces(a) + Pieces(b)
  {
    if a == [] {
      Seqs.Nothing(b);
    } else {
      Seqs.FirstOfConcat(a, b);
      PiecesConcat(a[1..], b);
      Seqs.Assoc(Ahead(PieceOf(a[0]), []), Pieces(a[1..]), Pieces(b));
    }
  }

  // ---------------------------------------------------------------------------
  // nothing is lost, shown twice or moved
  // ---------------------------------------------------------------------------

  /** The characters of a text that `gap` does not hold of. */
  function Filtered(t: string, gap: char -> bool): string {
    if t == "" then "" else (if gap(t[0]) then [] else [t[0]]) + Filtered(t[1..], gap)
  }

  /** The visible characters of a text. */
  function Ink(t: string): string { Filtered(t, IsSpace) }

  /** What each element holds, one after the other. */
  function Gathered<T, U>(xs: seq<T>, f: T -> seq<U>): seq<U> {
    if xs == [] then [] else f(xs[0]) + Gathered(xs[1..], f)
  }

  function InkOfTexts(ts: seq<string>): string { Gathered(ts, Ink) }

  /** What the turns of one role show. */
  function InkShown(role: Role): Turn -> string {
    (t: Turn) => if t.Said? && t.role == role then Ink(t.text) else ""
  }

  function ToolsShown(t: Turn): seq<string> { if t.Said? then t.tools else [] }

  function CutsShown(t: Turn): seq<string> { if t.Compact? then [t.stamp] else [] }

  function InkIn(role: Role): Piece -> string {
    (p: Piece) => if p.Piece? && p.role == role then InkOfTexts(p.texts) else ""
  }

  function ToolsIn(p: Piece): seq<string> { if p.Piece? then p.tools else [] }

  function CutsIn(p: Piece): seq<string> { if p.Cut? then [p.stamp] else [] }

  lemma {:induction false} FilteredConcat(a: string, b: string, gap: char -> bool)
    ensures Filtered(a + b, gap) == Filtered(a, gap) + Filtered(b, gap)
  {
    if a == [] {
      Seqs.Nothing(b);
    } else {
      Seqs.FirstOfConcat(a, b);
      FilteredConcat(a[1..], b, gap);
      Seqs.Assoc(if gap(a[0]) then [] else [a[0]], Filtered(a[1..], gap), Filtered(b, gap));
    }
  }

  lemma {:induction false} GatheredConcat<T, U>(a: seq<T>, b: seq<T>, f: T -> seq<U>)
    ensures Gathered(a + b, f) == Gathered(a, f) + Gathered(b, f)
  {
    if a == [] {
      Seqs.Nothing(b);
    } else {
      Seqs.FirstOfConcat(a, b);
      GatheredConcat(a[1..], b, f);
      Seqs.Assoc(f(a[0]), Gathered(a[1..], f), Gathered(b, f));
    }
  }

  lemma GatheredOne<T, U>(x: T, f: T -> seq<U>)
    ensures Gathered([x], f) == f(x)
  {
    var none := [x][1..];
    assert none == [] && Gathered(none, f) == [];
    assert Gathered([x], f) == f([x][0]) + Gathered(none, f);
    Seqs.Nothing(f(x));
  }

  lemma {:induction false} InkOfSkipSpace(t: string)
    ensures Ink(SkipSpace(t)) == Ink(t)
  {
    if t != "" && IsSpace(t[0]) { InkOfSkipSpace(t[1..]); }
  }

  lemma {:induction false} InkOfRStrip(t: string)
    ensures Ink(RStrip(t)) == Ink(t)
  {
    if t != "" && IsSpace(t[|t| - 1]) {
      InkOfRStrip(t[..|t| - 1]);
      FilteredConcat(t[..|t| - 1], [t[|t| - 1]], IsSpace);
      assert t == t[..|t| - 1] + [t[|t| - 1]];
      assert [t[|t| - 1]][1..] == "";
    }
  }

  lemma {:induction false} InkOfJoinLines(ts: seq<string>)
    ensures Ink(JoinLines(ts)) == InkOfTexts(ts)
  {
    if ts == [] {
      assert Ink("") == "";
    } else if |ts| == 1 {
      assert ts[1..] == [];
      assert InkOfTexts(ts) == Ink(ts[0]) + InkOfTexts(ts[1..]);
      Seqs.Nothing(Ink(ts[0]));
    } else if |ts| > 1 {
      InkOfJoinLines(ts[1..]);
      FilteredConcat(ts[0] + "\n", JoinLines(ts[1..]), IsSpace);
      FilteredConcat(ts[0], "\n", IsSpace);
      InkOfNewline();
      Seqs.Nothing(Ink(ts[0]));
      assert Ink(JoinLines(ts)) == Ink(ts[0]) + Ink(JoinLines(ts[1..]));
    }
  }

  lemma InkOfNewline()
    ensures Ink("\n") == ""
  {
    assert "\n"[1..] == "";
  }

  /** Nothing is left of a text exactly if it has no visible character. */
  lemma BlankIff(t: string)
    ensures Ink(Strip(t)) == Ink(t)
    ensures Strip(t) == "" <==> Ink(t) == ""
  {
    var s := Strip(t);
    InkOfSkipSpace(t);
    InkOfRStrip(SkipSpace(t));
    RStripIs(SkipSpace(t));
    if s != "" {
      Seqs.LastOf(s);
      FilteredConcat(s[..|s| - 1], [s[|s| - 1]], IsSpace);
      assert Ink([s[|s| - 1]]) == [s[|s| - 1]];
    }
  }

  function InkOfBlock(b: Block): string { if b.Text? then Ink(b.text) else "" }

  function ToolOfBlock(b: Block): seq<string> { if b.Tool? then [b.line] else [] }

  predicate ShowsBlock(b: Block) { b.Tool? || (b.Text? && b.text != "") }

  lemma {:induction false} WhatBlocksShow(bs: seq<Block>)
    ensures InkOfTexts(TextsOf(bs)) == Gathered(bs, InkOfBlock)
    ensures ToolsOf(bs) == Gathered(bs, ToolOfBlock)
  {
    if bs != [] {
      WhatBlocksShow(bs[1..]);
      if bs[0].Text? && bs[0].text != "" {
        GatheredConcat([bs[0].text], TextsOf(bs[1..]), Ink);
        GatheredOne(bs[0].text, Ink);
      }
      Seqs.Nothing(TextsOf(bs[1..]));
    }
  }

  lemma {:induction false} SilentBlocksIff(bs: seq<Block>)
    ensures TextsOf(bs) == [] && ToolsOf(bs) == [] <==> forall b :: b in bs ==> !ShowsBlock(b)
  {
    if bs != [] {
      SilentBlocksIff(bs[1..]);
      assert bs[0] in bs;
      forall b ensures b in bs <==> b == bs[0] || b in bs[1..] {
        Seqs.InConcat([bs[0]], bs[1..], b);
        assert [bs[0]] + bs[1..] == bs;
      }
    }
  }

  /** When a record shows nothing: it is none of the three kinds, a prompt without a visible character or
      with an injected tag, or blocks of which none is a tool call or a text that is not empty. */
  predicate Silent(r: Record) {
    match r.content
    case Boundary => false
    case Prompt(raw) => Ink(raw) == "" || IsWrapper(Strip(raw))
    case Blocks(bs) => forall b :: b in bs ==> !ShowsBlock(b)
    case Undisplayed => true
  }

  /** Otherwise it holds, under its role and its own time, every visible character of its texts and every
      tool line, in order. */
  lemma WhatARecordShows(r: Record)
    ensures PieceOf(r) == None <==> Silent(r)
    ensures PieceOf(r).Some? ==> PieceOf(r).value.stamp == r.stamp && (PieceOf(r).value.Cut? <==> r.content.Boundary?)
    ensures PieceOf(r).Some? && r.content.Prompt? ==> (
      var p := PieceOf(r).value;
      p.role == User && InkOfTexts(p.texts) == Ink(r.content.raw) && p.tools == [])
    ensures PieceOf(r).Some? && r.content.Blocks? ==> (
      var p := PieceOf(r).value;
      && p.role == Assistant
      && InkOfTexts(p.texts) == Gathered(r.content.blocks, InkOfBlock)
      && p.tools == Gathered(r.content.blocks, ToolOfBlock))
  {
    match r.content
    case Prompt(raw) =>
      BlankIff(raw);
      GatheredOne(Strip(raw), Ink);
    case Blocks(bs) =>
      WhatBlocksShow(bs);
      SilentBlocksIff(bs);
    case _ =>
  }

  predicate AllOf(ps: seq<Piece>, role: Role) {
    forall i :: 0 <= i < |ps| ==> ps[i].Piece? && ps[i].role == role
  }

  lemma AllOfRest(ps: seq<Piece>, role: Role)
    requires AllOf(ps, role) && ps != []
    ensures AllOf(ps[1..], role) && ps[0].Piece? && ps[0].role == role
  {
  }

  lemma {:induction false} InkOfAllTexts(ps: seq<Piece>, role: Role)
    requires AllOf(ps, role)
    ensures InkOfTexts(AllTexts(ps)) == Gathered(ps, InkIn(role))
  {
    if ps != [] {
      AllOfRest(ps, role);
      InkOfAllTexts(ps[1..], role);
      GatheredConcat(ps[0].texts, AllTexts(ps[1..]), Ink);
    }
  }

  lemma {:induction false} OtherRoleIsSilent(ps: seq<Piece>, role: Role, other: Role)
    requires AllOf(ps, role) && role != other
    ensures Gathered(ps, InkIn(other)) == ""
  {
    if ps != [] {
      AllOfRest(ps, role);
      OtherRoleIsSilent(ps[1..], role, other);
    }
  }

  lemma {:induction false} AllToolsGathered(ps: seq<Piece>)
    ensures AllTools(ps) == Gathered(ps, ToolsIn)
  {
    if ps != [] { AllToolsGathered(ps[1..]); }
  }

  lemma {:induction false} NoCutsInARun(ps: seq<Piece>)
    requires forall i :: 0 <= i < |ps| ==> ps[i].Piece?
    ensures Gathered(ps, CutsIn) == []
  {
    if ps != [] { NoCutsInARun(ps[1..]); }
  }

  /** A turn shows, under its role, all its group holds, and a group that is not shown holds nothing. */
  lemma TurnShowsGroup(group: seq<Piece>, role: Role)
    requires group != [] && RunLength(group) == |group|
    ensures Gathered(TurnOf(group), InkShown(role)) == Gathered(group, InkIn(role))
    ensures Gathered(TurnOf(group), ToolsShown) == Gathered(group, ToolsIn)
    ensures Gathered(TurnOf(group), CutsShown) == Gathered(group, CutsIn)
  {
    RunIsMaximal(group);
    if group[0].Cut? {
      var cut, turn := group[0], TurnOf(group)[0];
      assert group == [cut];
      GatheredOne(cut, InkIn(role));
      GatheredOne(cut, ToolsIn);
      GatheredOne(cut, CutsIn);
      ShownInOne(turn, role);
    } else {
      NoCutsInARun(group);
      AllToolsGathered(group);
      SaidTurnShows(group, role);
      if TurnOf(group) != [] { ShownInOne(TurnOf(group)[0], role); }
    }
  }

  lemma ShownInOne(turn: Turn, role: Role)
    ensures Gathered([turn], InkShown(role)) == InkShown(role)(turn)
    ensures Gathered([turn], ToolsShown) == ToolsShown(turn)
    ensures Gathered([turn], CutsShown) == CutsShown(turn)
  {
    GatheredOne(turn, InkShown(role));
    GatheredOne(turn, ToolsShown);
    GatheredOne(turn, CutsShown);
  }

  lemma SaidTurnShows(group: seq<Piece>, role: Role)
    requires group != [] && group[0].Piece? && AllOf(group, group[0].role)
    ensures Gathered(TurnOf(group), InkShown(role)) == Gathered(group, InkIn(role))
  {
    var joined := JoinLines(AllTexts(group));
    InkOfAllTexts(group, group[0].role);
    InkOfJoinLines(AllTexts(group));
    BlankIff(joined);
    if role != group[0].role {
      OtherRoleIsSilent(group, group[0].role, role);
    }
    if TurnOf(group) != [] {
      GatheredOne(TurnOf(group)[0], InkShown(role));
    }
  }

  lemma {:induction false} RunOfRun(ps: seq<Piece>)
    requires ps != []
    ensures RunLength(ps[..RunLength(ps)]) == RunLength(ps)
  {
    if RunLength(ps) > 1 {
      RunOfRun(ps[1..]);
      assert ps[..RunLength(ps)][1..] == ps[1..][..RunLength(ps) - 1];
    }
  }

  function Flattened(groups: seq<seq<Piece>>): seq<Piece> {
    if groups == [] then [] else groups[0] + Flattened(groups[1..])
  }

  /** Grouping only cuts: the groups, put together, are the pieces, and each is one run. */
  lemma {:induction false} GroupsArePieces(ps: seq<Piece>)
    ensures Flattened(Groups(ps)) == ps && AllRuns(Groups(ps))
    decreases |ps|
  {
    if ps != [] {
      var n := RunLength(ps);
      RunOfRun(ps);
      GroupsArePieces(ps[n..]);
      Seqs.FirstOfConcat([ps[..n]], Groups(ps[n..]));
      Seqs.Nothing(Groups(ps[n..]));
      Seqs.TakeDrop(ps, n);
    }
  }

  /** Each group is one run. */
  predicate AllRuns(groups: seq<seq<Piece>>) {
    groups != [] ==> groups[0] != [] && RunLength(groups[0]) == |groups[0]| && AllRuns(groups[1..])
  }

  /** Each group's turn shows what the group holds. */
  predicate EachShows<U(==)>(groups: seq<seq<Piece>>, shown: Turn -> seq<U>, held: Piece -> seq<U>) {
    groups != [] ==>
      && groups[0] != [] && Gathered(TurnOf(groups[0]), shown) == Gathered(groups[0], held)
      && EachShows(groups[1..], shown, held)
  }

  /** Then the turns show what the pieces hold. */
  lemma {:induction false} TurnsShow<U>(groups: seq<seq<Piece>>, shown: Turn -> seq<U>, held: Piece -> seq<U>)
    requires EachShows(groups, shown, held)
    ensures Gathered(TurnsOf(groups), shown) == Gathered(Flattened(groups), held)
  {
    if groups != [] {
      TurnsShow(groups[1..], shown, held);
      GatheredConcat(TurnOf(groups[0]), TurnsOf(groups[1..]), shown);
      GatheredConcat(groups[0], Flattened(groups[1..]), held);
    }
  }

  lemma {:induction false} RunsShow(groups: seq<seq<Piece>>, role: Role)
    requires AllRuns(groups)
    ensures EachShows(groups, InkShown(role), InkIn(role))
    ensures EachShows(groups, ToolsShown, ToolsIn)
    ensures EachShows(groups, CutsShown, CutsIn)
  {
    if groups != [] {
      TurnShowsGroup(groups[0], role);
      RunsShow(groups[1..], role);
    }
  }

  /** The turns show every visible character under its own role, every tool line and every compaction of the
      pieces, each once and in order. */
  lemma TurnsShowAll(ps: seq<Piece>, role: Role)
    ensures Gathered(Turns(ps), InkShown(role)) == Gathered(ps, InkIn(role))
    ensures Gathered(Turns(ps), ToolsShown) == Gathered(ps, ToolsIn)
    ensures Gathered(Turns(ps), CutsShown) == Gathered(ps, CutsIn)
  {
    var groups := Groups(ps);
    GroupsArePieces(ps);
    RunsShow(groups, role);
    TurnsShow(groups, InkShown(role), InkIn(role));
    TurnsShow(groups, ToolsShown, ToolsIn);
    TurnsShow(groups, CutsShown, CutsIn);
  }

  /** Over all the chained files: what is shown is what the first record of each uuid holds, in order. */
  lemma {:induction false} ChainShows<U>(files: seq<Option<seq<Record>>>, seen: set<string>, shown: Turn -> seq<U>,
                                         held: Piece -> seq<U>)
    requires forall ps :: Gathered(Turns(ps), shown) == Gathered(ps, held)
    ensures Gathered(ChainTurns(files, seen), shown) == Gathered(Pieces(Firsts(Flat(files), seen)), held)
  {
    if files != [] {
      var records := RecordsOf(files[0]);
      var later := seen + Uuids(records);
      var here, rest := Pieces(Firsts(records, seen)), Pieces(Firsts(Flat(files[1..]), later));
      ChainShows(files[1..], later, shown, held);
      FirstsConcat(records, Flat(files[1..]), seen);
      PiecesConcat(Firsts(records, seen), Firsts(Flat(files[1..]), later));
      GatheredConcat(here, rest, held);
      GatheredConcat(Turns(here), ChainTurns(files[1..], later), shown);
    }
  }

  /** Every visible character (of either role), every tool line and every compaction of the records that are
      not repeats is shown, once and in order, over any chain of files. */
  lemma ChainShowsAll(files: seq<Option<seq<Record>>>, role: Role)
    ensures var all, turns := Pieces(Firsts(Flat(files), {})), ChainTurns(files, {});
      && Gathered(turns, InkShown(role)) == Gathered(all, InkIn(role))
      && Gathered(turns, ToolsShown) == Gathered(all, ToolsIn)
      && Gathered(turns, CutsShown) == Gathered(all, CutsIn)
  {
    forall ps: seq<Piece>
      ensures Gathered(Turns(ps), InkShown(role)) == Gathered(ps, InkIn(role))
      ensures Gathered(Turns(ps), ToolsShown) == Gathered(ps, ToolsIn)
      ensures Gathered(Turns(ps), CutsShown) == Gathered(ps, CutsIn)
    {
      TurnsShowAll(ps, role);
    }
    ChainShows(files, {}, InkShown(role), InkIn(role));
    ChainShows(files, {}, ToolsShown, ToolsIn);
    ChainShows(files, {}, CutsShown, CutsIn);
  }

  // ---------------------------------------------------------------------------
  // what a turn looks like
  // ---------------------------------------------------------------------------

  /** Cutting a text at its newlines. */
  function CutLines(t: string): (lines: seq<string>)
    ensures lines != []
  {
    if t == "" then [""]
    else
      var rest := CutLines(t[1..]);
      if t[0] == '\n' then [""] + rest else [[t[0]] + rest[0]] + rest[1..]
  }

  lemma {:induction false} CutPlain(t: string)
    requires '\n' !in t
    ensures CutLines(t) == [t]
  {
    if t != "" {
      assert t == [t[0]] + t[1..];
      Seqs.ConsAt(t[0], t[1..]);
      CutPlain(t[1..]);
    }
  }

  lemma {:induction false} CutAtNewline(a: string, b: string)
    requires '\n' !in a
    ensures CutLines(a + ("\n" + b)) == [a] + CutLines(b)
  {
    if a == "" {
      Seqs.Nothing("\n" + b);
      assert ("\n" + b)[1..] == b;
    } else {
      assert a == [a[0]] + a[1..];
      Seqs.ConsAt(a[0], a[1..]);
      Seqs.FirstOfConcat(a, "\n" + b);
      CutAtNewline(a[1..], b);
      Seqs.HeadOfConcat([a[1..]], CutLines(b));
      assert CutLines(a + ("\n" + b))[0] == [a[0]] + a[1..];
    }
  }

  /** One newline between neighbours, and nothing else: the last text comes behind one, and cutting at the
      newlines gives the texts back. */
  lemma {:induction false} JoinedTexts(ts: seq<string>, last: string)
    ensures JoinLines([last]) == last
    ensures ts != [] ==> JoinLines(ts + [last]) == JoinLines(ts) + ("\n" + last)
  {
    if |ts| == 1 {
      assert (ts + [last])[1..] == [last];
      Seqs.Assoc(ts[0], "\n", last);
    } else if |ts| > 1 {
      JoinedTexts(ts[1..], last);
      Seqs.FirstOfConcat(ts, [last]);
      Seqs.Assoc(ts[0] + "\n", JoinLines(ts[1..]), "\n" + last);
    }
  }

  predicate NoNewlines(ts: seq<string>) {
    ts != [] ==> '\n' !in ts[0] && NoNewlines(ts[1..])
  }

  lemma {:induction false} NoNewlinesIf(ts: seq<string>)
    requires forall i :: 0 <= i < |ts| ==> '\n' !in ts[i]
    ensures NoNewlines(ts)
  {
    if ts != [] { NoNewlinesIf(ts[1..]); }
  }

  lemma {:induction false} JoinedIsCutBack(ts: seq<string>)
    requires ts != [] && NoNewlines(ts)
    ensures CutLines(JoinLines(ts)) == ts
  {
    if |ts| == 1 {
      CutPlain(ts[0]);
    } else {
      JoinedIsCutBack(ts[1..]);
      Seqs.Assoc(ts[0], "\n", JoinLines(ts[1..]));
      CutAtNewline(ts[0], JoinLines(ts[1..]));
    }
  }

  predicate VisibleEnds(t: string) { t == "" || (!IsSpace(t[0]) && !IsSpace(t[|t| - 1])) }

  /** `s` is `t` without the white space at its two ends. */
  ghost predicate TrimmedTo(t: string, s: string) {
    VisibleEnds(s) && exists x, y :: Surrounds(x, y, t, s)
  }

  predicate Surrounds(x: string, y: string, t: string, s: string) {
    Blank(x) && Blank(y) && t == x + s + y
  }

  lemma StripTrims(t: string)
    ensures TrimmedTo(t, Strip(t))
  {
    var x, u := SkipSpaceIs(t);
    var y := RStripSplits(u);
    var s := Strip(t);
    Seqs.Assoc(x, s, y);
    if s != "" {
      Seqs.FirstOfConcat(s, y);
    }
    assert Surrounds(x, y, t, s);
  }

  lemma StripKeeps(t: string)
    requires VisibleEnds(t)
    ensures Strip(t) == t
  {
  }

  /** What a run of pieces is shown as: at most one turn, of its role, with the time of its first piece, all its
      tool lines, and its texts with one newline between neighbours, trimmed at both ends. It is left out
      exactly if nothing of it is visible. */
  lemma TurnIs(group: seq<Piece>)
    requires group != [] && group[0].Piece? && AllOf(group, group[0].role)
    ensures var joined, tools := JoinLines(AllTexts(group)), Gathered(group, ToolsIn);
      if Ink(joined) == "" && tools == [] then TurnOf(group) == []
      else
        && |TurnOf(group)| == 1 && TurnOf(group)[0].Said?
        && var t := TurnOf(group)[0];
        t.role == group[0].role && t.stamp == group[0].stamp && t.tools == tools && TrimmedTo(joined, t.text)
  {
    var joined := JoinLines(AllTexts(group));
    AllToolsGathered(group);
    StripTrims(joined);
    BlankIff(joined);
  }

  /** Where each text is one line without white space at its ends, cutting the turn's text at its newlines gives
      back exactly those texts, in order. */
  lemma TurnIsCutBack(group: seq<Piece>)
    requires group != [] && group[0].Piece?
    requires var ts := AllTexts(group);
      ts != [] && forall i :: 0 <= i < |ts| ==> ts[i] != "" && '\n' !in ts[i] && VisibleEnds(ts[i])
    ensures |TurnOf(group)| == 1 && TurnOf(group)[0].Said? && CutLines(TurnOf(group)[0].text) == AllTexts(group)
  {
    var ts := AllTexts(group);
    JoinedEnds(ts);
    StripKeeps(JoinLines(ts));
    NoNewlinesIf(ts);
    JoinedIsCutBack(ts);
  }

  lemma {:induction false} JoinedEnds(ts: seq<string>)
    requires ts != [] && forall i :: 0 <= i < |ts| ==> ts[i] != "" && VisibleEnds(ts[i])
    ensures var t := JoinLines(ts); t != "" && t[0] == ts[0][0] && VisibleEnds(t)
  {
    if |ts| > 1 {
      var rest := ts[1..];
      assert forall i :: 0 <= i < |rest| ==> rest[i] == ts[i + 1];
      JoinedEnds(rest);
      var t := JoinLines(ts);
      assert t[|t| - 1] == JoinLines(rest)[|JoinLines(rest)| - 1];
    }
  }

  /** What is injected around no prompt: five tags, and nothing that does not begin with one. */
  lemma WrappersAre(t: string)
    ensures IsWrapper(t) ==> t != "" && t[0] == '<'
    ensures IsWrapper("<local-command-stdout>" + t) && IsWrapper("<command-name>" + t)
    ensures IsWrapper("<command-message>" + t) && IsWrapper("<task-notification>" + t)
    ensures IsWrapper("<system-reminder>" + t)
  {
    Seqs.HeadOfConcat("<local-command-stdout>", t);
    Seqs.HeadOfConcat("<command-name>", t);
    Seqs.HeadOfConcat("<command-message>", t);
    Seqs.HeadOfConcat("<task-notification>", t);
    Seqs.HeadOfConcat("<system-reminder>", t);
    StartsWithFirst(t, "<local-command-stdout>");
    StartsWithFirst(t, "<command-name>");
    StartsWithFirst(t, "<command-message>");
    StartsWithFirst(t, "<task-notification>");
    StartsWithFirst(t, "<system-reminder>");
  }
}
