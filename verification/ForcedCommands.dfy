/** Re-rendering the forced commands baked into authorized_keys (cli_forced_command_reconcile.py:26-87). */
module ForcedCommands {
  import opened Lines
  import opened Options
  import Seqs

  const MARK := "command=\""

  // ---------------------------------------------------------------------------
  // encode and decode
  // ---------------------------------------------------------------------------

  function Replace(t: string, c: char, with: string): string {
    if t == "" then "" else (if t[0] == c then with else [t[0]]) + Replace(t[1..], c, with)
  }

  function Encode(cmd: string): string {
    Replace(Replace(cmd, '\\', "\\\\"), '"', "\\\"")
  }

  /** Only `\"` is unescaped. */
  function Decode(encoded: string): string {
    if encoded == "" then ""
    else if |encoded| > 1 && encoded[0] == '\\' && encoded[1] == '"' then "\"" + Decode(encoded[2..])
    else [encoded[0]] + Decode(encoded[1..])
  }

  /** Encoding goes character by character. */
  function Spell(c: char): string {
    if c == '\\' then "\\\\" else if c == '"' then "\\\"" else [c]
  }

  lemma ReplaceTwo(a: char, b: char, c: char, with: string)
    requires a != c && b != c
    ensures Replace([a, b], c, with) == [a, b]
  {
    assert [a, b][1..] == [b];
    assert [b][1..] == "";
    assert Replace([b], c, with) == [b] + Replace("", c, with);
  }

  lemma {:induction false} ReplaceConcat(t: string, u: string, c: char, with: string)
    ensures Replace(t + u, c, with) == Replace(t, c, with) + Replace(u, c, with)
  {
    if t == "" {
      Seqs.Nothing(u);
    } else {
      Seqs.FirstOfConcat(t, u);
      ReplaceConcat(t[1..], u, c, with);
      Seqs.Assoc(if t[0] == c then with else [t[0]], Replace(t[1..], c, with), Replace(u, c, with));
    }
  }

  lemma EncodeFirst(cmd: string)
    requires cmd != ""
    ensures Encode(cmd) == Spell(cmd[0]) + Encode(cmd[1..])
  {
    var first := if cmd[0] == '\\' then "\\\\" else [cmd[0]];
    ReplaceConcat(first, Replace(cmd[1..], '\\', "\\\\"), '"', "\\\"");
    ReplaceTwo('\\', '\\', '"', "\\\"");
    assert [cmd[0]][1..] == "";
  }

  lemma DecodePlain(c: char, rest: string)
    requires c != '\\' || rest == "" || rest[0] != '"'
    ensures Decode([c] + rest) == [c] + Decode(rest)
  {
    Seqs.ConsAt(c, rest);
    assert ([c] + rest)[1..] == rest;
  }

  lemma DecodeEscapedQuote(rest: string)
    ensures Decode("\\\"" + rest) == "\"" + Decode(rest)
  {
    var t := "\\\"" + rest;
    assert t[0] == '\\' && t[1] == '"' && t[2..] == rest;
  }

  lemma DecodeBackslashes(rest: string)
    requires rest == "" || rest[0] != '"'
    ensures Decode("\\\\" + rest) == "\\\\" + Decode(rest)
  {
    assert "\\\\" + rest == ['\\'] + (['\\'] + rest);
    DecodePlain('\\', rest);
    DecodePlain('\\', ['\\'] + rest);
    assert "\\\\" + Decode(rest) == ['\\'] + (['\\'] + Decode(rest));
  }

  /** `Encode` then `Decode` doubles every backslash. */
  lemma {:induction false} DecodeEncode(cmd: string)
    ensures Decode(Encode(cmd)) == Replace(cmd, '\\', "\\\\")
  {
    if cmd != "" {
      EncodeFirst(cmd);
      DecodeEncode(cmd[1..]);
      NoLeadingQuote(cmd[1..]);
      var rest := Encode(cmd[1..]);
      if cmd[0] == '\\' {
        DecodeBackslashes(rest);
      } else if cmd[0] == '"' {
        DecodeEscapedQuote(rest);
      } else {
        DecodePlain(cmd[0], rest);
      }
    }
  }

  lemma NoLeadingQuote(cmd: string)
    ensures Encode(cmd) != "" ==> Encode(cmd)[0] != '"'
  {
    if cmd != "" { EncodeFirst(cmd); }
  }

  lemma {:induction false} ReplaceLonger(t: string)
    ensures |Replace(t, '\\', "\\\\")| >= |t|
    ensures Replace(t, '\\', "\\\\") == t <==> '\\' !in t
    ensures '\\' in t ==> |Replace(t, '\\', "\\\\")| > |t|
  {
    if t != "" {
      ReplaceLonger(t[1..]);
      assert forall c :: c in t <==> c == t[0] || c in t[1..];
    }
  }

  /** Decoding inverts encoding exactly on the commands without a backslash. */
  lemma DecodeInvertsEncodeIff(cmd: string)
    ensures Decode(Encode(cmd)) == cmd <==> '\\' !in cmd
  {
    DecodeEncode(cmd);
    ReplaceLonger(cmd);
  }

  // ---------------------------------------------------------------------------
  // split_command
  // ---------------------------------------------------------------------------

  predicate MarkAt(t: string, i: nat) { i + |MARK| <= |t| && t[i..i + |MARK|] == MARK }

  /** The quote at `q` is not escaped. */
  predicate Closes(t: string, q: nat) { 0 < q < |t| && t[q] == '"' && t[q - 1] != '\\' }

  datatype Parts = Parts(head: string, enc: string, tail: string)

  /** The line is cut at the first mark and at the first quote after it that no backslash precedes. */
  ghost predicate IsSplit(line: string, p: Parts) {
    && line == p.head + p.enc + "\"" + p.tail
    && |MARK| <= |p.head| && MarkAt(line, |p.head| - |MARK|) && Closes(line, |p.head| + |p.enc|)
    && (forall i :: 0 <= i < |p.head| - |MARK| ==> !MarkAt(line, i))
    && (forall q :: |p.head| <= q < |p.head| + |p.enc| ==> !Closes(line, q))
  }

  method Find(line: string) returns (i: int)
    ensures -1 <= i < |line|
    ensures i >= 0 ==> MarkAt(line, i) && forall j :: 0 <= j < i ==> !MarkAt(line, j)
    ensures i < 0 ==> forall j :: 0 <= j ==> !MarkAt(line, j)
  {
    i := 0;
    while i + |MARK| <= |line|
      invariant 0 <= i
      invariant forall j :: 0 <= j < i ==> !MarkAt(line, j)
    {
      if line[i..i + |MARK|] == MARK { return; }
      i := i + 1;
    }
    i := -1;
  }

  /** `split_command`: `None` exactly when no part of the line can be cut out this way. */
  method SplitCommand(line: string) returns (r: Option<Parts>)
    ensures r.Some? ==> IsSplit(line, r.value)
    ensures r == None ==> forall p :: !IsSplit(line, p)
  {
    var i := Find(line);
    if i < 0 {
      NotSplit(line);
      return None;
    }
    var start := i + |MARK|;
    assert line[start - 1] == MARK[|MARK| - 1] by { assert line[i..start][|MARK| - 1] == line[start - 1]; }
    var k := start;
    while k < |line|
      invariant start <= k <= |line|
      invariant forall q :: start <= q < k ==> !Closes(line, q)
      invariant k < |line| && line[k - 1] == '\\' ==> line[k] != '"'
    {
      if line[k] == '\\' && k + 1 < |line| && line[k + 1] == '"' {
        k := k + 2;
        continue;
      }
      if line[k] == '"' {
        var p := Parts(line[..start], line[start..k], line[k + 1..]);
        assert line == p.head + p.enc + "\"" + p.tail;
        return Some(p);
      }
      k := k + 1;
    }
    forall p ensures !IsSplit(line, p) {
      SameMark(line, p, i);
    }
    return None;
  }

  lemma NotSplit(line: string)
    requires forall j :: 0 <= j ==> !MarkAt(line, j)
    ensures forall p :: !IsSplit(line, p)
  {
  }

  lemma SameMark(line: string, p: Parts, i: nat)
    requires MarkAt(line, i) && forall j :: 0 <= j < i ==> !MarkAt(line, j)
    ensures IsSplit(line, p) ==> |p.head| == i + |MARK|
  {
  }

  /** There is only one way to cut a line. */
  lemma SplitIsUnique(line: string, p: Parts, o: Parts)
    requires IsSplit(line, p) && IsSplit(line, o)
    ensures p == o
  {
    SameMark(line, p, |o.head| - |MARK|);
    assert p.head == line[..|p.head|] == o.head;
    assert |p.enc| == |o.enc| by {
      assert Closes(line, |p.head| + |p.enc|) && Closes(line, |o.head| + |o.enc|);
    }
    assert p.enc == line[|p.head|..|p.head| + |p.enc|] == o.enc;
    assert p.tail == line[|p.head| + |p.enc| + 1..] == o.tail;
  }

  // ---------------------------------------------------------------------------
  // an encoded command is cut out whole
  // ---------------------------------------------------------------------------

  /** Inside an encoded command every quote has a backslash before it. */
  ghost predicate Escaped(enc: string) {
    && (enc != "" ==> enc[0] != '"')
    && forall q :: 0 < q < |enc| && enc[q] == '"' ==> enc[q - 1] == '\\'
  }

  lemma {:induction false} EncodedIsEscaped(cmd: string)
    ensures Escaped(Encode(cmd))
    ensures cmd != "" ==> Encode(cmd) != "" && (Encode(cmd)[|Encode(cmd)| - 1] == '\\' <==> cmd[|cmd| - 1] == '\\')
    ensures cmd == "" ==> Encode(cmd) == ""
  {
    if cmd != "" {
      EncodeFirst(cmd);
      EncodedIsEscaped(cmd[1..]);
      var s, rest := Spell(cmd[0]), Encode(cmd[1..]);
      forall q | 0 < q < |s + rest| && (s + rest)[q] == '"' ensures (s + rest)[q - 1] == '\\' {
        if q >= |s| { assert (s + rest)[q] == rest[q - |s|]; }
      }
    }
  }

  /** A head that ends with its only mark. */
  ghost predicate HeadOk(head: string) {
    |MARK| <= |head| && MarkAt(head, |head| - |MARK|) && forall i :: 0 <= i < |head| - |MARK| ==> !MarkAt(head, i)
  }

  lemma MarkWithin(head: string, rest: string, i: nat)
    requires i + |MARK| <= |head|
    ensures MarkAt(head + rest, i) <==> MarkAt(head, i)
  {
    assert (head + rest)[i..i + |MARK|] == head[i..i + |MARK|];
  }

  /** Splitting finds an encoded command again exactly if the command does not end in a backslash. */
  lemma SplitFindsEncodedIff(head: string, cmd: string, tail: string)
    requires HeadOk(head)
    ensures IsSplit(head + Encode(cmd) + "\"" + tail, Parts(head, Encode(cmd), tail)) <==>
      cmd == "" || cmd[|cmd| - 1] != '\\'
  {
    var enc := Encode(cmd);
    var line := head + enc + "\"" + tail;
    EncodedIsEscaped(cmd);
    assert line == head + (enc + "\"" + tail);
    forall i | 0 <= i <= |head| - |MARK| ensures MarkAt(line, i) <==> MarkAt(head, i) {
      MarkWithin(head, enc + "\"" + tail, i);
    }
    assert line[|head| - 1] == '"' by {
      assert head[|head| - |MARK|..][|MARK| - 1] == head[|head| - 1];
      assert MARK[|MARK| - 1] == '"';
    }
    forall q | |head| <= q < |head| + |enc| ensures !Closes(line, q) {
      assert line[q] == enc[q - |head|];
      if q > |head| { assert line[q - 1] == enc[q - 1 - |head|]; }
    }
    var close := |head| + |enc|;
    assert line[close] == '"' && (enc != "" ==> line[close - 1] == enc[|enc| - 1]);
  }

  // ---------------------------------------------------------------------------
  // plan
  // ---------------------------------------------------------------------------

  /** `line.rstrip("\n")` */
  function Body(line: string): (body: string)
    ensures |body| <= |line|
  {
    if line != "" && line[|line| - 1] == '\n' then Body(line[..|line| - 1]) else line
  }

  predicate IsCommentLine(body: string) { StartsWith(SkipSpace(body), "#") }

  /** The parts of a line that may be rewritten. */
  ghost function PartsOf(body: string): Option<Parts> {
    if IsCommentLine(body) then None
    else if exists p :: IsSplit(body, p) then
      var p :| IsSplit(body, p);
      Some(p)
    else None
  }

  function Assembled(p: Parts, enc: string, end: string): string { p.head + enc + "\"" + p.tail + end }

  /** What becomes of one line: only the encoded command may change, to what the renderer wants for it. */
  ghost function PlanLine(line: string, render: string -> Option<string>): string {
    match PartsOf(Body(line))
    case None => line
    case Some(p) =>
      var want := render(Decode(p.enc));
      if want.Some? && Encode(want.value) != p.enc
        then Assembled(p, Encode(want.value), line[|Body(line)|..])
        else line
  }

  /** A line that changes keeps what is before the command, what is after it, and its terminator. */
  lemma ChangedLine(line: string, render: string -> Option<string>) returns (p: Parts, want: string)
    requires PlanLine(line, render) != line
    ensures PartsOf(Body(line)) == Some(p) && IsSplit(Body(line), p) && render(Decode(p.enc)) == Some(want)
    ensures line == Assembled(p, p.enc, line[|Body(line)|..])
    ensures PlanLine(line, render) == Assembled(p, Encode(want), line[|Body(line)|..])
  {
    p := PartsOf(Body(line)).value;
    want := render(Decode(p.enc)).value;
    BodyIsPrefix(line);
  }

  ghost function PlanLines(ls: seq<string>, render: string -> Option<string>): seq<string> {
    if ls == [] then [] else [PlanLine(ls[0], render)] + PlanLines(ls[1..], render)
  }

  ghost function Changes(ls: seq<string>, render: string -> Option<string>): nat {
    if ls == [] then 0 else (if PlanLine(ls[0], render) != ls[0] then 1 else 0) + Changes(ls[1..], render)
  }

  lemma {:induction false} BodyIsTake(line: string)
    ensures |Body(line)| <= |line| && Body(line) == line[..|Body(line)|]
    ensures Body(line) != "" ==> Body(line)[|Body(line)| - 1] != '\n'
  {
    if line != "" && line[|line| - 1] == '\n' {
      var front := line[..|line| - 1];
      BodyIsTake(front);
      assert line[..|Body(front)|] == front[..|Body(front)|];
    }
  }

  lemma {:induction false} NewlineBehindBody(line: string, k: nat)
    requires |Body(line)| <= k < |line|
    ensures line[k] == '\n'
  {
    if k < |line| - 1 { NewlineBehindBody(line[..|line| - 1], k); }
  }

  lemma BodyIsPrefix(line: string)
    ensures |Body(line)| <= |line| && line == Body(line) + line[|Body(line)|..]
    ensures forall k :: |Body(line)| <= k < |line| ==> line[k] == '\n'
    ensures Body(line) != "" ==> Body(line)[|Body(line)| - 1] != '\n'
  {
    BodyIsTake(line);
    Seqs.TakeDrop(line, |Body(line)|);
    forall k | |Body(line)| <= k < |line| ensures line[k] == '\n' {
      NewlineBehindBody(line, k);
    }
  }

  /** A rewritten command makes a different line. */
  lemma AssembledDiffers(p: Parts, enc: string, end: string)
    requires enc != p.enc
    ensures Assembled(p, enc, end) != Assembled(p, p.enc, end)
  {
    var a, b := Assembled(p, enc, end), Assembled(p, p.enc, end);
    if |enc| == |p.enc| {
      assert a[|p.head|..|p.head| + |enc|] == enc && b[|p.head|..|p.head| + |p.enc|] == p.enc;
    }
  }

  /** The body of the loop of `plan`. */
  method PlanOne(line: string, render: string -> Option<string>) returns (out: string, did: bool)
    ensures out == PlanLine(line, render) && (did <==> out != line)
  {
    var body := Body(line);
    var parts := None;
    if !IsCommentLine(body) {
      parts := SplitCommand(body);
    }
    SplitMatches(body, parts);
    out, did := line, false;
    if parts.Some? {
      var Parts(head, enc, tail) := parts.value;
      var want := render(Decode(enc));
      if want != None && Encode(want.value) != enc {
        BodyIsPrefix(line);
        AssembledDiffers(parts.value, Encode(want.value), line[|body|..]);
        out := head + Encode(want.value) + "\"" + tail + line[|body|..];
        did := true;
      }
    }
  }

  /** `plan`. The renderer of the attach body is a parameter: `None` for a command that is not ours. */
  method Plan(text: string, render: string -> Option<string>) returns (new_: string, changed: nat)
    ensures new_ == Join(PlanLines(SplitLines(text), render))
    ensures changed == Changes(SplitLines(text), render)
  {
    var ls := SplitLines(text);
    var out: seq<string> := [];
    changed := 0;
    for k := 0 to |ls|
      invariant out + PlanLines(ls[k..], render) == PlanLines(ls, render)
      invariant changed + Changes(ls[k..], render) == Changes(ls, render)
    {
      Seqs.DropFirst(ls, k);
      var line, did := PlanOne(ls[k], render);
      Seqs.Assoc(out, [line], PlanLines(ls[k + 1..], render));
      out := out + [line];
      changed := changed + if did then 1 else 0;
    }
    Seqs.Nothing(out);
    new_ := Join(out);
  }

  lemma SplitMatches(body: string, parts: Option<Parts>)
    requires parts.Some? ==> !IsCommentLine(body) && IsSplit(body, parts.value)
    requires parts == None ==> IsCommentLine(body) || forall p :: !IsSplit(body, p)
    ensures parts == PartsOf(body)
  {
    if parts.Some? && PartsOf(body).Some? {
      SplitIsUnique(body, parts.value, PartsOf(body).value);
    }
  }

  // ---------------------------------------------------------------------------
  // planning twice
  // ---------------------------------------------------------------------------

  predicate NoSep(t: string) { forall c :: c in t ==> !IsSep(c) }

  /** What the renderer yields is one line, has no backslash, and is rendered as itself. */
  ghost predicate Settled(render: string -> Option<string>) {
    forall cmd :: render(cmd).Some? ==>
      var want := render(cmd).value;
      NoSep(want) && '\\' !in want && render(want) == Some(want)
  }

  lemma {:induction false} LineEndSkips(x: string, rest: string)
    requires NoSep(x) && rest != ""
    ensures LineEnd(x + rest) == |x| + LineEnd(rest)
  {
    if x == "" {
      assert x + rest == rest;
    } else {
      assert (x + rest)[1..] == x[1..] + rest;
      assert x[0] in x && forall c :: c in x[1..] ==> c in x;
      LineEndSkips(x[1..], rest);
    }
  }

  lemma {:induction false} PrefixHasNoSep(x: string, rest: string)
    requires rest != "" && rest[0] != '\n' && LineEnd(x + rest) == |x + rest|
    ensures NoSep(x)
  {
    if x != "" {
      assert (x + rest)[1..] == x[1..] + rest;
      PrefixHasNoSep(x[1..], rest);
      assert forall c :: c in x ==> c == x[0] || c in x[1..];
    }
  }

  lemma {:induction false} EncodeNoSep(cmd: string)
    requires NoSep(cmd)
    ensures NoSep(Encode(cmd))
  {
    if cmd != "" {
      EncodeFirst(cmd);
      assert cmd[0] in cmd && forall c :: c in cmd[1..] ==> c in cmd;
      EncodeNoSep(cmd[1..]);
      assert forall c :: c in Encode(cmd) ==> c in Spell(cmd[0]) || c in Encode(cmd[1..]);
    }
  }

  /** Putting a command without line breaks between the quotes keeps a line a line. */
  lemma RewrittenIsOneLine(head: string, enc: string, new_: string, rest: string)
    requires rest != "" && rest[0] == '"' && OneLine(head + enc + rest) && NoSep(new_) && head != ""
    ensures OneLine(head + new_ + rest)
  {
    PrefixHasNoSep(head + enc, rest);
    assert forall c :: c in head || c in enc <==> c in head + enc;
    LineEndSkips(head + enc, rest);
    LineEndSkips(head + new_, rest);
  }

  lemma {:induction false} BodyOfConcat(body: string, end: string)
    requires body != "" && body[|body| - 1] != '\n' && forall k :: 0 <= k < |end| ==> end[k] == '\n'
    ensures Body(body + end) == body
  {
    if end == "" {
      assert body + end == body;
    } else {
      assert (body + end)[..|body + end| - 1] == body + end[..|end| - 1];
      BodyOfConcat(body, end[..|end| - 1]);
    }
  }

  lemma {:induction false} SkipSpaceOfConcat(x: string, rest: string)
    requires exists k :: 0 <= k < |x| && !IsSpace(x[k])
    ensures SkipSpace(x) != "" && SkipSpace(x + rest) == SkipSpace(x) + rest
  {
    if IsSpace(x[0]) {
      var k :| 0 <= k < |x| && !IsSpace(x[k]);
      assert x[1..][k - 1] == x[k];
      assert (x + rest)[1..] == x[1..] + rest;
      SkipSpaceOfConcat(x[1..], rest);
    }
  }

  lemma SameCommentness(head: string, a: string, b: string)
    requires |MARK| <= |head| && MarkAt(head, |head| - |MARK|)
    ensures IsCommentLine(head + a) <==> IsCommentLine(head + b)
  {
    var i := |head| - |MARK|;
    assert head[i] == MARK[0] by { assert head[i..i + |MARK|][0] == head[i]; }
    SkipSpaceOfConcat(head, a);
    SkipSpaceOfConcat(head, b);
    assert (SkipSpace(head) + a)[..1] == SkipSpace(head)[..1] == (SkipSpace(head) + b)[..1];
  }

  lemma PartsAssoc(p: Parts, enc: string)
    ensures p.head + enc + "\"" + p.tail == p.head + (enc + "\"" + p.tail)
  {
  }

  lemma SplitHead(line: string, p: Parts)
    requires IsSplit(line, p)
    ensures HeadOk(p.head)
  {
    PartsAssoc(p, p.enc);
    forall i | 0 <= i <= |p.head| - |MARK| ensures MarkAt(line, i) <==> MarkAt(p.head, i) {
      MarkWithin(p.head, p.enc + "\"" + p.tail, i);
    }
  }

  /** The body of a rewritten line splits into the same head and tail, around the new command. */
  lemma RewrittenSplits(body: string, p: Parts, want: string)
    requires PartsOf(body) == Some(p) && IsSplit(body, p) && '\\' !in want
    ensures PartsOf(p.head + Encode(want) + "\"" + p.tail) == Some(Parts(p.head, Encode(want), p.tail))
  {
    var q := Parts(p.head, Encode(want), p.tail);
    var body' := p.head + Encode(want) + "\"" + p.tail;
    SplitHead(body, p);
    SplitFindsEncodedIff(p.head, want, p.tail);
    assert want != "" ==> want[|want| - 1] in want;
    PartsAssoc(p, p.enc);
    PartsAssoc(p, Encode(want));
    SameCommentness(p.head, p.enc + "\"" + p.tail, Encode(want) + "\"" + p.tail);
    SplitMatches(body', Some(q));
  }

  /** A planned line plans to itself. */
  lemma PlanLineTwice(line: string, render: string -> Option<string>)
    requires Settled(render)
    ensures PlanLine(PlanLine(line, render), render) == PlanLine(line, render)
  {
    if PlanLine(line, render) != line {
      var p, want := ChangedLine(line, render);
      var body := Body(line);
      BodyIsPrefix(line);
      var body' := p.head + Encode(want) + "\"" + p.tail;
      assert body'[|body'| - 1] == body[|body| - 1];
      BodyOfConcat(body', line[|body|..]);
      RewrittenSplits(body, p, want);
      DecodeInvertsEncodeIff(want);
    }
  }

  lemma AssembledIsOneLine(p: Parts, want: string, end: string)
    requires OneLine(Assembled(p, p.enc, end)) && NoSep(want) && p.head != ""
    ensures var old_, new_ := Assembled(p, p.enc, end), Assembled(p, Encode(want), end);
      OneLine(new_) && new_[0] == old_[0] && new_[|new_| - 1] == old_[|old_| - 1]
  {
    var rest := "\"" + p.tail + end;
    var old_, new_ := Assembled(p, p.enc, end), Assembled(p, Encode(want), end);
    assert old_ == p.head + p.enc + rest && new_ == p.head + Encode(want) + rest;
    EncodeNoSep(want);
    RewrittenIsOneLine(p.head, p.enc, Encode(want), rest);
    assert new_[|new_| - 1] == rest[|rest| - 1] == old_[|old_| - 1];
  }

  /** A planned line is still one line, and begins and ends as before. */
  lemma PlanLineIsOneLine(line: string, render: string -> Option<string>)
    requires Settled(render) && OneLine(line)
    ensures var out := PlanLine(line, render);
      OneLine(out) && out[0] == line[0] && out[|out| - 1] == line[|line| - 1]
  {
    if PlanLine(line, render) != line {
      var p, want := ChangedLine(line, render);
      AssembledIsOneLine(p, want, line[|Body(line)|..]);
    }
  }

  /** Planning would change none of the lines. */
  ghost predicate AllPlanned(ls: seq<string>, render: string -> Option<string>) {
    ls != [] ==> PlanLine(ls[0], render) == ls[0] && AllPlanned(ls[1..], render)
  }

  lemma {:induction false} NoChanges(ls: seq<string>, render: string -> Option<string>)
    requires AllPlanned(ls, render)
    ensures Changes(ls, render) == 0 && PlanLines(ls, render) == ls
  {
    if ls != [] { NoChanges(ls[1..], render); }
  }

  lemma {:induction false} PlannedIsPlanned(ls: seq<string>, render: string -> Option<string>)
    requires Settled(render)
    ensures AllPlanned(PlanLines(ls, render), render)
  {
    if ls != [] {
      PlannedIsPlanned(ls[1..], render);
      PlanLineTwice(ls[0], render);
      Seqs.FirstOfConcat([PlanLine(ls[0], render)], PlanLines(ls[1..], render));
      Seqs.Nothing(PlanLines(ls[1..], render));
    }
  }

  lemma PlannedAreApart(line: string, next: string, render: string -> Option<string>)
    requires Settled(render) && OneLine(line) && OneLine(next) && Apart(line, next)
    ensures Apart(PlanLine(line, render), PlanLine(next, render))
  {
    PlanLineIsOneLine(line, render);
    PlanLineIsOneLine(next, render);
  }

  lemma OneMoreLine(l: string, ls: seq<string>)
    requires OneLine(l) && AreLines(ls) && (ls != [] ==> Apart(l, ls[0]))
    ensures AreLines([l] + ls)
  {
    Seqs.FirstOfConcat([l], ls);
    Seqs.Nothing(ls);
  }

  /** The planned lines are what the planned text splits into. */
  lemma {:induction false} PlannedAreLines(ls: seq<string>, render: string -> Option<string>)
    requires Settled(render) && AreLines(ls)
    ensures AreLines(PlanLines(ls, render))
  {
    if ls != [] {
      PlannedAreLines(ls[1..], render);
      PlanLineIsOneLine(ls[0], render);
      if |ls| > 1 {
        PlannedAreApart(ls[0], ls[1], render);
      }
      OneMoreLine(PlanLine(ls[0], render), PlanLines(ls[1..], render));
    }
  }

  /** A second plan of the planned text changes nothing. */
  lemma PlanIsIdempotent(text: string, render: string -> Option<string>)
    requires Settled(render)
    ensures var once := Join(PlanLines(SplitLines(text), render));
      && SplitLines(once) == PlanLines(SplitLines(text), render)
      && Changes(SplitLines(once), render) == 0
      && Join(PlanLines(SplitLines(once), render)) == once
  {
    var ls := SplitLines(text);
    var out := PlanLines(ls, render);
    SplitThenJoin(text);
    PlannedAreLines(ls, render);
    JoinThenSplit(out);
    PlannedIsPlanned(ls, render);
    NoChanges(out, render);
  }

  /** A plan that counts no change leaves the text as it was. */
  lemma {:induction false} NoChangeIsNoChange(ls: seq<string>, render: string -> Option<string>)
    ensures Changes(ls, render) == 0 <==> PlanLines(ls, render) == ls
  {
    if ls != [] {
      NoChangeIsNoChange(ls[1..], render);
      assert PlanLines(ls, render)[1..] == PlanLines(ls[1..], render);
    }
  }

  // ---------------------------------------------------------------------------
  // exactly which lines change
  // ---------------------------------------------------------------------------

  /** A comment line: white space, then `#`. */
  lemma CommentIs(body: string)
    ensures IsCommentLine(body) <==> exists x, rest :: Comment(body, x, rest)
  {
    OrdinaryCharacters('#');
    if x, rest :| Comment(body, x, rest) {
      SkipBlank(x, "#" + rest);
      Seqs.HeadOfConcat("#", rest);
    } else if IsCommentLine(body) {
      var x, u := SkipSpaceIs(body);
      Seqs.TakeDrop(u, 1);
      assert Comment(body, x, u[1..]);
    }
  }

  ghost predicate Comment(body: string, x: string, rest: string) {
    Blank(x) && body == x + ("#" + rest)
  }

  /** A line changes exactly if it is no comment, a command can be cut out of it, and the renderer wants that
      command, decoded, to be another one. */
  lemma LineChangesIff(line: string, render: string -> Option<string>)
    ensures PlanLine(line, render) != line <==>
      (forall x, rest :: !Comment(Body(line), x, rest)) && exists p :: IsSplit(Body(line), p) && Wanted(p, render)
  {
    var body := Body(line);
    CommentIs(body);
    BodyIsPrefix(line);
    forall p | IsSplit(body, p) ensures !IsCommentLine(body) ==> PartsOf(body) == Some(p) {
      if !IsCommentLine(body) {
        SplitIsUnique(body, p, PartsOf(body).value);
      }
    }
    if PartsOf(body).Some? && Wanted(PartsOf(body).value, render) {
      var p := PartsOf(body).value;
      AssembledDiffers(p, Encode(render(Decode(p.enc)).value), line[|body|..]);
      assert line == Assembled(p, p.enc, line[|body|..]);
    }
  }

  /** The renderer knows the command and spells it otherwise. */
  predicate Wanted(p: Parts, render: string -> Option<string>) {
    var want := render(Decode(p.enc));
    want.Some? && Encode(want.value) != p.enc
  }
}
