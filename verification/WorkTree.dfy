/** Committed trees, the files of a checkout, and the move from one tree to another
    (`colliding_paths` of cli_checkout_freshness.py). */
module WorkTree {
  import opened Options

  /** A path is its components, `a/b` is `["a", "b"]`. */
  type Path = seq<string>

  /** The content and mode of a committed file; a symbolic link is a blob too. */
  type Blob = string

  type Tree = map<Path, Blob>

  /** What the file system holds at a path, links not followed. */
  datatype Node = Dir | Leaf(blob: Blob)

  /** `nodes` is what lies inside the checkout. `beyond` is what a path that passes through a symbolic link
      resolves to, somewhere else. */
  datatype Files = Files(nodes: map<Path, Node>, beyond: map<Path, Node>)

  predicate Above(a: Path, b: Path) { [] < a < b }

  /** No file of a tree is a directory of it. */
  predicate ValidTree(t: Tree) {
    [] !in t && forall p, q :: p in t && q in t ==> !Above(p, q)
  }

  /** Every parent of an entry is a directory. */
  ghost predicate Closed(nodes: map<Path, Node>) {
    [] !in nodes && forall q, r :: r in nodes && Above(q, r) ==> q in nodes && nodes[q] == Dir
  }

  /** Every tracked file is there as committed. */
  predicate Clean(nodes: map<Path, Node>, t: Tree) {
    forall p :: p in t ==> p in nodes && nodes[p] == Leaf(t[p])
  }

  /** The files and links of a checkout, tracked or not. */
  function Leaves(nodes: map<Path, Node>): map<Path, Blob> {
    map q | q in nodes && nodes[q].Leaf? :: nodes[q].blob
  }

  // ---------------------------------------------------------------------------
  // moving from one tree to another
  // ---------------------------------------------------------------------------

  function Gone(from: Tree, to: Tree): set<Path> { from.Keys - to.Keys }

  function Added(from: Tree, to: Tree): set<Path> { to.Keys - from.Keys }

  /** The paths whose file has to be written. */
  function Touched(from: Tree, to: Tree): set<Path> {
    set p | p in to && (p !in from || from[p] != to[p])
  }

  predicate Covers(p: Path, q: Path, node: Node) { p <= q || (Above(q, p) && node.Leaf?) }

  predicate InTheWay(written: set<Path>, q: Path, node: Node) {
    exists p :: p in written && Covers(p, q, node)
  }

  function Parents(written: set<Path>): set<Path> {
    set p, i | p in written && 0 < i < |p| :: p[..i]
  }

  /** Check out `to` over `from`: delete, clear whatever is in the way of a file to be written, create its
      directories, write it. This is the worst a checkout can do; git itself refuses some of it. */
  function Moved(nodes: map<Path, Node>, from: Tree, to: Tree): map<Path, Node> {
    var written := Touched(from, to);
    var left := map q | q in nodes && q !in Gone(from, to) && !InTheWay(written, q, nodes[q]) :: nodes[q];
    left + (map q | q in Parents(written) :: Dir) + (map p | p in written :: Leaf(to[p]))
  }

  /** Nothing that is not tracked lies where an added file goes: neither at its path nor at a parent. */
  ghost predicate Free(nodes: map<Path, Node>, from: Tree, to: Tree) {
    forall p :: p in Added(from, to) ==>
      && p !in nodes
      && forall q :: Above(q, p) && q in nodes && q !in Gone(from, to) ==> nodes[q] == Dir
  }

  lemma ParentsAreAbove(written: set<Path>)
    ensures forall q :: q in Parents(written) <==> exists p :: p in written && Above(q, p)
  {
    forall q ensures q in Parents(written) <==> exists p :: p in written && Above(q, p) {
      if p, i :| p in written && 0 < i < |p| && p[..i] == q {
        assert Above(q, p);
      }
      if p :| p in written && Above(q, p) {
        assert q == p[..|q|];
      }
    }
  }

  lemma PrefixCases(p: Path, q: Path)
    ensures p <= q <==> p == [] || p == q || Above(p, q)
  {
    if p <= q && |p| == |q| {
      assert p == q;
    }
  }

  lemma AboveIsPrefix(q: Path, p: Path)
    ensures Above(q, p) <==> 0 < |q| < |p| && q == p[..|q|]
  {
  }

  /** A file that is not tracked stands in nobody's way. */
  lemma UntrackedIsNotInTheWay(nodes: map<Path, Node>, from: Tree, to: Tree, q: Path)
    requires ValidTree(from) && ValidTree(to) && Closed(nodes) && Clean(nodes, from) && Free(nodes, from, to)
    requires q in nodes && nodes[q].Leaf? && q !in from
    ensures !InTheWay(Touched(from, to), q, nodes[q])
    ensures q !in Parents(Touched(from, to)) && q !in to
  {
    var written := Touched(from, to);
    ParentsAreAbove(written);
    assert q !in Added(from, to);
    forall p | p in written ensures !Covers(p, q, nodes[q]) && !Above(q, p) {
      assert p in nodes || p in Added(from, to);
      PrefixCases(p, q);
    }
  }

  /** A tracked file the move does not touch stands in nobody's way. */
  lemma UntouchedIsNotInTheWay(nodes: map<Path, Node>, from: Tree, to: Tree, q: Path)
    requires ValidTree(from) && ValidTree(to)
    requires q in nodes && q in from && q in to && from[q] == to[q]
    ensures !InTheWay(Touched(from, to), q, nodes[q])
    ensures q !in Parents(Touched(from, to))
  {
    var written := Touched(from, to);
    ParentsAreAbove(written);
    forall p | p in written ensures !Covers(p, q, nodes[q]) && !Above(q, p) {
      PrefixCases(p, q);
    }
  }

  /** What lies at a path after the move. */
  lemma MovedAt(nodes: map<Path, Node>, from: Tree, to: Tree, q: Path)
    ensures var after, written := Moved(nodes, from, to), Touched(from, to);
      if q in written then q in after && after[q] == Leaf(to[q])
      else if q in Parents(written) then q in after && after[q] == Dir
      else if q in nodes && q !in Gone(from, to) && !InTheWay(written, q, nodes[q])
      then q in after && after[q] == nodes[q]
      else q !in after
  {
  }

  lemma LeafAfterMove(nodes: map<Path, Node>, from: Tree, to: Tree, q: Path)
    requires ValidTree(from) && ValidTree(to) && Closed(nodes) && Clean(nodes, from) && Free(nodes, from, to)
    ensures var after := Moved(nodes, from, to);
      if q in to then q in after && after[q] == Leaf(to[q])
      else if q in nodes && nodes[q].Leaf? && q !in from then q in after && after[q] == nodes[q]
      else q in after ==> after[q] == Dir
  {
    MovedAt(nodes, from, to, q);
    if q in to {
      if q !in Touched(from, to) { UntouchedIsNotInTheWay(nodes, from, to, q); }
    } else if q in nodes && nodes[q].Leaf? && q !in from {
      UntrackedIsNotInTheWay(nodes, from, to, q);
    }
  }

  /** Conservation: after the move the checkout holds exactly the files of the new tree and every file and
      link that was not tracked, each unchanged. */
  lemma MoveKeepsLocalFiles(nodes: map<Path, Node>, from: Tree, to: Tree)
    requires ValidTree(from) && ValidTree(to) && Closed(nodes) && Clean(nodes, from) && Free(nodes, from, to)
    ensures Leaves(Moved(nodes, from, to)) == (Leaves(nodes) - from.Keys) + to
    ensures Clean(Moved(nodes, from, to), to)
  {
    var after := Moved(nodes, from, to);
    var expected := (Leaves(nodes) - from.Keys) + to;
    forall q ensures q in Leaves(after) <==> q in expected
             ensures q in expected ==> Leaves(after)[q] == expected[q]
             ensures q in to ==> q in after && after[q] == Leaf(to[q])
    {
      LeafAfterMove(nodes, from, to, q);
    }
  }

  /** The move leaves a proper file system: every parent is a directory. */
  lemma MoveKeepsClosed(nodes: map<Path, Node>, from: Tree, to: Tree)
    requires ValidTree(from) && ValidTree(to) && Closed(nodes) && Clean(nodes, from)
    ensures Closed(Moved(nodes, from, to))
  {
    var after := Moved(nodes, from, to);
    var written := Touched(from, to);
    ParentsAreAbove(written);
    forall q, r | r in after && Above(q, r) ensures q in after && after[q] == Dir {
      if r in written {
      } else if r in Parents(written) {
        var p :| p in written && Above(r, p);
        assert Above(q, p);
      } else {
        UntouchedBelow(nodes, written, q, r);
      }
    }
  }

  /** What is written covers nothing above a path that it does not cover. */
  lemma UntouchedBelow(nodes: map<Path, Node>, written: set<Path>, q: Path, r: Path)
    requires Closed(nodes) && r in nodes && Above(q, r)
    requires forall p :: p in written ==> !Covers(p, r, nodes[r])
    ensures q in nodes && nodes[q] == Dir
    ensures forall p :: p in written ==> !Covers(p, q, nodes[q])
  {
    forall p | p in written ensures !Covers(p, q, nodes[q]) {
      assert !Covers(p, r, nodes[r]);
    }
  }

  /** Without the guard the move does lose a file: an ignored file where the new tree adds one. */
  lemma UnguardedMoveLosesAFile(p: Path, mine: Blob, theirs: Blob)
    requires |p| == 1 && mine != theirs
    ensures var nodes := map[p := Leaf(mine)];
      && Closed(nodes) && Clean(nodes, map[]) && ValidTree(map[p := theirs])
      && Leaves(Moved(nodes, map[], map[p := theirs])) == map[p := theirs]
  {
    var nodes, to := map[p := Leaf(mine)], map[p := theirs];
    assert Touched(map[], to) == {p};
    assert Parents({p}) == {};
    var after := Moved(nodes, map[], to);
    assert after.Keys == {p};
    assert Leaves(after).Keys == {p};
  }

  // ---------------------------------------------------------------------------
  // colliding_paths
  // ---------------------------------------------------------------------------

  function Seen(files: Files, p: Path): Option<Node> {
    if p in files.nodes then Some(files.nodes[p])
    else if p in files.beyond then Some(files.beyond[p])
    else None
  }

  /** `parent` exists, is no directory, and is not deleted by the move. */
  predicate Blocks(files: Files, gone: set<Path>, parent: Path) {
    parent !in gone && Seen(files, parent).Some? && Seen(files, parent).value != Dir
  }

  /** The one path an added path collides with: itself, or the outermost parent that blocks it. */
  ghost predicate CollidesAt(files: Files, gone: set<Path>, p: Path, hit: Path) {
    if Seen(files, p).Some? then hit == p
    else
      && Above(hit, p) && Blocks(files, gone, hit)
      && forall i :: 0 < i < |hit| ==> !Blocks(files, gone, p[..i])
  }

  ghost predicate Hit(files: Files, added: seq<Path>, gone: set<Path>, h: Path) {
    exists p :: p in added && CollidesAt(files, gone, p, h)
  }

  lemma HitStep(files: Files, added: seq<Path>, gone: set<Path>, p: Path, h: Path)
    ensures Hit(files, added + [p], gone, h) <==> Hit(files, added, gone, h) || CollidesAt(files, gone, p, h)
  {
    assert p in added + [p];
    if q :| q in added && CollidesAt(files, gone, q, h) {
      assert q in added + [p];
    }
  }

  /** `added` and `gone` are the two listings of the diff from HEAD, `None` when git could not make one; the
      result is `None` for the entry that stands for an unmeasurable diff. */
  method CollidingPaths(files: Files, added: Option<seq<Path>>, gone: Option<set<Path>>)
    returns (hits: Option<set<Path>>)
    ensures hits == None <==> added == None || gone == None
    ensures hits.Some? ==> forall h :: h in hits.value <==> Hit(files, added.value, gone.value, h)
  {
    if added == None || gone == None {
      return None;
    }
    var found: set<Path> := {};
    for k := 0 to |added.value|
      invariant forall h :: h in found <==> Hit(files, added.value[..k], gone.value, h)
    {
      var p := added.value[k];
      var here := CollisionOf(files, gone.value, p);
      assert added.value[..k + 1] == added.value[..k] + [p];
      forall h {
        HitStep(files, added.value[..k], gone.value, p, h);
      }
      if here.Some? {
        found := found + {here.value};
      }
    }
    assert added.value[..|added.value|] == added.value;
    return Some(found);
  }

  /** The body of the loop of `colliding_paths` for one added path. */
  method CollisionOf(files: Files, gone: set<Path>, p: Path) returns (hit: Option<Path>)
    ensures forall h :: CollidesAt(files, gone, p, h) <==> hit == Some(h)
  {
    if Seen(files, p).Some? {
      return Some(p);
    }
    var i := 1;
    while i < |p|
      invariant 1 <= i
      invariant forall j :: 0 < j < i && j < |p| ==> !Blocks(files, gone, p[..j])
    {
      if Blocks(files, gone, p[..i]) {
        OutermostIsUnique(files, gone, p, i);
        return Some(p[..i]);
      }
      i := i + 1;
    }
    NothingBlocks(files, gone, p);
    return None;
  }

  lemma OutermostIsUnique(files: Files, gone: set<Path>, p: Path, i: nat)
    requires Seen(files, p) == None && 0 < i < |p| && Blocks(files, gone, p[..i])
    requires forall j :: 0 < j < i ==> !Blocks(files, gone, p[..j])
    ensures forall h :: CollidesAt(files, gone, p, h) <==> h == p[..i]
  {
    forall h ensures CollidesAt(files, gone, p, h) <==> h == p[..i] {
      if CollidesAt(files, gone, p, h) {
        assert h == p[..|h|];
      }
    }
  }

  lemma NothingBlocks(files: Files, gone: set<Path>, p: Path)
    requires Seen(files, p) == None
    requires forall j :: 0 < j < |p| ==> !Blocks(files, gone, p[..j])
    ensures forall h :: !CollidesAt(files, gone, p, h)
  {
    forall h ensures !CollidesAt(files, gone, p, h) {
      AboveIsPrefix(h, p);
    }
  }

  predicate NoHit(files: Files, added: set<Path>, gone: set<Path>) {
    forall p :: p in added ==> Seen(files, p) == None && forall i :: 0 < i < |p| ==> !Blocks(files, gone, p[..i])
  }

  /** An empty list of collisions means that no added path meets anything that exists. */
  lemma NoCollisionIff(files: Files, added: seq<Path>, gone: set<Path>, hits: set<Path>)
    requires forall h :: h in hits <==> Hit(files, added, gone, h)
    ensures hits == {} <==> NoHit(files, (set p | p in added), gone)
  {
    if NoHit(files, (set p | p in added), gone) {
      forall h ensures h !in hits {
        if p :| p in added && CollidesAt(files, gone, p, h) {
          assert p in (set p | p in added);
          NothingBlocks(files, gone, p);
        }
      }
    }
    forall p, h | p in added && CollidesAt(files, gone, p, h) ensures h in hits {
    }
    if hits == {} {
      forall p | p in added ensures Seen(files, p) == None && forall i :: 0 < i < |p| ==> !Blocks(files, gone, p[..i]) {
        if Seen(files, p).Some? {
          assert CollidesAt(files, gone, p, p);
        } else {
          forall i | 0 < i < |p| ensures !Blocks(files, gone, p[..i]) {
            if Blocks(files, gone, p[..i]) {
              var j := Outermost(files, gone, p, i);
            }
          }
        }
      }
    }
  }

  lemma {:induction false} Outermost(files: Files, gone: set<Path>, p: Path, i: nat) returns (j: nat)
    requires Seen(files, p) == None && 0 < i < |p| && Blocks(files, gone, p[..i])
    ensures 0 < j <= i && Blocks(files, gone, p[..j]) && CollidesAt(files, gone, p, p[..j])
  {
    if k :| 0 < k < i && Blocks(files, gone, p[..k]) {
      j := Outermost(files, gone, p, k);
    } else {
      j := i;
      assert forall n :: 0 < n < |p[..i]| ==> p[..i][..n] == p[..n];
    }
  }

  /** So an empty list of collisions leaves the way free. */
  lemma NoCollisionIsFree(files: Files, from: Tree, to: Tree)
    requires NoHit(files, Added(from, to), Gone(from, to))
    ensures Free(files.nodes, from, to)
  {
    forall p | p in Added(from, to)
      ensures p !in files.nodes
      ensures forall q :: Above(q, p) && q in files.nodes && q !in Gone(from, to) ==> files.nodes[q] == Dir
    {
      forall q | Above(q, p) && q in files.nodes && q !in Gone(from, to) ensures files.nodes[q] == Dir {
        assert q == p[..|q|];
        assert !Blocks(files, Gone(from, to), p[..|q|]);
      }
    }
  }

  /** What lies at a path inside the checkout or, failing that, behind a link, is a directory or nothing. */
  predicate Passable(files: Files, q: Path) {
    if q in files.nodes then files.nodes[q] == Dir else q in files.beyond ==> files.beyond[q] == Dir
  }

  /** On every file system: no collision exactly if nothing exists at an added path, inside or behind a link,
      and whatever exists at a parent is a directory or is deleted by the move. */
  lemma NoHitIff(files: Files, added: set<Path>, gone: set<Path>)
    ensures NoHit(files, added, gone) <==>
      forall p :: p in added ==>
        && p !in files.nodes && p !in files.beyond
        && forall q :: Above(q, p) && q !in gone ==> Passable(files, q)
  {
    if NoHit(files, added, gone) {
      forall p, q | p in added && Above(q, p) && q !in gone ensures Passable(files, q) {
        AboveIsPrefix(q, p);
        assert !Blocks(files, gone, p[..|q|]);
      }
    }
    if forall p :: p in added ==>
        && p !in files.nodes && p !in files.beyond
        && forall q :: Above(q, p) && q !in gone ==> Passable(files, q)
    {
      forall p, i | p in added && 0 < i < |p| ensures !Blocks(files, gone, p[..i]) {
        AboveIsPrefix(p[..i], p);
        assert p[..i] !in gone ==> Passable(files, p[..i]);
      }
    }
  }

  /** No added path passes through a symbolic link. */
  ghost predicate StaysInside(files: Files, added: set<Path>) {
    forall p, q :: p in added && q <= p ==> q !in files.beyond
  }

  /** There an empty list of collisions says neither more nor less than that the way is free. */
  lemma NoCollisionIffFree(files: Files, from: Tree, to: Tree)
    requires StaysInside(files, Added(from, to))
    ensures NoHit(files, Added(from, to), Gone(from, to)) <==> Free(files.nodes, from, to)
  {
    NoHitIff(files, Added(from, to), Gone(from, to));
  }

  /** And a collision is real: a file, link or directory that is not tracked lies at a path the new tree adds,
      or a file or link that is not tracked where it needs a directory. */
  lemma CollisionIsLocal(files: Files, from: Tree, to: Tree) returns (q: Path)
    requires ValidTree(to) && StaysInside(files, Added(from, to))
    requires !NoHit(files, Added(from, to), Gone(from, to))
    ensures q in files.nodes && q !in from
    ensures q in to || (files.nodes[q].Leaf? && exists p :: p in to && p !in from && Above(q, p))
  {
    NoCollisionIffFree(files, from, to);
    var p :| p in Added(from, to) && (p in files.nodes ||
      exists q :: Above(q, p) && q in files.nodes && q !in Gone(from, to) && files.nodes[q] != Dir);
    if p in files.nodes {
      q := p;
    } else {
      q :| Above(q, p) && q in files.nodes && q !in Gone(from, to) && files.nodes[q] != Dir;
      assert q !in to;
    }
  }
}
