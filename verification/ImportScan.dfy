/** The depth-limited scan of `@` imports with one shared visited set (cli_context_baseline.py:31, 57-100). */
module ImportScan {
  import Seqs

  type Path = string

  /** A file that exists: whether it can be read, the size that is counted for it, and the paths its import
      lines resolve to, in order. */
  datatype Info = Info(readable: bool, size: nat, imports: seq<Path>)

  type Files = map<Path, Info>

  const MAX_DEPTH := 5

  predicate Readable(fs: Files, p: Path) { p in fs && fs[p].readable }

  predicate Link(fs: Files, a: Path, b: Path) { Readable(fs, a) && b in fs[a].imports }

  // ---------------------------------------------------------------------------
  // the scan as a function
  // ---------------------------------------------------------------------------

  /** The visited set afterwards, the byte counts, and the missing paths in the order they were met. */
  datatype Found = Found(visited: set<Path>, counted: map<Path, nat>, missing: seq<Path>)

  function Visit(fs: Files, fp: Path, depth: nat, visited: set<Path>): Found
    requires depth <= MAX_DEPTH + 1
    decreases MAX_DEPTH + 1 - depth, 0
  {
    if fp in visited || depth > MAX_DEPTH then Found(visited, map[], [])
    else if !Readable(fs, fp) then Found(visited + {fp}, map[], [fp])
    else
      var below := VisitAll(fs, fs[fp].imports, depth + 1, visited + {fp});
      Found(below.visited, map[fp := fs[fp].size] + below.counted, below.missing)
  }

  function VisitAll(fs: Files, imports: seq<Path>, depth: nat, visited: set<Path>): Found
    requires depth <= MAX_DEPTH + 1
    decreases MAX_DEPTH + 1 - depth, |imports|
  {
    if imports == [] then Found(visited, map[], [])
    else
      var first := Visit(fs, imports[0], depth, visited);
      var rest := VisitAll(fs, imports[1..], depth, first.visited);
      Found(rest.visited, first.counted + rest.counted, first.missing + rest.missing)
  }

  /** `resolve_imports_recursive`: a recursive method on one shared, growing `visited`. */
  class Scanner {
    const fs: Files
    var visited: set<Path>

    constructor (files: Files)
      ensures fs == files && visited == {}
    {
      fs, visited := files, {};
    }

    method Resolve(fp: Path, depth: nat) returns (result: map<Path, nat>, missing: seq<Path>)
      requires depth <= MAX_DEPTH + 1
      modifies this
      ensures Found(visited, result, missing) == Visit(fs, fp, depth, old(visited))
      decreases MAX_DEPTH + 1 - depth
    {
      result, missing := map[], [];
      if fp in visited || depth > MAX_DEPTH {
        return;
      }
      visited := visited + {fp};
      if fp !in fs {
        missing := missing + [fp];
        return;
      }
      if !fs[fp].readable {
        missing := missing + [fp];
        return;
      }
      result := result[fp := fs[fp].size];
      var imports := fs[fp].imports;
      ghost var below := VisitAll(fs, imports, depth + 1, visited);
      ghost var counted, listed := map[], [];
      for k := 0 to |imports|
        invariant Continues(fs, imports[k..], depth + 1, visited, counted, listed, below)
        invariant result == map[fp := fs[fp].size] + counted && missing == listed
      {
        assert imports[k..][1..] == imports[k + 1..];
        ghost var before := visited;
        var subResult, subMissing := Resolve(imports[k], depth + 1);
        ContinuesStep(fs, imports[k..], depth + 1, before, counted, listed, below);
        MapAssoc(map[fp := fs[fp].size], counted, subResult);
        counted, listed := counted + subResult, listed + subMissing;
        result := result + subResult;
        missing := missing + subMissing;
      }
      assert counted + map[] == counted && listed + [] == listed;
    }
  }

  /** What is gathered so far and what the remaining imports yield make up the whole. */
  ghost predicate Continues(fs: Files, imports: seq<Path>, depth: nat, visited: set<Path>,
                            counted: map<Path, nat>, listed: seq<Path>, whole: Found)
    requires depth <= MAX_DEPTH + 1
  {
    var rest := VisitAll(fs, imports, depth, visited);
    whole == Found(rest.visited, counted + rest.counted, listed + rest.missing)
  }

  lemma ContinuesStep(fs: Files, imports: seq<Path>, depth: nat, visited: set<Path>,
                      counted: map<Path, nat>, listed: seq<Path>, whole: Found)
    requires depth <= MAX_DEPTH + 1 && imports != [] && Continues(fs, imports, depth, visited, counted, listed, whole)
    ensures var first := Visit(fs, imports[0], depth, visited);
      Continues(fs, imports[1..], depth, first.visited, counted + first.counted, listed + first.missing, whole)
  {
    var first := Visit(fs, imports[0], depth, visited);
    var rest := VisitAll(fs, imports[1..], depth, first.visited);
    MapAssoc(counted, first.counted, rest.counted);
    assert listed + (first.missing + rest.missing) == (listed + first.missing) + rest.missing;
  }

  lemma MapAssoc(a: map<Path, nat>, b: map<Path, nat>, c: map<Path, nat>)
    ensures (a + b) + c == a + (b + c)
  {
  }

  // ---------------------------------------------------------------------------
  // each path once
  // ---------------------------------------------------------------------------

  ghost predicate Distinct(s: seq<Path>) { forall i, j :: 0 <= i < j < |s| ==> s[i] != s[j] }

  /** What is newly visited falls apart into the counted files, each with its own size, and the missing paths,
      each listed once. */
  ghost predicate Partition(fs: Files, before: set<Path>, r: Found) {
    && before <= r.visited
    && r.counted.Keys !! before
    && Distinct(r.missing)
    && (forall p :: p in r.missing ==> p !in before && p !in r.counted && !Readable(fs, p))
    && (forall p :: p in r.counted ==> Readable(fs, p) && r.counted[p] == fs[p].size)
    && (forall p :: p in r.visited <==> p in before || p in r.counted || p in r.missing)
  }

  lemma {:induction false} VisitPartitions(fs: Files, fp: Path, depth: nat, visited: set<Path>)
    requires depth <= MAX_DEPTH + 1
    ensures Partition(fs, visited, Visit(fs, fp, depth, visited))
    decreases MAX_DEPTH + 1 - depth, 0
  {
    if fp !in visited && depth <= MAX_DEPTH && Readable(fs, fp) {
      VisitAllPartitions(fs, fs[fp].imports, depth + 1, visited + {fp});
    }
  }

  lemma {:induction false} VisitAllPartitions(fs: Files, imports: seq<Path>, depth: nat, visited: set<Path>)
    requires depth <= MAX_DEPTH + 1
    ensures Partition(fs, visited, VisitAll(fs, imports, depth, visited))
    decreases MAX_DEPTH + 1 - depth, |imports|
  {
    if imports != [] {
      var first := Visit(fs, imports[0], depth, visited);
      VisitPartitions(fs, imports[0], depth, visited);
      VisitAllPartitions(fs, imports[1..], depth, first.visited);
      DistinctConcat(first.missing, VisitAll(fs, imports[1..], depth, first.visited).missing);
    }
  }

  lemma DistinctConcat(a: seq<Path>, b: seq<Path>)
    requires Distinct(a) && Distinct(b) && forall p :: p in a ==> p !in b
    ensures Distinct(a + b)
  {
    forall i, j | 0 <= i < j < |a + b| ensures (a + b)[i] != (a + b)[j] {
      if i < |a| <= j { assert a[i] in a && b[j - |a|] in b; }
    }
  }

  // ---------------------------------------------------------------------------
  // soundness
  // ---------------------------------------------------------------------------

  /** `b` is reached from `a` by at most `n` import links. */
  ghost predicate Reach(fs: Files, a: Path, b: Path, n: nat)
    decreases n
  {
    a == b || (n > 0 && exists m :: Link(fs, a, m) && Reach(fs, m, b, n - 1))
  }

  lemma {:induction false} VisitIsSound(fs: Files, fp: Path, depth: nat, visited: set<Path>, p: Path)
    requires depth <= MAX_DEPTH + 1 && p in Visit(fs, fp, depth, visited).visited && p !in visited
    ensures depth <= MAX_DEPTH && Reach(fs, fp, p, MAX_DEPTH - depth)
    decreases MAX_DEPTH + 1 - depth, 0
  {
    if p != fp {
      var imp := VisitAllIsSound(fs, fs[fp].imports, depth + 1, visited + {fp}, p);
      assert Link(fs, fp, imp);
    }
  }

  lemma {:induction false} VisitAllIsSound(fs: Files, imports: seq<Path>, depth: nat, visited: set<Path>, p: Path)
    returns (imp: Path)
    requires depth <= MAX_DEPTH + 1 && p in VisitAll(fs, imports, depth, visited).visited && p !in visited
    ensures imp in imports && depth <= MAX_DEPTH && Reach(fs, imp, p, MAX_DEPTH - depth)
    decreases MAX_DEPTH + 1 - depth, |imports|
  {
    var first := Visit(fs, imports[0], depth, visited);
    if p in first.visited {
      VisitIsSound(fs, imports[0], depth, visited, p);
      imp := imports[0];
    } else {
      imp := VisitAllIsSound(fs, imports[1..], depth, first.visited, p);
    }
  }

  /** Every counted file is reached from the root by at most five links and counted with its own size, and
      every missing path is reached likewise and listed once. */
  lemma ScanIsSound(fs: Files, root: Path)
    ensures var r := Visit(fs, root, 0, {});
      && (forall p :: p in r.counted ==> Reach(fs, root, p, 5))
      && (forall p :: p in r.counted ==> p in fs && fs[p].readable && r.counted[p] == fs[p].size)
      && (forall p :: p in r.missing ==> Reach(fs, root, p, 5))
      && (forall p :: p in r.missing ==> p !in fs || !fs[p].readable)
      && Distinct(r.missing)
  {
    var r := Visit(fs, root, 0, {});
    VisitPartitions(fs, root, 0, {});
    forall p | p in r.visited ensures Reach(fs, root, p, MAX_DEPTH) {
      VisitIsSound(fs, root, 0, {}, p);
    }
  }

  /** One scan and then another with what the first has visited. */
  ghost function Both(first: Found, rest: Found): Found {
    Found(rest.visited, first.counted + rest.counted, first.missing + rest.missing)
  }

  lemma BothAssoc(a: Found, b: Found, c: Found)
    ensures Both(a, Both(b, c)) == Both(Both(a, b), c)
  {
    MapAssoc(a.counted, b.counted, c.counted);
    Seqs.Assoc(a.missing, b.missing, c.missing);
  }

  lemma AllOf(fs: Files, imports: seq<Path>, depth: nat, visited: set<Path>)
    requires depth <= MAX_DEPTH + 1 && imports != []
    ensures var first := Visit(fs, imports[0], depth, visited);
      VisitAll(fs, imports, depth, visited) == Both(first, VisitAll(fs, imports[1..], depth, first.visited))
  {
  }

  /** Imports are followed front to back: a list is scanned by scanning its first part and then the rest with
      what the first part has visited, and what is missing is listed in that order. */
  lemma {:induction false} ScannedInOrder(fs: Files, a: seq<Path>, b: seq<Path>, depth: nat, visited: set<Path>)
    requires depth <= MAX_DEPTH + 1
    ensures var first := VisitAll(fs, a, depth, visited);
      VisitAll(fs, a + b, depth, visited) == Both(first, VisitAll(fs, b, depth, first.visited))
  {
    if a == [] {
      NothingFirst(fs, b, depth, visited);
    } else {
      var first := Visit(fs, a[0], depth, visited);
      var middle := VisitAll(fs, a[1..], depth, first.visited);
      Seqs.FirstOfConcat(a, b);
      AllOf(fs, a, depth, visited);
      AllOf(fs, a + b, depth, visited);
      ScannedInOrder(fs, a[1..], b, depth, first.visited);
      BothAssoc(first, middle, VisitAll(fs, b, depth, middle.visited));
    }
  }

  lemma NothingFirst(fs: Files, b: seq<Path>, depth: nat, visited: set<Path>)
    requires depth <= MAX_DEPTH + 1
    ensures var none := VisitAll(fs, [], depth, visited);
      VisitAll(fs, [] + b, depth, visited) == Both(none, VisitAll(fs, b, depth, none.visited))
  {
    var rest := VisitAll(fs, b, depth, visited);
    assert [] + b == b;
    assert map[] + rest.counted == rest.counted;
    assert [] + rest.missing == rest.missing;
  }

  // ---------------------------------------------------------------------------
  // completeness
  // ---------------------------------------------------------------------------

  ghost predicate Chain(fs: Files, c: seq<Path>) {
    c != [] && Distinct(c) && forall i :: 0 <= i < |c| - 1 ==> Link(fs, c[i], c[i + 1])
  }

  /** No import chain from the root without a repeated file has more than five links. */
  ghost predicate Shallow(fs: Files, root: Path) {
    forall c :: Chain(fs, c) && c[0] == root ==> |c| <= MAX_DEPTH + 1
  }

  /** The open calls, root first, when a call for `fp` is made: a chain of visited files. */
  ghost predicate Stack(fs: Files, root: Path, c: seq<Path>, depth: nat, visited: set<Path>) {
    Chain(fs, c) && c[0] == root && |c| == depth && forall x :: x in c ==> x in visited
  }

  /** Everything newly visited has all its imports visited. */
  ghost predicate Finished(fs: Files, before: set<Path>, after: set<Path>) {
    before <= after && forall p, m :: p in after && p !in before && Link(fs, p, m) ==> m in after
  }

  lemma Deeper(fs: Files, root: Path, c: seq<Path>, fp: Path, depth: nat, visited: set<Path>)
    requires fp !in visited
    requires if depth == 0 then fp == root else Stack(fs, root, c, depth, visited) && Link(fs, c[depth - 1], fp)
    ensures var longer := if depth == 0 then [root] else c + [fp];
      Stack(fs, root, longer, depth + 1, visited + {fp}) && longer[depth] == fp
  {
    if depth > 0 {
      var longer := c + [fp];
      assert forall i :: 0 <= i < depth ==> longer[i] == c[i] && c[i] in c;
      assert forall x :: x in longer ==> x in c || x == fp;
    }
  }

  lemma {:induction false} VisitFinishes(fs: Files, root: Path, c: seq<Path>, fp: Path, depth: nat, visited: set<Path>)
    requires Shallow(fs, root) && depth <= MAX_DEPTH + 1
    requires if depth == 0 then fp == root else Stack(fs, root, c, depth, visited) && Link(fs, c[depth - 1], fp)
    ensures var after := Visit(fs, fp, depth, visited).visited;
      Finished(fs, visited, after) && fp in after
    decreases MAX_DEPTH + 1 - depth, 0
  {
    if fp !in visited {
      var longer := if depth == 0 then [root] else c + [fp];
      Deeper(fs, root, c, fp, depth, visited);
      assert |longer| <= MAX_DEPTH + 1;
      if Readable(fs, fp) {
        VisitAllFinishes(fs, root, longer, fs[fp].imports, depth + 1, visited + {fp});
        OneMoreFinished(fs, fp, visited, VisitAll(fs, fs[fp].imports, depth + 1, visited + {fp}).visited);
      }
    }
  }

  lemma OneMoreFinished(fs: Files, fp: Path, visited: set<Path>, after: set<Path>)
    requires Readable(fs, fp) && Finished(fs, visited + {fp}, after) && forall m :: m in fs[fp].imports ==> m in after
    ensures Finished(fs, visited, after) && fp in after
  {
    assert fp in visited + {fp};
  }

  lemma {:induction false} VisitAllFinishes(fs: Files, root: Path, c: seq<Path>, imports: seq<Path>, depth: nat,
                                            visited: set<Path>)
    requires Shallow(fs, root) && 0 < depth <= MAX_DEPTH + 1
    requires Stack(fs, root, c, depth, visited) && forall m :: m in imports ==> Link(fs, c[depth - 1], m)
    ensures var after := VisitAll(fs, imports, depth, visited).visited;
      Finished(fs, visited, after) && forall m :: m in imports ==> m in after
    decreases MAX_DEPTH + 1 - depth, |imports|
  {
    if imports != [] {
      var first := Visit(fs, imports[0], depth, visited).visited;
      assert imports[0] in imports;
      VisitFinishes(fs, root, c, imports[0], depth, visited);
      assert forall m :: m in imports <==> m == imports[0] || m in imports[1..];
      VisitAllFinishes(fs, root, c, imports[1..], depth, first);
    }
  }

  lemma {:induction false} ClosedReaches(fs: Files, all: set<Path>, a: Path, b: Path, n: nat)
    requires Finished(fs, {}, all) && a in all && Reach(fs, a, b, n)
    ensures b in all
    decreases n
  {
    if a != b {
      var m :| Link(fs, a, m) && Reach(fs, m, b, n - 1);
      ClosedReaches(fs, all, m, b, n - 1);
    }
  }

  /** When no repeat-free chain from the root is longer than five links, cyclic or not, the scan counts exactly
      the readable files that any number of links reaches, and lists exactly the others. */
  lemma ScanIsComplete(fs: Files, root: Path)
    requires Shallow(fs, root)
    ensures var r := Visit(fs, root, 0, {});
      forall p :: (exists n: nat :: Reach(fs, root, p, n)) ==> (
        if Readable(fs, p) then p in r.counted else p in r.missing)
  {
    var r := Visit(fs, root, 0, {});
    VisitPartitions(fs, root, 0, {});
    VisitFinishes(fs, root, [], root, 0, {});
    forall p | exists n: nat :: Reach(fs, root, p, n) ensures p in r.visited {
      var n: nat :| Reach(fs, root, p, n);
      ClosedReaches(fs, r.visited, root, p, n);
    }
  }

  // ---------------------------------------------------------------------------
  // exactly what is missed
  // ---------------------------------------------------------------------------

  /** The readable files that are first met at the last depth: their imports are cut off. */
  function Edge(fs: Files, fp: Path, depth: nat, visited: set<Path>): set<Path>
    requires depth <= MAX_DEPTH + 1
    decreases MAX_DEPTH + 1 - depth, 0
  {
    if fp in visited || depth > MAX_DEPTH || !Readable(fs, fp) then {}
    else if depth == MAX_DEPTH then {fp}
    else EdgeOfAll(fs, fs[fp].imports, depth + 1, visited + {fp})
  }

  function EdgeOfAll(fs: Files, imports: seq<Path>, depth: nat, visited: set<Path>): set<Path>
    requires depth <= MAX_DEPTH + 1
    decreases MAX_DEPTH + 1 - depth, |imports|
  {
    if imports == [] then {}
    else
      Edge(fs, imports[0], depth, visited)
      + EdgeOfAll(fs, imports[1..], depth, Visit(fs, imports[0], depth, visited).visited)
  }

  /** Everything newly visited has all its imports visited, unless it is one of `edge`, which are visited. */
  ghost predicate FinishedBut(fs: Files, before: set<Path>, after: set<Path>, edge: set<Path>) {
    && before <= after && edge <= after
    && forall p, m :: p in after && p !in before && p !in edge && Link(fs, p, m) ==> m in after
  }

  lemma {:induction false} VisitFinishesBut(fs: Files, fp: Path, depth: nat, visited: set<Path>)
    requires depth <= MAX_DEPTH
    ensures var after := Visit(fs, fp, depth, visited).visited;
      FinishedBut(fs, visited, after, Edge(fs, fp, depth, visited)) && fp in after
    decreases MAX_DEPTH + 1 - depth, 0
  {
    if fp !in visited && Readable(fs, fp) {
      var after := VisitAll(fs, fs[fp].imports, depth + 1, visited + {fp}).visited;
      if depth == MAX_DEPTH {
        forall p | p in after && p !in visited ensures p == fp {
          if p != fp {
            var _ := VisitAllIsSound(fs, fs[fp].imports, depth + 1, visited + {fp}, p);
          }
        }
        VisitAllPartitions(fs, fs[fp].imports, depth + 1, visited + {fp});
      } else {
        VisitAllFinishesBut(fs, fs[fp].imports, depth + 1, visited + {fp});
        assert fp in visited + {fp};
      }
    }
  }

  lemma {:induction false} VisitAllFinishesBut(fs: Files, imports: seq<Path>, depth: nat, visited: set<Path>)
    requires depth <= MAX_DEPTH
    ensures var after := VisitAll(fs, imports, depth, visited).visited;
      FinishedBut(fs, visited, after, EdgeOfAll(fs, imports, depth, visited)) && forall m :: m in imports ==> m in after
    decreases MAX_DEPTH + 1 - depth, |imports|
  {
    if imports != [] {
      var first := Visit(fs, imports[0], depth, visited).visited;
      VisitFinishesBut(fs, imports[0], depth, visited);
      VisitAllFinishesBut(fs, imports[1..], depth, first);
      assert forall m :: m in imports <==> m == imports[0] || m in imports[1..];
    }
  }

  lemma {:induction false} OneLinkFurther(fs: Files, a: Path, b: Path, c: Path, n: nat)
    requires Reach(fs, a, b, n) && Link(fs, b, c)
    ensures Reach(fs, a, c, n + 1)
    decreases n
  {
    if a == b {
      assert Reach(fs, c, c, n);
    } else {
      var m :| Link(fs, a, m) && Reach(fs, m, b, n - 1);
      OneLinkFurther(fs, m, b, c, n - 1);
    }
  }

  /** On every import graph: the scan misses nothing that is reachable exactly if every import of a file that
      it first met at depth five was met on some other way. */
  lemma ScanIsCompleteIff(fs: Files, root: Path)
    ensures MissesNothing(fs, root, Visit(fs, root, 0, {}).visited) <==>
      EdgeIsMet(fs, Edge(fs, root, 0, {}), Visit(fs, root, 0, {}).visited)
  {
    var all, edge := Visit(fs, root, 0, {}).visited, Edge(fs, root, 0, {});
    VisitFinishesBut(fs, root, 0, {});
    if EdgeIsMet(fs, edge, all) {
      forall p, n: nat | Reach(fs, root, p, n) ensures p in all {
        ClosedReaches(fs, all, root, p, n);
      }
    }
    if MissesNothing(fs, root, all) {
      forall e, m | e in edge && Link(fs, e, m) ensures m in all {
        VisitIsSound(fs, root, 0, {}, e);
        OneLinkFurther(fs, root, e, m, MAX_DEPTH);
      }
    }
  }

  ghost predicate MissesNothing(fs: Files, root: Path, visited: set<Path>) {
    forall p, n: nat :: Reach(fs, root, p, n) ==> p in visited
  }

  ghost predicate EdgeIsMet(fs: Files, edge: set<Path>, visited: set<Path>) {
    forall e, m :: e in edge && Link(fs, e, m) ==> m in visited
  }

  /** Six files in a line, with a second link from the first to the sixth, which imports a seventh. */
  ghost predicate Detour(fs: Files, p: seq<Path>) {
    && |p| == 7 && Distinct(p) && (forall i :: 0 <= i < 7 ==> Readable(fs, p[i]))
    && fs[p[0]].imports == [p[1], p[5]]
    && (forall i :: 1 <= i < 6 ==> fs[p[i]].imports == [p[i + 1]])
    && fs[p[6]].imports == []
  }

  function FirstOf(p: seq<Path>, n: nat): set<Path>
    requires n <= |p|
  {
    if n == 0 then {} else FirstOf(p, n - 1) + {p[n - 1]}
  }

  lemma {:induction false} NotAmongFirst(p: seq<Path>, n: nat, k: nat)
    requires Distinct(p) && n <= k < |p|
    ensures p[k] !in FirstOf(p, n)
  {
    if n > 0 { NotAmongFirst(p, n - 1, k); }
  }

  /** Along the line every file but the last is visited. */
  lemma {:induction false} LineVisits(fs: Files, p: seq<Path>, i: nat)
    requires Detour(fs, p) && 1 <= i <= 6
    ensures Visit(fs, p[i], i, FirstOf(p, i)).visited == FirstOf(p, 6)
    decreases 6 - i
  {
    if i < 6 {
      NotAmongFirst(p, i, i);
      OneImport(fs, p[i], p[i + 1], i, FirstOf(p, i));
      assert FirstOf(p, i + 1) == FirstOf(p, i) + {p[i]};
      LineVisits(fs, p, i + 1);
    }
  }

  /** The proviso is needed: the line meets the sixth file at depth five, where its own import is cut off, and
      the short way to it then finds it visited. The seventh file is two links away and never counted. */
  lemma DetourHidesAFile(fs: Files, p: seq<Path>)
    requires Detour(fs, p)
    ensures Reach(fs, p[0], p[6], 2) && Readable(fs, p[6])
    ensures p[6] !in Visit(fs, p[0], 0, {}).visited
  {
    assert Link(fs, p[0], p[5]) && Link(fs, p[5], p[6]);
    assert Reach(fs, p[6], p[6], 0) && Reach(fs, p[5], p[6], 1);
    NotAmongFirst(p, 6, 6);
    LineVisits(fs, p, 1);
    assert FirstOf(p, 1) == FirstOf(p, 0) + {p[0]} && FirstOf(p, 0) == {};
    assert FirstOf(p, 6) == FirstOf(p, 5) + {p[5]};
    TwoImports(fs, p[1], p[5], FirstOf(p, 1), FirstOf(p, 6));
  }

  lemma OneImport(fs: Files, p: Path, q: Path, depth: nat, visited: set<Path>)
    requires depth <= MAX_DEPTH && Readable(fs, p) && fs[p].imports == [q] && p !in visited
    ensures Visit(fs, p, depth, visited).visited == Visit(fs, q, depth + 1, visited + {p}).visited
  {
    assert fs[p].imports[1..] == [];
    assert VisitAll(fs, [q], depth + 1, visited + {p}).visited == Visit(fs, q, depth + 1, visited + {p}).visited;
  }

  lemma TwoImports(fs: Files, a: Path, b: Path, visited: set<Path>, after: set<Path>)
    requires Visit(fs, a, 1, visited).visited == after && b in after
    ensures VisitAll(fs, [a, b], 1, visited).visited == after
  {
    assert [a, b][1..] == [b] && [b][1..] == [];
    assert VisitAll(fs, [b], 1, after).visited == after;
  }
}
