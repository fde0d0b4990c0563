/** Keeping a git checkout fresh without losing a commit or a file (cli_checkout_freshness.py). */
module Checkout {
  import opened WorkTree
  import opened Options

  // ---------------------------------------------------------------------------
  // the commit graph
  // ---------------------------------------------------------------------------

  /** A commit is named by its content, so it holds its parents; `id` is the rest (author, message, date). */
  datatype Commit = Commit(id: string, tree: Tree, parents: seq<Commit>)

  /** The commits reachable from one commit, itself included. */
  function Ancestors(c: Commit): (r: set<Commit>)
    ensures c in r
  {
    {c} + AncestorsOf(c.parents)
  }

  function AncestorsOf(ps: seq<Commit>): set<Commit> {
    if ps == [] then {} else Ancestors(ps[0]) + AncestorsOf(ps[1..])
  }

  lemma {:induction false} AncestorsTransitive(a: Commit, c: Commit)
    requires a in Ancestors(c)
    ensures Ancestors(a) <= Ancestors(c)
    decreases c, 0
  {
    if a != c { AncestorsOfTransitive(a, c.parents); }
  }

  lemma {:induction false} AncestorsOfTransitive(a: Commit, ps: seq<Commit>)
    requires a in AncestorsOf(ps)
    ensures Ancestors(a) <= AncestorsOf(ps)
    decreases ps, 1
  {
    if a in Ancestors(ps[0]) {
      AncestorsTransitive(a, ps[0]);
    } else {
      AncestorsOfTransitive(a, ps[1..]);
    }
  }

  // ---------------------------------------------------------------------------
  // the repository
  // ---------------------------------------------------------------------------

  datatype Head = On(branch: string) | Detached(at: Commit)

  /** `elsewhere`: branches checked out in other worktrees. `marker`: an operation in progress. `untracked`:
      git status lists an untracked file. `movedAt`: the time of the newest reflog entry of HEAD.
      `tracks`: the configured remote-tracking ref of a branch. */
  datatype Repo = Repo(refs: map<string, Commit>, head: Head, files: Files, elsewhere: set<string>,
                       marker: Option<string>, untracked: bool, movedAt: Option<int>, tracks: map<string, string>)

  function LocalRef(branch: string): string { "refs/heads/" + branch }

  function RemoteRef(remote: string, branch: string): string { "refs/remotes/" + remote + "/" + branch }

  function HeadCommit(s: Repo): Option<Commit> {
    match s.head
    case Detached(c) => Some(c)
    case On(b) => if LocalRef(b) in s.refs then Some(s.refs[LocalRef(b)]) else None
  }

  function HeadTree(s: Repo): Tree {
    match HeadCommit(s) case Some(c) => c.tree case None => map[]
  }

  /** Every commit reachable from HEAD or any ref. */
  ghost predicate Reachable(s: Repo, c: Commit) {
    || (HeadCommit(s).Some? && c in Ancestors(HeadCommit(s).value))
    || exists r :: r in s.refs && c in Ancestors(s.refs[r])
  }

  ghost predicate Proper(s: Repo) {
    && Closed(s.files.nodes)
    && (forall r, c :: r in s.refs && c in Ancestors(s.refs[r]) ==> ValidTree(c.tree))
    && (s.head.Detached? ==> ValidTree(s.head.at.tree))
  }

  /** What `git status --porcelain` prints something for. */
  predicate Dirty(s: Repo) { s.untracked || !Clean(s.files.nodes, HeadTree(s)) }

  // ---------------------------------------------------------------------------
  // reading with git
  // ---------------------------------------------------------------------------

  /** The reads a verdict makes. Any of them may fail, time out or be cut off by the deadline. */
  datatype Read = GitDir | Branch | Target | Behind | Status | Ancestry | Local | LocalAhead | Worktrees
                | DiffAdded | DiffDeleted | Reflog

  /** `rev-list --count to..from`, `None` when git could not count. */
  function Outside(s: Repo, from: Option<Commit>, to: Option<Commit>, works: bool): (n: Option<nat>)
    ensures n == Some(0) <==> works && from.Some? && to.Some? && from.value in Ancestors(to.value)
  {
    if works && from.Some? && to.Some? then
      assert from.value in Ancestors(to.value) ==> Ancestors(from.value) - Ancestors(to.value) == {} by {
        if from.value in Ancestors(to.value) { AncestorsTransitive(from.value, to.value); }
      }
      assert from.value !in Ancestors(to.value) ==> from.value in Ancestors(from.value) - Ancestors(to.value);
      Some(|Ancestors(from.value) - Ancestors(to.value)|)
    else None
  }

  function At(s: Repo, ref: string): Option<Commit> {
    if ref in s.refs then Some(s.refs[ref]) else None
  }

  // ---------------------------------------------------------------------------
  // verdicts
  // ---------------------------------------------------------------------------

  datatype Action = Forward | Reattach | Noop | Refuse

  datatype Reason = Safe | GitDirUnmeasurable | InProgress | DetachedHead | NoTarget | BehindUnmeasurable | UpToDate
                  | Unmeasurable | DirtyTree | Diverged | Collision | OnBase | LongLived | Unmerged
                  | LocalBaseAhead | BaseInOtherWorktree | HeadActivityUnmeasurable | RecentlyActive

  datatype Verdict = Verdict(action: Action, reason: Reason, ref: string, base: string)

  const LONG_LIVED: set<string> := {"develop", "dev", "main", "master", "staging"}

  /** The branch git names; a failed read looks like a detached HEAD. */
  function CurrentBranch(s: Repo, fails: set<Read>): Option<string> {
    if s.head.On? && Branch !in fails then Some(s.head.branch) else None
  }

  /** What both verdicts ask of the files: the tree is as committed and no incoming file meets a local one. */
  ghost predicate FilesAreSafe(s: Repo, to: Tree) {
    && !Dirty(s)
    && NoHit(s.files, Added(HeadTree(s), to), Gone(HeadTree(s), to))
  }

  /** Nothing of HEAD lies outside `ref`. */
  predicate HeadIn(s: Repo, ref: string) {
    HeadCommit(s).Some? && ref in s.refs && HeadCommit(s).value in Ancestors(s.refs[ref])
  }

  /** HEAD has everything `ref` has. */
  predicate InHead(s: Repo, ref: string) {
    HeadCommit(s).Some? && ref in s.refs && s.refs[ref] in Ancestors(HeadCommit(s).value)
  }

  /** `ff_verdict` answers "ff" exactly here, whatever else is true of the repository. */
  ghost predicate MayForward(s: Repo, ref: string, fails: set<Read>) {
    && GitDir !in fails && Branch !in fails && Target !in fails && Behind !in fails && Status !in fails
    && Ancestry !in fails && DiffAdded !in fails && DiffDeleted !in fails
    && s.marker == None && s.head.On? && HeadIn(s, ref) && !InHead(s, ref)
    && FilesAreSafe(s, s.refs[ref].tree)
  }

  /** `reattach_verdict` answers "reattach" exactly here. A failed read of the branch looks detached, a failed
      read of the local base looks like a missing one. */
  ghost predicate MayReattach(s: Repo, ref: string, base: string, now: int, idle: int, fails: set<Read>) {
    && GitDir !in fails && Target !in fails && Behind !in fails
    && s.marker == None && !InHead(s, ref)
    && (CurrentBranch(s, fails).Some? ==>
          CurrentBranch(s, fails).value != base && CurrentBranch(s, fails).value !in LONG_LIVED)
    && MayMove(s, ref, base, now, idle, fails)
  }

  /** The part of it that does not ask where HEAD is. */
  ghost predicate MayMove(s: Repo, ref: string, base: string, now: int, idle: int, fails: set<Read>) {
    && BaseIsFree(s, ref, base, fails)
    && DiffAdded !in fails && DiffDeleted !in fails && FilesAreSafe(s, s.refs[ref].tree)
    && Reflog !in fails && s.movedAt.Some? && now - s.movedAt.value >= idle
  }

  /** Nothing would be left behind, and the base can be moved to `ref` and checked out here. */
  ghost predicate BaseIsFree(s: Repo, ref: string, base: string, fails: set<Read>) {
    && Status !in fails && !Dirty(s)
    && Ancestry !in fails && HeadIn(s, ref)
    && (Local !in fails && LocalRef(base) in s.refs ==>
          LocalAhead !in fails && s.refs[LocalRef(base)] in Ancestors(s.refs[ref]))
    && Worktrees !in fails && base !in s.elsewhere
  }

  /** The added and the deleted paths of the diff from HEAD, in git's order. */
  ghost predicate Listing(s: Repo, to: Tree, added: seq<Path>) {
    (set p | p in added) == Added(HeadTree(s), to)
  }

  lemma NoHitsIsSafe(s: Repo, to: Tree, added: seq<Path>, hits: set<Path>)
    requires Listing(s, to, added) && !Dirty(s)
    requires forall h :: h in hits <==> Hit(s.files, added, Gone(HeadTree(s), to), h)
    ensures hits == {} <==> FilesAreSafe(s, to)
  {
    NoCollisionIff(s.files, added, Gone(HeadTree(s), to), hits);
  }

  /** What both verdicts do with the answer of `CollidingPaths`: a diff that cannot be read counts as a hit. */
  method NothingCollides(s: Repo, to: Tree, added: seq<Path>, fails: set<Read>) returns (free: bool)
    requires Listing(s, to, added) && !Dirty(s)
    ensures free <==> DiffAdded !in fails && DiffDeleted !in fails && FilesAreSafe(s, to)
  {
    var hits := CollidingPaths(s.files, if DiffAdded in fails then None else Some(added),
                               if DiffDeleted in fails then None else Some(Gone(HeadTree(s), to)));
    if hits == None { return false; }
    NoHitsIsSafe(s, to, added, hits.value);
    return hits.value == {};
  }

  /** Neither move is allowed over a checkout with an edited, a missing or an untracked file, or with an operation
      in progress; nor a reattach away from a long-lived branch that git could name, or from HEAD that moved less
      than `idle` ago. */
  lemma VerdictsHoldBack(s: Repo, ref: string, base: string, now: int, idle: int, fails: set<Read>)
    ensures s.untracked || s.marker.Some?
      || (exists p :: p in HeadTree(s) && (p !in s.files.nodes || s.files.nodes[p] != Leaf(HeadTree(s)[p])))
      ==> !MayForward(s, ref, fails) && !MayReattach(s, ref, base, now, idle, fails)
    ensures s.head.On? && Branch !in fails
      && (s.head.branch == base || s.head.branch in {"develop", "dev", "main", "master", "staging"})
      ==> !MayReattach(s, ref, base, now, idle, fails)
    ensures s.movedAt == None || now < s.movedAt.value + idle ==> !MayReattach(s, ref, base, now, idle, fails)
    ensures base in s.elsewhere ==> !MayReattach(s, ref, base, now, idle, fails)
    ensures (exists c :: HeadCommit(s) == Some(c) && (ref !in s.refs || c !in Ancestors(s.refs[ref])))
      ==> !MayForward(s, ref, fails) && !MayReattach(s, ref, base, now, idle, fails)
  {
  }

  /** A read that failed never passes for a good answer: with any that counts here neither move is allowed. */
  lemma FailedReadsHoldBack(s: Repo, ref: string, base: string, now: int, idle: int, fails: set<Read>)
    ensures MayForward(s, ref, fails) ==> fails <= {Local, LocalAhead, Worktrees, Reflog}
    ensures MayReattach(s, ref, base, now, idle, fails) ==>
      && fails <= {Branch, Local, LocalAhead}
      && (LocalAhead in fails ==> Local in fails || LocalRef(base) !in s.refs)
  {
    forall r | r in fails
      ensures MayForward(s, ref, fails) ==> r in {Local, LocalAhead, Worktrees, Reflog}
      ensures MayReattach(s, ref, base, now, idle, fails) ==> r in {Branch, Local, LocalAhead}
    {
      match r
      case GitDir => case Branch => case Target => case Behind => case Status => case Ancestry =>
      case Local => case LocalAhead => case Worktrees => case DiffAdded => case DiffDeleted => case Reflog =>
    }
  }

  function Height(c: Commit): nat { 1 + HeightOf(c.parents) }

  function HeightOf(ps: seq<Commit>): nat {
    if ps == [] then 0
    else if Height(ps[0]) < HeightOf(ps[1..]) then HeightOf(ps[1..]) else Height(ps[0])
  }

  lemma {:induction false} AncestorsAreLower(a: Commit, c: Commit)
    requires a in Ancestors(c)
    ensures a == c || Height(a) < Height(c)
    decreases c, 0
  {
    if a != c { AncestorsOfAreLower(a, c.parents); }
  }

  lemma {:induction false} AncestorsOfAreLower(a: Commit, ps: seq<Commit>)
    requires a in AncestorsOf(ps)
    ensures Height(a) <= HeightOf(ps)
    decreases ps, 1
  {
    if a in Ancestors(ps[0]) {
      AncestorsAreLower(a, ps[0]);
    } else {
      AncestorsOfAreLower(a, ps[1..]);
    }
  }

  /** HEAD is at a commit that `ref` has and has moved on from. */
  ghost predicate StrictlyBehind(s: Repo, ref: string) {
    && HeadCommit(s).Some? && ref in s.refs
    && HeadCommit(s).value != s.refs[ref] && HeadCommit(s).value in Ancestors(s.refs[ref])
  }

  lemma StrictlyBehindIff(s: Repo, ref: string)
    ensures StrictlyBehind(s, ref) <==> HeadIn(s, ref) && !InHead(s, ref)
  {
    if StrictlyBehind(s, ref) && InHead(s, ref) {
      AncestorsAreLower(HeadCommit(s).value, s.refs[ref]);
      AncestorsAreLower(s.refs[ref], HeadCommit(s).value);
    }
  }

  /** When every read works: a checkout is forwarded exactly if no operation is in progress, nothing is edited,
      missing or untracked, HEAD is on a branch strictly behind its remote one, and no local file is in the way. */
  lemma ForwardIff(s: Repo, ref: string)
    requires ref in s.refs ==> StaysInside(s.files, Added(HeadTree(s), s.refs[ref].tree))
    ensures MayForward(s, ref, {}) <==>
      && s.marker == None && s.head.On? && StrictlyBehind(s, ref)
      && !s.untracked && Clean(s.files.nodes, HeadTree(s))
      && Free(s.files.nodes, HeadTree(s), s.refs[ref].tree)
  {
    StrictlyBehindIff(s, ref);
    if ref in s.refs {
      NoCollisionIffFree(s.files, HeadTree(s), s.refs[ref].tree);
    }
  }

  /** And reattached exactly if the same holds of HEAD, on a branch or not, and the base is not the branch it is
      on, which is not a long-lived one either; the local base, if there is one, has nothing the remote one lacks
      and is not checked out elsewhere; and HEAD has not moved for `idle`. */
  lemma ReattachIff(s: Repo, ref: string, base: string, now: int, idle: int)
    requires ref in s.refs ==> StaysInside(s.files, Added(HeadTree(s), s.refs[ref].tree))
    ensures MayReattach(s, ref, base, now, idle, {}) <==>
      && s.marker == None && StrictlyBehind(s, ref)
      && !s.untracked && Clean(s.files.nodes, HeadTree(s))
      && Free(s.files.nodes, HeadTree(s), s.refs[ref].tree)
      && (s.head.On? ==> s.head.branch != base && s.head.branch !in LONG_LIVED)
      && (LocalRef(base) in s.refs ==> s.refs[LocalRef(base)] in Ancestors(s.refs[ref]))
      && base !in s.elsewhere
      && s.movedAt.Some? && s.movedAt.value + idle <= now
  {
    StrictlyBehindIff(s, ref);
    if ref in s.refs {
      NoCollisionIffFree(s.files, HeadTree(s), s.refs[ref].tree);
    }
  }

  /** The refs that are meant. */
  lemma RefNames(branch: string)
    ensures LocalRef(branch) == "refs/heads/" + branch
    ensures RemoteRef("origin", branch) == "refs/remotes/origin/" + branch
  {
    assert "refs/remotes/" + "origin" + "/" + branch == "refs/remotes/origin/" + branch;
  }

  /** A refusal for a collision whose diffs could be read names a real one: something that is not tracked lies
      where the new tree puts a file, or stands where it needs a directory. */
  lemma CollisionIsReal(s: Repo, ref: string, fails: set<Read>) returns (q: Path)
    requires Because(s, Collision, ref, fails) && DiffAdded !in fails && DiffDeleted !in fails
    requires ValidTree(s.refs[ref].tree) && StaysInside(s.files, Added(HeadTree(s), s.refs[ref].tree))
    ensures q in s.files.nodes && q !in HeadTree(s)
    ensures var to := s.refs[ref].tree;
      q in to || (s.files.nodes[q].Leaf? && exists p :: p in to && p !in HeadTree(s) && Above(q, p))
  {
    q := CollisionIsLocal(s.files, HeadTree(s), s.refs[ref].tree);
  }

  /** The local base has commits outside the remote one, or they cannot be counted; a failed lookup of the
      local base reads as "there is none". */
  predicate LocalBaseIsAhead(s: Repo, ref: string, base: string, fails: set<Read>) {
    && Local !in fails && LocalRef(base) in s.refs
    && Outside(s, At(s, LocalRef(base)), At(s, ref), LocalAhead !in fails) != Some(0)
  }

  /** A reason that either verdict gives is true: of the repository, or of a read that failed. */
  ghost predicate Because(s: Repo, reason: Reason, ref: string, fails: set<Read>) {
    match reason
    case GitDirUnmeasurable => GitDir in fails
    case InProgress => s.marker.Some?
    case DetachedHead => s.head.Detached? || Branch in fails
    case NoTarget => Target in fails || ref !in s.refs
    case BehindUnmeasurable => Behind in fails || HeadCommit(s) == None
    case UpToDate => InHead(s, ref)
    case Unmeasurable => Status in fails
    case DirtyTree => Dirty(s)
    case Diverged => Ancestry in fails || !HeadIn(s, ref)
    case Collision =>
      DiffAdded in fails || DiffDeleted in fails || (ref in s.refs && !Dirty(s) && !FilesAreSafe(s, s.refs[ref].tree))
    case _ => false
  }

  /** And so are those that only `reattach_verdict` gives. */
  ghost predicate BecauseOfBase(s: Repo, reason: Reason, ref: string, base: string, now: int, idle: int,
                                fails: set<Read>) {
    match reason
    case OnBase => s.head == On(base)
    case LongLived => s.head.On? && s.head.branch in LONG_LIVED
    case Unmerged => Ancestry in fails || !HeadIn(s, ref)
    case LocalBaseAhead => LocalBaseIsAhead(s, ref, base, fails)
    case BaseInOtherWorktree => Worktrees in fails || base in s.elsewhere
    case HeadActivityUnmeasurable => Reflog in fails || s.movedAt == None
    case RecentlyActive => s.movedAt.Some? && now - s.movedAt.value < idle
    case _ => reason !in {DetachedHead, Diverged} && Because(s, reason, ref, fails)
  }

  /** `ff_verdict`. `added` is the order in which git lists the added paths. */
  method FfVerdict(s: Repo, remote: string, added: seq<Path>, fails: set<Read>) returns (v: Verdict)
    requires s.head.On? && RemoteRef(remote, s.head.branch) in s.refs ==>
      Listing(s, s.refs[RemoteRef(remote, s.head.branch)].tree, added)
    ensures if v.reason in {GitDirUnmeasurable, InProgress, DetachedHead} then v.ref == ""
            else s.head.On? && v.ref == RemoteRef(remote, s.head.branch)
    ensures v.action == Forward <==> s.head.On? && MayForward(s, RemoteRef(remote, s.head.branch), fails)
    ensures v.action != Reattach && (v.action == Forward <==> v.reason == Safe)
    ensures v.reason != Safe ==> Because(s, v.reason, v.ref, fails)
    ensures v.action == Noop <==> v.reason in {DetachedHead, NoTarget, BehindUnmeasurable, UpToDate}
  {
    if GitDir in fails { return Verdict(Refuse, GitDirUnmeasurable, "", ""); }
    if s.marker.Some? { return Verdict(Refuse, InProgress, "", ""); }
    var branch := CurrentBranch(s, fails);
    if branch == None { return Verdict(Noop, DetachedHead, "", ""); }
    var ref := RemoteRef(remote, branch.value);
    if Target in fails || ref !in s.refs { return Verdict(Noop, NoTarget, ref, ""); }
    var behind := Outside(s, At(s, ref), HeadCommit(s), Behind !in fails);
    if behind == None { return Verdict(Noop, BehindUnmeasurable, ref, ""); }
    if behind == Some(0) { return Verdict(Noop, UpToDate, ref, ""); }
    if Status in fails { return Verdict(Refuse, Unmeasurable, ref, ""); }
    if Dirty(s) { return Verdict(Refuse, DirtyTree, ref, ""); }
    if Ancestry in fails || HeadCommit(s).value !in Ancestors(s.refs[ref]) {
      return Verdict(Refuse, Diverged, ref, "");
    }
    var free := NothingCollides(s, s.refs[ref].tree, added, fails);
    if !free { return Verdict(Refuse, Collision, ref, ""); }
    return Verdict(Forward, Safe, ref, "");
  }

  const BASE_REFUSALS: set<Reason> := {Unmeasurable, DirtyTree, Unmerged, LocalBaseAhead, BaseInOtherWorktree}

  /** `reattach_verdict` from the look at the tree to the look at the worktrees. */
  method BaseRefusal(s: Repo, ref: string, base: string, now: int, idle: int, fails: set<Read>)
    returns (reason: Reason)
    requires ref in s.refs && HeadCommit(s).Some?
    ensures reason == Safe <==> BaseIsFree(s, ref, base, fails)
    ensures reason != Safe ==> reason in BASE_REFUSALS && BecauseOfBase(s, reason, ref, base, now, idle, fails)
  {
    if Status in fails { return Unmeasurable; }
    if Dirty(s) { return DirtyTree; }
    if Outside(s, HeadCommit(s), At(s, ref), Ancestry !in fails) != Some(0) { return Unmerged; }
    if LocalBaseIsAhead(s, ref, base, fails) { return LocalBaseAhead; }
    if Worktrees in fails || base in s.elsewhere { return BaseInOtherWorktree; }
    return Safe;
  }

  const MOVE_REFUSALS: set<Reason> := BASE_REFUSALS + {Collision, HeadActivityUnmeasurable, RecentlyActive}

  /** `reattach_verdict` from the look at the tree on. */
  method MoveRefusal(s: Repo, ref: string, base: string, now: int, idle: int, added: seq<Path>, fails: set<Read>)
    returns (reason: Reason)
    requires ref in s.refs && HeadCommit(s).Some? && Listing(s, s.refs[ref].tree, added)
    ensures reason == Safe <==> MayMove(s, ref, base, now, idle, fails)
    ensures reason != Safe ==> reason in MOVE_REFUSALS && BecauseOfBase(s, reason, ref, base, now, idle, fails)
  {
    reason := BaseRefusal(s, ref, base, now, idle, fails);
    if reason != Safe { return; }
    var free := NothingCollides(s, s.refs[ref].tree, added, fails);
    if !free { return Collision; }
    if Reflog in fails || s.movedAt == None { return HeadActivityUnmeasurable; }
    if now - s.movedAt.value < idle { return RecentlyActive; }
    return Safe;
  }

  /** `reattach_verdict`. */
  method ReattachVerdict(s: Repo, remote: string, base: string, now: int, idle: int, added: seq<Path>,
                         fails: set<Read>)
    returns (v: Verdict)
    requires RemoteRef(remote, base) in s.refs ==> Listing(s, s.refs[RemoteRef(remote, base)].tree, added)
    ensures v.action == Reattach ==> v.ref == RemoteRef(remote, base) && v.base == base
    ensures v.action == Reattach <==> MayReattach(s, RemoteRef(remote, base), base, now, idle, fails)
    ensures v.action != Forward && (v.action == Reattach <==> v.reason == Safe)
    ensures v.reason != Safe ==> BecauseOfBase(s, v.reason, RemoteRef(remote, base), base, now, idle, fails)
    ensures v.action == Noop <==> v.reason in {OnBase, NoTarget, BehindUnmeasurable, UpToDate}
  {
    if GitDir in fails { return Verdict(Refuse, GitDirUnmeasurable, "", ""); }
    if s.marker.Some? { return Verdict(Refuse, InProgress, "", ""); }
    var branch := CurrentBranch(s, fails);
    var ref := RemoteRef(remote, base);
    if branch == Some(base) { return Verdict(Noop, OnBase, ref, ""); }
    if branch.Some? && branch.value in LONG_LIVED { return Verdict(Refuse, LongLived, ref, ""); }
    if Target in fails || ref !in s.refs { return Verdict(Noop, NoTarget, ref, ""); }
    var behind := Outside(s, At(s, ref), HeadCommit(s), Behind !in fails);
    if behind == None { return Verdict(Noop, BehindUnmeasurable, ref, ""); }
    if behind == Some(0) { return Verdict(Noop, UpToDate, ref, ""); }
    var reason := MoveRefusal(s, ref, base, now, idle, added, fails);
    if reason != Safe { return Verdict(Refuse, reason, ref, ""); }
    return Verdict(Reattach, Safe, ref, base);
  }

  // ---------------------------------------------------------------------------
  // git's moves
  // ---------------------------------------------------------------------------

  /** git stops rather than overwrite a tracked file that was edited. */
  predicate EditsInTheWay(s: Repo, to: Tree) {
    exists p :: p in HeadTree(s) && (p !in to || to[p] != HeadTree(s)[p])
                && (p !in s.files.nodes || s.files.nodes[p] != Leaf(HeadTree(s)[p]))
  }

  function WithTree(s: Repo, from: Tree, to: Tree): Repo {
    s.(files := s.files.(nodes := Moved(s.files.nodes, from, to)))
  }

  /** `git merge --ff-only ref`: moves the branch of HEAD, or a detached HEAD, along its own history only. */
  function MergeFfOnly(s: Repo, ref: string): Option<Repo> {
    if HeadCommit(s) == None || ref !in s.refs || HeadCommit(s).value !in Ancestors(s.refs[ref])
       || EditsInTheWay(s, s.refs[ref].tree) then None
    else
      var moved := WithTree(s, HeadTree(s), s.refs[ref].tree);
      match s.head
      case On(b) => Some(moved.(refs := s.refs[LocalRef(b) := s.refs[ref]]))
      case Detached(_) => Some(moved.(head := Detached(s.refs[ref])))
  }

  /** `git fetch . ref:refs/heads/base`: creates the branch or fast-forwards it; refused for a branch that is
      checked out here or in another worktree. */
  function FetchInto(s: Repo, ref: string, base: string): Option<Repo> {
    if ref !in s.refs || s.head == On(base) || base in s.elsewhere
       || (LocalRef(base) in s.refs && s.refs[LocalRef(base)] !in Ancestors(s.refs[ref])) then None
    else Some(s.(refs := s.refs[LocalRef(base) := s.refs[ref]]))
  }

  /** `git checkout base --`. */
  function CheckOut(s: Repo, base: string): Option<Repo> {
    if LocalRef(base) !in s.refs || base in s.elsewhere || EditsInTheWay(s, s.refs[LocalRef(base)].tree) then None
    else Some(WithTree(s, HeadTree(s), s.refs[LocalRef(base)].tree).(head := On(base)))
  }

  // ---------------------------------------------------------------------------
  // what the moves keep
  // ---------------------------------------------------------------------------

  ghost predicate KeepsCommits(s: Repo, t: Repo) {
    forall c :: Reachable(s, c) ==> Reachable(t, c)
  }

  /** Every ref stays where it was or moves to a descendant, and only `may` moves or appears. */
  ghost predicate OnlyForward(s: Repo, t: Repo, may: string) {
    && (forall r :: r in s.refs ==> r in t.refs && s.refs[r] in Ancestors(t.refs[r]))
    && (forall r :: r in t.refs && r != may ==> r in s.refs && t.refs[r] == s.refs[r])
  }

  /** The checkout holds the new tree, and every file and link that was not tracked, as it was. */
  ghost predicate KeepsFiles(s: Repo, t: Repo) {
    && Leaves(t.files.nodes) == (Leaves(s.files.nodes) - HeadTree(s).Keys) + HeadTree(t)
    && Clean(t.files.nodes, HeadTree(t))
  }

  lemma ForwardRefsKeep(s: Repo, t: Repo, may: string, c: Commit)
    requires OnlyForward(s, t, may)
    requires exists r :: r in s.refs && c in Ancestors(s.refs[r])
    ensures Reachable(t, c)
  {
    var r :| r in s.refs && c in Ancestors(s.refs[r]);
    AncestorsTransitive(s.refs[r], t.refs[r]);
    assert r in t.refs && c in Ancestors(t.refs[r]);
  }

  lemma KeepsCommitsIf(s: Repo, t: Repo, may: string)
    requires OnlyForward(s, t, may)
    requires HeadCommit(s).Some? ==> Reachable(t, HeadCommit(s).value)
    ensures KeepsCommits(s, t)
  {
    forall c | Reachable(s, c) ensures Reachable(t, c) {
      if HeadCommit(s).Some? && c in Ancestors(HeadCommit(s).value) {
        var h := HeadCommit(s).value;
        if HeadCommit(t).Some? && h in Ancestors(HeadCommit(t).value) {
          AncestorsTransitive(h, HeadCommit(t).value);
        } else {
          var r :| r in t.refs && h in Ancestors(t.refs[r]);
          AncestorsTransitive(h, t.refs[r]);
          assert r in t.refs && c in Ancestors(t.refs[r]);
        }
      } else {
        ForwardRefsKeep(s, t, may, c);
      }
    }
  }

  /** `git merge --ff-only` loses no commit in any repository, whatever happened since the verdict. */
  lemma MergeKeepsCommits(s: Repo, ref: string)
    requires MergeFfOnly(s, ref).Some?
    ensures var t := MergeFfOnly(s, ref).value;
      && KeepsCommits(s, t) && HeadCommit(t) == Some(s.refs[ref]) && HeadCommit(s).value in Ancestors(s.refs[ref])
      && (s.head.On? ==> t.head == s.head && OnlyForward(s, t, LocalRef(s.head.branch)))
      && (s.head.Detached? ==> t.refs == s.refs)
  {
    var t := MergeFfOnly(s, ref).value;
    if s.head.On? {
      KeepsCommitsIf(s, t, LocalRef(s.head.branch));
    } else {
      KeepsCommitsIf(s, t, "");
    }
  }

  lemma SafeFilesFreeTheWay(s: Repo, to: Tree)
    requires Closed(s.files.nodes) && ValidTree(HeadTree(s)) && ValidTree(to) && FilesAreSafe(s, to)
    ensures Leaves(Moved(s.files.nodes, HeadTree(s), to)) == (Leaves(s.files.nodes) - HeadTree(s).Keys) + to
    ensures Clean(Moved(s.files.nodes, HeadTree(s), to), to)
    ensures Closed(Moved(s.files.nodes, HeadTree(s), to))
    ensures !EditsInTheWay(s, to)
  {
    NoCollisionIsFree(s.files, HeadTree(s), to);
    MoveKeepsLocalFiles(s.files.nodes, HeadTree(s), to);
    MoveKeepsClosed(s.files.nodes, HeadTree(s), to);
  }

  /** The fast-forward an "ff" verdict allows succeeds and overwrites no local file. */
  lemma ForwardKeepsFiles(s: Repo, ref: string, fails: set<Read>)
    requires Proper(s) && MayForward(s, ref, fails)
    ensures MergeFfOnly(s, ref).Some?
    ensures KeepsFiles(s, MergeFfOnly(s, ref).value) && Proper(MergeFfOnly(s, ref).value)
  {
    assert s.refs[ref] in Ancestors(s.refs[ref]);
    SafeFilesFreeTheWay(s, s.refs[ref].tree);
    var t := MergeFfOnly(s, ref).value;
    assert HeadTree(t) == s.refs[ref].tree;
  }

  /** Fetching into a local branch loses no commit and moves only that branch, forward. */
  lemma FetchKeepsCommits(s: Repo, ref: string, base: string)
    requires FetchInto(s, ref, base).Some?
    ensures var t := FetchInto(s, ref, base).value;
      && KeepsCommits(s, t) && OnlyForward(s, t, LocalRef(base)) && HeadCommit(t) == HeadCommit(s)
  {
    var t := FetchInto(s, ref, base).value;
    assert s.head.On? ==> LocalRef(s.head.branch) != LocalRef(base) by {
      if s.head.On? { LocalRefInjective(s.head.branch, base); }
    }
    KeepsCommitsIf(s, t, LocalRef(base));
  }

  lemma LocalRefInjective(a: string, b: string)
    requires a != b
    ensures LocalRef(a) != LocalRef(b)
  {
    assert LocalRef(a)[|"refs/heads/"|..] == a && LocalRef(b)[|"refs/heads/"|..] == b;
  }

  /** After the local fetch the checkout goes through, and ends on the fetched base. */
  lemma CheckoutAfterFetch(s: Repo, ref: string, base: string)
    requires Proper(s) && HeadCommit(s).Some? && FetchInto(s, ref, base).Some? && FilesAreSafe(s, s.refs[ref].tree)
    ensures var u := FetchInto(s, ref, base).value;
      && CheckOut(u, base).Some?
      && var t := CheckOut(u, base).value;
      && t.refs == u.refs && t.head == On(base) && HeadCommit(t) == Some(s.refs[ref])
      && KeepsFiles(s, t) && Closed(t.files.nodes)
  {
    FetchKeepsCommits(s, ref, base);
    var u := FetchInto(s, ref, base).value;
    assert HeadTree(u) == HeadTree(s) && u.refs[LocalRef(base)] == s.refs[ref];
    assert s.refs[ref] in Ancestors(s.refs[ref]);
    HeadTreeIsValid(s);
    SafeFilesFreeTheWay(s, s.refs[ref].tree);
  }

  lemma HeadTreeIsValid(s: Repo)
    requires Proper(s)
    ensures ValidTree(HeadTree(s))
  {
    if s.head.On? && LocalRef(s.head.branch) in s.refs {
      assert s.refs[LocalRef(s.head.branch)] in Ancestors(s.refs[LocalRef(s.head.branch)]);
    }
  }

  /** The two moves of a reattach, when its verdict holds: unless the fetch is refused both go through, no
      commit is lost on the way, and no local file is overwritten. */
  lemma ReattachKeeps(s: Repo, ref: string, base: string, now: int, idle: int, fails: set<Read>)
    requires Proper(s) && MayReattach(s, ref, base, now, idle, fails) && FetchInto(s, ref, base).Some?
    ensures var u := FetchInto(s, ref, base).value;
      && CheckOut(u, base).Some?
      && KeepsCommits(s, u)
      && var t := CheckOut(u, base).value;
      && KeepsCommits(s, t) && OnlyForward(s, t, LocalRef(base)) && HeadCommit(t) == Some(s.refs[ref])
      && KeepsFiles(s, t) && Proper(t)
  {
    FetchKeepsCommits(s, ref, base);
    CheckoutAfterFetch(s, ref, base);
    KeepsCommitsIf(s, CheckOut(FetchInto(s, ref, base).value, base).value, LocalRef(base));
  }

  /** The guard on commits outside the base is what saves a detached HEAD: switching away from a detached
      commit keeps every commit exactly if that commit is reachable from some ref. */
  lemma LeavingDetachedHeadIff(s: Repo, base: string)
    requires s.head.Detached? && CheckOut(s, base).Some?
    ensures KeepsCommits(s, CheckOut(s, base).value) <==> exists r :: r in s.refs && s.head.at in Ancestors(s.refs[r])
  {
    var t := CheckOut(s, base).value;
    if r :| r in s.refs && s.head.at in Ancestors(s.refs[r]) {
      assert r in t.refs && s.head.at in Ancestors(t.refs[r]);
      assert Reachable(t, s.head.at);
      KeepsCommitsIf(s, t, "");
    } else {
      assert Reachable(s, s.head.at);
    }
  }

  ghost predicate Vetted(s: Repo, v: Verdict) {
    exists now, idle, fails :: MayReattach(s, v.ref, v.base, now, idle, fails)
  }

  function Reattached(s: Repo, v: Verdict): Option<Repo> {
    match FetchInto(s, v.ref, v.base)
    case None => None
    case Some(u) => CheckOut(u, v.base)
  }

  /** Only `origin` ever becomes the upstream of a base, and only of one that has none. */
  function Tracking(tracks: map<string, string>, v: Verdict, works: bool): map<string, string> {
    if works && v.base !in tracks && "refs/remotes/origin/" <= v.ref then tracks[v.base := v.ref] else tracks
  }

  /** No branch but the base gets an upstream, and one that has one keeps it. */
  lemma TrackingIs(tracks: map<string, string>, v: Verdict, works: bool)
    ensures var after := Tracking(tracks, v, works);
      && (forall b :: b in tracks ==> b in after && after[b] == tracks[b])
      && (forall b :: b in after && b !in tracks ==>
            b == v.base && after[b] == v.ref && works && |v.ref| >= 20 && v.ref[..20] == "refs/remotes/origin/")
      && (works && "refs/remotes/origin/" <= v.ref ==> v.base in after)
  {
  }

  // ---------------------------------------------------------------------------
  // fast_forward and reattach
  // ---------------------------------------------------------------------------

  /** A repository that the two functions change in place. `works` says that git itself did not fail. */
  class Checkout {
    var repo: Repo

    constructor (s: Repo)
      ensures repo == s
    {
      repo := s;
    }

    /** `fast_forward`: with any verdict, stale or not, no commit is lost and only the branch of HEAD moves, to
        a descendant; with the verdict of this very repository no local file is lost either. */
    method FastForward(v: Verdict, works: bool) returns (ok: bool)
      modifies this
      ensures ok <==> v.action == Forward && works && MergeFfOnly(old(repo), v.ref).Some?
      ensures repo == if ok then MergeFfOnly(old(repo), v.ref).value else old(repo)
      ensures KeepsCommits(old(repo), repo)
      ensures old(repo).head.On? ==> OnlyForward(old(repo), repo, LocalRef(old(repo).head.branch))
      ensures forall fails :: Proper(old(repo)) && ok && MayForward(old(repo), v.ref, fails) ==>
        KeepsFiles(old(repo), repo)
    {
      if v.action != Forward {
        return false;
      }
      var merged := MergeFfOnly(repo, v.ref);
      ok := works && merged.Some?;
      if ok {
        MergeKeepsCommits(repo, v.ref);
        forall fails | Proper(repo) && MayForward(repo, v.ref, fails) ensures KeepsFiles(repo, merged.value) {
          ForwardKeepsFiles(repo, v.ref, fails);
        }
        repo := merged.value;
      }
    }

    /** `reattach`: only the local base moves, to a descendant, so the old branch keeps its ref; a base that
        tracks nothing is only ever tied to `origin`. With the verdict of this very repository no commit and no
        local file is lost, wherever it stops. */
    method Reattach(v: Verdict, fetchWorks: bool, checkoutWorks: bool, trackWorks: bool) returns (ok: bool)
      modifies this
      ensures ok <==> v.action == Action.Reattach && fetchWorks && checkoutWorks && Reattached(old(repo), v).Some?
      ensures ok ==> repo == Reattached(old(repo), v).value.(tracks := Tracking(old(repo).tracks, v, trackWorks))
      ensures !ok ==> (
        || repo == old(repo)
        || (v.action == Action.Reattach && Some(repo) == FetchInto(old(repo), v.ref, v.base)))
      ensures OnlyForward(old(repo), repo, LocalRef(v.base))
      ensures Proper(old(repo)) && Vetted(old(repo), v) ==>
        KeepsCommits(old(repo), repo) && (ok ==> KeepsFiles(old(repo), repo))
    {
      if v.action != Action.Reattach {
        return false;
      }
      var fetched := FetchInto(repo, v.ref, v.base);
      if !fetchWorks || fetched == None {
        return false;
      }
      if Proper(repo) && Vetted(repo, v) {
        ghost var now, idle, fails :| MayReattach(repo, v.ref, v.base, now, idle, fails);
        ReattachKeeps(repo, v.ref, v.base, now, idle, fails);
      }
      FetchKeepsCommits(repo, v.ref, v.base);
      repo := fetched.value;
      var switched := CheckOut(repo, v.base);
      if !checkoutWorks || switched == None {
        return false;
      }
      repo := switched.value;
      if v.base !in repo.tracks && "refs/remotes/origin/" <= v.ref {
        if trackWorks {
          repo := repo.(tracks := repo.tracks[v.base := v.ref]);
        }
      }
      return true;
    }
  }
}
