/** The sweep of left-over integration locks (cli_autopilot_lock.py:372-559, 604-760). Nothing serialises it
    with an acquire, so the directory may change at any time; only the moment between one re-check and the
    delete that follows it is taken as undisturbed. */
module LockLitter {
  import AutopilotLock
  import opened Options

  type Pid = nat

  /** The names of the sweep: `<stem>.lock`, `<stem>.lock.mutex` and `<stem>.lock-real-target`. */
  datatype Form = Lock | Mutex | RealTarget

  datatype Name = Name(form: Form, stem: string)

  /** `empty` is `None` for a directory that cannot be listed; `holder` is `None` for a file without a pid. */
  datatype Shape =
    | Regular(holder: Option<Pid>)
    | Link(toDir: bool, empty: Option<bool>)
    | Directory(empty: Option<bool>)
    | Special

  datatype Entry = Entry(shape: Shape, age: int, mine: bool)

  /** What `lstat` finds; a name that is not there, or no longer, cannot be examined. */
  type Dir = map<Name, Entry>

  datatype Kind = LockFile | LockSymlink | LockDir | MutexFile | TargetDir

  datatype Reason = StatFailed | Foreign | TooRecent | NoTarget | Uninspectable | NotEmpty | NotRegular
                  | HolderAlive | NotPlainDir | BaseNotLitter

  datatype Row = Row(name: Name, kind: Kind, reason: Option<Reason>)

  predicate Dead(holder: Option<Pid>, alive: set<Pid>) { holder == None || holder.value !in alive }

  predicate IsDir(s: Shape) { s.Directory? || (s.Link? && s.toDir) }

  // ---------------------------------------------------------------------------
  // what litter is
  // ---------------------------------------------------------------------------

  predicate LitterLock(dir: Dir, alive: set<Pid>, minAge: int, stem: string) {
    var name := Name(Lock, stem);
    && name in dir && dir[name].mine && dir[name].age >= minAge
    && match dir[name].shape
       case Regular(holder) => Dead(holder, alive)
       case Link(_, _) =>
         var target := Name(RealTarget, stem);
         target in dir && IsDir(dir[target].shape) && dir[target].shape.empty == Some(true)
       case Directory(empty) => empty == Some(true)
       case Special => false
  }

  /** A companion goes only if its lock is gone or goes too. */
  predicate Litter(dir: Dir, alive: set<Pid>, minAge: int, name: Name) {
    match name.form
    case Lock => LitterLock(dir, alive, minAge, name.stem)
    case Mutex =>
      && name in dir && dir[name].mine && dir[name].age >= minAge
      && (Name(Lock, name.stem) in dir ==> LitterLock(dir, alive, minAge, name.stem))
    case RealTarget =>
      && name in dir && dir[name].mine && dir[name].age >= minAge && dir[name].shape == Directory(Some(true))
      && (Name(Lock, name.stem) in dir ==> LitterLock(dir, alive, minAge, name.stem))
  }

  // ---------------------------------------------------------------------------
  // discover_autopilot_lock_litter
  // ---------------------------------------------------------------------------

  function EmptyReason(empty: Option<bool>): Option<Reason> {
    if empty == None then Some(Uninspectable) else if !empty.value then Some(NotEmpty) else None
  }

  /** A reason to keep a name is true of it; `target` is where a link of that stem would lead. */
  ghost predicate RowBecause(reason: Reason, dir: Dir, alive: set<Pid>, minAge: int, name: Name) {
    var target := Name(RealTarget, name.stem);
    if name !in dir then reason == StatFailed
    else
      var e := dir[name];
      match reason
      case StatFailed => false
      case Foreign => !e.mine
      case TooRecent => e.mine && e.age < minAge
      case NoTarget => e.shape.Link? && !(target in dir && IsDir(dir[target].shape))
      case Uninspectable => EmptinessOf(dir, name) == Some(None)
      case NotEmpty => EmptinessOf(dir, name) == Some(Some(false))
      case NotRegular => e.shape.Special?
      case HolderAlive => e.shape.Regular? && e.shape.holder.Some? && e.shape.holder.value in alive
      case NotPlainDir => name.form == RealTarget && !e.shape.Directory?
      case BaseNotLitter =>
        name.form != Lock && Name(Lock, name.stem) in dir && !LitterLock(dir, alive, minAge, name.stem)
  }

  /** What listing a directory said, or the directory that a link leads to. */
  ghost function EmptinessOf(dir: Dir, name: Name): Option<Option<bool>> {
    var target := Name(RealTarget, name.stem);
    if name !in dir then None
    else if dir[name].shape.Directory? then Some(dir[name].shape.empty)
    else if dir[name].shape.Link? && name.form == Lock && target in dir && IsDir(dir[target].shape)
    then Some(dir[target].shape.empty)
    else None
  }

  method LockRow(dir: Dir, alive: set<Pid>, minAge: int, name: Name) returns (row: Row)
    requires name in dir && name.form == Lock
    ensures row.name == name && (row.reason == None <==> LitterLock(dir, alive, minAge, name.stem))
    ensures row.reason == None ==> KindFits(row.kind, dir[name].shape)
    ensures row.reason.Some? ==> RowBecause(row.reason.value, dir, alive, minAge, name)
  {
    var e := dir[name];
    var reason: Option<Reason> := None;
    var kind;
    if !e.mine {
      kind := if e.shape.Link? then LockSymlink else if e.shape.Directory? then LockDir else LockFile;
      reason := Some(Foreign);
    } else if e.shape.Link? {
      kind := LockSymlink;
      var target := Name(RealTarget, name.stem);
      if e.age < minAge {
        reason := Some(TooRecent);
      } else if target !in dir || !IsDir(dir[target].shape) {
        reason := Some(NoTarget);
      } else {
        reason := EmptyReason(dir[target].shape.empty);
      }
    } else if e.shape.Directory? {
      kind := LockDir;
      reason := if e.age < minAge then Some(TooRecent) else EmptyReason(e.shape.empty);
    } else {
      kind := LockFile;
      if e.age < minAge {
        reason := Some(TooRecent);
      } else if !e.shape.Regular? {
        reason := Some(NotRegular);
      } else if !Dead(e.shape.holder, alive) {
        reason := Some(HolderAlive);
      }
    }
    assert name == Name(Lock, name.stem);
    return Row(name, kind, reason);
  }

  predicate KindFits(kind: Kind, shape: Shape) {
    match shape
    case Regular(_) => kind == LockFile
    case Link(_, _) => kind == LockSymlink
    case Directory(_) => kind == LockDir
    case Special => false
  }

  /** What a row says of its name. */
  ghost predicate Judged(row: Row, dir: Dir, alive: set<Pid>, minAge: int) {
    && (row.reason == None <==> Litter(dir, alive, minAge, row.name))
    && (row.reason.Some? ==> RowBecause(row.reason.value, dir, alive, minAge, row.name))
    && match row.name.form
       case Lock => row.reason == None ==> row.name in dir && KindFits(row.kind, dir[row.name].shape)
       case Mutex => row.kind == MutexFile
       case RealTarget => row.kind == TargetDir
  }

  ghost predicate HasRow(rows: seq<Row>, name: Name) { exists r :: r in rows && r.name == name }

  lemma AppendedRow(rows: seq<Row>, row: Row)
    ensures forall n :: HasRow(rows + [row], n) <==> HasRow(rows, n) || row.name == n
    ensures forall r :: r in rows + [row] <==> r in rows || r == row
  {
    assert row in rows + [row];
    forall n | HasRow(rows, n) ensures HasRow(rows + [row], n) {
      var r :| r in rows && r.name == n;
      assert r in rows + [row];
    }
  }

  /** Each listed name gets one row, and exactly the litter gets no reason to be kept. The locks are judged
      first, so that a mutex or a target can be judged by its lock. */
  method Discover(names: seq<Name>, dir: Dir, alive: set<Pid>, minAge: int) returns (rows: seq<Row>)
    requires forall n :: n in dir ==> n in names
    ensures forall r :: r in rows ==> r.name in names && Judged(r, dir, alive, minAge)
    ensures forall n :: n in names ==> HasRow(rows, n)
  {
    rows := [];
    var litter: map<string, bool> := map[];
    for k := 0 to |names|
      invariant forall r :: r in rows ==> r.name in names && Judged(r, dir, alive, minAge)
      invariant forall i :: 0 <= i < k && names[i].form == Lock ==> HasRow(rows, names[i])
      invariant forall s :: s in litter ==> Name(Lock, s) in dir && litter[s] == LitterLock(dir, alive, minAge, s)
      invariant forall i :: 0 <= i < k && names[i].form == Lock && names[i] in dir ==> names[i].stem in litter
    {
      var name := names[k];
      if name.form != Lock { continue; }
      var row := Row(name, LockFile, Some(StatFailed));
      if name in dir {
        row := LockRow(dir, alive, minAge, name);
        litter := litter[name.stem := row.reason == None];
      }
      AppendedRow(rows, row);
      rows := rows + [row];
    }
    assert forall s :: Name(Lock, s) in dir ==> s in litter;
    for k := 0 to |names|
      invariant forall r :: r in rows ==> r.name in names && Judged(r, dir, alive, minAge)
      invariant forall i :: 0 <= i < |names| && (names[i].form == Lock || i < k) ==> HasRow(rows, names[i])
    {
      if names[k].form == Lock { continue; }
      var row := CompanionRow(names[k], dir, alive, minAge, litter);
      AppendedRow(rows, row);
      rows := rows + [row];
    }
  }

  /** The second and third loop: what `lock_litter` says of the lock decides over its companion. */
  method CompanionRow(name: Name, dir: Dir, alive: set<Pid>, minAge: int, litter: map<string, bool>)
    returns (row: Row)
    requires name.form != Lock
    requires forall s :: s in litter <==> Name(Lock, s) in dir
    requires forall s :: s in litter ==> litter[s] == LitterLock(dir, alive, minAge, s)
    ensures row.name == name && (row.reason == None <==> Litter(dir, alive, minAge, name))
    ensures row.reason.Some? ==> RowBecause(row.reason.value, dir, alive, minAge, name)
    ensures row.kind == if name.form == Mutex then MutexFile else TargetDir
  {
    var kind := if name.form == Mutex then MutexFile else TargetDir;
    if name !in dir { return Row(name, kind, Some(StatFailed)); }
    var e := dir[name];
    var reason: Option<Reason> := None;
    if !e.mine {
      reason := Some(Foreign);
    } else if e.age < minAge {
      reason := Some(TooRecent);
    } else if name.form == RealTarget && !e.shape.Directory? {
      reason := Some(NotPlainDir);
    } else {
      if name.form == RealTarget {
        reason := EmptyReason(e.shape.empty);
      }
      if reason == None && name.stem in litter && !litter[name.stem] {
        reason := Some(BaseNotLitter);
      }
    }
    return Row(name, kind, reason);
  }

  // ---------------------------------------------------------------------------
  // sweep_autopilot_lock_litter
  // ---------------------------------------------------------------------------

  /** What the sweep finds at the turn of one candidate; `refused` says that the delete itself failed. */
  datatype Turn = Turn(dir: Dir, alive: set<Pid>, refused: bool)

  /** What may be deleted at its turn, said without the order of the checks: a lock only when nobody alive
      holds it, a mutex only when nobody alive holds its lock, a directory only when nothing is in it. */
  predicate Deletable(row: Row, t: Turn) {
    && row.name in t.dir
    && var shape := t.dir[row.name].shape;
    match row.kind
    case LockFile => shape.Regular? && Dead(shape.holder, t.alive)
    case LockSymlink =>
      var target := Name(RealTarget, row.name.stem);
      shape.Link? && (target in t.dir && IsDir(t.dir[target].shape) ==> t.dir[target].shape.empty == Some(true))
    case LockDir => shape.Directory? && shape.empty != Some(false)
    case TargetDir => shape.Directory? && shape.empty != Some(false)
    case MutexFile =>
      var base := Name(Lock, row.name.stem);
      !shape.Directory? && (base in t.dir ==> t.dir[base].shape.Regular? && Dead(t.dir[base].shape.holder, t.alive))
  }

  /** The re-check and the delete of one candidate. */
  method Reclaim(row: Row, t: Turn) returns (removed: bool)
    ensures removed <==> Deletable(row, t) && !t.refused
  {
    var there := row.name in t.dir;
    match row.kind
    case LockFile =>
      if !there || !t.dir[row.name].shape.Regular? { return false; }
      if !Dead(t.dir[row.name].shape.holder, t.alive) { return false; }
      return !t.refused;
    case LockSymlink =>
      if !there || !t.dir[row.name].shape.Link? { return false; }
      var target := Name(RealTarget, row.name.stem);
      if target in t.dir && IsDir(t.dir[target].shape) {
        if t.dir[target].shape.empty != Some(true) { return false; }
      }
      return !t.refused;
    case LockDir =>
      if !there || !t.dir[row.name].shape.Directory? { return false; }
      return !t.refused && t.dir[row.name].shape.empty != Some(false);
    case TargetDir =>
      if !there || !t.dir[row.name].shape.Directory? { return false; }
      return !t.refused && t.dir[row.name].shape.empty != Some(false);
    case MutexFile =>
      var base := Name(Lock, row.name.stem);
      if base in t.dir {
        if !t.dir[base].shape.Regular? { return false; }
        if !Dead(t.dir[base].shape.holder, t.alive) { return false; }
      }
      return !t.refused && there && !t.dir[row.name].shape.Directory?;
  }

  /** Discovery gave no reason against the candidate, it is no dry run, and at its own turn it may still be
      deleted and the delete does not fail. */
  predicate Swept(candidate: Row, dryRun: bool, turn: Turn) {
    !dryRun && candidate.reason == None && Deletable(candidate, turn) && !turn.refused
  }

  /** The sweep deletes exactly those candidates. */
  method Sweep(candidates: seq<Row>, dryRun: bool, turns: seq<Turn>) returns (removed: seq<bool>)
    requires |turns| == |candidates|
    ensures |removed| == |candidates|
    ensures forall k :: 0 <= k < |candidates| ==> (removed[k] <==> Swept(candidates[k], dryRun, turns[k]))
  {
    removed := [];
    for k := 0 to |candidates|
      invariant |removed| == k
      invariant forall i :: 0 <= i < k ==> (removed[i] <==> Swept(candidates[i], dryRun, turns[i]))
    {
      var gone := false;
      if candidates[k].reason == None && !dryRun {
        gone := Reclaim(candidates[k], turns[k]);
      }
      removed := removed + [gone];
    }
  }

  /** The lock of the turn, as the integration lock's own protocol sees it. */
  ghost predicate SameLock(e: Entry, alive: set<Pid>, w: AutopilotLock.World) {
    && e.shape.Regular?
    && w.file == (if e.shape.holder.Some? then AutopilotLock.Held(e.shape.holder.value) else AutopilotLock.Torn)
    && forall p :: p in alive <==> AutopilotLock.Alive(w, p)
  }

  /** Every lock file the sweep deletes is one that an acquire at that moment would have taken. */
  lemma SweptLockWasStealable(row: Row, t: Turn, w: AutopilotLock.World, s: AutopilotLock.Session)
    requires row.kind == LockFile && row.name in t.dir && SameLock(t.dir[row.name], t.alive, w)
    requires AutopilotLock.May(w, s, AutopilotLock.Idle) && w.mutex == None
    ensures Deletable(row, t) <==> !AutopilotLock.Blocked(w)
    ensures Deletable(row, t) ==>
      && AutopilotLock.After(w, AutopilotLock.AcquireSteps(w, s)).Some?
      && s in AutopilotLock.After(w, AutopilotLock.AcquireSteps(w, s)).value.holds
  {
    AutopilotLock.AcquireAlone(w, s);
  }

  /** While the holder of a lock is alive, neither the lock nor its mutex is deleted, whatever discovery said. */
  lemma LiveLockIsKept(row: Row, t: Turn)
    requires var base := Name(Lock, row.name.stem);
      base in t.dir && t.dir[base].shape.Regular? && !Dead(t.dir[base].shape.holder, t.alive)
    requires row.kind == LockFile ==> row.name.form == Lock
    ensures row.kind == LockFile || row.kind == MutexFile ==> !Deletable(row, t)
  {
    assert row.name.form == Lock ==> row.name == Name(Lock, row.name.stem);
  }

  /** What litter can be: old enough, of this user, and if its lock is there, one that nobody alive holds, and
      no directory in which something is or might be. */
  lemma LitterIsHarmless(dir: Dir, alive: set<Pid>, minAge: int, name: Name)
    requires Litter(dir, alive, minAge, name)
    ensures name in dir && dir[name].mine && minAge <= dir[name].age
    ensures dir[name].shape.Directory? && name.form != Mutex ==> dir[name].shape.empty == Some(true)
    ensures var base := Name(Lock, name.stem);
      base in dir ==>
        && dir[base].mine && minAge <= dir[base].age
        && (dir[base].shape.Regular? && dir[base].shape.holder.Some? ==> dir[base].shape.holder.value !in alive)
        && (dir[base].shape.Directory? ==> dir[base].shape.empty == Some(true))
        && !dir[base].shape.Special?
  {
    assert name.form == Lock ==> name == Name(Lock, name.stem);
  }

  /** And what always is: a lock file of this user, old enough, that names nobody alive; and any old companion of
      this user whose lock is gone. */
  lemma AbandonedIsLitter(dir: Dir, alive: set<Pid>, minAge: int, stem: string)
    ensures var lock := Name(Lock, stem);
      lock in dir && dir[lock].mine && minAge <= dir[lock].age && dir[lock].shape.Regular?
      && (dir[lock].shape.holder.Some? ==> dir[lock].shape.holder.value !in alive)
      ==> Litter(dir, alive, minAge, lock)
    ensures var mutex := Name(Mutex, stem);
      mutex in dir && dir[mutex].mine && minAge <= dir[mutex].age && Name(Lock, stem) !in dir
      ==> Litter(dir, alive, minAge, mutex)
    ensures var link, target := Name(Lock, stem), Name(RealTarget, stem);
      link in dir && dir[link].mine && minAge <= dir[link].age && dir[link].shape.Link?
      && target in dir && dir[target].shape == Directory(Some(true))
      ==> Litter(dir, alive, minAge, link)
    ensures var lock := Name(Lock, stem);
      lock in dir && dir[lock].mine && minAge <= dir[lock].age && dir[lock].shape == Directory(Some(true))
      ==> Litter(dir, alive, minAge, lock)
  {
  }

  /** Nothing is deleted in which something lies, or behind which something lies. */
  lemma FullDirectoryIsKept(row: Row, t: Turn)
    requires Deletable(row, t)
    ensures row.name in t.dir
    ensures t.dir[row.name].shape.Directory? ==>
      row.kind in {LockDir, TargetDir} && t.dir[row.name].shape.empty != Some(false)
    ensures var target := Name(RealTarget, row.name.stem);
      row.kind == LockSymlink && target in t.dir
      && (t.dir[target].shape.Directory? || (t.dir[target].shape.Link? && t.dir[target].shape.toDir)) ==>
        t.dir[target].shape.empty == Some(true)
  {
  }
}
