/** The integration lock under interleaved acquire, release, crash and death (cli_autopilot_lock.py:206-296).
    `release` takes no mutex, `acquire` writes in two steps, and a recorded pid may be reused. */
module AutopilotLock {
  import opened Options

  type Session = nat
  type Pid = nat

  /** What lies at the lock's path. `Torn` is a file that does not parse. A directory is `Removable` when it is
      empty and no link. */
  datatype LockFile = Absent | Removable | Stuck | Torn | Held(pid: Pid)

  /** How far the command a session has issued has come. */
  datatype Phase =
    | Idle
    | Releasing            // the lock was seen to exist
    | Owned                // it was read and names this session: about to unlink
    | Queued               // waits for the mutex
    | Entered              // has the mutex
    | Looked(holder: Option<Pid>)
    | Cleared              // nobody alive holds it: about to write
    | Truncated
    | Written              // about to give the mutex back and report success

  /** `holds`: the sessions that were told ACQUIRED and have not removed the lock since. `others`: the live
      pids of processes that are no session. */
  datatype World = World(file: LockFile, mutex: Option<Session>, live: set<Session>, pid: map<Session, Pid>,
                         others: set<Pid>, op: map<Session, Phase>, holds: set<Session>)

  datatype Step =
    | StartRelease(s: Session)
    | ReadRelease(s: Session)
    | Unlink(s: Session)
    | StartAcquire(s: Session)
    | TakeMutex(s: Session)
    | Look(s: Session)
    | Judge(s: Session)
    | Truncate(s: Session)
    | Write(s: Session)
    | Finish(s: Session)
    | Crash(s: Session)             // the command dies, the session goes on
    | Die(s: Session)               // the session dies; the proviso is that no command of it is running
    | Start(s: Session, p: Pid)     // a new session, on any pid that is free, used before or not
    | OtherStarts(p: Pid)
    | OtherExits(p: Pid)

  predicate Alive(w: World, p: Pid) {
    p in w.others || exists s :: s in w.live && s in w.pid && w.pid[s] == p
  }

  function PhaseOf(w: World, s: Session): Phase { if s in w.op then w.op[s] else Idle }

  /** A live session may take the next step of its command. */
  predicate May(w: World, s: Session, phase: Phase) {
    s in w.live && s in w.pid && PhaseOf(w, s) == phase
  }

  predicate Enabled(w: World, step: Step) {
    match step
    case StartRelease(s) => May(w, s, Idle)
    case ReadRelease(s) => May(w, s, Releasing)
    case Unlink(s) => May(w, s, Owned)
    case StartAcquire(s) => May(w, s, Idle)
    case TakeMutex(s) => May(w, s, Queued) && w.mutex == None
    case Look(s) => May(w, s, Entered)
    case Judge(s) => s in w.live && s in w.pid && PhaseOf(w, s).Looked?
    case Truncate(s) => May(w, s, Cleared)
    case Write(s) => May(w, s, Truncated)
    case Finish(s) => May(w, s, Written)
    case Crash(s) => s in w.live && s in w.pid
    case Die(s) => May(w, s, Idle)
    case Start(s, p) => s !in w.pid && !Alive(w, p)
    case OtherStarts(p) => !Alive(w, p)
    case OtherExits(p) => p in w.others
  }

  function At(w: World, s: Session, phase: Phase): World { w.(op := w.op[s := phase]) }

  /** The command gives up the mutex, if it has it, and ends. */
  function Exit(w: World, s: Session): World {
    At(w, s, Idle).(mutex := if w.mutex == Some(s) then None else w.mutex)
  }

  function Next(w: World, step: Step): World
    requires Enabled(w, step)
  {
    match step
    case StartRelease(s) =>
      if w.file == Absent then w.(holds := w.holds - {s}) else At(w, s, Releasing)
    case ReadRelease(s) =>
      if w.file == Held(w.pid[s]) then At(w, s, Owned) else Exit(w, s).(holds := w.holds - {s})
    case Unlink(s) =>
      var removed := if w.file == Torn || w.file.Held? then Absent else w.file;
      Exit(w, s).(file := removed, holds := w.holds - {s})
    case StartAcquire(s) => At(w, s, Queued)
    case TakeMutex(s) => At(w, s, Entered).(mutex := Some(s))
    case Look(s) =>
      (match w.file
       case Absent => At(w, s, Cleared)
       case Removable => At(w, s, Cleared).(file := Absent)
       case Stuck => Exit(w, s)
       case Torn => At(w, s, Looked(None))
       case Held(p) => At(w, s, Looked(Some(p))))
    case Judge(s) =>
      var holder := PhaseOf(w, s).holder;
      if holder.Some? && Alive(w, holder.value) then Exit(w, s) else At(w, s, Cleared)
    case Truncate(s) => At(w, s, Truncated).(file := Torn)
    case Write(s) => At(w, s, Written).(file := Held(w.pid[s]))
    case Finish(s) => Exit(w, s).(holds := w.holds + {s})
    case Crash(s) => Exit(w, s)
    case Die(s) => w.(live := w.live - {s})
    case Start(s, p) => w.(live := w.live + {s}, pid := w.pid[s := p], op := w.op[s := Idle], holds := w.holds - {s})
    case OtherStarts(p) => w.(others := w.others + {p})
    case OtherExits(p) => w.(others := w.others - {p})
  }

  /** No release reads its own pid in the lock while an acquire has judged that lock dead and not yet
      overwritten it. (Such a session can only have been started on the pid of the dead holder.) */
  predicate Orderly(w: World, step: Step) {
    step.ReadRelease? && step.s in w.pid && w.file == Held(w.pid[step.s]) ==>
      forall t :: t in w.live ==> PhaseOf(w, t) != Cleared
  }

  predicate Initial(w: World) {
    w.mutex == None && w.live == {} && w.pid == map[] && w.op == map[] && w.holds == {}
  }

  /** The worlds of a run, each reached from the one before by the step beside it. */
  predicate Run(ws: seq<World>, steps: seq<Step>) {
    && |ws| == |steps| + 1 && Initial(ws[0])
    && forall k :: 0 <= k < |steps| ==> Enabled(ws[k], steps[k]) && ws[k + 1] == Next(ws[k], steps[k])
  }

  predicate OrderlyRun(ws: seq<World>, steps: seq<Step>)
    requires |ws| == |steps| + 1
  {
    forall k :: 0 <= k < |steps| ==> Orderly(ws[k], steps[k])
  }

  /** At most one live session believes it holds the lock, and then the lock names it. */
  predicate Exclusive(w: World) {
    && (forall s :: s in w.live && s in w.holds ==> s in w.pid && w.file == Held(w.pid[s]))
    && (forall s, t :: s in w.live && t in w.live && s in w.holds && t in w.holds ==> s == t)
  }

  // ---------------------------------------------------------------------------
  // the invariant
  // ---------------------------------------------------------------------------

  predicate PidsAreDistinct(w: World) {
    && w.live <= w.pid.Keys
    && (forall s, t :: s in w.live && t in w.live && w.pid[s] == w.pid[t] ==> s == t)
    && (forall s :: s in w.live ==> w.pid[s] !in w.others)
  }

  /** What is known while a command of `s` is in a phase. */
  predicate PhaseOk(w: World, s: Session)
    requires PidsAreDistinct(w) && s in w.live
  {
    match PhaseOf(w, s)
    case Idle => true
    case Releasing => true
    case Owned => w.file == Held(w.pid[s])
    case Queued => true
    case Entered => w.mutex == Some(s)
    case Looked(None) => w.mutex == Some(s) && !w.file.Held?
    case Looked(Some(p)) => w.mutex == Some(s) && (w.file.Held? ==> w.file == Held(p))
    case Cleared => w.mutex == Some(s) && NamesNoHolder(w)
    case Truncated => w.mutex == Some(s) && w.file == Torn
    case Written => w.mutex == Some(s) && w.file == Held(w.pid[s])
  }

  /** A live session that the lock names neither holds it nor is about to remove it. */
  predicate NamesNoHolder(w: World)
    requires PidsAreDistinct(w)
  {
    forall t :: t in w.live && w.file == Held(w.pid[t]) ==> t !in w.holds && PhaseOf(w, t) != Owned
  }

  predicate Inv(w: World) {
    && PidsAreDistinct(w)
    && (forall s :: s in w.live ==> PhaseOk(w, s))
    && (forall s :: s in w.live && s in w.holds ==> w.file == Held(w.pid[s]))
  }

  /** A step of a command outside the mutex that leaves the lock alone. */
  lemma OutsideKeeps(w: World, step: Step, s: Session)
    requires Inv(w) && Enabled(w, step) && Orderly(w, step)
    requires step == StartRelease(s) || step == ReadRelease(s) || step == StartAcquire(s)
    ensures Inv(Next(w, step))
  {
    var v := Next(w, step);
    assert PhaseOk(w, s);
    forall t | t in v.live ensures PhaseOk(v, t) && (t in v.holds ==> v.file == Held(v.pid[t])) {
      assert PhaseOk(w, t);
    }
  }

  /** A step of the command that has, takes or gives back the mutex and leaves the lock alone. */
  lemma MutexStepKeeps(w: World, step: Step, s: Session)
    requires Inv(w) && Enabled(w, step)
    requires step == TakeMutex(s) || step == Judge(s) || step == Finish(s) || step == Crash(s)
    ensures Inv(Next(w, step))
  {
    var v := Next(w, step);
    assert PhaseOk(w, s);
    forall t | t in v.live ensures PhaseOk(v, t) && (t in v.holds ==> v.file == Held(v.pid[t])) {
      assert PhaseOk(w, t);
    }
  }

  lemma LookKeeps(w: World, s: Session)
    requires Inv(w) && Enabled(w, Look(s))
    ensures Inv(Next(w, Look(s)))
  {
    var v := Next(w, Look(s));
    assert PhaseOk(w, s);
    forall t | t in v.live ensures PhaseOk(v, t) && (t in v.holds ==> v.file == Held(v.pid[t])) {
      assert PhaseOk(w, t);
    }
  }

  lemma UnlinkKeeps(w: World, s: Session)
    requires Inv(w) && Enabled(w, Unlink(s))
    ensures Inv(Next(w, Unlink(s)))
  {
    var v := Next(w, Unlink(s));
    assert PhaseOk(w, s);
    forall t | t in v.live ensures PhaseOk(v, t) && t !in v.holds {
      assert PhaseOk(w, t);
    }
  }

  lemma WritingKeeps(w: World, step: Step, s: Session)
    requires Inv(w) && Enabled(w, step) && (step == Truncate(s) || step == Write(s))
    ensures Inv(Next(w, step))
  {
    var v := Next(w, step);
    assert PhaseOk(w, s);
    forall t | t in v.live ensures PhaseOk(v, t) && t !in v.holds {
      assert PhaseOk(w, t);
    }
  }

  lemma ProcessStepKeeps(w: World, step: Step)
    requires Inv(w) && Enabled(w, step)
    requires step.Die? || step.Start? || step.OtherStarts? || step.OtherExits?
    ensures Inv(Next(w, step))
  {
    var v := Next(w, step);
    assert PidsAreDistinct(v);
    forall t | t in v.live ensures PhaseOk(v, t) && (t in v.holds ==> v.file == Held(v.pid[t])) {
      if t in w.live { assert PhaseOk(w, t); }
    }
  }

  /** Every step keeps the invariant. */
  lemma StepKeeps(w: World, step: Step)
    requires Inv(w) && Enabled(w, step) && Orderly(w, step)
    ensures Inv(Next(w, step))
  {
    match step
    case Look(s) => LookKeeps(w, s);
    case Unlink(s) => UnlinkKeeps(w, s);
    case Truncate(s) => WritingKeeps(w, step, s);
    case Write(s) => WritingKeeps(w, step, s);
    case Die(_) => ProcessStepKeeps(w, step);
    case Start(_, _) => ProcessStepKeeps(w, step);
    case OtherStarts(_) => ProcessStepKeeps(w, step);
    case OtherExits(_) => ProcessStepKeeps(w, step);
    case StartRelease(s) => OutsideKeeps(w, step, s);
    case ReadRelease(s) => OutsideKeeps(w, step, s);
    case StartAcquire(s) => OutsideKeeps(w, step, s);
    case _ => MutexStepKeeps(w, step, step.s);
  }

  lemma {:induction false} RunKeeps(ws: seq<World>, steps: seq<Step>, k: nat)
    requires Run(ws, steps) && OrderlyRun(ws, steps) && k < |ws|
    ensures Inv(ws[k])
  {
    if k > 0 {
      RunKeeps(ws, steps, k - 1);
      StepKeeps(ws[k - 1], steps[k - 1]);
    }
  }

  // ---------------------------------------------------------------------------
  // what it gives
  // ---------------------------------------------------------------------------

  /** In every run without such a release at most one live session believes it holds the lock, whatever crashed
      or died when, and whichever pids were used again. */
  lemma LockIsExclusive(ws: seq<World>, steps: seq<Step>, k: nat)
    requires Run(ws, steps) && OrderlyRun(ws, steps) && k < |ws|
    ensures Exclusive(ws[k])
  {
    RunKeeps(ws, steps, k);
  }

  /** Nothing but the holder's own release overwrites or removes the lock of a live holder. A lock that names a
      live session which does not hold it may besides be overwritten by an acquire that judged the pid dead
      before that session was started on it. */
  lemma OnlyTheHolderEndsAHold(ws: seq<World>, steps: seq<Step>, k: nat, s: Session)
    requires Run(ws, steps) && OrderlyRun(ws, steps) && k < |steps|
    requires s in ws[k].live && s in ws[k].pid && ws[k].file == Held(ws[k].pid[s])
    ensures s in ws[k].holds ==> ws[k + 1].file == ws[k].file || steps[k] == Unlink(s)
    ensures ws[k + 1].file == ws[k].file || steps[k] == Unlink(s) || steps[k].Truncate?
    ensures s in ws[k].holds && s in ws[k + 1].live ==> s in ws[k + 1].holds || steps[k] == Unlink(s)
  {
    RunKeeps(ws, steps, k);
    var w := ws[k];
    assert forall t :: t in w.live ==> PhaseOk(w, t);
  }

  // ---------------------------------------------------------------------------
  // one command running alone
  // ---------------------------------------------------------------------------

  /** The world after the steps, if each of them is enabled in turn. */
  function After(w: World, steps: seq<Step>): Option<World>
    decreases |steps|
  {
    if steps == [] then Some(w)
    else if Enabled(w, steps[0]) then After(Next(w, steps[0]), steps[1..])
    else None
  }

  lemma AfterSuffix(w: World, v: World, all: seq<Step>, k: nat)
    requires k < |all| && Enabled(w, all[k]) && v == Next(w, all[k])
    ensures After(w, all[k..]) == After(v, all[k + 1..])
  {
    assert all[k..][1..] == all[k + 1..];
  }

  lemma AfterFirst(w: World, step: Step, rest: seq<Step>)
    requires Enabled(w, step)
    ensures After(w, [step] + rest) == After(Next(w, step), rest)
  {
    assert ([step] + rest)[1..] == rest;
  }

  lemma {:induction false} AfterConcat(w: World, a: seq<Step>, b: seq<Step>)
    requires After(w, a).Some?
    ensures After(w, a + b) == After(After(w, a).value, b)
    decreases |a|
  {
    if a == [] {
      assert a + b == b;
    } else {
      AfterConcat(Next(w, a[0]), a[1..], b);
      assert (a + b)[1..] == a[1..] + b;
    }
  }

  /** Somebody alive holds the lock, or something that is not ours to remove lies in its place. */
  predicate Blocked(w: World) { w.file == Stuck || (w.file.Held? && Alive(w, w.file.pid)) }

  function EnterSteps(w: World, s: Session): seq<Step> {
    if w.file.Held? || w.file == Torn then [StartAcquire(s), TakeMutex(s), Look(s), Judge(s)]
    else [StartAcquire(s), TakeMutex(s), Look(s)]
  }

  function WriteSteps(s: Session): seq<Step> { [Truncate(s), Write(s), Finish(s)] }

  function AcquireSteps(w: World, s: Session): seq<Step> {
    EnterSteps(w, s) + if Blocked(w) then [] else WriteSteps(s)
  }

  function Entering(w: World, s: Session): World {
    if Blocked(w) then At(w, s, Idle)
    else At(w, s, Cleared).(mutex := Some(s), file := if w.file == Removable then Absent else w.file)
  }

  lemma AtTwice(w: World, s: Session, first: Phase, last: Phase)
    ensures At(At(w, s, first), s, last) == At(w, s, last)
  {
    assert w.op[s := first][s := last] == w.op[s := last];
  }

  lemma QueueAlone(w: World, s: Session)
    requires May(w, s, Idle) && w.mutex == None
    ensures After(w, [StartAcquire(s), TakeMutex(s)]) == Some(At(w, s, Entered).(mutex := Some(s)))
  {
    var w1 := Next(w, StartAcquire(s));
    AfterFirst(w, StartAcquire(s), [TakeMutex(s)]);
    AfterFirst(w1, TakeMutex(s), []);
    AtTwice(w, s, Queued, Entered);
    assert [StartAcquire(s)] + [TakeMutex(s)] == [StartAcquire(s), TakeMutex(s)];
  }

  lemma LookAlone(w: World, s: Session)
    requires May(w, s, Entered) && w.mutex == Some(s) && !w.file.Held? && w.file != Torn
    ensures After(w, [Look(s)]) == Some(
      if w.file == Stuck then At(w, s, Idle).(mutex := None)
      else At(w, s, Cleared).(file := if w.file == Removable then Absent else w.file))
  {
    AfterFirst(w, Look(s), []);
  }

  lemma JudgeAlone(w: World, s: Session)
    requires May(w, s, Entered) && w.mutex == Some(s) && (w.file.Held? || w.file == Torn)
    ensures After(w, [Look(s), Judge(s)]) == Some(
      if Blocked(w) then At(w, s, Idle).(mutex := None) else At(w, s, Cleared))
  {
    var w1 := Next(w, Look(s));
    var holder := if w.file == Torn then None else Some(w.file.pid);
    assert w1 == At(w, s, Looked(holder));
    AfterFirst(w, Look(s), [Judge(s)]);
    AfterFirst(w1, Judge(s), []);
    AtTwice(w, s, Looked(holder), Idle);
    AtTwice(w, s, Looked(holder), Cleared);
    assert [Look(s)] + [Judge(s)] == [Look(s), Judge(s)];
  }

  lemma EnterAlone(w: World, s: Session)
    requires May(w, s, Idle) && w.mutex == None
    ensures After(w, EnterSteps(w, s)) == Some(Entering(w, s))
  {
    var w2 := At(w, s, Entered).(mutex := Some(s));
    QueueAlone(w, s);
    AtTwice(w, s, Entered, Idle);
    AtTwice(w, s, Entered, Cleared);
    if w.file.Held? || w.file == Torn {
      AfterConcat(w, [StartAcquire(s), TakeMutex(s)], [Look(s), Judge(s)]);
      assert EnterSteps(w, s) == [StartAcquire(s), TakeMutex(s)] + [Look(s), Judge(s)];
      JudgeAlone(w2, s);
    } else {
      AfterConcat(w, [StartAcquire(s), TakeMutex(s)], [Look(s)]);
      assert EnterSteps(w, s) == [StartAcquire(s), TakeMutex(s)] + [Look(s)];
      LookAlone(w2, s);
    }
  }

  lemma WriteAlone(w: World, s: Session)
    requires May(w, s, Cleared) && w.mutex == Some(s)
    ensures After(w, WriteSteps(s)) ==
      Some(At(w, s, Idle).(file := Held(w.pid[s]), mutex := None, holds := w.holds + {s}))
  {
    var all := WriteSteps(s);
    var w1 := Next(w, Truncate(s));
    var w2 := Next(w1, Write(s));
    var w3 := Next(w2, Finish(s));
    assert all[0..] == all;
    AfterSuffix(w, w1, all, 0);
    AfterSuffix(w1, w2, all, 1);
    AfterSuffix(w2, w3, all, 2);
    assert w3.op == w.op[s := Idle];
  }

  /** An `acquire` that nobody disturbs takes the lock unless a live holder or a full directory is in its way,
      and otherwise leaves everything as it was. */
  lemma AcquireAlone(w: World, s: Session)
    requires May(w, s, Idle) && w.mutex == None
    ensures After(w, AcquireSteps(w, s)) == Some(
      if Blocked(w) then At(w, s, Idle)
      else At(w, s, Idle).(file := Held(w.pid[s]), holds := w.holds + {s}))
  {
    EnterAlone(w, s);
    if Blocked(w) {
      assert AcquireSteps(w, s) == EnterSteps(w, s);
    } else {
      AfterConcat(w, EnterSteps(w, s), WriteSteps(s));
      WriteAlone(Entering(w, s), s);
      assert Entering(w, s).op[s := Idle] == w.op[s := Idle];
    }
  }

  function ReleaseSteps(w: World, s: Session): seq<Step>
    requires s in w.pid
  {
    if w.file == Absent then [StartRelease(s)]
    else if w.file == Held(w.pid[s]) then [StartRelease(s), ReadRelease(s), Unlink(s)]
    else [StartRelease(s), ReadRelease(s)]
  }

  /** A `release` that nobody disturbs removes the lock exactly if it names the caller. */
  lemma ReleaseAlone(w: World, s: Session)
    requires May(w, s, Idle) && w.mutex != Some(s)
    ensures After(w, ReleaseSteps(w, s)).Some?
    ensures var v := After(w, ReleaseSteps(w, s)).value;
      && v.file == (if w.file == Held(w.pid[s]) then Absent else w.file)
      && v.holds == w.holds - {s} && PhaseOf(v, s) == Idle && v.mutex == w.mutex
  {
    if w.file == Absent {
      AfterFirst(w, StartRelease(s), []);
    } else {
      var w1 := Next(w, StartRelease(s));
      var w2 := Next(w1, ReadRelease(s));
      var tail := if w.file == Held(w.pid[s]) then [Unlink(s)] else [];
      assert ReleaseSteps(w, s) == [StartRelease(s)] + ([ReadRelease(s)] + tail);
      AfterFirst(w, StartRelease(s), [ReadRelease(s)] + tail);
      AfterFirst(w1, ReadRelease(s), tail);
      if tail != [] { AfterFirst(w2, Unlink(s), []); }
    }
  }

  /** Once a release has read its own pid, it removes whatever file lies there by then, and no directory; from
      then on it does not count as holding the lock. */
  lemma UnlinkRemovesAnyFile(w: World, s: Session)
    requires May(w, s, Owned)
    ensures var v := Next(w, Unlink(s));
      && v.file == (if w.file == Torn || w.file.Held? then Absent else w.file)
      && s !in v.holds && PhaseOf(v, s) == Idle
  {
  }

  // ---------------------------------------------------------------------------
  // nobody is locked out
  // ---------------------------------------------------------------------------

  predicate UnderMutex(phase: Phase) { phase !in {Idle, Releasing, Owned, Queued} }

  /** The mutex belongs to the one live session whose command is at work under it, if there is one. */
  predicate MutexIsUsed(w: World) {
    && (w.mutex.Some? ==> w.mutex.value in w.live && UnderMutex(PhaseOf(w, w.mutex.value)))
    && (forall s :: s in w.live && UnderMutex(PhaseOf(w, s)) ==> w.mutex == Some(s))
  }

  /** What holds in every run, orderly or not. */
  predicate Sound(w: World) { PidsAreDistinct(w) && MutexIsUsed(w) }

  lemma PidsKept(w: World, step: Step)
    requires PidsAreDistinct(w) && Enabled(w, step)
    ensures PidsAreDistinct(Next(w, step))
  {
  }

  lemma PhasesElsewhere(w: World, step: Step, s: Session, t: Session)
    requires Sound(w) && Enabled(w, step) && t != s
    requires !step.OtherStarts? && !step.OtherExits? && step.s == s
    ensures PhaseOf(Next(w, step), t) == PhaseOf(w, t)
    ensures t in Next(w, step).live <==> t in w.live
  {
  }

  lemma MutexKept(w: World, step: Step)
    requires Sound(w) && Enabled(w, step)
    ensures MutexIsUsed(Next(w, step))
  {
    var w' := Next(w, step);
    if !step.OtherStarts? && !step.OtherExits? {
      var s := step.s;
      OwnPhase(w, step);
      forall t | t != s ensures PhaseOf(w', t) == PhaseOf(w, t) && (t in w'.live <==> t in w.live) {
        PhasesElsewhere(w, step, s, t);
      }
    }
  }

  /** The session that takes the step has the mutex afterwards exactly if it goes on under it. */
  lemma OwnPhase(w: World, step: Step)
    requires Sound(w) && Enabled(w, step) && !step.OtherStarts? && !step.OtherExits?
    ensures var w' := Next(w, step);
      && (w'.mutex == Some(step.s) <==> step.s in w'.live && UnderMutex(PhaseOf(w', step.s)))
      && (w'.mutex != w.mutex ==> w.mutex == Some(step.s) || (w.mutex == None && w'.mutex == Some(step.s)))
      && (w'.mutex != w.mutex && w.mutex == Some(step.s) ==> w'.mutex == None)
  {
  }

  lemma SoundKept(w: World, step: Step)
    requires Sound(w) && Enabled(w, step)
    ensures Sound(Next(w, step))
  {
    PidsKept(w, step);
    MutexKept(w, step);
  }

  lemma {:induction false} SoundRun(ws: seq<World>, steps: seq<Step>, k: nat)
    requires Run(ws, steps) && k < |ws|
    ensures Sound(ws[k])
  {
    if k > 0 {
      SoundRun(ws, steps, k - 1);
      SoundKept(ws[k - 1], steps[k - 1]);
    }
  }

  /** The command under the mutex dies. */
  lemma MutexComesFree(w: World) returns (more: seq<Step>, v: World)
    requires Sound(w)
    ensures After(w, more) == Some(v) && v.mutex == None && Sound(v)
    ensures v.live == w.live && v.pid == w.pid && v.others == w.others && v.file == w.file
  {
    if w.mutex == None {
      more, v := [], w;
    } else {
      var m := w.mutex.value;
      more, v := [Crash(m)], Next(w, Crash(m));
      SoundKept(w, Crash(m));
      AfterFirst(w, Crash(m), []);
    }
  }

  /** Whoever the lock names dies. */
  lemma HolderDies(w: World, t: Session) returns (more: seq<Step>, v: World)
    requires Sound(w) && w.mutex == None && t in w.live && w.file != Stuck && w.file != Held(w.pid[t])
    ensures After(w, more) == Some(v) && v.mutex == None && v.pid == w.pid && v.file == w.file && !Blocked(v)
    ensures t in v.live && forall s :: s in w.live && s !in v.live ==> w.file == Held(w.pid[s])
  {
    if !Blocked(w) {
      more, v := [], w;
    } else if w.file.pid in w.others {
      var exit := OtherExits(w.file.pid);
      more, v := [exit], Next(w, exit);
      AfterFirst(w, exit, []);
    } else {
      var s :| s in w.live && s in w.pid && w.pid[s] == w.file.pid;
      var w1 := Next(w, Crash(s));
      more, v := [Crash(s)] + [Die(s)], Next(w1, Die(s));
      AfterFirst(w, Crash(s), [Die(s)]);
      AfterFirst(w1, Die(s), []);
    }
  }

  /** In every world of every run, orderly or not, any live session can go on to win the lock, unless a full
      directory is in its place or the lock names that session already: it is enough that the command under the
      mutex is killed, that whoever the lock names dies, and that the session tries again. */
  lemma AnySessionCanWin(ws: seq<World>, steps: seq<Step>, k: nat, t: Session) returns (more: seq<Step>, v: World)
    requires Run(ws, steps) && k < |ws|
    requires var w := ws[k]; t in w.live && t in w.pid && w.file != Stuck && w.file != Held(w.pid[t])
    ensures After(ws[k], more) == Some(v)
    ensures t in v.live && t in v.holds && t in v.pid && v.file == Held(v.pid[t])
    ensures var w := ws[k]; forall s :: s in w.live && s !in v.live ==> s in w.pid && w.file == Held(w.pid[s])
  {
    SoundRun(ws, steps, k);
    var w := ws[k];
    var free, w1 := MutexComesFree(w);
    var death, w2 := HolderDies(w1, t);
    var w3 := Next(w2, Crash(t));
    AfterConcat(w, free, death);
    AfterFirst(w2, Crash(t), AcquireSteps(w3, t));
    AfterConcat(w, free + death, [Crash(t)] + AcquireSteps(w3, t));
    AcquireAlone(w3, t);
    more := free + death + ([Crash(t)] + AcquireSteps(w3, t));
    v := After(w, more).value;
  }

  // ---------------------------------------------------------------------------
  // the proviso is exact
  // ---------------------------------------------------------------------------

  function BreakingSteps(reader: Session, thief: Session): seq<Step> {
    [ReadRelease(reader)] + (WriteSteps(thief) + [Unlink(reader)])
  }

  /** From any world the invariant allows, one release that is not orderly is enough: the acquire it raced with
      may finish, and then the release removes its lock. The thief believes it holds a lock that is not there,
      and any third session can take it as well. */
  lemma DisorderBreaksExclusion(w: World, reader: Session, thief: Session)
    requires Inv(w) && Enabled(w, ReadRelease(reader)) && !Orderly(w, ReadRelease(reader))
    requires thief in w.live && PhaseOf(w, thief) == Cleared
    ensures After(w, BreakingSteps(reader, thief)).Some?
    ensures var v := After(w, BreakingSteps(reader, thief)).value;
      && v.live == w.live && thief in v.holds && v.file == Absent && !Exclusive(v)
      && forall third :: third != thief && third != reader && May(w, third, Idle) ==>
           TakesToo(v, thief, third)
  {
    assert PhaseOk(w, thief);
    var x1 := Next(w, ReadRelease(reader));
    AfterFirst(w, ReadRelease(reader), WriteSteps(thief) + [Unlink(reader)]);
    assert x1 == At(w, reader, Owned);
    WriteAlone(x1, thief);
    var x2 := After(x1, WriteSteps(thief)).value;
    AfterConcat(x1, WriteSteps(thief), [Unlink(reader)]);
    AfterFirst(x2, Unlink(reader), []);
    var v := Next(x2, Unlink(reader));
    assert [Unlink(reader)] + [] == [Unlink(reader)];
    forall third | third != thief && third != reader && May(w, third, Idle) ensures TakesToo(v, thief, third) {
      AcquireAlone(v, third);
    }
  }

  /** An acquire of `third` succeeds although `thief` believes it holds the lock. */
  ghost predicate TakesToo(v: World, thief: Session, third: Session) {
    && After(v, AcquireSteps(v, third)).Some?
    && var u := After(v, AcquireSteps(v, third)).value;
    && thief in u.live && third in u.live && thief in u.holds && third in u.holds
  }

  /** `reader` (started on the pid of a dead holder) asks for a release between the moment `thief` judges that
      holder dead and the moment it writes. */
  function ReuseSteps(w: World, thief: Session, reader: Session, p: Pid): seq<Step> {
    EnterSteps(w, thief) + (SneakSteps(reader, p) + (WriteSteps(thief) + [Unlink(reader)]))
  }

  function SneakSteps(reader: Session, p: Pid): seq<Step> {
    [Start(reader, p), StartRelease(reader), ReadRelease(reader)]
  }

  lemma SneakIn(w: World, reader: Session, p: Pid)
    requires reader !in w.pid && !Alive(w, p) && w.file == Held(p)
    ensures After(w, SneakSteps(reader, p)) ==
      Some(w.(live := w.live + {reader}, pid := w.pid[reader := p], op := w.op[reader := Owned],
              holds := w.holds - {reader}))
  {
    var all := SneakSteps(reader, p);
    var w1 := Next(w, Start(reader, p));
    var w2 := Next(w1, StartRelease(reader));
    var w3 := Next(w2, ReadRelease(reader));
    assert all[0..] == all;
    AfterSuffix(w, w1, all, 0);
    AfterSuffix(w1, w2, all, 1);
    AfterSuffix(w2, w3, all, 2);
    assert w3.op == w.op[reader := Owned];
  }

  /** Then the lock of the thief is gone while the thief still believes it holds it, and a third session can
      take it: two live sessions believe they hold the lock. */
  lemma ReusedPidBreaksExclusion(w: World, thief: Session, reader: Session, third: Session, p: Pid)
    requires May(w, thief, Idle) && May(w, third, Idle) && reader !in w.pid && thief != third
    requires w.mutex == None && w.file == Held(p) && !Alive(w, p)
    ensures After(w, ReuseSteps(w, thief, reader, p)).Some?
    ensures var v := After(w, ReuseSteps(w, thief, reader, p)).value;
      && After(v, AcquireSteps(v, third)).Some?
      && var u := After(v, AcquireSteps(v, third)).value;
      && thief in u.live && third in u.live && thief in u.holds && third in u.holds && !Exclusive(u)
  {
    EnterAlone(w, thief);
    var x1 := Entering(w, thief);
    AfterConcat(w, EnterSteps(w, thief), SneakSteps(reader, p) + (WriteSteps(thief) + [Unlink(reader)]));
    SneakIn(x1, reader, p);
    var x2 := After(x1, SneakSteps(reader, p)).value;
    AfterConcat(x1, SneakSteps(reader, p), WriteSteps(thief) + [Unlink(reader)]);
    WriteAlone(x2, thief);
    var x3 := After(x2, WriteSteps(thief)).value;
    AfterConcat(x2, WriteSteps(thief), [Unlink(reader)]);
    AfterFirst(x3, Unlink(reader), []);
    var v := Next(x3, Unlink(reader));
    assert [Unlink(reader)] + [] == [Unlink(reader)];
    AcquireAlone(v, third);
  }
}
