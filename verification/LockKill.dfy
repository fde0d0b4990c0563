/** Killing the owners of the refresh lock while processes exit and their pids are handed out again.
    A pid is only a name; an `id` stands for one process for ever. */
module LockKill {
  /** Where `_kill_owner` stands: it holds a handle on whatever process `pid` named when the pidfd was
      opened, and then what the ownership re-check of `pid` said. The plain path has no handle. */
  datatype Phase =
    | Idle
    | Opened(pid: int, handle: int)
    | Checked(pid: int, handle: int, verdict: bool, ownersThen: set<int>)
    | PlainChecked(pid: int, verdict: bool, ownersThen: set<int>)

  /** A SIGKILL that reached process `id`, and who owned the lock at the re-check before it. */
  datatype Signal = Signal(id: int, ownersThen: set<int>, plain: bool)

  /** `named` maps each pid in use to its process; `used` holds every process there ever was. */
  datatype World = World(
    named: map<int, int>,
    used: set<int>,
    owners: set<int>,
    me: int,
    myPid: int,
    phase: Phase,
    signals: seq<Signal>)

  /** `readable`: the descriptors of the process that `pid` names can be listed; those of another uid's
      process cannot, and then it counts as no owner. `permitted`: the kernel lets the signal through. */
  datatype Step =
    | Exit(pid: int)
    | NewProcess(pid: int, id: int, inherits: bool)
    | CloseLock(id: int)
    | OpenHandle(pid: int)
    | Recheck(readable: bool)
    | Send(permitted: bool)
    | PlainRecheck(pid: int, readable: bool)
    | PlainKill(permitted: bool)

  predicate Owned(w: World, pid: int) {
    pid in w.named && w.named[pid] in w.owners
  }

  function Killed(w: World, pid: int): World
    requires pid in w.named
  {
    w.(named := w.named - {pid}, owners := w.owners - {w.named[pid]})
  }

  /** One step. Victims are pids of a scan made at some earlier moment, so any pid but the caller's. The
      caller itself does not exit here: a run ends when it does. */
  function Next(w: World, s: Step): World {
    match s
    case Exit(pid) =>
      if pid in w.named && pid != w.myPid then Killed(w, pid) else w
    case NewProcess(pid, id, inherits) =>
      if pid !in w.named && id !in w.used then
        w.(named := w.named[pid := id], used := w.used + {id},
           owners := if inherits then w.owners + {id} else w.owners)
      else w
    case CloseLock(id) => w.(owners := w.owners - {id})
    case OpenHandle(pid) =>
      if w.phase == Idle && pid != w.myPid && pid in w.named then w.(phase := Opened(pid, w.named[pid])) else w
    case Recheck(readable) =>
      if !w.phase.Opened? then w
      else
        var p := w.phase;
        w.(phase := Checked(p.pid, p.handle, readable && Owned(w, p.pid), w.owners))
    case Send(permitted) =>
      if !w.phase.Checked? then w
      else
        var p := w.phase;
        var alive := p.pid in w.named && w.named[p.pid] == p.handle;
        if p.verdict && alive && permitted then
          Killed(w, p.pid).(phase := Idle, signals := w.signals + [Signal(p.handle, p.ownersThen, false)])
        else w.(phase := Idle)
    case PlainRecheck(pid, readable) =>
      if w.phase == Idle && pid != w.myPid then w.(phase := PlainChecked(pid, readable && Owned(w, pid), w.owners))
      else w
    case PlainKill(permitted) =>
      if !w.phase.PlainChecked? then w
      else
        var p := w.phase;
        if p.verdict && p.pid in w.named && permitted then
          Killed(w, p.pid).(phase := Idle, signals := w.signals + [Signal(w.named[p.pid], p.ownersThen, true)])
        else w.(phase := Idle)
  }

  function Run(w: World, steps: seq<Step>): World {
    if steps == [] then w
    else Next(Run(w, steps[..|steps| - 1]), steps[|steps| - 1])
  }

  /** A process has one name for life, and the caller is alive under its own. */
  ghost predicate Names(w: World) {
    && (forall p :: p in w.named ==> w.named[p] in w.used)
    && (forall p, q :: p in w.named && q in w.named && p != q ==> w.named[p] != w.named[q])
    && w.myPid in w.named && w.named[w.myPid] == w.me
  }

  ghost predicate Alive(w: World, id: int) {
    exists p :: p in w.named && w.named[p] == id
  }

  /** The handle's process, while it lives, is still the one `pid` names, so the re-check spoke of it. */
  ghost predicate PhaseInv(w: World) {
    match w.phase
    case Idle => true
    case Opened(pid, handle) =>
      && pid != w.myPid && handle in w.used && handle != w.me
      && (Alive(w, handle) ==> pid in w.named && w.named[pid] == handle)
    case Checked(pid, handle, verdict, ownersThen) =>
      && pid != w.myPid && handle in w.used && handle != w.me
      && (Alive(w, handle) ==> pid in w.named && w.named[pid] == handle)
      && (Alive(w, handle) && verdict ==> handle in ownersThen)
    case PlainChecked(pid, _, _) => pid != w.myPid
  }

  ghost predicate SignalInv(w: World) {
    forall s :: s in w.signals ==> s.id != w.me && (!s.plain ==> s.id in s.ownersThen)
  }

  ghost predicate Inv(w: World) {
    Names(w) && PhaseInv(w) && SignalInv(w)
  }

  lemma StepKeeps(w: World, s: Step)
    requires Inv(w)
    ensures Inv(Next(w, s))
  {
    match s
    case Exit(pid) => if pid in w.named { NamesOnlyShrink(w, pid); }
    case Send(_) =>
      if w.phase.Checked? && w.phase.pid in w.named {
        NamesOnlyShrink(w, w.phase.pid);
        assert w.named[w.phase.pid] == w.phase.handle ==> Alive(w, w.phase.handle);
      }
    case PlainKill(_) =>
    case NewProcess(pid, id, _) =>
      if pid !in w.named && id !in w.used {
        var w' := Next(w, s);
        forall h | h in w.used && Alive(w', h) ensures Alive(w, h) {
          var p :| p in w'.named && w'.named[p] == h;
          assert p in w.named && w.named[p] == h;
        }
      }
    case _ =>
  }

  lemma NamesOnlyShrink(w: World, pid: int)
    requires Names(w) && pid in w.named
    ensures forall h :: Alive(Killed(w, pid), h) ==> Alive(w, h) && w.named[pid] != h
  {
    forall h | Alive(Killed(w, pid), h) ensures Alive(w, h) && w.named[pid] != h {
      var p :| p in Killed(w, pid).named && Killed(w, pid).named[p] == h;
      assert p in w.named && p != pid;
    }
  }

  lemma {:induction false} RunKeeps(w: World, steps: seq<Step>)
    requires Inv(w)
    ensures Inv(Run(w, steps)) && Run(w, steps).me == w.me
  {
    if steps != [] {
      RunKeeps(w, steps[..|steps| - 1]);
      StepKeeps(Run(w, steps[..|steps| - 1]), steps[|steps| - 1]);
    }
  }

  /** Over every interleaving of exits, forks and recycled pids: a signal through a pidfd reached only a
      process that owned the lock at the re-check after its pidfd was opened; no signal reached the caller. */
  lemma SignalsOnlyOwners(w: World, steps: seq<Step>, k: nat)
    requires Names(w) && w.phase == Idle && w.signals == []
    requires k < |Run(w, steps).signals|
    ensures var s := Run(w, steps).signals[k];
      && s.id != w.me
      && (!s.plain ==> s.id in s.ownersThen)
  {
    RunKeeps(w, steps);
    assert Run(w, steps).signals[k] in Run(w, steps).signals;
  }

  /** The owners change with the processes: a child of an owner becomes one, and one that closes the lock or is
      gone is none any more. */
  lemma OwnersAre(w: World, s: Step, id: int)
    requires Inv(w)
    ensures id in Next(w, s).owners <==>
      || (id in w.owners && s != CloseLock(id) && (Alive(w, id) ==> Alive(Next(w, s), id)))
      || (s.NewProcess? && s.inherits && s.id == id && s.pid !in w.named && id !in w.used)
    ensures s.Exit? && s.pid in w.named && s.pid != w.myPid ==> !Alive(Next(w, s), w.named[s.pid])
  {
    var w' := Next(w, s);
    forall p | p in w.named && p in w'.named ensures w'.named[p] == w.named[p] {
    }
    if p :| p in w.named && p !in w'.named {
      NamesOnlyShrink(w, p);
      assert w'.named == w.named - {p};
    } else if p :| p in w.named && w.named[p] == id {
      assert p in w'.named && w'.named[p] == id;
    }
  }

  /** A victim that is still alive and still owns the lock is killed, and owns nothing afterwards, exactly if
      its descriptors can be read at the re-check and the signal is let through. If not, nothing happens to it. */
  lemma OwnerIsKilled(w: World, pid: int, readable: bool, permitted: bool)
    requires Inv(w) && w.phase == Idle && pid != w.myPid && Owned(w, pid)
    ensures var w' := Next(Next(Next(w, OpenHandle(pid)), Recheck(readable)), Send(permitted));
      if readable && permitted then
        && w'.signals == w.signals + [Signal(w.named[pid], w.owners, false)]
        && pid !in w'.named
        && w'.owners == w.owners - {w.named[pid]}
      else w' == w
  {
  }

  /** Where there are no pidfds, a victim that nothing happens to between the two steps fares alike: it is killed
      exactly if it owns the lock, can be read and may be signalled. */
  lemma OwnerIsKilledPlainly(w: World, pid: int, readable: bool, permitted: bool)
    requires Inv(w) && w.phase == Idle && pid != w.myPid
    ensures var w' := Next(Next(w, PlainRecheck(pid, readable)), PlainKill(permitted));
      if readable && permitted && pid in w.named && w.named[pid] in w.owners then
        && w'.signals == w.signals + [Signal(w.named[pid], w.owners, true)]
        && pid !in w'.named
        && w'.owners == w.owners - {w.named[pid]}
      else w' == w
  {
  }

  /** The plain path gives no such promise: a pid recycled between its re-check and its kill is hit. */
  lemma PlainPathHitsRecycledPid() returns (w: World, steps: seq<Step>)
    ensures Names(w) && w.phase == Idle && w.signals == []
    ensures Run(w, steps).signals == [Signal(8, {7}, true)] && 8 !in Run(w, steps).owners
  {
    w := World(map[1 := 1, 5 := 7], {1, 7}, {7}, 1, 1, Idle, []);
    var a := Next(w, PlainRecheck(5, true));
    var b := Next(a, Exit(5));
    var c := Next(b, NewProcess(5, 8, false));
    var d := Next(c, PlainKill(true));
    steps := [PlainRecheck(5, true), Exit(5), NewProcess(5, 8, false), PlainKill(true)];
    assert steps[..1] == [PlainRecheck(5, true)] && steps[..1][..0] == [];
    assert steps[..2][..1] == steps[..1];
    assert steps[..3][..2] == steps[..2];
    assert Run(w, steps[..1]) == a;
    assert Run(w, steps[..2]) == b;
    assert Run(w, steps[..3]) == c;
    assert d.signals == [Signal(8, {7}, true)];
  }
}
