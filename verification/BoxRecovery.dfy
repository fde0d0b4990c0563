/** Nothing that can happen to the box is for good: from every world of every run it can be made usable again. */
module BoxRecovery {
  import opened BoxRecord
  import opened BoxInvariant
  import opened BoxLaws
  import opened BoxFifo
  import opened RefreshProtocol
  import opened BoxWork
  import opened BoxRuns
  import opened Options
  import Seqs

  /** Steps that do no harm to the file. */
  predicate Kind(s: Step) { !s.Damage? && !s.CrashAfterMove? }

  /** `more` goes on after `steps` without damage and without either of the two coincidences. */
  ghost predicate GoesOn(steps: seq<Step>, more: seq<Step>, cfg: Config) {
    && (forall s :: s in more ==> Kind(s))
    && (SafeRun(steps, cfg) ==> SafeRun(steps + more, cfg))
    && (HeedsRun(steps, cfg) ==> HeedsRun(steps + more, cfg))
  }

  lemma GoesOnByOne(steps: seq<Step>, s: Step, cfg: Config)
    requires Kind(s) && Heeds(Run(steps, cfg), s, cfg)
    ensures GoesOn(steps, [s], cfg) && Run(steps + [s], cfg) == Next(Run(steps, cfg), s, cfg)
  {
    assert (steps + [s])[..|steps|] == steps;
  }

  lemma GoesOnTogether(steps: seq<Step>, a: seq<Step>, b: seq<Step>, cfg: Config)
    requires GoesOn(steps, a, cfg) && GoesOn(steps + a, b, cfg)
    ensures GoesOn(steps, a + b, cfg) && Run(steps + (a + b), cfg) == Run(steps + a + b, cfg)
  {
    Seqs.Assoc(steps, a, b);
    forall s | s in a + b ensures Kind(s) {
      Seqs.InConcat(a, b, s);
    }
  }

  // ---------------------------------------------------------------------------
  // a lock has an owner
  // ---------------------------------------------------------------------------

  ghost predicate LockIsOwned(w: World) {
    w.locked.Some? ==> exists p :: Owns(w, p)
  }

  lemma OwnedThroughWithout(w: World, gone: set<int>)
    ensures LockIsOwned(Without(w, gone))
  {
    var w' := Without(w, gone);
    if w'.locked.Some? {
      var p :| p in w.procs - gone && w.locked == Some((w.procs - gone)[p].ofd);
      assert Owns(w', p);
    }
  }

  lemma OwnedThroughPhase(w: World, pid: int, phase: Phase)
    requires LockIsOwned(w) && IsCli(w, pid)
    ensures LockIsOwned(SetPhase(w, pid, phase))
  {
    if w.locked.Some? {
      var p :| Owns(w, p);
      assert Owns(SetPhase(w, pid, phase), p);
    }
  }

  lemma OwnedThroughMore(w: World, w': World)
    requires LockIsOwned(w) && w'.locked == w.locked
    requires forall p :: p in w.procs ==> p in w'.procs && w'.procs[p].ofd == w.procs[p].ofd
    ensures LockIsOwned(w')
  {
    if w.locked.Some? {
      var p :| Owns(w, p);
      assert Owns(w', p);
    }
  }

  /** The kernel frees the lock with the last descriptor of its open file description. */
  lemma OwnedKept(w: World, s: Step, cfg: Config)
    requires LockIsOwned(w)
    ensures LockIsOwned(Next(w, s, cfg))
  {
    if Enabled(w, s, cfg) {
      match s
      case Vanish(pid) => OwnedThroughWithout(w, {pid});
      case Grab(pid) => assert Owns(Next(w, s, cfg), pid);
      case Sweep(pid, dead, unseen, rcZero) =>
        OwnedThroughWithout(w, dead);
        OwnedThroughPhase(Without(w, dead), pid, Next(w, s, cfg).procs[pid].phase);
      case Request(_, _, _, dead, _, _, _) =>
        OwnedThroughWithout(w, set p | p in dead && Owns(w, p));
        OwnedThroughMore(AfterKill(w, s.now, dead), Next(w, s, cfg));
      case Begin(pid, token, _, _, _, _) => OwnedThroughTransaction(w, s, cfg);
      case End(pid, _, _, _, _, _) => OwnedThroughTransaction(w, s, cfg);
      case _ => OwnedThroughMore(w, Next(w, s, cfg));
    }
  }

  lemma OwnedThroughTransaction(w: World, s: Step, cfg: Config)
    requires LockIsOwned(w) && Enabled(w, s, cfg) && (s.Begin? || s.End?)
    ensures LockIsOwned(Next(w, s, cfg))
  {
    var w' := Next(w, s, cfg);
    if s.pid in w'.procs {
      OwnedThroughMore(w, w');
    } else if w'.locked.Some? {
      var p :| p in w'.procs && w.locked == Some(w'.procs[p].ofd);
      assert Owns(w', p);
    }
  }

  lemma {:induction false} LockIsAlwaysOwned(steps: seq<Step>, cfg: Config)
    ensures LockIsOwned(Run(steps, cfg))
  {
    if steps != [] {
      LockIsAlwaysOwned(steps[..|steps| - 1], cfg);
      OwnedKept(Run(steps[..|steps| - 1], cfg), steps[|steps| - 1], cfg);
    }
  }

  // ---------------------------------------------------------------------------
  // everybody dies
  // ---------------------------------------------------------------------------

  lemma SomeoneOrNobody(procs: map<int, Proc>)
    ensures procs == map[] || exists p :: p in procs
  {
    if forall p :: p !in procs {
      NobodyIn(procs.Keys);
    }
  }

  lemma NobodyIn(pids: set<int>)
    requires forall p :: p !in pids
    ensures pids == {}
  {
    assert forall p :: p in pids <==> p in {};
  }

  /** Every process may die, and with the last one the lock is free. */
  lemma {:induction false} AllMayDie(steps: seq<Step>, cfg: Config) returns (more: seq<Step>)
    ensures GoesOn(steps, more, cfg)
    ensures var w, w' := Run(steps, cfg), Run(steps + more, cfg);
      w'.procs == map[] && w'.locked == None && w'.disk == w.disk && w'.tokens == w.tokens
    decreases |Run(steps, cfg).procs|
  {
    var w := Run(steps, cfg);
    SomeoneOrNobody(w.procs);
    if p :| p in w.procs {
      GoesOnByOne(steps, Vanish(p), cfg);
      assert w.procs.Keys == (w.procs - {p}).Keys + {p};
      assert |w.procs - {p}| < |w.procs|;
      var rest := AllMayDie(steps + [Vanish(p)], cfg);
      GoesOnTogether(steps, [Vanish(p)], rest, cfg);
      more := [Vanish(p)] + rest;
    } else {
      LockIsAlwaysOwned(steps, cfg);
      assert w.procs == map[];
      more := [];
      Seqs.Nothing(steps);
    }
  }

  // ---------------------------------------------------------------------------
  // one refresh by a CLI that is alone
  // ---------------------------------------------------------------------------

  /** The process that is alone in the world, with the open file description `o`. */
  ghost predicate Alone(w: World, o: nat, phase: Phase, locked: Option<nat>) {
    w.procs == map[1 := Cli(o, phase)] && w.locked == locked
  }

  lemma OpensAndGrabs(steps: seq<Step>, cfg: Config)
    requires Run(steps, cfg).procs == map[] && Run(steps, cfg).locked == None
    ensures GoesOn(steps, [Open(1)] + [Grab(1)], cfg)
    ensures var w, w' := Run(steps, cfg), Run(steps + ([Open(1)] + [Grab(1)]), cfg);
      && Alone(w', w.nextOfd, Grabbed, Some(w.nextOfd))
      && w'.disk == w.disk && w'.tokens == w.tokens
  {
    GoesOnByOne(steps, Open(1), cfg);
    var w, w' := Run(steps, cfg), Run(steps + [Open(1)], cfg);
    assert w'.procs == map[1 := Cli(w.nextOfd, Opened)];
    GoesOnByOne(steps + [Open(1)], Grab(1), cfg);
    assert Run(steps + [Open(1)] + [Grab(1)], cfg).procs == map[1 := Cli(w.nextOfd, Grabbed)];
    GoesOnTogether(steps, [Open(1)], [Grab(1)], cfg);
  }

  /** A file whose refresh under `token` has begun, with nobody waiting. */
  ghost predicate Refreshes(disk: Disk, token: string) {
    && Readable(disk) && disk.rec.status == Refreshing && disk.rec.queue == []
    && disk.rec.refresh.Some? && disk.rec.refresh.value.token == token
  }

  /** When everybody who waits or holds is dead, a forced refresh begins on whatever is in the file. */
  lemma BeginsOnAnything(disk: Disk, token: string, now: Time, cfg: Config)
    requires DiskOk(disk) && cfg.hasRefresh
    ensures var out := Transact(disk, DoStart(token, 1, true), cfg, Env(now, {}, Free, true));
      out.answer == RefreshBegun && Refreshes(out.disk, token)
  {
    var op, env := DoStart(token, 1, true), Env(now, {}, Free, true);
    var r := Load(disk, now);
    LoadIsConsistent(disk, now);
    ReapKeeps(r, cfg, env);
    var reaped := Reap(r, cfg, env).rec;
    if r.holder.Some? {
      HoldSurvivesIff(r, cfg, env);
    }
    OnlyLapsedAreDropped(r, "", cfg, env);
    if reaped.queue != [] {
      EntrySurvivesIff(r, reaped.queue[0], cfg, env);
    }
    RefreshStartsIff(reaped, token, 1, true, cfg, now);
    TransactKeeps(disk, op, cfg, env);
    CommandSeesReaped(disk, op, cfg, env);
  }

  lemma Begins(steps: seq<Step>, o: nat, token: string, now: Time, cfg: Config) returns (begin: Step)
    requires ValidConfig(cfg) && cfg.hasRefresh && FileInv(Run(steps, cfg), cfg)
    requires Alone(Run(steps, cfg), o, Grabbed, Some(o)) && token !in Run(steps, cfg).tokens
    ensures GoesOn(steps, [begin], cfg)
    ensures var w := Run(steps + [begin], cfg);
      Alone(w, o, Running(token), Some(o)) && Refreshes(w.disk, token)
  {
    var w := Run(steps, cfg);
    var out := Transact(w.disk, DoStart(token, 1, true), cfg, Env(now, {}, Free, true));
    BeginsOnAnything(w.disk, token, now, cfg);
    begin := Begin(1, token, true, now, {}, |out.events|);
    GoesOnByOne(steps, begin, cfg);
    assert Run(steps + [begin], cfg).procs == map[1 := Cli(o, Running(token))];
  }

  lemma Sweeps(steps: seq<Step>, o: nat, token: string, cfg: Config)
    requires Alone(Run(steps, cfg), o, Running(token), Some(o))
    ensures var sweep := Sweep(1, {}, {}, true);
      && GoesOn(steps, [sweep], cfg)
      && Alone(Run(steps + [sweep], cfg), o, Settled(token, true), Some(o))
      && Run(steps + [sweep], cfg).disk == Run(steps, cfg).disk
  {
    var w, sweep := Run(steps, cfg), Sweep(1, {}, {}, true);
    GoesOnByOne(steps, sweep, cfg);
    assert w.procs - {} == w.procs;
    assert Owns(w, 1);
    assert Run(steps + [sweep], cfg).procs == map[1 := Cli(o, Settled(token, true))];
  }

  lemma Ends(steps: seq<Step>, o: nat, token: string, now: Time, cfg: Config)
    requires ValidConfig(cfg) && cfg.hasRefresh && FileInv(Run(steps, cfg), cfg)
    requires Alone(Run(steps, cfg), o, Settled(token, true), Some(o)) && Refreshes(Run(steps, cfg).disk, token)
    ensures var end := End(1, true, "", now, {}, 1);
      var w := Run(steps + [end], cfg);
      && GoesOn(steps, [end], cfg)
      && Alone(w, o, Finished, Some(o))
      && StatusOn(w.disk) == Pristine && QueueOn(w.disk) == []
  {
    var w, end := Run(steps, cfg), End(1, true, "", now, {}, 1);
    assert OnlyOwner(w, 1);
    GoesOnByOne(steps, end, cfg);
    FinishSucceeds(w.disk, DoFinish(token, true, ""), cfg, EnvOf(w, end, cfg));
    assert Run(steps + [end], cfg).procs == map[1 := Cli(o, Finished)];
  }

  lemma Exits(steps: seq<Step>, o: nat, cfg: Config)
    requires Alone(Run(steps, cfg), o, Finished, Some(o))
    ensures var w, w' := Run(steps, cfg), Run(steps + [Vanish(1)], cfg);
      && GoesOn(steps, [Vanish(1)], cfg)
      && w'.procs == map[] && w'.locked == None && w'.disk == w.disk
  {
    GoesOnByOne(steps, Vanish(1), cfg);
    assert Run(steps, cfg).procs - {1} == map[];
  }

  // ---------------------------------------------------------------------------
  // the result
  // ---------------------------------------------------------------------------

  /** There is always a token that was not drawn yet. */
  lemma {:induction false} FreshToken(tokens: set<string>, n: nat) returns (token: string)
    requires forall t :: t in tokens ==> |t| >= n
    ensures token !in tokens && |token| >= n
    decreases |tokens|
  {
    token := seq(n, _ => 't');
    if token in tokens {
      var longer := set t | t in tokens && |t| > n;
      assert longer <= tokens && token in tokens - longer;
      assert |longer| + |tokens - longer| == |tokens|;
      token := FreshToken(longer, n + 1);
    }
  }

  lemma RefreshedAlone(steps: seq<Step>, now: Time, cfg: Config) returns (more: seq<Step>)
    requires ValidConfig(cfg) && cfg.hasRefresh
    requires Run(steps, cfg).procs == map[] && Run(steps, cfg).locked == None
    ensures GoesOn(steps, more, cfg)
    ensures var w := Run(steps + more, cfg);
      && w.procs == map[] && w.locked == None
      && StatusOn(w.disk) == Pristine && QueueOn(w.disk) == []
  {
    var token := FreshToken(Run(steps, cfg).tokens, 0);
    var o := Run(steps, cfg).nextOfd;
    more := [Open(1)] + [Grab(1)];
    OpensAndGrabs(steps, cfg);
    BaseRunKeeps(steps + more, cfg);
    var begin := Begins(steps + more, o, token, now, cfg);
    more := Onward(steps, more, begin, cfg);
    Sweeps(steps + more, o, token, cfg);
    more := Onward(steps, more, Sweep(1, {}, {}, true), cfg);
    BaseRunKeeps(steps + more, cfg);
    Ends(steps + more, o, token, now, cfg);
    more := Onward(steps, more, End(1, true, "", now, {}, 1), cfg);
    Exits(steps + more, o, cfg);
    more := Onward(steps, more, Vanish(1), cfg);
  }

  lemma Onward(steps: seq<Step>, more: seq<Step>, s: Step, cfg: Config) returns (longer: seq<Step>)
    requires GoesOn(steps, more, cfg) && GoesOn(steps + more, [s], cfg)
    ensures longer == more + [s] && GoesOn(steps, longer, cfg)
    ensures steps + longer == steps + more + [s]
  {
    longer := more + [s];
    GoesOnTogether(steps, more, [s], cfg);
    Seqs.Assoc(steps, more, [s]);
  }

  /** From every world of every run, whoever died where and whatever damaged the file, things can go on, with no
      further damage and neither of the two coincidences, so that the box is pristine and its lock free: once
      everybody is gone, one refresh does it. */
  lemma AlwaysRecoverable(steps: seq<Step>, now: Time, cfg: Config) returns (more: seq<Step>)
    requires ValidConfig(cfg) && cfg.hasRefresh
    ensures GoesOn(steps, more, cfg)
    ensures var w := Run(steps + more, cfg);
      && w.procs == map[] && w.locked == None
      && StatusOn(w.disk) == Pristine && QueueOn(w.disk) == []
  {
    var deaths := AllMayDie(steps, cfg);
    var refresh := RefreshedAlone(steps + deaths, now, cfg);
    GoesOnTogether(steps, deaths, refresh, cfg);
    more := deaths + refresh;
  }

  /** And so that any lane gets it. */
  lemma AnyLaneGetsTheBox(steps: seq<Step>, lane: string, pid: int, now: Time, cfg: Config) returns (more: seq<Step>)
    requires ValidConfig(cfg) && cfg.hasRefresh && Accepts(DoTake(lane, pid, cfg.leaseS), cfg)
    ensures GoesOn(steps, more, cfg)
    ensures StatusOn(Run(steps + more, cfg).disk) == Held(lane)
  {
    more := AlwaysRecoverable(steps, now, cfg);
    var take := Request(DoTake(lane, pid, cfg.leaseS), now, {pid}, {}, [], [], 2);
    BaseRunKeeps(steps + more, cfg);
    ThenTaken(steps + more, lane, pid, now, cfg);
    GoesOnByOne(steps + more, take, cfg);
    more := Onward(steps, more, take, cfg);
  }
}
