/** First come, first served: what one transaction does to the order of the waiting lanes. */
module BoxFifo {
  import opened BoxRecord
  import opened BoxInvariant
  import opened Options

  function Lanes(q: seq<Entry>): (s: seq<string>)
    ensures |s| == |q|
    ensures forall i :: 0 <= i < |q| ==> s[i] == q[i].lane
  {
    seq(|q|, i requires 0 <= i < |q| => q[i].lane)
  }

  /** The log lines with which a lane's turn in the queue ends. */
  predicate EndsWait(e: Event, lane: string) {
    e == Drop(lane) || e == Taken(lane) || e == Withdrawn(lane) || e == CorruptFound || e == Corrupted
  }

  predicate KeepsWaiting(events: seq<Event>, lane: string) {
    forall e :: e in events ==> !EndsWait(e, lane)
  }

  predicate Waits(q: seq<Entry>, lane: string) {
    0 <= IndexOf(q, lane)
  }

  /** `b` is behind `a`: it waits at a later place, or does not wait at all. */
  predicate Behind(q: seq<Entry>, a: string, b: string) {
    Waits(q, b) ==> IndexOf(q, a) < IndexOf(q, b)
  }

  lemma IndexIsPlace(q: seq<Entry>, i: nat)
    requires DistinctLanes(q) && i < |q|
    ensures IndexOf(q, q[i].lane) == i
  {
  }

  // ---------------------------------------------------------------------------
  // the reap
  // ---------------------------------------------------------------------------

  lemma {:induction false} DropsAreLapsed(q: seq<Entry>, cfg: Config, env: Env, i: nat)
    requires i < |q| && Lapsed(q[i], cfg, env)
    ensures Drop(q[i].lane) in Drops(q, cfg, env)
  {
    if i < |q| - 1 {
      DropsAreLapsed(q[..|q| - 1], cfg, env, i);
    }
  }

  lemma {:induction false} LapsedAreDropped(q: seq<Entry>, cfg: Config, env: Env, e: Event) returns (i: nat)
    requires e in Drops(q, cfg, env)
    ensures i < |q| && Lapsed(q[i], cfg, env) && e == Drop(q[i].lane)
  {
    if e in Drops(q[..|q| - 1], cfg, env) {
      i := LapsedAreDropped(q[..|q| - 1], cfg, env, e);
    } else {
      i := |q| - 1;
    }
  }

  lemma {:induction false} SurvivorsSplit(q: seq<Entry>, cfg: Config, env: Env, i: nat)
    requires i <= |q|
    ensures Survivors(q, cfg, env) == Survivors(q[..i], cfg, env) + Survivors(q[i..], cfg, env)
  {
    if i == |q| {
      assert q[..i] == q;
    } else {
      var front := q[..|q| - 1];
      SurvivorsSplit(front, cfg, env, i);
      assert front[..i] == q[..i];
      assert q[i..][..|q[i..]| - 1] == front[i..];
    }
  }

  /** A surviving entry's new place is the number of survivors that were ahead of it. */
  lemma SurvivorPlace(q: seq<Entry>, cfg: Config, env: Env, i: nat)
    requires DistinctLanes(q) && i < |q| && !Lapsed(q[i], cfg, env)
    ensures var s := Survivors(q, cfg, env);
      && DistinctLanes(s)
      && IndexOf(s, q[i].lane) == |Survivors(q[..i], cfg, env)|
      && |Survivors(q[..i], cfg, env)| <= i
  {
    var s := Survivors(q, cfg, env);
    var before := Survivors(q[..i], cfg, env);
    SurvivorsAreDistinct(q, cfg, env);
    SurvivorsAreEntries(q[..i], cfg, env);
    SurvivorsSplit(q, cfg, env, i);
    SurvivorsSplit(q[i..], cfg, env, 1);
    assert q[i..][..1] == [q[i]];
    assert Survivors([q[i]], cfg, env) == [q[i]] by {
      assert [q[i]][..0] == [];
    }
    assert s[|before|] == q[i];
    IndexIsPlace(s, |before|);
  }

  lemma SurvivorsAhead(q: seq<Entry>, cfg: Config, env: Env, i: nat, j: nat)
    requires i < j <= |q| && !Lapsed(q[i], cfg, env)
    ensures |Survivors(q[..i], cfg, env)| < |Survivors(q[..j], cfg, env)|
  {
    SurvivorsSplit(q[..j], cfg, env, i + 1);
    assert q[..j][..i + 1] == q[..i + 1];
    assert q[..i + 1][..i] == q[..i];
  }

  lemma SurvivorWaited(q: seq<Entry>, cfg: Config, env: Env, lane: string) returns (j: nat)
    requires DistinctLanes(q) && Waits(Survivors(q, cfg, env), lane)
    ensures j < |q| && q[j].lane == lane && !Lapsed(q[j], cfg, env) && IndexOf(q, lane) == j
  {
    var s := Survivors(q, cfg, env);
    SurvivorsAreEntries(q, cfg, env);
    var e := s[IndexOf(s, lane)];
    assert e in s;
    assert e in q;
    j :| 0 <= j < |q| && q[j] == e;
    IndexIsPlace(q, j);
  }

  lemma ReapFifo(q: seq<Entry>, cfg: Config, env: Env, a: string, b: string)
    requires DistinctLanes(q) && Waits(q, a) && Drop(a) !in Drops(q, cfg, env) && a != b
    ensures var s := Survivors(q, cfg, env);
      && 0 <= IndexOf(s, a) <= IndexOf(q, a)
      && (Behind(q, a, b) ==> Behind(s, a, b))
  {
    var i := IndexOf(q, a);
    if Lapsed(q[i], cfg, env) {
      DropsAreLapsed(q, cfg, env, i);
    }
    SurvivorPlace(q, cfg, env, i);
    if Waits(Survivors(q, cfg, env), b) {
      var j := SurvivorWaited(q, cfg, env, b);
      SurvivorPlace(q, cfg, env, j);
      if i < j {
        SurvivorsAhead(q, cfg, env, i, j);
      }
    }
  }

  // ---------------------------------------------------------------------------
  // the transitions
  // ---------------------------------------------------------------------------

  lemma {:induction false} AppendPlaces(q: seq<Entry>, e: Entry, lane: string)
    ensures IndexOf(q + [e], lane) == if Waits(q, lane) then IndexOf(q, lane) else if e.lane == lane then |q| else -1
  {
    assert (q + [e])[..|q|] == q;
  }

  lemma JoinPlaces(r: Rec, lane: string, pid: int, now: Time, x: string)
    requires DistinctLanes(r.queue)
    ensures var q := Join(r, lane, pid, now).queue;
      IndexOf(q, x) == if x == lane then JoinPosition(r, lane) - 1 else IndexOf(r.queue, x)
  {
    var i := IndexOf(r.queue, lane);
    var q := Join(r, lane, pid, now).queue;
    if 0 <= i {
      assert Lanes(q) == Lanes(r.queue);
      SameLanesSamePlaces(q, r.queue, x);
    } else {
      AppendPlaces(r.queue, Entry(lane, pid, now, now), x);
    }
  }

  lemma {:induction false} SameLanesSamePlaces(q: seq<Entry>, q': seq<Entry>, x: string)
    requires Lanes(q) == Lanes(q')
    ensures IndexOf(q, x) == IndexOf(q', x)
  {
    assert |q| == |q'|;
    assert forall k :: 0 <= k < |q| ==> q[k].lane == Lanes(q)[k] == q'[k].lane;
  }

  lemma RemovePlaces(q: seq<Entry>, i: nat, x: string)
    requires DistinctLanes(q) && i < |q|
    ensures var p := IndexOf(q, x);
      IndexOf(RemoveAt(q, i), x) == if p == i then -1 else if i < p then p - 1 else p
  {
    var q' := RemoveAt(q, i);
    var p := IndexOf(q, x);
    assert forall k :: 0 <= k < |q'| ==> q'[k] == if k < i then q[k] else q[k + 1];
    assert DistinctLanes(q');
    if 0 <= p && p != i {
      IndexIsPlace(q', if i < p then p - 1 else p);
    } else if Waits(q', x) {
      var k := IndexOf(q', x);
      IndexIsPlace(q, if k < i then k else k + 1);
    }
  }

  /** A take that succeeds removes the head, which is the taker (or found the queue empty); one that
      does not only polls. */
  lemma TakeQueue(r: Rec, lane: string, pid: int, lease: Time, cfg: Config, now: Time)
    requires Consistent(r) && !Holds(r, lane)
    ensures var c := Take(r, lane, pid, lease, cfg, now);
      if r.status == Pristine && JoinPosition(r, lane) == 1 then
        && c.events == JoinEvents(r, lane) + [Taken(lane)]
        && (if r.queue == [] then c.rec.queue == [] else r.queue[0].lane == lane && c.rec.queue == RemoveAt(r.queue, 0))
      else
        c.events == JoinEvents(r, lane) && c.rec.queue == Join(r, lane, pid, now).queue
  {
    var i := IndexOf(r.queue, lane);
    if i == 0 {
      assert r.queue[0 := r.queue[0].(pid := pid, seenAt := now)][1..] == RemoveAt(r.queue, 0);
    }
  }

  lemma ApplyFifo(r: Rec, op: Op, cfg: Config, now: Time, a: string, b: string)
    requires Consistent(r) && Accepts(op, cfg) && Waits(r.queue, a) && a != b
    requires KeepsWaiting(Apply(r, op, cfg, now).events, a)
    ensures var q := Apply(r, op, cfg, now).rec.queue;
      && 0 <= IndexOf(q, a) <= IndexOf(r.queue, a)
      && (Behind(r.queue, a, b) ==> Behind(q, a, b))
  {
    match op
    case DoEnqueue(lane, pid) =>
      if !Holds(r, lane) {
        JoinPlaces(r, lane, pid, now, a);
        JoinPlaces(r, lane, pid, now, b);
      }
    case DoTake(lane, pid, lease) => TakeFifo(r, lane, pid, lease, cfg, now, a, b);
    case DoRelease(lane, clean, note) => ReleaseFifo(r, lane, clean, note, a, b);
    case DoRenew(_, _) =>
    case DoStatus =>
    case DoStart(_, _, _) =>
    case DoFinish(_, _, _) =>
  }

  lemma RemoveFifo(q: seq<Entry>, i: nat, a: string, b: string)
    requires DistinctLanes(q) && i < |q| && q[i].lane != a && Waits(q, a)
    ensures 0 <= IndexOf(RemoveAt(q, i), a) <= IndexOf(q, a)
    ensures Behind(q, a, b) ==> Behind(RemoveAt(q, i), a, b)
  {
    RemovePlaces(q, i, a);
    RemovePlaces(q, i, b);
  }

  lemma JoinFifo(r: Rec, lane: string, pid: int, now: Time, a: string, b: string)
    requires DistinctLanes(r.queue) && Waits(r.queue, a) && a != b
    ensures var q := Join(r, lane, pid, now).queue;
      && 0 <= IndexOf(q, a) <= IndexOf(r.queue, a)
      && (Behind(r.queue, a, b) ==> Behind(q, a, b))
  {
    JoinPlaces(r, lane, pid, now, a);
    JoinPlaces(r, lane, pid, now, b);
  }

  lemma TakeFifo(r: Rec, lane: string, pid: int, lease: Time, cfg: Config, now: Time, a: string, b: string)
    requires Consistent(r) && Waits(r.queue, a) && a != b
    requires KeepsWaiting(Take(r, lane, pid, lease, cfg, now).events, a)
    ensures var q := Take(r, lane, pid, lease, cfg, now).rec.queue;
      && 0 <= IndexOf(q, a) <= IndexOf(r.queue, a)
      && (Behind(r.queue, a, b) ==> Behind(q, a, b))
  {
    if !Holds(r, lane) {
      TakeQueue(r, lane, pid, lease, cfg, now);
      if r.status == Pristine && JoinPosition(r, lane) == 1 {
        var c := Take(r, lane, pid, lease, cfg, now);
        assert lane != a by {
          assert c.events[|c.events| - 1] == Taken(lane);
          assert !EndsWait(Taken(lane), a);
        }
        RemoveFifo(r.queue, 0, a, b);
      } else {
        JoinFifo(r, lane, pid, now, a, b);
      }
    }
  }

  lemma ReleaseFifo(r: Rec, lane: string, clean: bool, note: string, a: string, b: string)
    requires Consistent(r) && Waits(r.queue, a) && a != b
    requires KeepsWaiting(Release(r, lane, clean, note).events, a)
    ensures var q := Release(r, lane, clean, note).rec.queue;
      && 0 <= IndexOf(q, a) <= IndexOf(r.queue, a)
      && (Behind(r.queue, a, b) ==> Behind(q, a, b))
  {
    var i := IndexOf(r.queue, lane);
    if !Holds(r, lane) && 0 <= i {
      assert lane != a by {
        assert Release(r, lane, clean, note).events[0] == Withdrawn(lane);
        assert !EndsWait(Withdrawn(lane), a);
      }
      RemoveFifo(r.queue, i, a, b);
    }
  }

  // ---------------------------------------------------------------------------
  // one transaction
  // ---------------------------------------------------------------------------

  /** A lane whose wait does not end in this transaction is still queued, no further back than before,
      and still ahead of every lane that was behind it or was not waiting. */
  lemma TransactFifo(disk: Disk, op: Op, cfg: Config, env: Env, a: string, b: string)
    requires DiskOk(disk) && Accepts(op, cfg) && a != b
    requires Waits(QueueOn(disk), a) && KeepsWaiting(Transact(disk, op, cfg, env).events, a)
    ensures var q := QueueOn(Transact(disk, op, cfg, env).disk);
      && 0 <= IndexOf(q, a) <= IndexOf(QueueOn(disk), a)
      && (Behind(QueueOn(disk), a, b) ==> Behind(q, a, b))
  {
    var out := Transact(disk, op, cfg, env);
    var r := Load(disk, env.now);
    LoadIsConsistent(disk, env.now);
    ReapKeeps(r, cfg, env);
    var reaped := Reap(r, cfg, env);
    var applied := Apply(reaped.rec, op, cfg, env.now);
    QueueThroughReap(r, cfg, env);
    assert forall e :: e in Drops(r.queue, cfg, env) ==> e in out.events;
    ReapFifo(r.queue, cfg, env, a, b);
    assert forall e :: e in applied.events ==> e in out.events;
    ApplyFifo(reaped.rec, op, cfg, env.now, a, b);
    TransactKeeps(disk, op, cfg, env);
  }

  lemma QueueThroughReap(r: Rec, cfg: Config, env: Env)
    requires Consistent(r)
    ensures Reap(r, cfg, env).rec.queue == Survivors(r.queue, cfg, env)
    ensures forall e :: e in Drops(r.queue, cfg, env) ==> e in Reap(r, cfg, env).events
    ensures forall e, lane :: e in Reap(r, cfg, env).events && EndsWait(e, lane) ==> e in Drops(r.queue, cfg, env)
  {
    ReapHolderKeeps(r, cfg, env);
    ReapRefreshKeeps(ReapHolder(r, cfg, env).rec, env);
  }

  lemma TakenIsHead(r: Rec, op: Op, cfg: Config, now: Time, b: string)
    requires Consistent(r) && Accepts(op, cfg) && Taken(b) in Apply(r, op, cfg, now).events
    ensures op.DoTake? && op.lane == b && r.status == Pristine && (r.queue == [] || r.queue[0].lane == b)
  {
    if op.DoTake? && !Holds(r, op.lane) {
      assert Taken(b) !in JoinEvents(r, op.lane);
    }
  }

  /** A take never overtakes: everyone who waited ahead of the taker (or waited at all, when the taker
      did not) was dropped by this very transaction's liveness check. */
  lemma TakeNeverOvertakes(disk: Disk, op: Op, cfg: Config, env: Env, a: string, b: string)
    requires DiskOk(disk) && Accepts(op, cfg) && a != b
    requires Taken(b) in Transact(disk, op, cfg, env).events
    requires Waits(QueueOn(disk), a) && Behind(QueueOn(disk), a, b)
    ensures Drop(a) in Transact(disk, op, cfg, env).events
  {
    var r := Load(disk, env.now);
    LoadIsConsistent(disk, env.now);
    ReapKeeps(r, cfg, env);
    QueueThroughReap(r, cfg, env);
    var reaped := Reap(r, cfg, env);
    if Taken(b) in reaped.events {
      assert EndsWait(Taken(b), b);
      var i := LapsedAreDropped(r.queue, cfg, env, Taken(b));
    }
    assert Taken(b) in Apply(reaped.rec, op, cfg, env.now).events;
    if Drop(a) !in Drops(r.queue, cfg, env) {
      ReapFifo(r.queue, cfg, env, a, b);
    }
    TakenIsHead(reaped.rec, op, cfg, env.now, b);
  }

  // ---------------------------------------------------------------------------
  // the queue as a sequence
  // ---------------------------------------------------------------------------

  predicate Subsequence<T(==)>(s: seq<T>, t: seq<T>) {
    s == [] || (t != [] &&
    ((s[|s| - 1] == t[|t| - 1] && Subsequence(s[..|s| - 1], t[..|t| - 1])) || Subsequence(s, t[..|t| - 1])))
  }

  lemma {:induction false} SubsequenceReflexive(s: seq<string>)
    ensures Subsequence(s, s)
  {
    if s != [] { SubsequenceReflexive(s[..|s| - 1]); }
  }

  lemma {:induction false} SubsequenceTransitive(s: seq<string>, t: seq<string>, u: seq<string>)
    requires Subsequence(s, t) && Subsequence(t, u)
    ensures Subsequence(s, u)
    decreases |t| + |u|
  {
    if s != [] {
      var u' := u[..|u| - 1];
      if t[|t| - 1] == u[|u| - 1] && Subsequence(t[..|t| - 1], u') {
        if s[|s| - 1] == t[|t| - 1] && Subsequence(s[..|s| - 1], t[..|t| - 1]) {
          SubsequenceTransitive(s[..|s| - 1], t[..|t| - 1], u');
        } else {
          SubsequenceTransitive(s, t[..|t| - 1], u');
        }
      } else {
        SubsequenceTransitive(s, t, u');
      }
    }
  }

  lemma {:induction false} SurvivorsSubsequence(q: seq<Entry>, cfg: Config, env: Env)
    ensures Subsequence(Lanes(Survivors(q, cfg, env)), Lanes(q))
  {
    if q != [] {
      var front := q[..|q| - 1];
      SurvivorsSubsequence(front, cfg, env);
      assert Lanes(q)[..|q| - 1] == Lanes(front);
      var s := Survivors(q, cfg, env);
      if Lapsed(q[|q| - 1], cfg, env) {
        assert s == Survivors(front, cfg, env);
      } else {
        assert Lanes(s)[..|s| - 1] == Lanes(Survivors(front, cfg, env));
      }
    }
  }

  lemma {:induction false} RemoveSubsequence(q: seq<Entry>, i: nat)
    requires i < |q|
    ensures Subsequence(Lanes(RemoveAt(q, i)), Lanes(q))
  {
    var front := q[..|q| - 1];
    LanesLast(q);
    if i == |q| - 1 {
      assert RemoveAt(q, i) == front;
      SubsequenceReflexive(Lanes(front));
    } else {
      var s := RemoveAt(q, i);
      assert s[..|s| - 1] == RemoveAt(front, i) && s[|s| - 1] == q[|q| - 1];
      RemoveSubsequence(front, i);
      LanesLast(s);
    }
  }

  lemma LanesLast(q: seq<Entry>)
    requires q != []
    ensures Lanes(q) != [] && Lanes(q)[|Lanes(q)| - 1] == q[|q| - 1].lane
    ensures Lanes(q)[..|Lanes(q)| - 1] == Lanes(q[..|q| - 1])
  {
  }

  /** The lanes a change leaves in the queue are some of those it found, in the same order, and behind
      them at most one more. */
  ghost predicate GrowsAtTail(old_: seq<string>, new_: seq<string>) {
    exists n: nat {:trigger new_[..n]} :: n <= |new_| <= n + 1 && Subsequence(new_[..n], old_)
  }

  lemma ApplyGrowsAtTail(r: Rec, op: Op, cfg: Config, now: Time)
    requires Consistent(r) && Accepts(op, cfg)
    ensures GrowsAtTail(Lanes(r.queue), Lanes(Apply(r, op, cfg, now).rec.queue))
  {
    var q := Apply(r, op, cfg, now).rec.queue;
    SubsequenceReflexive(Lanes(r.queue));
    assert Lanes(r.queue)[..|r.queue|] == Lanes(r.queue);
    match op
    case DoEnqueue(lane, pid) =>
      if !Holds(r, lane) { JoinGrowsAtTail(r, lane, pid, now); }
    case DoTake(lane, pid, lease) =>
      if !Holds(r, lane) {
        TakeQueue(r, lane, pid, lease, cfg, now);
        if q == [] {
          assert Lanes(q)[..0] == [];
        } else if r.status == Pristine && JoinPosition(r, lane) == 1 {
          RemoveGrowsAtTail(r.queue, 0);
        } else {
          JoinGrowsAtTail(r, lane, pid, now);
        }
      }
    case DoRelease(lane, _, _) =>
      if !Holds(r, lane) && Waits(r.queue, lane) { RemoveGrowsAtTail(r.queue, IndexOf(r.queue, lane)); }
    case DoRenew(_, _) =>
    case DoStatus =>
    case DoStart(_, _, _) =>
    case DoFinish(_, _, _) =>
  }

  lemma JoinGrowsAtTail(r: Rec, lane: string, pid: int, now: Time)
    ensures GrowsAtTail(Lanes(r.queue), Lanes(Join(r, lane, pid, now).queue))
  {
    var n := |r.queue|;
    assert Lanes(Join(r, lane, pid, now).queue)[..n] == Lanes(r.queue);
    SubsequenceReflexive(Lanes(r.queue));
  }

  lemma RemoveGrowsAtTail(q: seq<Entry>, i: nat)
    requires i < |q|
    ensures GrowsAtTail(Lanes(q), Lanes(RemoveAt(q, i)))
  {
    RemoveSubsequence(q, i);
    var s := Lanes(RemoveAt(q, i));
    assert s[..|s|] == s;
  }

  /** One transaction never reorders the queue: it removes lanes and appends at most one. */
  lemma TransactGrowsAtTail(disk: Disk, op: Op, cfg: Config, env: Env)
    requires DiskOk(disk) && Accepts(op, cfg)
    ensures GrowsAtTail(Lanes(QueueOn(disk)), Lanes(QueueOn(Transact(disk, op, cfg, env).disk)))
  {
    var r := Load(disk, env.now);
    LoadIsConsistent(disk, env.now);
    ReapKeeps(r, cfg, env);
    QueueThroughReap(r, cfg, env);
    TransactKeeps(disk, op, cfg, env);
    var reaped := Reap(r, cfg, env).rec;
    SurvivorsSubsequence(r.queue, cfg, env);
    ApplyGrowsAtTail(reaped, op, cfg, env.now);
    var q := Lanes(QueueOn(Transact(disk, op, cfg, env).disk));
    var n: nat :| n <= |q| <= n + 1 && Subsequence(q[..n], Lanes(reaped.queue));
    SubsequenceTransitive(q[..n], Lanes(reaped.queue), Lanes(r.queue));
  }

  // ---------------------------------------------------------------------------
  // when a place does get worse
  // ---------------------------------------------------------------------------

  /** A lane's place can get worse in one way only: its own entry had lapsed, so the poll that meant
      to keep it was dropped first and joined again behind the survivors. */
  lemma PlaceWorsensOnlyAfterDrop(disk: Disk, op: Op, cfg: Config, env: Env, a: string)
    requires DiskOk(disk) && Accepts(op, cfg)
    requires Waits(QueueOn(disk), a) && Waits(QueueOn(Transact(disk, op, cfg, env).disk), a)
    requires IndexOf(QueueOn(disk), a) < IndexOf(QueueOn(Transact(disk, op, cfg, env).disk), a)
    ensures Drop(a) in Transact(disk, op, cfg, env).events && Enqueued(a) in Transact(disk, op, cfg, env).events
  {
    var r := Load(disk, env.now);
    LoadIsConsistent(disk, env.now);
    ReapKeeps(r, cfg, env);
    QueueThroughReap(r, cfg, env);
    TransactKeeps(disk, op, cfg, env);
    var reaped := Reap(r, cfg, env);
    if Drop(a) !in Drops(r.queue, cfg, env) {
      ReapFifo(r.queue, cfg, env, a, a + "x");
      StillQueuedKeepsPlace(reaped.rec, op, cfg, env.now, a);
      assert false;
    }
    DroppedIsGone(r.queue, cfg, env, a);
    JoinedNew(reaped.rec, op, cfg, env.now, a);
  }

  predicate Polls(op: Op, a: string) { (op.DoEnqueue? || op.DoTake?) && op.lane == a }

  /** Exactly when: the lane polls, its own entry has lapsed, and more entries survive the liveness check
      than used to be ahead of it. */
  lemma PlaceWorsensIff(disk: Disk, op: Op, cfg: Config, env: Env, a: string)
    requires DiskOk(disk) && Accepts(op, cfg) && Waits(QueueOn(disk), a)
    ensures var q, q' := QueueOn(disk), QueueOn(Transact(disk, op, cfg, env).disk);
      Waits(q', a) && IndexOf(q, a) < IndexOf(q', a) <==>
        Polls(op, a) && Lapsed(q[IndexOf(q, a)], cfg, env) && IndexOf(q, a) < |Survivors(q, cfg, env)|
  {
    var r := Load(disk, env.now);
    LoadIsConsistent(disk, env.now);
    ReapKeeps(r, cfg, env);
    QueueThroughReap(r, cfg, env);
    TransactKeeps(disk, op, cfg, env);
    var reaped := Reap(r, cfg, env);
    var i := IndexOf(r.queue, a);
    if Lapsed(r.queue[i], cfg, env) {
      DropsAreLapsed(r.queue, cfg, env, i);
      DroppedIsGone(r.queue, cfg, env, a);
      RejoinPlace(reaped.rec, op, cfg, env.now, a);
    } else {
      if Drop(a) in Drops(r.queue, cfg, env) {
        var j := LapsedAreDropped(r.queue, cfg, env, Drop(a));
        IndexIsPlace(r.queue, j);
        assert false;
      }
      ReapFifo(r.queue, cfg, env, a, a + "x");
      if Waits(Apply(reaped.rec, op, cfg, env.now).rec.queue, a) {
        StillQueuedKeepsPlace(reaped.rec, op, cfg, env.now, a);
      }
    }
  }

  /** A lane that does not wait comes to wait only by polling, and then at the very end. */
  lemma RejoinPlace(r: Rec, op: Op, cfg: Config, now: Time, a: string)
    requires Consistent(r) && Accepts(op, cfg) && !Waits(r.queue, a) && !Holds(r, a)
    ensures var q := Apply(r, op, cfg, now).rec.queue;
      && (Waits(q, a) ==> Polls(op, a) && IndexOf(q, a) == |r.queue|)
      && (Polls(op, a) && r.queue != [] ==> Waits(q, a))
  {
    if Waits(Apply(r, op, cfg, now).rec.queue, a) {
      OnlyPollsJoin(r, op, cfg, now, a);
    }
    if Polls(op, a) {
      PollJoinsAtEnd(r, op, cfg, now, a);
    }
  }

  lemma OnlyPollsJoin(r: Rec, op: Op, cfg: Config, now: Time, a: string)
    requires Consistent(r) && Accepts(op, cfg) && !Waits(r.queue, a)
    requires Waits(Apply(r, op, cfg, now).rec.queue, a)
    ensures Polls(op, a)
  {
    JoinedNew(r, op, cfg, now, a);
  }

  lemma PollJoinsAtEnd(r: Rec, op: Op, cfg: Config, now: Time, a: string)
    requires Consistent(r) && Polls(op, a) && !Waits(r.queue, a) && !Holds(r, a)
    ensures var q := Apply(r, op, cfg, now).rec.queue;
      (Waits(q, a) ==> IndexOf(q, a) == |r.queue|) && (r.queue != [] ==> Waits(q, a))
  {
    JoinPlaces(r, a, op.pid, now, a);
    if op.DoTake? {
      TakeQueue(r, a, op.pid, op.lease, cfg, now);
    }
  }

  lemma DroppedIsGone(q: seq<Entry>, cfg: Config, env: Env, a: string)
    requires DistinctLanes(q) && Drop(a) in Drops(q, cfg, env)
    ensures !Waits(Survivors(q, cfg, env), a)
  {
    var i := LapsedAreDropped(q, cfg, env, Drop(a));
    if Waits(Survivors(q, cfg, env), a) {
      var j := SurvivorWaited(q, cfg, env, a);
    }
  }

  lemma StillQueuedKeepsPlace(r: Rec, op: Op, cfg: Config, now: Time, a: string)
    requires Consistent(r) && Accepts(op, cfg) && Waits(r.queue, a)
    requires Waits(Apply(r, op, cfg, now).rec.queue, a)
    ensures IndexOf(Apply(r, op, cfg, now).rec.queue, a) <= IndexOf(r.queue, a)
  {
    if KeepsWaiting(Apply(r, op, cfg, now).events, a) {
      ApplyFifo(r, op, cfg, now, a, a + "x");
    } else {
      GoneAfterLeaving(r, op, cfg, now, a);
    }
  }

  lemma GoneAfterLeaving(r: Rec, op: Op, cfg: Config, now: Time, a: string)
    requires Consistent(r) && Accepts(op, cfg) && !KeepsWaiting(Apply(r, op, cfg, now).events, a)
    ensures !Waits(Apply(r, op, cfg, now).rec.queue, a)
  {
    if op.DoRelease? {
      RemovePlaces(r.queue, IndexOf(r.queue, a), a);
    } else if op.DoTake? && !Holds(r, op.lane) {
      TakerIsGone(r, op.lane, op.pid, op.lease, cfg, now, a);
    }
  }

  lemma TakerIsGone(r: Rec, lane: string, pid: int, lease: Time, cfg: Config, now: Time, a: string)
    requires Consistent(r) && !Holds(r, lane) && !KeepsWaiting(Take(r, lane, pid, lease, cfg, now).events, a)
    ensures !Waits(Take(r, lane, pid, lease, cfg, now).rec.queue, a)
  {
    TakeQueue(r, lane, pid, lease, cfg, now);
    assert Taken(a) in Take(r, lane, pid, lease, cfg, now).events;
    assert a == lane && r.status == Pristine && JoinPosition(r, lane) == 1;
    if r.queue != [] {
      IndexIsPlace(r.queue, 0);
      RemovePlaces(r.queue, 0, a);
    }
  }

  lemma ReleaseAddsNobody(r: Rec, lane: string, clean: bool, note: string, a: string)
    requires Consistent(r) && !Waits(r.queue, a)
    ensures !Waits(Release(r, lane, clean, note).rec.queue, a)
  {
    if !Holds(r, lane) && Waits(r.queue, lane) {
      RemovePlaces(r.queue, IndexOf(r.queue, lane), a);
    }
  }

  lemma TakeAddsTaker(r: Rec, lane: string, pid: int, lease: Time, cfg: Config, now: Time, a: string)
    requires Consistent(r) && !Waits(r.queue, a) && Waits(Take(r, lane, pid, lease, cfg, now).rec.queue, a)
    ensures Enqueued(a) in Take(r, lane, pid, lease, cfg, now).events
  {
    TakeQueue(r, lane, pid, lease, cfg, now);
    JoinPlaces(r, lane, pid, now, a);
    if r.status == Pristine && JoinPosition(r, lane) == 1 && r.queue != [] {
      RemovePlaces(r.queue, 0, a);
    }
  }

  lemma JoinedNew(r: Rec, op: Op, cfg: Config, now: Time, a: string)
    requires Consistent(r) && Accepts(op, cfg) && !Waits(r.queue, a)
    requires Waits(Apply(r, op, cfg, now).rec.queue, a)
    ensures Enqueued(a) in Apply(r, op, cfg, now).events
  {
    match op
    case DoRelease(lane, clean, note) => ReleaseAddsNobody(r, lane, clean, note, a);
    case DoEnqueue(lane, pid) => JoinPlaces(r, lane, pid, now, a);
    case DoTake(lane, pid, lease) => TakeAddsTaker(r, lane, pid, lease, cfg, now, a);
    case _ =>
  }

  /** It does happen: lane `a`, at the head, polls one second after its entry lapsed and ends up
      behind `b`. */
  lemma LapsedHeadLosesItsPlace(cfg: Config) returns (r: Rec, op: Op, env: Env)
    requires ValidConfig(cfg) && cfg.hasRefresh
    ensures Consistent(r) && Accepts(op, cfg) && op.DoTake? && op.lane == "a"
    ensures IndexOf(r.queue, "a") == 0
    ensures IndexOf(QueueOn(Transact(File(r), op, cfg, env).disk), "a") == 1
  {
    var ttl := cfg.queueTtlS;
    var a, b := Entry("a", 7, 0.0, 0.0), Entry("b", 8, 0.0, ttl);
    r := Rec(Dirty("c"), [a] + [b], None, None, NoReason, 0.0);
    op := DoTake("a", 7, cfg.leaseS);
    env := Env(ttl, {7, 8}, Free, false);
    assert Consistent(r) by {
      PairIsConsistent(r, a, b);
    }
    AppendPlaces([a], b, "a");
    LapsedHeadIsDropped(r, a, b, cfg, env);
    PollBehind(r.(queue := [b]), b, cfg, ttl);
    QueueAfter(r, op, cfg, env);
  }

  lemma QueueAfter(r: Rec, op: Op, cfg: Config, env: Env)
    requires Consistent(r) && Accepts(op, cfg)
    ensures QueueOn(Transact(File(r), op, cfg, env).disk) == Apply(Reap(r, cfg, env).rec, op, cfg, env.now).rec.queue
  {
    TransactKeeps(File(r), op, cfg, env);
  }

  lemma PairIsConsistent(r: Rec, a: Entry, b: Entry)
    requires r.queue == [a] + [b] && a.lane == "a" && b.lane == "b"
    requires r.status == Dirty("c") && r.holder == None && r.refresh == None
    ensures Consistent(r)
  {
    assert IsLane("a");
    assert IsLane("b");
  }

  lemma LapsedHeadIsDropped(r: Rec, a: Entry, b: Entry, cfg: Config, env: Env)
    requires r.holder == None && r.refresh == None && r.queue == [a] + [b]
    requires Lapsed(a, cfg, env) && !Lapsed(b, cfg, env)
    ensures Reap(r, cfg, env).rec == r.(queue := [b])
  {
    assert ([a] + [b])[..1] == [a];
    assert [a][..0] == [];
    assert Survivors([a], cfg, env) == [];
    assert Survivors([a] + [b], cfg, env) == [b];
  }

  lemma PollBehind(r: Rec, b: Entry, cfg: Config, now: Time)
    requires r.holder == None && r.queue == [b] && b.lane == "b" && r.status != Pristine
    ensures IndexOf(Take(r, "a", 7, cfg.leaseS, cfg, now).rec.queue, "a") == 1
  {
    AppendPlaces([], b, "a");
    assert [] + [b] == [b];
    AppendPlaces([b], Entry("a", 7, now, now), "a");
  }
}
