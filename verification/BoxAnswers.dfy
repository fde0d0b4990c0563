/** What a caller is told, against the record the transaction leaves; and what one refresh does from start to
    end. */
module BoxAnswers {
  import opened BoxRecord
  import opened BoxInvariant
  import opened Options

  /** The lane waits at place `position`, and was seen just now. */
  ghost predicate WaitsAt(r: Rec, lane: string, pid: int, position: nat, now: Time) {
    && 1 <= position <= |r.queue|
    && var e := r.queue[position - 1];
    e.lane == lane && e.pid == pid && e.seenAt == now
  }

  ghost predicate Absent(r: Rec, lane: string) {
    !Holds(r, lane) && IndexOf(r.queue, lane) < 0
  }

  /** The answer is true of the record the command leaves. */
  ghost predicate IsTrue(answer: Answer, op: Op, r: Rec, now: Time) {
    match op
    case DoEnqueue(lane, pid) =>
      answer.Waiting? && if answer.position == 0 then Holds(r, lane) else WaitsAt(r, lane, pid, answer.position, now)
    case DoTake(lane, pid, _) =>
      (match answer
       case AlreadyHolds(until) => Holds(r, lane) && r.holder.value.leaseUntil == until
       case Took(until) =>
         Holds(r, lane) && r.holder.value == Holder(lane, pid, now, until) && IndexOf(r.queue, lane) < 0
       case Waiting(position) =>
         WaitsAt(r, lane, pid, position, now) && !Holds(r, lane) && (r.status != Pristine || position > 1)
       case _ => false)
    case DoRenew(lane, _) =>
      if answer.Extended? then Holds(r, lane) && r.holder.value.leaseUntil == answer.until
      else answer == NotHolder && !Holds(r, lane)
    case DoRelease(lane, clean, _) =>
      (match answer
       case HandedBack(status) =>
         r.holder == None && r.status == status && status == if clean then Pristine else Dirty(lane)
       case LeftQueue => Absent(r, lane)
       case NeitherHoldsNorWaits => Absent(r, lane)
       case _ => false)
    case DoStatus => answer == Snapshot(r)
    case DoStart(token, pid, force) =>
      (match answer
       case RefreshBegun =>
         && r.status == Refreshing && r.refresh.Some?
         && r.refresh.value.token == token && r.refresh.value.pid == pid && r.refresh.value.startedAt == now
       case HeldBoxRefused => r.status.Held?
       case AlreadyPristine => r.status == Pristine && !force
       case _ => false)
    case DoFinish(token, ok, _) =>
      (match answer
       case ResultDiscarded => r.refresh == None || r.refresh.value.token != token
       case RefreshedOk => ok && r.status == Pristine && r.refresh == None
       case RefreshedBadly => !ok && r.status.Dirty? && r.refresh == None
       case _ => false)
  }

  /** Every command tells its caller the truth about the record it saves. */
  lemma AnswersAreTrue(r: Rec, op: Op, cfg: Config, now: Time)
    requires Consistent(r) && Accepts(op, cfg)
    ensures var c := Apply(r, op, cfg, now); IsTrue(c.answer, op, c.rec, now)
  {
    match op
    case DoEnqueue(lane, pid) =>
      if !Holds(r, lane) { JoinWaits(r, lane, pid, now); }
    case DoTake(lane, pid, lease) => TakeIsTrue(r, lane, pid, lease, cfg, now);
    case DoRelease(lane, clean, note) => ReleaseIsTrue(r, lane, clean, note, cfg, now);
    case _ =>
  }

  lemma JoinWaits(r: Rec, lane: string, pid: int, now: Time)
    requires Consistent(r)
    ensures WaitsAt(Join(r, lane, pid, now), lane, pid, JoinPosition(r, lane), now)
  {
  }

  lemma TakeIsTrue(r: Rec, lane: string, pid: int, lease: Time, cfg: Config, now: Time)
    requires Consistent(r) && IsLane(lane)
    ensures var c := Take(r, lane, pid, lease, cfg, now); IsTrue(c.answer, DoTake(lane, pid, lease), c.rec, now)
  {
    if !Holds(r, lane) {
      JoinWaits(r, lane, pid, now);
      TakeKeeps(r, lane, pid, lease, cfg, now);
      HolderDoesNotWait(Take(r, lane, pid, lease, cfg, now).rec, lane);
    }
  }

  lemma HolderDoesNotWait(r: Rec, lane: string)
    requires Consistent(r)
    ensures Holds(r, lane) ==> IndexOf(r.queue, lane) < 0
  {
    if 0 <= IndexOf(r.queue, lane) {
      assert r.queue[IndexOf(r.queue, lane)] in r.queue;
    }
  }

  lemma ReleaseIsTrue(r: Rec, lane: string, clean: bool, note: string, cfg: Config, now: Time)
    requires Consistent(r)
    ensures var c := Release(r, lane, clean, note); IsTrue(c.answer, DoRelease(lane, clean, note), c.rec, now)
  {
    var i := IndexOf(r.queue, lane);
    if !Holds(r, lane) && 0 <= i {
      var q := RemoveAt(r.queue, i);
      forall k | 0 <= k < |q| ensures q[k].lane != lane {
        assert q[k] == if k < i then r.queue[k] else r.queue[k + 1];
      }
    }
  }

  /** A refresh that started and was left alone ends pristine if it succeeded; if not, under the dirty label it
      started from, or `dirty:refresh` when it was forced on a pristine box. Everything else is as it was. */
  lemma RefreshStartToEnd(r: Rec, token: string, pid: int, force: bool, cfg: Config, now: Time, ok: bool, why: string)
    requires Consistent(r) && StartRefresh(r, token, pid, force, cfg, now).answer == RefreshBegun
    ensures var end := FinishRefresh(StartRefresh(r, token, pid, force, cfg, now).rec, token, ok, why).rec;
      && end.refresh == None && end.queue == r.queue && end.holder == r.holder == None
      && (ok ==> end.status == Pristine)
      && (!ok && r.status.Dirty? ==> end.status == r.status)
      && (!ok && r.status == Pristine ==> end.status == Dirty("refresh"))
      && (!ok && r.status == Refreshing ==> end.status == AfterFailure(r.refresh.value.from))
  {
  }
}
