/** `take --wait`: one attempt after the other, each its own transaction, until one succeeds or the time is up.
    Between two attempts anybody may change the file, so what the attempts find and answer is a parameter. */
module BoxTake {
  import opened BoxRecord
  import RefreshBudget

  /** `clock(k)` is the time when the k-th attempt is over. */
  datatype Wait = Wait(start: Time, wait: Time, poll: Time, clock: nat -> Time)

  const MAX_WAIT_S: Time := 3600.0

  function Deadline(w: Wait): Time { w.start + w.wait }

  predicate Succeeds(answer: Answer) { answer.Took? || answer.AlreadyHolds? }

  /** The arguments `take` accepts. */
  predicate Accepted(w: Wait, cfg: Config) {
    0.0 <= w.wait <= MAX_WAIT_S && 0.0 < w.poll <= cfg.queueTtlS / 2.0
  }

  /** The clock never goes back, and a pause between two attempts lasts at least as long as was asked for. */
  ghost predicate Ticks(w: Wait) {
    && w.start <= w.clock(0)
    && forall k: nat :: w.clock(k) < Deadline(w) ==>
      w.clock(k) + Min(w.poll, Deadline(w) - w.clock(k)) <= w.clock(k + 1)
  }

  function MostAttempts(w: Wait): int
    requires 0.0 < w.poll
  {
    RefreshBudget.Ceil(w.wait / w.poll) + 1
  }

  /** That is: all but two of them fit, with their pauses, before the deadline. */
  lemma MostAttemptsFit(w: Wait)
    requires 0.0 < w.poll
    ensures (MostAttempts(w) - 2) as real * w.poll < w.wait
  {
    var x := w.wait / w.poll;
    assert x * w.poll == w.wait;
    var n := (MostAttempts(w) - 2) as real;
    assert n < x;
    Smaller(n, x, w.poll);
  }

  lemma Smaller(a: real, b: real, c: real)
    requires a < b && 0.0 < c
    ensures a * c < b * c
  {
    assert (b - a) * c > 0.0;
  }

  /** The clock has passed the deadline or moved on by a whole pause per attempt. */
  ghost predicate Paced(w: Wait, k: nat) {
    Deadline(w) <= w.clock(k) || w.start + k as real * w.poll <= w.clock(k)
  }

  lemma OneMorePause(w: Wait, k: nat)
    requires Ticks(w) && Paced(w, k) && w.clock(k) < Deadline(w)
    ensures Paced(w, k + 1)
  {
    RefreshBudget.Distributes(k as real, w.poll);
  }

  lemma AtLeastOne(w: Wait)
    requires 0.0 < w.poll && 0.0 <= w.wait && Ticks(w)
    ensures Paced(w, 0) && 1 <= MostAttempts(w)
  {
    var x := w.wait / w.poll;
    assert x * w.poll == w.wait;
    assert 0.0 <= x;
  }

  lemma InTimeIsBounded(w: Wait, k: nat)
    requires 0.0 < w.poll && Paced(w, k) && w.clock(k) < Deadline(w)
    ensures k + 1 < MostAttempts(w)
  {
    RefreshBudget.BelowCeil(k, w.poll, w.wait);
  }

  /** An attempt succeeds, or one ends after the deadline: without that `take` never returns. */
  ghost predicate Ends(w: Wait, attempt: nat -> Answer) {
    exists k: nat :: EndsAt(w, attempt, k)
  }

  predicate EndsAt(w: Wait, attempt: nat -> Answer, k: nat) {
    Succeeds(attempt(k)) || Deadline(w) <= w.clock(k)
  }

  /** With a clock that ticks it always does. */
  lemma TickingEnds(w: Wait, cfg: Config, attempt: nat -> Answer)
    requires Accepted(w, cfg) && Ticks(w)
    ensures Ends(w, attempt)
  {
    AtLeastOne(w);
    EndsFrom(w, attempt, 0);
  }

  lemma {:induction false} EndsFrom(w: Wait, attempt: nat -> Answer, k: nat)
    requires 0.0 < w.poll && Ticks(w) && Paced(w, k) && k < MostAttempts(w)
    ensures Ends(w, attempt)
    decreases MostAttempts(w) - k
  {
    if Deadline(w) <= w.clock(k) {
      assert EndsAt(w, attempt, k);
    } else {
      InTimeIsBounded(w, k);
      OneMorePause(w, k);
      EndsFrom(w, attempt, k + 1);
    }
  }

  /** The loop of `take`; `attempt(k)` is what `_take_once` answers the k-th time. The answer is that of the
      last attempt; every attempt before it failed, in time; it gives up only after the deadline. If the clock
      ticks there are at most ceil(wait / poll) + 1 attempts. */
  method Take(w: Wait, cfg: Config, attempt: nat -> Answer) returns (answer: Answer, attempts: nat)
    requires Accepted(w, cfg) && Ends(w, attempt)
    ensures 1 <= attempts
    ensures answer == attempt(attempts - 1)
    ensures forall j: nat :: j < attempts - 1 ==>
      !attempt(j).Took? && !attempt(j).AlreadyHolds? && w.clock(j) < w.start + w.wait
    ensures answer.Took? || answer.AlreadyHolds? || w.start + w.wait <= w.clock(attempts - 1)
    ensures Ticks(w) ==> attempts <= MostAttempts(w)
  {
    attempts := 0;
    ghost var last: nat :| EndsAt(w, attempt, last);
    if Ticks(w) { AtLeastOne(w); }
    while true
      invariant attempts <= last
      invariant Ticks(w) ==> Paced(w, attempts) && attempts < MostAttempts(w)
      invariant forall j: nat :: j < attempts ==> !Succeeds(attempt(j)) && w.clock(j) < Deadline(w)
      decreases last - attempts
    {
      answer := attempt(attempts);
      var remaining := Deadline(w) - w.clock(attempts);
      if Succeeds(answer) || remaining <= 0.0 {
        return answer, attempts + 1;
      }
      if Ticks(w) {
        InTimeIsBounded(w, attempts);
        OneMorePause(w, attempts);
      }
      attempts := attempts + 1;
    }
  }
}
