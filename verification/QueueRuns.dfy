// Whole-run theorems about the queue. A run interleaves transactions of any number of
// workers, heartbeats, watchdogs and approvers in any order, with any clock readings.
module QueueRuns {
  import opened Wrappers
  import opened Text
  import opened TaskStates
  import opened Queue
  import opened QueueChanges
  import opened QueueInvariants

  datatype Event = Event(step: Step, reply: Reply)

  ghost predicate IsRun(dbs: seq<Db>, events: seq<Event>) {
    && |dbs| == |events| + 1
    && forall i {:trigger events[i]} :: 0 <= i < |events| ==>
         Next(dbs[i], events[i].step, Outcome(dbs[i+1], events[i].reply))
  }

  lemma ChangeAt(dbs: seq<Db>, events: seq<Event>, i: nat) returns (c: Change)
    requires IsRun(dbs, events) && i < |events|
    ensures Explains(dbs[i], c, dbs[i+1])
    ensures c.move == Requeued ==> events[i].step.Requeue? && events[i].step.task == c.task && events[i].reply == Done
  {
    c := Classify(dbs[i], events[i].step, Outcome(dbs[i+1], events[i].reply));
  }

  lemma {:induction false} RunValid(dbs: seq<Db>, events: seq<Event>, i: nat)
    requires IsRun(dbs, events) && Valid(dbs[0]) && i < |dbs|
    ensures Valid(dbs[i])
  {
    if i > 0 {
      RunValid(dbs, events, i - 1);
      ValidKept(dbs[i-1], events[i-1].step, Outcome(dbs[i], events[i-1].reply));
    }
  }

  // Fencing, seen from the log: along any run from the empty database, the checkpoints of a
  // queue-managed task form contiguous blocks, one lease each, in acquisition order, and a
  // checkpoint written by a transaction that ends the lease closes its block.
  lemma CheckpointsFormLeaseBlocks(dbs: seq<Db>, events: seq<Event>, n: nat, i: nat, j: nat)
    requires IsRun(dbs, events) && dbs[0] == EMPTY && n < |dbs|
    requires i < j < |dbs[n].log| && dbs[n].log[i].task == dbs[n].log[j].task
    ensures var a, b := dbs[n].log[i].writer, dbs[n].log[j].writer;
      || a.Unfenced?
      || (!b.Unfenced? && a.attempt == b.attempt && a.leaseId == b.leaseId && a.Leased?)
      || (!b.Unfenced? && a.attempt < b.attempt && a.leaseId != b.leaseId)
  {
    EmptyValid();
    RunValid(dbs, events, n);
    assert Precedes(dbs[n].log[i].writer, dbs[n].log[j].writer);
  }

  // The lease id was handed out and no row carries it.
  ghost predicate Retired(db: Db, lease: Text) {
    lease in db.issued && forall t :: t in db.queue ==> db.queue[t].leaseId != lease
  }

  lemma RetiredKept(a: Db, c: Change, b: Db, lease: Text)
    requires Explains(a, c, b) && Retired(a, lease) && lease != []
    ensures Retired(b, lease)
  {
  }

  ghost predicate HeldOrRetired(db: Db, k: Claim) {
    Holds(db.queue, k) || (Retired(db, k.leaseId) && k.leaseId != [])
  }

  lemma HeldOrRetiredKept(a: Db, c: Change, b: Db, k: Claim)
    requires Valid(a) && Explains(a, c, b) && HeldOrRetired(a, k)
    ensures HeldOrRetired(b, k)
  {
    if !Holds(a.queue, k) {
      RetiredKept(a, c, b, k.leaseId);
    } else if !Holds(b.queue, k) {
      assert c.task == k.task && c.move == Ended;
    }
  }

  lemma HeldOrRetiredStep(dbs: seq<Db>, events: seq<Event>, i: nat, k: Claim)
    requires IsRun(dbs, events) && Valid(dbs[0]) && i < |events| && HeldOrRetired(dbs[i], k)
    ensures HeldOrRetired(dbs[i+1], k)
  {
    RunValid(dbs, events, i);
    var c := ChangeAt(dbs, events, i);
    HeldOrRetiredKept(dbs[i], c, dbs[i+1], k);
  }

  lemma {:induction false} HeldUntilRetired(dbs: seq<Db>, events: seq<Event>, i: nat, j: nat, k: Claim)
    requires IsRun(dbs, events) && Valid(dbs[0]) && i <= j < |dbs| && HeldOrRetired(dbs[i], k)
    ensures HeldOrRetired(dbs[j], k)
    decreases j
  {
    if i < j {
      HeldUntilRetired(dbs, events, i, j - 1, k);
      HeldOrRetiredStep(dbs, events, j - 1, k);
    }
  }

  lemma {:induction false} StaysRetired(dbs: seq<Db>, events: seq<Event>, i: nat, j: nat, lease: Text)
    requires IsRun(dbs, events) && i <= j < |dbs| && Retired(dbs[i], lease) && lease != []
    ensures Retired(dbs[j], lease)
    decreases j
  {
    if i < j {
      StaysRetired(dbs, events, i, j - 1, lease);
      var c := ChangeAt(dbs, events, j - 1);
      RetiredKept(dbs[j-1], c, dbs[j], lease);
    }
  }

  // Fencing, seen from a worker: once a claim stops holding its row, no thread that presents
  // its lease id, whatever task and worker name it gives, can write, renew, finish or fence a
  // queue-managed task in any later state.
  lemma LostLeaseNeverPassesAgain(dbs: seq<Db>, events: seq<Event>, i: nat, j: nat, k: nat, c: Claim, d: Claim,
                                  now: int)
    requires IsRun(dbs, events) && dbs[0] == EMPTY && i <= j <= k < |dbs|
    requires Holds(dbs[i].queue, c) && !Holds(dbs[j].queue, c) && d.leaseId == c.leaseId
    ensures !Holds(dbs[k].queue, d)
    ensures d.task in dbs[k].queue ==> Fence(dbs[k].queue, d.task, Some(d), now) == Some(LeaseLost)
  {
    EmptyValid();
    HeldUntilRetired(dbs, events, i, j, c);
    StaysRetired(dbs, events, j, k, c.leaseId);
  }

  lemma FinishedStays(dbs: seq<Db>, events: seq<Event>, i: nat, t: Text)
    requires IsRun(dbs, events) && i < |events|
    requires t in dbs[i].queue && Finished(dbs[i].queue[t].status) && t in dbs[i].states
    ensures t in dbs[i+1].queue && dbs[i+1].queue[t] == dbs[i].queue[t]
    ensures t in dbs[i+1].states && dbs[i+1].states[t] == dbs[i].states[t]
  {
    var c := ChangeAt(dbs, events, i);
  }

  // A finished row is frozen, together with the persisted state of its task.
  lemma {:induction false} FinishedIsAbsorbing(dbs: seq<Db>, events: seq<Event>, i: nat, j: nat, t: Text)
    requires IsRun(dbs, events) && dbs[0] == EMPTY && i <= j < |dbs|
    requires t in dbs[i].queue && Finished(dbs[i].queue[t].status)
    ensures t in dbs[j].queue && dbs[j].queue[t] == dbs[i].queue[t]
    ensures t in dbs[i].states && t in dbs[j].states && dbs[j].states[t] == dbs[i].states[t]
    decreases j
  {
    EmptyValid();
    RunValid(dbs, events, i);
    if i < j {
      FinishedIsAbsorbing(dbs, events, i, j - 1, t);
      FinishedStays(dbs, events, j - 1, t);
    }
  }

  ghost predicate ClaimedAt(events: seq<Event>, i: int, t: Text) {
    0 <= i < |events| && events[i].step.ClaimNext? && events[i].reply.Claimed? && events[i].reply.claim.task == t
  }

  ghost predicate RequeuedAt(dbs: seq<Db>, events: seq<Event>, i: int, t: Text) {
    && 0 <= i < |events| && i < |dbs|
    && events[i].step.Requeue? && events[i].step.task == t && events[i].reply == Done
    && Justified(dbs[i], t)
  }

  predicate Waiting(db: Db, t: Text) {
    t in db.queue && db.queue[t].status in {Q_QUEUED, Q_RETRY_WAIT}
  }

  lemma EntersQueueOnlyByRequeue(dbs: seq<Db>, events: seq<Event>, i: nat, t: Text)
    requires IsRun(dbs, events) && i < |events|
    requires t in dbs[i].queue && !Waiting(dbs[i], t) && Waiting(dbs[i+1], t)
    ensures RequeuedAt(dbs, events, i, t)
  {
    var c := ChangeAt(dbs, events, i);
    OnlyRequeueEnters(dbs[i], c, dbs[i+1], t);
  }

  lemma OnlyRequeueEnters(a: Db, c: Change, b: Db, t: Text)
    requires Explains(a, c, b) && t in a.queue && !Waiting(a, t) && Waiting(b, t)
    ensures c.move == Requeued && c.task == t && Justified(a, t)
  {
  }

  lemma {:induction false} RequeueBetween(dbs: seq<Db>, events: seq<Event>, i: nat, j: nat, t: Text) returns (k: nat)
    requires IsRun(dbs, events) && i < j < |dbs|
    requires t in dbs[i].queue && !Waiting(dbs[i], t) && Waiting(dbs[j], t)
    ensures i <= k < j && RequeuedAt(dbs, events, k, t)
    decreases j - i
  {
    var c := ChangeAt(dbs, events, i);
    if Waiting(dbs[i+1], t) {
      EntersQueueOnlyByRequeue(dbs, events, i, t);
      k := i;
    } else {
      k := RequeueBetween(dbs, events, i + 1, j, t);
    }
  }

  lemma ClaimTakesWaitingRow(dbs: seq<Db>, events: seq<Event>, i: nat, t: Text)
    requires IsRun(dbs, events) && ClaimedAt(events, i, t)
    ensures Waiting(dbs[i], t) && t in dbs[i+1].queue && dbs[i+1].queue[t].status == Q_LEASED
    ensures dbs[i].queue[t].attempts < dbs[i].queue[t].maxAttempts
    ensures dbs[i+1].queue[t].attempts == dbs[i].queue[t].attempts + 1
    ensures t in dbs[i].states && dbs[i].states[t].intact
         && dbs[i].states[t].status in {CREATED, QUEUED, READY, WAITING_APPROVAL}
  {
    var s := events[i].step;
    var o := Outcome(dbs[i+1], events[i].reply);
    if exists u :: u in dbs[i].queue && Expired(dbs[i].queue[u], s.stamp) {
      assert false;
    }
    var u :| FirstRunnable(dbs[i].queue, u, s.stamp)
             && o == ApplyTake(dbs[i], u, s.worker, s.ttl, s.lease, s.expiryBase);
  }

  // No silent re-execution: two successful claims of one task are separated by a requeue that
  // found the task waiting and every approval it names approved and bound to it.
  lemma ClaimsAreSeparatedByApprovals(dbs: seq<Db>, events: seq<Event>, i: nat, j: nat, t: Text)
    requires IsRun(dbs, events) && i < j && ClaimedAt(events, i, t) && ClaimedAt(events, j, t)
    ensures exists k :: i < k < j && RequeuedAt(dbs, events, k, t)
  {
    ClaimTakesWaitingRow(dbs, events, i, t);
    ClaimTakesWaitingRow(dbs, events, j, t);
    var k := RequeueBetween(dbs, events, i + 1, j, t);
    assert i < k < j && RequeuedAt(dbs, events, k, t);
  }

  // How many more status changes the row can make.
  function Potential(r: Row): int {
    3 * (r.maxAttempts - r.attempts) +
    (match r.status case Q_LEASED => 2 case Q_WAITING_APPROVAL => 1 case _ => 0)
  }

  ghost function StatusChanges(dbs: seq<Db>, t: Text): nat
    requires forall i :: 0 <= i < |dbs| ==> t in dbs[i].queue
  {
    if |dbs| <= 1 then 0
    else StatusChanges(dbs[..|dbs|-1], t)
         + if dbs[|dbs|-1].queue[t].status != dbs[|dbs|-2].queue[t].status then 1 else 0
  }

  lemma {:induction false} RowsAreKept(dbs: seq<Db>, events: seq<Event>, i: nat, t: Text)
    requires IsRun(dbs, events) && t in dbs[0].queue && i < |dbs|
    ensures t in dbs[i].queue
  {
    if i > 0 {
      RowsAreKept(dbs, events, i - 1, t);
      var c := ChangeAt(dbs, events, i - 1);
    }
  }

  lemma StatusChangeSpends(dbs: seq<Db>, events: seq<Event>, i: nat, t: Text)
    requires IsRun(dbs, events) && i < |events| && t in dbs[i].queue
    ensures t in dbs[i+1].queue
    ensures Potential(dbs[i+1].queue[t])
      <= Potential(dbs[i].queue[t]) - if dbs[i+1].queue[t].status != dbs[i].queue[t].status then 1 else 0
  {
    var c := ChangeAt(dbs, events, i);
  }

  lemma {:induction false} ChangesSpendPotential(dbs: seq<Db>, events: seq<Event>, t: Text)
    requires IsRun(dbs, events) && t in dbs[0].queue
    requires forall i :: 0 <= i < |dbs| ==> t in dbs[i].queue
    ensures StatusChanges(dbs, t) <= Potential(dbs[0].queue[t]) - Potential(dbs[|dbs|-1].queue[t])
    decreases |events|
  {
    if |events| > 0 {
      var n := |events|;
      ChangesSpendPotential(dbs[..n], events[..n-1], t);
      StatusChangeSpends(dbs, events, n - 1, t);
    }
  }

  // A real bound: from its creation on, a task changes queue status at most 3 * maxAttempts
  // times, and its attempt count never passes maxAttempts.
  lemma QueueActivityIsBounded(dbs: seq<Db>, events: seq<Event>, t: Text)
    requires IsRun(dbs, events) && Valid(dbs[0])
    requires t in dbs[0].queue && NewRow(dbs[0].queue[t])
    ensures forall i :: 0 <= i < |dbs| ==> t in dbs[i].queue
    ensures StatusChanges(dbs, t) <= 3 * dbs[0].queue[t].maxAttempts
    ensures forall i :: 0 <= i < |dbs| ==> dbs[i].queue[t].attempts <= dbs[i].queue[t].maxAttempts
  {
    forall i | 0 <= i < |dbs| ensures t in dbs[i].queue && dbs[i].queue[t].attempts <= dbs[i].queue[t].maxAttempts {
      RowsAreKept(dbs, events, i, t);
      RunValid(dbs, events, i);
    }
    ChangesSpendPotential(dbs, events, t);
  }

  // A task put back in the queue after its last attempt is never claimed again: its row stays
  // as it is in every later state.
  lemma {:induction false} ExhaustedTaskIsStranded(dbs: seq<Db>, events: seq<Event>, i: nat, j: nat, t: Text)
    requires IsRun(dbs, events) && i <= j < |dbs|
    requires t in dbs[i].queue && dbs[i].queue[t].status == Q_QUEUED
    requires dbs[i].queue[t].attempts == dbs[i].queue[t].maxAttempts
    ensures t in dbs[j].queue && dbs[j].queue[t] == dbs[i].queue[t]
    decreases j
  {
    if i < j {
      ExhaustedTaskIsStranded(dbs, events, i, j - 1, t);
      var c := ChangeAt(dbs, events, j - 1);
    }
  }

  // Log refinement: in every reachable state the checkpoints of a task are numbered 1..n, its
  // state row is checkpoint n, and the action rows are the last writes of the whole log.
  lemma StateIsTheLog(dbs: seq<Db>, events: seq<Event>, i: nat)
    requires IsRun(dbs, events) && dbs[0] == EMPTY && i < |dbs|
    ensures StatesOk(dbs[i]) && ActionsOk(dbs[i])
    ensures forall t :: t in dbs[i].states ==>
      Latest(dbs[i].log, t).Some? && Latest(dbs[i].log, t).value.sequence == Count(dbs[i].log, t)
  {
    EmptyValid();
    RunValid(dbs, events, i);
    forall t | t in dbs[i].states
      ensures Latest(dbs[i].log, t).Some? && Latest(dbs[i].log, t).value.sequence == Count(dbs[i].log, t)
    {
      LatestHasLastSequence(dbs[i].log, t);
    }
  }

  lemma {:induction false} LatestHasLastSequence(log: seq<Checkpoint>, t: Text)
    requires forall i :: 0 <= i < |log| ==> log[i].sequence == Count(log[..i], log[i].task) + 1
    requires Latest(log, t).Some?
    ensures Latest(log, t).value.sequence == Count(log, t)
  {
    var init := log[..|log|-1];
    if log[|log|-1].task != t {
      forall i | 0 <= i < |init| ensures init[i].sequence == Count(init[..i], init[i].task) + 1 {
        assert init[..i] == log[..i];
      }
      LatestHasLastSequence(init, t);
    }
  }
}
