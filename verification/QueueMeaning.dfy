// What each transaction of the queue does, said on rows, states and checkpoints.
module QueueMeaning {
  import opened Wrappers
  import opened Text
  import opened TaskStates
  import opened Queue
  import opened QueueRuns

  // ---- Who may write -----------------------------------------------------------------------------

  // The row is leased to this very claim.
  predicate LeasedTo(db: Db, c: Claim) {
    && c.task in db.queue && db.queue[c.task].status == Q_LEASED
    && db.queue[c.task] == db.queue[c.task].(leaseId := c.leaseId, workerId := c.workerId)
  }

  predicate Unexpired(db: Db, task: Text, now: int) {
    task in db.queue && db.queue[task].expiresAt.Some? && now < db.queue[task].expiresAt.value
  }

  // A save of a queue-managed task, a renewal and a finish are refused with a lost lease
  // exactly when the caller is not the task's lease holder or its lease has run out; fencing
  // only when the caller is not the holder. A refused call changes nothing.
  lemma OnlyTheLeaseHolderWrites(db: Db, s: Step, o: Outcome)
    requires Next(db, s, o) && (s.Save? || s.Renew? || s.Finish? || s.MarkLost?)
    ensures o.reply.Raised? ==> o.db == db
    ensures s.Save? ==>
              (o.reply == Raised(LeaseLost) <==>
                 s.task in db.queue && !(s.caller.Some? && s.caller.value.task == s.task
                                         && LeasedTo(db, s.caller.value) && Unexpired(db, s.task, s.now)))
    ensures s.Renew? ==>
              (o.reply == Raised(LeaseLost) <==>
                 s.ttl >= 1 && !(LeasedTo(db, s.claim) && Unexpired(db, s.claim.task, s.stamp)))
    ensures s.Finish? && s.status in {Q_WAITING_APPROVAL, Q_EXECUTION_UNKNOWN, Q_COMPLETED, Q_FAILED, Q_BLOCKED} ==>
              (o.reply == Raised(LeaseLost) <==> !(LeasedTo(db, s.claim) && Unexpired(db, s.claim.task, s.now)))
    ensures s.MarkLost? ==> (o.reply == Raised(LeaseLost) <==> !LeasedTo(db, s.claim))
  {}

  // ---- Finishing ---------------------------------------------------------------------------------

  // The row after its lease ended in this status.
  predicate EndedAs(r: Row, q: Row, status: QueueStatus, errorCode: string) {
    && q.status == status && q.errorCode == errorCode && q.leaseId == [] && q.workerId == [] && q.expiresAt == None
    && q.attempts == r.attempts && q.maxAttempts == r.maxAttempts
    && q.availableAt == r.availableAt && q.createdAt == r.createdAt
  }

  // Only the row of this task changed.
  predicate OnlyRow(a: Db, b: Db, t: Text) {
    && t in a.queue && t in b.queue && b.queue == a.queue[t := b.queue[t]]
    && b.issued == a.issued && b.approvals == a.approvals
  }

  // Its state row and one new checkpoint hold this snapshot, written under the lease that ended.
  predicate Saved(a: Db, b: Db, t: Text, s: Snapshot, kind: string) {
    && t in a.queue && b.states == a.states[t := s] && |b.log| == |a.log| + 1 && a.log <= b.log
    && b.log[|a.log|].task == t && b.log[|a.log|].snapshot == s && b.log[|a.log|].kind == kind
    && b.log[|a.log|].writer == Closing(a.queue[t].leaseId, a.queue[t].attempts)
  }

  predicate MayFinish(db: Db, c: Claim, status: QueueStatus, now: int) {
    && status in {Q_WAITING_APPROVAL, Q_EXECUTION_UNKNOWN, Q_COMPLETED, Q_FAILED, Q_BLOCKED}
    && LeasedTo(db, c) && Unexpired(db, c.task, now)
  }

  // Without a state to save the finish commits, and moves nothing but the row.
  lemma PlainFinish(db: Db, c: Claim, status: QueueStatus, code: string, message: string, saveAs: Option<Status>,
                    now: int)
    requires MayFinish(db, c, status, now) && (saveAs.None? || c.task !in db.states)
    ensures var o := ApplyFinish(db, c, status, code, message, saveAs, now);
      && o.reply == Done && OnlyRow(db, o.db, c.task) && EndedAs(db.queue[c.task], o.db.queue[c.task], status, code)
      && o.db.states == db.states && o.db.log == db.log && o.db.actions == db.actions
  {}

  // A failed finish over a decodable state always commits. An unfinished state is persisted as
  // FAILED with the worker's note added to its errors and nothing else changed; a finished one
  // is persisted as it is. Row and state then agree on FAILED.
  lemma FailedFinishPersistsTheFailure(db: Db, c: Claim, code: string, message: string, now: int)
    requires MayFinish(db, c, Q_FAILED, now) && c.task in db.states && db.states[c.task].intact
    ensures var o := ApplyFinish(db, c, Q_FAILED, code, message, Some(FAILED), now);
      var was, left := db.states[c.task], o.db.states[c.task];
      && o.reply == Done && OnlyRow(db, o.db, c.task) && EndedAs(db.queue[c.task], o.db.queue[c.task], Q_FAILED, code)
      && Saved(db, o.db, c.task, left, "WORKER_FAILED")
      && (was.status in {COMPLETED, FAILED, BLOCKED} ==> left == was)
      && (was.status !in {COMPLETED, FAILED, BLOCKED} ==>
            && left.status == FAILED && |left.errors| == |was.errors| + 1 && was.errors <= left.errors
            && (message != "" ==> left.errors[|was.errors|] == message)
            && (message == "" && code != "" ==> left.errors[|was.errors|] == code)
            && (message == "" && code == "" ==> left.errors[|was.errors|] == "worker_failed")
            && left.(status := was.status, errors := was.errors) == was)
  {
    assert FAILED in Successors(db.states[c.task].status) || Terminal(db.states[c.task].status);
  }

  // A finish with an unknown outcome commits exactly outside VERIFYING, WAITING_APPROVAL and
  // the finished statuses; the state is then persisted as EXECUTION_UNKNOWN with the reason,
  // or, if it already was unknown, as it is.
  lemma UnknownFinishPersistsTheDoubt(db: Db, c: Claim, code: string, message: string, now: int)
    requires MayFinish(db, c, Q_EXECUTION_UNKNOWN, now) && c.task in db.states && db.states[c.task].intact
    ensures var o := ApplyFinish(db, c, Q_EXECUTION_UNKNOWN, code, message, Some(EXECUTION_UNKNOWN), now);
      var was := db.states[c.task];
      && (o.reply == Done <==> was.status !in {VERIFYING, WAITING_APPROVAL, COMPLETED, FAILED, BLOCKED})
      && (o.reply != Done ==> o == Outcome(db, Raised(InvalidTransition)))
      && (o.reply == Done ==>
            && OnlyRow(db, o.db, c.task)
            && EndedAs(db.queue[c.task], o.db.queue[c.task], Q_EXECUTION_UNKNOWN, code)
            && Saved(db, o.db, c.task, o.db.states[c.task], "EXECUTION_UNKNOWN")
            && o.db.states[c.task].status == EXECUTION_UNKNOWN
            && (was.status == EXECUTION_UNKNOWN ==> o.db.states[c.task] == was)
            && (was.status != EXECUTION_UNKNOWN ==>
                  && o.db.states[c.task].recovery == "worker_execution_interrupted"
                  && o.db.states[c.task].(status := was.status, recovery := was.recovery) == was))
  {}

  // No finish with a state to save commits over a state that does not decode.
  lemma UndecodableFinishIsRefused(db: Db, c: Claim, status: QueueStatus, code: string, message: string,
                                   saveAs: Status, now: int)
    requires MayFinish(db, c, status, now) && c.task in db.states && !db.states[c.task].intact
    ensures ApplyFinish(db, c, status, code, message, Some(saveAs), now) == Outcome(db, Raised(StateIntegrity))
  {}

  // ---- Recovering --------------------------------------------------------------------------------

  // How a lease that ended without its worker closes a row.
  predicate ClosesLost(was: Option<Snapshot>, status: QueueStatus) {
    && (was == None ==> status == Q_EXECUTION_UNKNOWN)
    && (was.Some? && !was.value.intact ==> status == Q_BLOCKED)
    && (was.Some? && was.value.intact ==>
          match was.value.status
          case COMPLETED => status == Q_COMPLETED
          case FAILED => status == Q_FAILED
          case BLOCKED => status == Q_BLOCKED
          case WAITING_APPROVAL => status == Q_WAITING_APPROVAL
          case _ => status == Q_EXECUTION_UNKNOWN)
  }

  // What becomes of the state: marked unknown with the reason if the work was unfinished and not
  // waiting, else untouched.
  predicate StateAfterLoss(a: Db, b: Db, t: Text, reason: string) {
    if t in a.states && a.states[t].intact && a.states[t].status !in {COMPLETED, FAILED, BLOCKED, WAITING_APPROVAL}
    then
      && t in b.states && b.states[t] == a.states[t].(status := EXECUTION_UNKNOWN, recovery := reason)
      && Saved(a, b, t, b.states[t], "EXECUTION_UNKNOWN")
    else b.states == a.states && b.log == a.log
  }

  function ExpiryCode(was: Option<Snapshot>): string {
    if was.Some? && !was.value.intact then "malformed_task_state"
    else if was.Some? && was.value.status == WAITING_APPROVAL then "lease_expired_waiting_approval"
    else if was.Some? && was.value.status in {COMPLETED, FAILED, BLOCKED} then "lease_expired_after_terminal_state"
    else "lease_expired_execution_unknown"
  }

  lemma ExpiredLeaseCloses(db: Db, t: Text)
    requires t in db.queue
    ensures var o := ApplyExpired(db, t);
      o.reply.Recovered? ==>
        && OnlyRow(db, o.db, t) && EndedAs(db.queue[t], o.db.queue[t], o.reply.status, ExpiryCode(StateOf(db, t)))
        && ClosesLost(StateOf(db, t), o.reply.status) && StateAfterLoss(db, o.db, t, "worker_lease_expired")
  {}

  lemma FencedLeaseCloses(db: Db, c: Claim, reason: string)
    ensures var o := ApplyMarkLost(db, c, reason);
      o.reply == Done ==>
        && OnlyRow(db, o.db, c.task)
        && EndedAs(db.queue[c.task], o.db.queue[c.task], o.db.queue[c.task].status,
                   if o.db.queue[c.task].status == Q_EXECUTION_UNKNOWN then "execution_unknown" else "")
        && ClosesLost(StateOf(db, c.task), o.db.queue[c.task].status) && StateAfterLoss(db, o.db, c.task, reason)
  {}

  // ---- Claiming ----------------------------------------------------------------------------------

  predicate Due(r: Row, stamp: int) {
    (r.status == Q_QUEUED || r.status == Q_RETRY_WAIT) && r.availableAt <= stamp && r.attempts < r.maxAttempts
  }

  predicate Overdue(r: Row, stamp: int) {
    r.status == Q_LEASED && r.expiresAt.Some? && r.expiresAt.value <= stamp
  }

  // First come, first served: a claimed task is due, no due task has been available longer, or
  // as long and created earlier, or both and a smaller id, and no lease is overdue.
  lemma ClaimsAreFirstComeFirstServed(db: Db, s: Step, o: Outcome, u: Text)
    requires s.ClaimNext? && Next(db, s, o) && o.reply.Claimed? && u in db.queue
    ensures var t := o.reply.claim.task;
      && t in db.queue && Due(db.queue[t], s.stamp) && !Overdue(db.queue[u], s.stamp)
      && (Due(db.queue[u], s.stamp) && u != t ==>
            var x, y := db.queue[t], db.queue[u];
            && x.availableAt <= y.availableAt
            && (x.availableAt == y.availableAt ==>
                  x.createdAt <= y.createdAt && (x.createdAt == y.createdAt ==> Less(t, u))))
  {
    assert Expired(db.queue[u], s.stamp) <==> Overdue(db.queue[u], s.stamp);
  }

  // A claim that succeeds leases the row to the caller under the new lease until base + ttl,
  // counts the attempt, and changes nothing else.
  lemma ClaimLeasesTheRow(db: Db, s: Step, o: Outcome)
    requires s.ClaimNext? && Next(db, s, o) && o.reply.Claimed?
    ensures var t := o.reply.claim.task;
      && o.reply.claim == Claim(t, s.lease, s.worker) && t in db.queue && t in o.db.queue
      && o.reply.attempt == db.queue[t].attempts + 1
      && o.db == db.(queue := db.queue[t := o.db.queue[t]], issued := db.issued + {s.lease})
      && LeasedTo(o.db, o.reply.claim) && o.db.queue[t].expiresAt == Some(s.expiryBase + s.ttl)
      && o.db.queue[t] == db.queue[t].(status := Q_LEASED, attempts := o.reply.attempt, leaseId := s.lease,
                                       workerId := s.worker, expiresAt := o.db.queue[t].expiresAt)
  {}

  // How the row of a task is closed whose state may not run.
  predicate ClosesUnclaimable(s: Snapshot, status: QueueStatus) {
    if s.intact && s.status in {COMPLETED, FAILED, BLOCKED, EXECUTION_UNKNOWN} then ClosesLost(Some(s), status)
    else status == Q_BLOCKED && (s.intact ==> s.status in {PLANNING, EXECUTING, OBSERVING, VERIFYING})
  }

  lemma UnclaimableTake(db: Db, t: Text, worker: Text, ttl: int, lease: Text, base: int)
    requires t in db.queue
    ensures var o := ApplyTake(db, t, worker, ttl, lease, base);
      o.reply.Settled? ==>
        && o.reply.task == t && t in db.states && t in o.db.queue && ClosesUnclaimable(db.states[t], o.reply.status)
        && o.db.queue[t].status == o.reply.status && o.db.queue[t].attempts == db.queue[t].attempts + 1
        && o.db.queue[t].leaseId == [] && o.db.queue[t].workerId == [] && o.db.queue[t].expiresAt == None
        && o.db.states == db.states && o.db.log == db.log
  {
    if t in db.states {
      match db.states[t].status
      case PLANNING =>
      case EXECUTING =>
      case OBSERVING =>
      case VERIFYING =>
      case _ =>
    }
  }

  // A task whose state may not run is closed instead: as its state if that is finished or
  // unknown, as BLOCKED if it is in the middle of work or does not decode.
  lemma UnclaimableTaskIsClosed(db: Db, s: Step, o: Outcome)
    requires s.ClaimNext? && Next(db, s, o) && o.reply.Settled?
    ensures var t := o.reply.task;
      && t in db.queue && t in db.states && t in o.db.queue && Due(db.queue[t], s.stamp)
      && ClosesUnclaimable(db.states[t], o.reply.status)
      && o.db.queue[t].status == o.reply.status && o.db.queue[t].attempts == db.queue[t].attempts + 1
      && o.db.queue[t].leaseId == [] && o.db.queue[t].workerId == [] && o.db.queue[t].expiresAt == None
      && o.db.states == db.states && o.db.log == db.log
  {
    if exists u :: u in db.queue && Expired(db.queue[u], s.stamp) {
      assert false;
    }
    var t :| FirstRunnable(db.queue, t, s.stamp) && o == ApplyTake(db, t, s.worker, s.ttl, s.lease, s.expiryBase);
    UnclaimableTake(db, t, s.worker, s.ttl, s.lease, s.expiryBase);
  }

  // Recovery comes first, and takes the lease that ran out first, or at the same time for the
  // smaller id.
  lemma RecoveryTakesTheOldestLease(db: Db, s: Step, o: Outcome, u: Text)
    requires s.ClaimNext? && Next(db, s, o) && o.reply.Recovered? && u in db.queue && Overdue(db.queue[u], s.stamp)
    ensures var t := o.reply.task;
      && t in db.queue && Overdue(db.queue[t], s.stamp)
      && db.queue[t].expiresAt.value <= db.queue[u].expiresAt.value
      && (db.queue[t].expiresAt == db.queue[u].expiresAt ==> t == u || Less(t, u))
  {
    assert Expired(db.queue[u], s.stamp);
  }

  // Nothing is returned exactly when no lease is overdue and no task is due.
  lemma IdleExactly(db: Db, s: Step, o: Outcome)
    requires s.ClaimNext? && Next(db, s, o) && s.worker != [] && s.ttl >= 1
    ensures o.reply == Nothing <==>
              forall t :: t in db.queue ==> !Overdue(db.queue[t], s.stamp) && !Due(db.queue[t], s.stamp)
    ensures o.reply == Nothing ==> o.db == db
  {
    forall t | t in db.queue
      ensures Overdue(db.queue[t], s.stamp) == Expired(db.queue[t], s.stamp)
      ensures Due(db.queue[t], s.stamp) == Runnable(db.queue[t], s.stamp)
    {}
  }

  // ---- Creating and requeueing -------------------------------------------------------------------

  // A new task is due at once, has its whole attempt limit, and a QUEUED state without history.
  lemma CreatedTask(db: Db, t: Text, maxAttempts: int, body: int, now: int)
    ensures var o := ApplyCreate(db, t, maxAttempts, body, now);
      && (o.reply == Done <==> maxAttempts >= 1 && t !in db.queue) && (o.reply != Done ==> o.db == db)
      && (o.reply == Done ==>
            && t in o.db.queue && o.db.queue == db.queue[t := o.db.queue[t]] && Due(o.db.queue[t], now)
            && o.db.queue[t].maxAttempts == maxAttempts && o.db.queue[t].attempts == 0
            && o.db.queue[t].availableAt == now == o.db.queue[t].createdAt && o.db.queue[t].leaseId == []
            && t in o.db.states && o.db.states == db.states[t := o.db.states[t]]
            && o.db.states[t].intact && o.db.states[t].status == QUEUED && o.db.states[t].body == body
            && o.db.states[t].actions == [] && o.db.states[t].approvals == map[] && o.db.states[t].errors == []
            && |o.db.log| == |db.log| + 1 && db.log <= o.db.log && o.db.log[|db.log|].snapshot == o.db.states[t])
  {}

  // A waiting task goes back exactly when its state names approvals and each of them exists,
  // is approved, and was given for this task and the action it is named for.
  lemma RequeuedExactly(db: Db, t: Text, now: int)
    ensures var o := ApplyRequeue(db, t, now);
      && (o.reply == Done <==>
            && t in db.queue && t in db.states && db.states[t].intact
            && db.queue[t].status == Q_WAITING_APPROVAL && db.states[t].status == WAITING_APPROVAL
            && db.states[t].approvals != map[]
            && forall action :: action in db.states[t].approvals ==>
                 var id := db.states[t].approvals[action];
                 && id in db.approvals && db.approvals[id] == Approval(t, action, true))
      && (o.reply != Done ==> o.reply.Raised? && o.db == db)
      && (o.reply == Done ==>
            && o.db == db.(queue := o.db.queue) && OnlyRow(db, o.db, t)
            && o.db.queue[t].status == Q_QUEUED && o.db.queue[t].availableAt == now
            && o.db.queue[t].attempts == db.queue[t].attempts && o.db.queue[t].maxAttempts == db.queue[t].maxAttempts)
  {
    if t in db.states {
      forall action | action in db.states[t].approvals
        ensures var id := db.states[t].approvals[action];
          ApprovedFor(db.approvals, t, action, id) <==>
              id in db.approvals && db.approvals[id] == Approval(t, action, true)
      {}
    }
  }
}
