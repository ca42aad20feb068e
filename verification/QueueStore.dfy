// The queue half of storage.Store: tables as fields, one method per transaction. Each method
// is proved to be one step of the state machine in Queue, on every path.
module QueueStore {
  import opened Wrappers
  import opened Text
  import opened TaskStates
  import opened Queue

  class Store {
    var queue: map<Text, Row>
    var states: map<Text, Snapshot>
    var log: seq<Checkpoint>
    var actions: map<Text, ActionRow>
    var approvals: map<Text, Approval>
    var issued: set<Text>

    function View(): Db
      reads this
    {
      Db(queue, states, log, actions, approvals, issued)
    }

    constructor ()
      ensures View() == EMPTY
    {
      queue, states, log, actions, approvals, issued := map[], map[], [], map[], map[], {};
    }

    // _persist_task_state_in_transaction, after its lease check.
    method PersistTaskState(task: Text, snapshot: Snapshot, kind: string, writer: Writer)
      modifies this`states, this`log, this`actions
      ensures View() == Persist(old(View()), task, snapshot, kind, writer)
    {
      var sequence := MaxSequence(log, task) + 1;
      states := states[task := snapshot];
      log := log + [Checkpoint(task, sequence, kind, snapshot, writer)];
      for i := 0 to |snapshot.actions|
        modifies this`actions
        invariant actions == Upsert(old(actions), task, snapshot.actions[..i])
      {
        assert snapshot.actions[..i+1][..i] == snapshot.actions[..i];
        actions := actions[snapshot.actions[i].key := ActionRow(task, snapshot.actions[i])];
      }
      assert snapshot.actions[..|snapshot.actions|] == snapshot.actions;
    }

    method CreateQueuedTask(task: Text, maxAttempts: int, body: int, now: int) returns (r: Reply)
      modifies this
      ensures Next(old(View()), Create(task, maxAttempts, body, now), Outcome(View(), r))
    {
      if maxAttempts < 1 {
        return Raised(InvalidArgument);
      }
      if task in queue {
        return Raised(DuplicateTask);
      }
      PersistTaskState(task, CreateQueued(body), "TASK_QUEUED", Unfenced);
      queue := queue[task := Row(Q_QUEUED, 0, maxAttempts, now, now, [], [], None, "")];
      return Done;
    }

    method SaveTaskState(caller: Option<Claim>, task: Text, snapshot: Snapshot, kind: string, now: int)
      returns (r: Reply)
      modifies this
      ensures Next(old(View()), Save(caller, task, snapshot, kind, now), Outcome(View(), r))
    {
      var writer := Unfenced;
      if task in queue {
        var row := queue[task];
        if caller.None? || caller.value.task != task || row.status != Q_LEASED
          || row.leaseId != caller.value.leaseId || row.workerId != caller.value.workerId {
          return Raised(LeaseLost);
        }
        if row.expiresAt.None? || row.expiresAt.value <= now {
          return Raised(LeaseLost);
        }
        writer := Leased(row.leaseId, row.attempts);
      }
      PersistTaskState(task, snapshot, kind, writer);
      return Done;
    }

    // SELECT ... WHERE expired ORDER BY lease_expires_at, task_id LIMIT 1.
    method SelectExpired(stamp: int) returns (t: Option<Text>)
      ensures t.Some? ==> FirstExpired(queue, t.value, stamp)
      ensures t.None? ==> forall u :: u in queue ==> !Expired(queue[u], stamp)
    {
      var rest := queue.Keys;
      t := None;
      while rest != {}
        invariant rest <= queue.Keys
        invariant t.Some? ==> t.value in queue && Expired(queue[t.value], stamp)
        invariant forall u :: u in queue && u !in rest && Expired(queue[u], stamp) ==>
          t.Some? && (u == t.value || ExpiresBefore(queue, t.value, u))
        decreases rest
      {
        var u :| u in rest;
        rest := rest - {u};
        if Expired(queue[u], stamp) {
          if t.None? || ExpiresBefore(queue, u, t.value) {
            ghost var was := t;
            t := Some(u);
            forall v | v in queue && v !in rest && v != u && Expired(queue[v], stamp)
              ensures ExpiresBefore(queue, u, v)
            {
              if v != was.value {
                LessTransitive'(queue[u].expiresAt.value, u, queue[was.value].expiresAt.value, was.value,
                                queue[v].expiresAt.value, v);
              }
            }
          } else {
            LessTotal(u, t.value);
          }
        }
      }
    }

    // SELECT ... WHERE runnable ORDER BY available_at, created_at, task_id LIMIT 1.
    method SelectRunnable(stamp: int) returns (t: Option<Text>)
      ensures t.Some? ==> FirstRunnable(queue, t.value, stamp)
      ensures t.None? ==> forall u :: u in queue ==> !Runnable(queue[u], stamp)
    {
      var rest := queue.Keys;
      t := None;
      while rest != {}
        invariant rest <= queue.Keys
        invariant t.Some? ==> t.value in queue && Runnable(queue[t.value], stamp)
        invariant forall u :: u in queue && u !in rest && Runnable(queue[u], stamp) ==>
          t.Some? && (u == t.value || RunsBefore(queue, t.value, u))
        decreases rest
      {
        var u :| u in rest;
        rest := rest - {u};
        if Runnable(queue[u], stamp) {
          if t.None? || RunsBefore(queue, u, t.value) {
            ghost var was := t;
            t := Some(u);
            forall v | v in queue && v !in rest && v != u && Runnable(queue[v], stamp) ensures RunsBefore(queue, u, v) {
              if v != was.value {
                RunsBeforeTransitive(queue, u, was.value, v);
              }
            }
          } else {
            LessTotal(u, t.value);
          }
        }
      }
    }

    // _mark_expired_lease_in_transaction.
    method MarkExpiredLease(task: Text) returns (r: Reply)
      requires task in queue && queue[task].status == Q_LEASED
      modifies this
      ensures Outcome(View(), r) == ApplyExpired(old(View()), task)
    {
      var status, code := Q_EXECUTION_UNKNOWN, "lease_expired_execution_unknown";
      var closer := CloserOf(queue[task]);
      if task in states {
        var s := states[task];
        if !s.intact {
          status, code := Q_BLOCKED, "malformed_task_state";
        } else if Terminal(s.status) {
          status, code := QueueStatusFor(s.status), "lease_expired_after_terminal_state";
        } else if s.status == WAITING_APPROVAL {
          status, code := Q_WAITING_APPROVAL, "lease_expired_waiting_approval";
        } else {
          var unknown := MarkUnknown(s, "worker_lease_expired");
          if unknown.None? {
            return Raised(InvalidTransition);
          }
          PersistTaskState(task, unknown.value, "EXECUTION_UNKNOWN", closer);
        }
      }
      queue := queue[task := Close(queue[task], status, code)];
      return Recovered(task, status);
    }

    method ClaimNextTask(worker: Text, ttl: int, lease: Text, stamp: int, expiryBase: int) returns (r: Reply)
      requires lease != [] && lease !in issued
      modifies this
      ensures Next(old(View()), ClaimNext(worker, ttl, lease, stamp, expiryBase), Outcome(View(), r))
    {
      if worker == [] || ttl < 1 {
        return Raised(InvalidArgument);
      }
      var expired := SelectExpired(stamp);
      if expired.Some? {
        assert expired.value in queue && Expired(queue[expired.value], stamp);
        r := MarkExpiredLease(expired.value);
        return;
      }
      var candidate := SelectRunnable(stamp);
      if candidate.None? {
        return Nothing;
      }
      r := TakeTask(candidate.value, worker, ttl, lease, expiryBase);
      assert FirstRunnable(old(queue), candidate.value, stamp);
    }

    // The claiming half of claim_next_task.
    method TakeTask(task: Text, worker: Text, ttl: int, lease: Text, expiryBase: int) returns (r: Reply)
      requires task in queue
      modifies this
      ensures Outcome(View(), r) == ApplyTake(old(View()), task, worker, ttl, lease, expiryBase)
    {
      if task !in states {
        return Raised(StateMissing);
      }
      var row := queue[task];
      queue := queue[task := row.(status := Q_LEASED, attempts := row.attempts + 1, leaseId := lease,
                                  workerId := worker, expiresAt := Some(expiryBase + ttl))];
      issued := issued + {lease};
      var s := states[task];
      if s.intact && s.status in {EXECUTION_UNKNOWN, BLOCKED, FAILED, COMPLETED} {
        queue := queue[task := Close(queue[task], QueueStatusFor(s.status), "queue_state_not_executable")];
        return Settled(task, QueueStatusFor(s.status));
      }
      if !s.intact || s.status !in {CREATED, QUEUED, READY, WAITING_APPROVAL} {
        queue := queue[task := Close(queue[task], Q_BLOCKED, "malformed_task_state")];
        return Settled(task, Q_BLOCKED);
      }
      return Claimed(Claim(task, lease, worker), row.attempts + 1);
    }

    method RenewTaskLease(claim: Claim, ttl: int, stamp: int, expiryBase: int) returns (r: Reply)
      modifies this
      ensures Next(old(View()), Renew(claim, ttl, stamp, expiryBase), Outcome(View(), r))
    {
      if ttl < 1 {
        return Raised(InvalidArgument);
      }
      if !Holds(queue, claim) || queue[claim.task].expiresAt.None? || queue[claim.task].expiresAt.value <= stamp {
        return Raised(LeaseLost);
      }
      queue := queue[claim.task := queue[claim.task].(expiresAt := Some(expiryBase + ttl))];
      return Done;
    }

    // The state finish_task_claim persists for state_status, if the transition is allowed.
    method FailureState(was: Snapshot, saveAs: Status, note: string) returns (r: Option<Snapshot>)
      ensures r == FailureSnapshot(was, saveAs, note)
    {
      var s := was;
      if saveAs == EXECUTION_UNKNOWN {
        if s.status != EXECUTION_UNKNOWN {
          return MarkUnknown(s, "worker_execution_interrupted");
        }
      } else if saveAs == FAILED && !Terminal(s.status) {
        if FAILED !in Successors(s.status) {
          return None;
        }
        s := s.(status := FAILED, errors := s.errors + [note]);
      }
      return Some(s);
    }

    method FinishTaskClaim(claim: Claim, status: QueueStatus, errorCode: string, message: string,
                           saveAs: Option<Status>, now: int) returns (r: Reply)
      modifies this
      ensures Next(old(View()), Finish(claim, status, errorCode, message, saveAs, now), Outcome(View(), r))
    {
      if status !in {Q_WAITING_APPROVAL, Q_EXECUTION_UNKNOWN, Q_COMPLETED, Q_FAILED, Q_BLOCKED} {
        return Raised(InvalidArgument);
      }
      if !Holds(queue, claim) || queue[claim.task].expiresAt.None? || queue[claim.task].expiresAt.value <= now {
        return Raised(LeaseLost);
      }
      var task := claim.task;
      if saveAs.Some? && task in states {
        if !states[task].intact {
          return Raised(StateIntegrity);
        }
        var note := if message != "" then message else if errorCode != "" then errorCode else "worker_failed";
        var s := FailureState(states[task], saveAs.value, note);
        if s.None? {
          return Raised(InvalidTransition);
        }
        var kind := if saveAs.value == EXECUTION_UNKNOWN then "EXECUTION_UNKNOWN" else "WORKER_FAILED";
        PersistTaskState(task, s.value, kind, CloserOf(queue[task]));
      }
      queue := queue[task := Close(queue[task], status, errorCode)];
      return Done;
    }

    method MarkTaskExecutionUnknownIfOwned(claim: Claim, reason: string) returns (r: Reply)
      modifies this
      ensures Next(old(View()), MarkLost(claim, reason), Outcome(View(), r))
    {
      if !Holds(queue, claim) {
        return Raised(LeaseLost);
      }
      var task := claim.task;
      var status, code := Q_EXECUTION_UNKNOWN, "execution_unknown";
      if task in states {
        var s := states[task];
        if !s.intact {
          return Raised(StateIntegrity);
        }
        if Terminal(s.status) {
          status, code := QueueStatusFor(s.status), "";
        } else if s.status == WAITING_APPROVAL {
          status, code := Q_WAITING_APPROVAL, "";
        } else {
          var unknown := MarkUnknown(s, reason);
          if unknown.None? {
            return Raised(InvalidTransition);
          }
          PersistTaskState(task, unknown.value, "EXECUTION_UNKNOWN", CloserOf(queue[task]));
        }
      }
      queue := queue[task := Close(queue[task], status, code)];
      return Done;
    }

    method RequeueWaitingApprovalTask(task: Text, now: int) returns (r: Reply)
      modifies this`queue
      ensures Next(old(View()), Requeue(task, now), Outcome(View(), r))
    {
      if task !in queue || task !in states {
        return Raised(TaskNotFound);
      }
      var s := states[task];
      if !s.intact {
        return Raised(StateIntegrity);
      }
      if queue[task].status != Q_WAITING_APPROVAL || s.status != WAITING_APPROVAL {
        return Raised(NotWaiting);
      }
      if s.approvals == map[] {
        return Raised(NotApproved);
      }
      var rest := s.approvals.Keys;
      while rest != {}
        invariant rest <= s.approvals.Keys
        invariant forall a :: a in s.approvals && a !in rest ==> ApprovedFor(approvals, task, a, s.approvals[a])
        decreases rest
      {
        var action :| action in rest;
        if !ApprovedFor(approvals, task, action, s.approvals[action]) {
          return Raised(NotApproved);
        }
        rest := rest - {action};
      }
      queue := queue[task := queue[task].(status := Q_QUEUED, availableAt := now, errorCode := "")];
      return Done;
    }

    method SaveApproval(id: Text, approval: Approval) returns (r: Reply)
      modifies this`approvals
      ensures Next(old(View()), WriteApproval(id, approval), Outcome(View(), r))
    {
      approvals := approvals[id := approval];
      return Done;
    }
  }

  lemma LessTransitive'(x: int, a: Text, y: int, b: Text, z: int, c: Text)
    requires x < y || (x == y && Less(a, b))
    requires y < z || (y == z && Less(b, c))
    ensures x < z || (x == z && Less(a, c))
  {
    if Less(a, b) && Less(b, c) {
      LessTransitive(a, b, c);
    }
  }

  lemma RunsBeforeTransitive(queue: map<Text, Row>, a: Text, b: Text, c: Text)
    requires a in queue && b in queue && c in queue
    requires RunsBefore(queue, a, b) && RunsBefore(queue, b, c)
    ensures RunsBefore(queue, a, c)
  {
    if Less(a, b) && Less(b, c) {
      LessTransitive(a, b, c);
    }
  }
}
