// BackgroundWorker._process_claim under interference. A Schedule says what happens between
// two steps of the worker: any transactions of other workers, of the claim's own heartbeat
// and watchdog, of approvers; whether the heartbeat has reported a loss; what the clock
// reads. The orchestrator is any sequence of lease-checked writes with any ending.
module Worker {
  import opened Wrappers
  import opened Text
  import opened TaskStates
  import opened Queue
  import opened QueueChanges
  import opened QueueInvariants
  import opened QueueRuns
  import opened QueueStore

  datatype Schedule = Schedule(others: int -> seq<Step>, lost: int -> bool, clock: int -> int)

  // `caught` says whether the orchestrator swallows a rejection of this write.
  datatype Write = Write(task: Text, snapshot: Snapshot, kind: string, caught: bool)

  datatype Ending = Returns(finalStatus: Option<Status>) | RaisesLeaseLost | Raises(message: string)

  datatype Failure = LostLease | Failed(message: string)

  // What _process_claim does: return processed=True, return LEASE_LOST, or raise.
  datatype Report = Processed(status: QueueStatus) | LeaseLostReport | Escaped(error: Error)

  // What run_once returns.
  datatype Once = NoTask | NotExecutable(task: Text, status: QueueStatus) | Ran(report: Report) | Stopped(error: Error)

  // ---- The transactions so far ---------------------------------------------------------------

  // Every transaction committed or refused since some valid database, in order: event i leads
  // from dbs[i] to dbs[i+1].
  datatype History = History(dbs: seq<Db>, events: seq<Event>)

  ghost predicate Linked(h: History)
    decreases |h.events|
  {
    && |h.dbs| == |h.events| + 1
    && if h.events == [] then Valid(h.dbs[0])
       else
         var n := |h.events| - 1;
         && Linked(History(h.dbs[..n+1], h.events[..n]))
         && Next(h.dbs[n], h.events[n].step, Outcome(h.dbs[n+1], h.events[n].reply))
  }

  lemma {:induction false} LinkedIsRun(h: History)
    requires Linked(h)
    ensures IsRun(h.dbs, h.events) && Valid(h.dbs[0])
    decreases |h.events|
  {
    if h.events != [] {
      var n := |h.events| - 1;
      var init := History(h.dbs[..n+1], h.events[..n]);
      LinkedIsRun(init);
      forall i {:trigger h.events[i]} | 0 <= i <= n
        ensures Next(h.dbs[i], h.events[i].step, Outcome(h.dbs[i+1], h.events[i].reply))
      {
        if i < n {
          assert init.events[i] == h.events[i] && init.dbs[i] == h.dbs[i] && init.dbs[i+1] == h.dbs[i+1];
        }
      }
    }
  }

  ghost function Present(h: History): Db
    requires Linked(h)
  {
    h.dbs[|h.events|]
  }

  function Appended(h: History, s: Step, o: Outcome): History {
    History(h.dbs + [o.db], h.events + [Event(s, o.reply)])
  }

  predicate Extends(h: History, g: History) {
    h.dbs <= g.dbs && h.events <= g.events
  }

  lemma AppendedIsLinked(h: History, s: Step, o: Outcome)
    requires Linked(h) && Next(Present(h), s, o)
    ensures Linked(Appended(h, s, o)) && Present(Appended(h, s, o)) == o.db && Extends(h, Appended(h, s, o))
  {
    var g := Appended(h, s, o);
    assert History(g.dbs[..|h.events| + 1], g.events[..|h.events|]) == h;
  }

  lemma ExtendsTransitive(f: History, g: History, h: History)
    requires Extends(f, g) && Extends(g, h)
    ensures Extends(f, h)
  {}

  // Whatever happens in between, a claim is held or retired, and a retired one stays retired.
  lemma Along(h: History, g: History, c: Claim)
    requires Linked(h) && Linked(g) && Extends(h, g) && HeldOrRetired(Present(h), c)
    ensures HeldOrRetired(Present(g), c) && Valid(Present(g))
    ensures Retired(Present(h), c.leaseId) && c.leaseId != [] ==> Retired(Present(g), c.leaseId)
  {
    LinkedIsRun(g);
    assert g.dbs[|h.events|] == Present(h);
    HeldUntilRetired(g.dbs, g.events, |h.events|, |g.events|, c);
    RunValid(g.dbs, g.events, |g.events|);
    if Retired(Present(h), c.leaseId) && c.leaseId != [] {
      StaysRetired(g.dbs, g.events, |h.events|, |g.events|, c.leaseId);
    }
  }

  // Event i is a finish_task_claim that committed under the held, unexpired lease.
  ghost predicate CommittedAt(h: History, i: nat, c: Claim, status: QueueStatus)
    requires Linked(h)
  {
    && i < |h.events|
    && var s := h.events[i].step;
    && s.Finish? && s.claim == c && s.status == status && h.events[i].reply == Done
    && Holds(h.dbs[i].queue, c)
    && h.dbs[i].queue[c.task].expiresAt.Some? && h.dbs[i].queue[c.task].expiresAt.value > s.now
    && c.task in h.dbs[i+1].queue && h.dbs[i+1].queue[c.task].status == status
  }

  // _queue_status.
  function QueueStatusOf(state: Option<Snapshot>, final: Option<Status>): QueueStatus {
    if state.Some? && state.value.status in {WAITING_APPROVAL, COMPLETED, FAILED, BLOCKED, EXECUTION_UNKNOWN}
    then QueueStatusFor(state.value.status)
    else match final
      case Some(COMPLETED) => Q_COMPLETED
      case Some(BLOCKED) => Q_BLOCKED
      case Some(EXECUTION_UNKNOWN) => Q_EXECUTION_UNKNOWN
      case _ => Q_FAILED
  }

  // _execution_may_have_started.
  predicate MayHaveStarted(state: Option<Snapshot>) {
    state.Some? &&
    (state.value.status in {EXECUTING, OBSERVING, VERIFYING, EXECUTION_UNKNOWN}
     || exists i :: 0 <= i < |state.value.actions| && state.value.actions[i].inFlight)
  }

  // How the failure handler closes a claim.
  function FailureStatus(state: Option<Snapshot>): QueueStatus {
    if state.Some? && Terminal(state.value.status) then QueueStatusFor(state.value.status)
    else if MayHaveStarted(state) then Q_EXECUTION_UNKNOWN
    else Q_FAILED
  }

  predicate Decodes(db: Db, task: Text) { task in db.states ==> db.states[task].intact }

  // How a claim is closed whose state was finished, and, after a normal return, also one that
  // waits or has an unknown outcome.
  ghost predicate ClosesAsState(s: Status, status: QueueStatus) {
    && (s == COMPLETED ==> status == Q_COMPLETED)
    && (s == FAILED ==> status == Q_FAILED)
    && (s == BLOCKED ==> status == Q_BLOCKED)
    && (s == EXECUTION_UNKNOWN ==> status == Q_EXECUTION_UNKNOWN)
  }

  // After the orchestrator returned: a waiting task keeps waiting, a state that says how it
  // ended decides, and otherwise the final status the orchestrator returned does, FAILED unless
  // it is one of three.
  ghost predicate ReturnCloses(db: Db, task: Text, final: Option<Status>, status: QueueStatus) {
    && Decodes(db, task)
    && (task in db.states && db.states[task].status == WAITING_APPROVAL ==> status == Q_WAITING_APPROVAL)
    && (task in db.states ==> ClosesAsState(db.states[task].status, status))
    && (task in db.states ==>
          db.states[task].status in {CREATED, QUEUED, PLANNING, READY, EXECUTING, OBSERVING, VERIFYING} ==>
            FinalCloses(final, status))
    && (task !in db.states ==> FinalCloses(final, status))
  }

  ghost predicate FinalCloses(final: Option<Status>, status: QueueStatus) {
    && (final == Some(COMPLETED) ==> status == Q_COMPLETED)
    && (final == Some(BLOCKED) ==> status == Q_BLOCKED)
    && (final == Some(EXECUTION_UNKNOWN) ==> status == Q_EXECUTION_UNKNOWN)
    && (final !in {Some(COMPLETED), Some(BLOCKED), Some(EXECUTION_UNKNOWN)} ==> status == Q_FAILED)
  }

  // After a failure: a finished state is not relabelled, work that may have started is unknown,
  // and only work that cannot have started has failed.
  ghost predicate FailureCloses(db: Db, task: Text, status: QueueStatus) {
    && Decodes(db, task)
    && (task in db.states ==> ClosesAsState(db.states[task].status, status))
    && (task !in db.states ==> status == Q_FAILED)
    && (task in db.states && db.states[task].status !in {COMPLETED, FAILED, BLOCKED} ==>
          var s := db.states[task];
          var started := s.status in {EXECUTING, OBSERVING, VERIFYING, EXECUTION_UNKNOWN}
                         || exists a :: a in s.actions && a.inFlight;
          status == if started then Q_EXECUTION_UNKNOWN else Q_FAILED)
  }

  lemma ReturnStatus(db: Db, task: Text, final: Option<Status>)
    requires Decodes(db, task)
    ensures ReturnCloses(db, task, final, QueueStatusOf(StateOf(db, task), final))
  {}

  lemma HandlerStatus(db: Db, task: Text)
    requires Decodes(db, task)
    ensures FailureCloses(db, task, FailureStatus(StateOf(db, task)))
  {
    if task in db.states {
      var actions := db.states[task].actions;
      if a :| a in actions && a.inFlight {
        var i :| 0 <= i < |actions| && actions[i] == a;
      }
      if i :| 0 <= i < |actions| && actions[i].inFlight {
        assert actions[i] in actions;
      }
    }
  }

  // The claim failed: the orchestrator raised, or a state that does not decode was read.
  ghost predicate Failing(h: History, from: nat, to: nat, task: Text, ending: Ending)
    requires |h.dbs| == |h.events| + 1
  {
    ending.Raises? || exists i {:trigger h.dbs[i]} :: from <= i <= to && i < |h.dbs| && !Decodes(h.dbs[i], task)
  }

  // Event i asks the store to persist this, for this reason.
  predicate Asks(h: History, i: nat, saveAs: Option<Status>, code: string, message: string) {
    && i < |h.events| && h.events[i].step.Finish? && h.events[i].step.saveAs == saveAs
    && h.events[i].step.errorCode == code && h.events[i].step.message == message
  }

  // The failure handler leaves a finished state alone, and has any other persisted as unknown or
  // failed, like the queue row, with the message of the failure.
  predicate FailureAsks(h: History, i: nat, state: Option<Snapshot>, status: QueueStatus, message: string) {
    if state.Some? && state.value.status in {COMPLETED, FAILED, BLOCKED} then Asks(h, i, None, "", "")
    else
      || (status == Q_EXECUTION_UNKNOWN && Asks(h, i, Some(EXECUTION_UNKNOWN), "execution_unknown", message))
      || (status == Q_FAILED && Asks(h, i, Some(FAILED), "worker_failed", message))
  }

  // The status in which event at closed the claim is the one called for by the state at an
  // earlier place of the history, by the ending, and by whether the claim failed before.
  ghost predicate ClosedAs(h: History, from: nat, seen: nat, at: nat, task: Text, ending: Ending, status: QueueStatus)
    requires |h.dbs| == |h.events| + 1
  {
    && from <= seen <= at < |h.events|
    && ((ending.Returns? && ReturnCloses(h.dbs[seen], task, ending.finalStatus, status) && Asks(h, at, None, "", ""))
        || (Failing(h, from, seen, task, ending) && FailureCloses(h.dbs[seen], task, status)
            && exists message :: FailureAsks(h, at, StateOf(h.dbs[seen], task), status, message)))
  }

  lemma FailingExtends(h: History, g: History, from: nat, to: nat, later: nat, task: Text, ending: Ending)
    requires Linked(h) && Linked(g) && Extends(h, g) && Failing(h, from, to, task, ending) && to <= later
    ensures Failing(g, from, later, task, ending)
  {
    if !ending.Raises? {
      var i :| from <= i <= to && i < |h.dbs| && !Decodes(h.dbs[i], task);
      assert g.dbs[i] == h.dbs[i];
    }
  }

  // ---- A worker left alone -----------------------------------------------------------------------

  // Nobody else commits anything, and the heartbeat reports no loss.
  ghost predicate Alone(s: Schedule) { forall p :: s.others(p) == [] && !s.lost(p) }

  // The claim holds its row, and no clock reading reaches its expiry.
  ghost predicate Undisturbed(s: Schedule, db: Db, c: Claim) {
    && Alone(s) && Holds(db.queue, c) && db.queue[c.task].expiresAt.Some?
    && forall p :: s.clock(p) < db.queue[c.task].expiresAt.value
  }

  lemma ClockReads(s: Schedule, db: Db, c: Claim, p: int)
    requires Undisturbed(s, db, c)
    ensures s.clock(p) < db.queue[c.task].expiresAt.value
  {}

  predicate Own(c: Claim, work: seq<Write>) {
    forall i :: 0 <= i < |work| ==> work[i].task == c.task && work[i].snapshot.intact
  }

  // The persisted state once the orchestrator's writes are done.
  function Worked(db: Db, task: Text, work: seq<Write>): Option<Snapshot> {
    if work == [] then StateOf(db, task) else Some(work[|work| - 1].snapshot)
  }

  // An unfinished state whose outcome the failure handler has to call unknown, but which has no
  // transition to EXECUTION_UNKNOWN.
  ghost predicate Unclosable(s: Option<Snapshot>) {
    && s.Some?
    && (s.value.status == VERIFYING
        || (s.value.status == WAITING_APPROVAL && exists a :: a in s.value.actions && a.inFlight))
  }

  // Event i, not before from, is this step with one of these replies.
  predicate Answered(h: History, from: nat, i: nat, s: Step, replies: set<Reply>) {
    from <= i < |h.events| && h.events[i].step == s && h.events[i].reply in replies
  }

  // The row requeue_waiting_approval_task leaves for a decodable state.
  function AfterReconcile(db: Db, t: Text, now: int): Row
    requires t in db.queue
  {
    if db.queue[t].status == Q_WAITING_APPROVAL && Justified(db, t)
    then db.queue[t].(status := Q_QUEUED, availableAt := now, errorCode := "")
    else db.queue[t]
  }

  predicate Readable(db: Db, t: Text) {
    t in db.queue && t in db.states && db.states[t].intact
  }

  // Event i is the requeue of t, and it left the row reconciliation calls for.
  ghost predicate ReconciledAt(h: History, i: nat, t: Text, now: int)
    requires Linked(h)
  {
    && i < |h.events| && h.events[i].step == Requeue(t, now)
    && (Readable(h.dbs[i], t) ==> t in h.dbs[i+1].queue && h.dbs[i+1].queue[t] == AfterReconcile(h.dbs[i], t, now))
    && (!Readable(h.dbs[i], t) ==> h.dbs[i+1] == h.dbs[i])
  }

  // The requeues of the first ids, one after the other; all but the last found their task
  // readable.
  ghost predicate Reconciled(h: History, from: nat, at: seq<nat>, ids: seq<Text>, now: int)
    requires Linked(h) && |at| <= |ids|
  {
    && (forall i :: 0 <= i < |at| ==> from <= at[i] && ReconciledAt(h, at[i], ids[i], now))
    && (forall i, j :: 0 <= i < j < |at| ==> at[i] < at[j] && Readable(h.dbs[at[i]], ids[i]))
  }

  lemma ReconciledOn(h: History, g: History, from: nat, at: seq<nat>, ids: seq<Text>, now: int, next: nat)
    requires Linked(h) && Linked(g) && Extends(h, g) && |at| < |ids| && from <= |h.events| <= next
    requires Reconciled(h, from, at, ids, now) && ReconciledAt(g, next, ids[|at|], now)
    requires forall i :: 0 <= i < |at| ==> Readable(h.dbs[at[i]], ids[i])
    ensures Reconciled(g, from, at + [next], ids, now)
    ensures forall i :: 0 <= i < |at| ==> Readable(g.dbs[at[i]], ids[i])
  {
    forall i | 0 <= i < |at|
      ensures ReconciledAt(g, at[i], ids[i], now) && at[i] < next && Readable(g.dbs[at[i]], ids[i])
    {
      assert ReconciledAt(h, at[i], ids[i], now);
      assert g.events[at[i]] == h.events[at[i]] && g.dbs[at[i]] == h.dbs[at[i]] && g.dbs[at[i]+1] == h.dbs[at[i]+1];
    }
  }

  // A committed finish, seen from the history it was added to.
  lemma FinishIsCommitted(h: History, s: Step, o: Outcome, c: Claim)
    requires Linked(h) && s.Finish? && s.claim == c && Next(Present(h), s, o) && HeldOrRetired(Present(h), c)
    ensures Linked(Appended(h, s, o)) && HeldOrRetired(o.db, c)
    ensures o.reply == Done ==> CommittedAt(Appended(h, s, o), |h.events|, c, s.status)
    ensures o.reply == Done ==> Retired(o.db, c.leaseId) && c.leaseId != []
    ensures o.reply != Done ==> o.reply.Raised?
  {
    AppendedIsLinked(h, s, o);
    Along(h, Appended(h, s, o), c);
    if o.reply == Done {
      FinishEndsLease(Present(h), s, o, c);
    }
  }

  const CLOSING := {Q_WAITING_APPROVAL, Q_EXECUTION_UNKNOWN, Q_COMPLETED, Q_FAILED, Q_BLOCKED}

  // Whether a finish under the held lease can persist what it is asked to.
  predicate Closable(db: Db, task: Text, saveAs: Option<Status>) {
    if saveAs.None? || task !in db.states then true
    else
      && db.states[task].intact
      && (saveAs == Some(EXECUTION_UNKNOWN) ==>
            db.states[task].status !in {VERIFYING, WAITING_APPROVAL, COMPLETED, FAILED, BLOCKED})
  }

  lemma OwnSave(db: Db, c: Claim, w: Write, now: int, o: Outcome)
    requires Next(db, Save(Some(c), w.task, w.snapshot, w.kind, now), o) && w.task == c.task
    requires Holds(db.queue, c) && db.queue[c.task].expiresAt.Some? && now < db.queue[c.task].expiresAt.value
    ensures o.reply == Done && o.db.queue == db.queue && StateOf(o.db, c.task) == Some(w.snapshot)
  {}

  // What a finish with an allowed status replies.
  lemma FinishReplies(db: Db, s: Step, o: Outcome)
    requires s.Finish? && s.status in CLOSING && Next(db, s, o)
    ensures Holds(db.queue, s.claim) && db.queue[s.claim.task].expiresAt.Some?
            && s.now < db.queue[s.claim.task].expiresAt.value ==>
              o.reply != Raised(LeaseLost) && (o.reply == Done <==> Closable(db, s.claim.task, s.saveAs))
    ensures o.reply == Done || o.reply == Raised(LeaseLost) || s.saveAs.Some?
  {
    if s.saveAs.Some? && s.claim.task in db.states {
      FailureReplies(db.states[s.claim.task], s.saveAs.value);
    }
  }

  lemma FailureReplies(s: Snapshot, saveAs: Status)
    ensures forall note :: FailureSnapshot(s, saveAs, note).None? <==>
              saveAs == EXECUTION_UNKNOWN && s.status in {VERIFYING, WAITING_APPROVAL, COMPLETED, FAILED, BLOCKED}
  {}

  lemma AloneFinishReplies(schedule: Schedule, db: Db, c: Claim, p: int, s: Step, o: Outcome)
    requires s.Finish? && s.claim == c && s.status in CLOSING && s.now == schedule.clock(p) && Next(db, s, o)
    ensures Undisturbed(schedule, db, c) ==>
              o.reply != Raised(LeaseLost) && (o.reply == Done <==> Closable(db, c.task, s.saveAs))
    ensures s.saveAs.None? ==> o.reply == Done || o.reply == Raised(LeaseLost)
  {
    FinishReplies(db, s, o);
    if Undisturbed(schedule, db, c) {
      ClockReads(schedule, db, c, p);
    }
  }

  lemma FinishIsAsked(h: History, s: Step, o: Outcome)
    requires s.Finish?
    ensures Asks(Appended(h, s, o), |h.events|, s.saveAs, s.errorCode, s.message)
  {}

  class BackgroundWorker {
    const store: Store
    const schedule: Schedule
    var point: int    // how many scheduling points the worker has passed
    var lost: bool    // _LeaseHeartbeat.lost
    ghost var history: History

    ghost predicate Recorded()
      reads this, store
    {
      Linked(history) && Present(history) == store.View()
    }

    // The worker is left alone with a claim it holds over a state that decodes.
    ghost predicate Ready(claim: Claim)
      reads this, store
    {
      Undisturbed(schedule, store.View(), claim) && Decodes(store.View(), claim.task) && !lost
    }

    constructor (store: Store, schedule: Schedule)
      requires Valid(store.View())
      ensures this.store == store && this.schedule == schedule && !lost
      ensures Recorded() && history == History([store.View()], [])
    {
      this.store, this.schedule, point, lost := store, schedule, 0, false;
      history := History([store.View()], []);
    }

    // Puts the transaction just made on record.
    ghost method Record(s: Step, r: Reply)
      requires Linked(history) && Next(Present(history), s, Outcome(store.View(), r))
      modifies this`history
      ensures Recorded() && history == Appended(old(history), s, Outcome(store.View(), r))
      ensures Extends(old(history), history)
    {
      AppendedIsLinked(history, s, Outcome(store.View(), r));
      history := Appended(history, s, Outcome(store.View(), r));
    }

    // A transaction of someone else.
    method Perform(s: Step)
      requires Recorded()
      modifies store, this`history
      ensures Recorded() && Extends(old(history), history)
    {
      var r;
      match s {
        case Create(t, m, b, now) => r := store.CreateQueuedTask(t, m, b, now);
        case Save(c, t, snap, kind, now) => r := store.SaveTaskState(c, t, snap, kind, now);
        case ClaimNext(w, ttl, lease, stamp, base) =>
          if lease == [] || lease in store.issued {
            return;    // uuid4 does not produce this id
          }
          r := store.ClaimNextTask(w, ttl, lease, stamp, base);
        case Renew(c, ttl, stamp, base) => r := store.RenewTaskLease(c, ttl, stamp, base);
        case Finish(c, qs, e, m, saveAs, now) => r := store.FinishTaskClaim(c, qs, e, m, saveAs, now);
        case MarkLost(c, reason) => r := store.MarkTaskExecutionUnknownIfOwned(c, reason);
        case Requeue(t, now) => r := store.RequeueWaitingApprovalTask(t, now);
        case WriteApproval(id, a) => r := store.SaveApproval(id, a);
      }
      Record(s, r);
    }

    // Everyone else runs.
    method Yield()
      requires Recorded()
      modifies store, this`point, this`lost, this`history
      ensures Recorded() && Extends(old(history), history)
      ensures old(lost) ==> lost
      ensures Alone(schedule) ==> history == old(history) && lost == old(lost)
    {
      var steps := schedule.others(point);
      for i := 0 to |steps|
        modifies store, this`history
        invariant Recorded() && Extends(old(history), history)
        invariant i == 0 ==> history == old(history)
      {
        Perform(steps[i]);
      }
      lost := lost || schedule.lost(point);
      point := point + 1;
    }

    method YieldHolding(ghost claim: Claim)
      requires Recorded() && HeldOrRetired(store.View(), claim)
      modifies store, this`point, this`lost, this`history
      ensures Recorded() && Extends(old(history), history) && HeldOrRetired(store.View(), claim)
      ensures Retired(old(store.View()), claim.leaseId) && claim.leaseId != [] ==> Retired(store.View(), claim.leaseId)
      ensures old(lost) ==> lost
      ensures Alone(schedule) ==> history == old(history) && lost == old(lost)
    {
      Yield();
      Along(old(history), history, claim);
    }

    // Orchestrator.run inside the claim's lease context.
    method RunOrchestrator(claim: Claim, work: seq<Write>, ending: Ending) returns (r: Result<Option<Status>, Failure>)
      requires Recorded()
      modifies store, this`point, this`lost, this`history
      ensures Recorded() && Extends(old(history), history) && (old(lost) ==> lost)
      ensures r.Ok? ==> ending == Returns(r.value)
      ensures r.Err? && r.error.Failed? ==> ending == Raises(r.error.message)
      ensures old(Undisturbed(schedule, store.View(), claim)) && Own(claim, work) ==>
                && store.queue == old(store.queue) && lost == old(lost)
                && StateOf(store.View(), claim.task) == Worked(old(store.View()), claim.task, work)
                && (ending.Returns? ==> r.Ok?) && (ending.Raises? ==> r == Err(Failed(ending.message)))
    {
      for i := 0 to |work|
        invariant Recorded() && Extends(old(history), history) && (old(lost) ==> lost)
        invariant old(Undisturbed(schedule, store.View(), claim)) && Own(claim, work) ==>
                    && store.queue == old(store.queue) && lost == old(lost)
                    && StateOf(store.View(), claim.task) == Worked(old(store.View()), claim.task, work[..i])
      {
        var saved := SaveState(claim, work[i]);
        if saved.Raised? && !work[i].caught {
          return Err(LostLease);
        }
      }
      assert work[..|work|] == work;
      match ending
      case Returns(final) => return Ok(final);
      case RaisesLeaseLost => return Err(LostLease);
      case Raises(message) => return Err(Failed(message));
    }

    // One checkpoint of the orchestrator.
    method SaveState(claim: Claim, write: Write) returns (saved: Reply)
      requires Recorded()
      modifies store, this`point, this`lost, this`history
      ensures Recorded() && Extends(old(history), history) && (old(lost) ==> lost)
      ensures old(Undisturbed(schedule, store.View(), claim)) && write.task == claim.task ==>
                saved == Done && store.queue == old(store.queue) && lost == old(lost)
                && StateOf(store.View(), claim.task) == Some(write.snapshot)
    {
      Yield();
      var now := schedule.clock(point);
      ghost var before, calm := store.View(), Undisturbed(schedule, store.View(), claim) && write.task == claim.task;
      if calm {
        ClockReads(schedule, before, claim, point);
      }
      saved := store.SaveTaskState(Some(claim), write.task, write.snapshot, write.kind, now);
      if calm {
        OwnSave(before, claim, write, now, Outcome(store.View(), saved));
      }
      Record(Save(Some(claim), write.task, write.snapshot, write.kind, now), saved);
    }

    // The persisted state of the claim's task; Err is StateIntegrityError.
    method LoadState(task: Text) returns (r: Result<Option<Snapshot>, Failure>)
      ensures r.Ok? <==> Decodes(store.View(), task)
      ensures r.Ok? ==> r.value == StateOf(store.View(), task)
      ensures r.Err? ==> r.error.Failed?
    {
      if task !in store.states {
        return Ok(None);
      }
      if !store.states[task].intact {
        return Err(Failed("state_integrity"));
      }
      return Ok(Some(store.states[task]));
    }

    // finish_task_claim by this worker.
    method Close(claim: Claim, status: QueueStatus, code: string, message: string, saveAs: Option<Status>)
      returns (r: Reply, ghost at: nat)
      requires Recorded() && HeldOrRetired(store.View(), claim)
      requires status in CLOSING
      modifies store, this`history
      ensures Recorded() && Extends(old(history), history) && HeldOrRetired(store.View(), claim)
      ensures r == Done ==> at == old(|history.events|) && CommittedAt(history, at, claim, status)
                            && Asks(history, at, saveAs, code, message)
      ensures r == Done ==> Retired(store.View(), claim.leaseId) && claim.leaseId != []
      ensures r != Done ==> r.Raised? && (saveAs.None? ==> r == Raised(LeaseLost))
      ensures old(Undisturbed(schedule, store.View(), claim)) ==> r != Raised(LeaseLost)
      ensures old(Undisturbed(schedule, store.View(), claim)) ==>
                (r == Done <==> old(Closable(store.View(), claim.task, saveAs)))
    {
      at := |history.events|;
      ghost var before, s := history, MarkLost(claim, "");
      r, s := SubmitFinish(claim, status, code, message, saveAs);
      FinishIsCommitted(before, s, Outcome(store.View(), r), claim);
      FinishIsAsked(before, s, Outcome(store.View(), r));
      AloneFinishReplies(schedule, Present(before), claim, point, s, Outcome(store.View(), r));
    }

    method SubmitFinish(claim: Claim, status: QueueStatus, code: string, message: string, saveAs: Option<Status>)
      returns (r: Reply, ghost s: Step)
      requires Recorded()
      modifies store, this`history
      ensures Recorded() && s == Finish(claim, status, code, message, saveAs, schedule.clock(point))
      ensures history == Appended(old(history), s, Outcome(store.View(), r))
      ensures Next(Present(old(history)), s, Outcome(store.View(), r)) && Extends(old(history), history)
    {
      var now := schedule.clock(point);
      r := store.FinishTaskClaim(claim, status, code, message, saveAs, now);
      s := Finish(claim, status, code, message, saveAs, now);
      Record(s, r);
    }

    // The try block of _process_claim up to its last raise_if_lost. The status it chooses is
    // the one the state it read calls for.
    method RunClaim(claim: Claim, work: seq<Write>, ending: Ending)
      returns (r: Result<QueueStatus, Failure>, ghost seen: nat)
      requires Recorded()
      modifies store, this`point, this`lost, this`history
      ensures Recorded() && Extends(old(history), history) && (old(lost) ==> lost)
      ensures r.Ok? ==> !lost && ending.Returns? && r.value in CLOSING
      ensures r.Ok? ==> old(|history.events|) <= seen <= |history.events|
                        && ReturnCloses(history.dbs[seen], claim.task, ending.finalStatus, r.value)
      ensures r.Err? && r.error.Failed? ==>
                Failing(history, old(|history.events|), |history.events|, claim.task, ending)
      ensures old(Ready(claim)) && Own(claim, work) ==>
                && store.queue == old(store.queue) && !lost
                && StateOf(store.View(), claim.task) == Worked(old(store.View()), claim.task, work)
                && (ending.Returns? ==> r.Ok? && history.dbs[seen] == store.View())
                && (ending.Raises? ==> r == Err(Failed(ending.message)))
    {
      seen := 0;
      Yield();
      ghost var begun := history;
      var first := LoadState(claim.task);
      if first.Err? {
        assert !Decodes(history.dbs[|history.events|], claim.task);
        return Err(first.error), seen;
      }
      var ran := RunOrchestrator(claim, work, ending);
      ghost var done := history;
      ExtendsTransitive(old(history), begun, done);
      if ran.Err? {
        return Err(ran.error), seen;
      }
      r, seen := ChooseStatus(claim.task, ran.value);
      ExtendsTransitive(old(history), done, history);
      if r.Err? && r.error.Failed? {
        assert !Decodes(history.dbs[seen], claim.task);
      }
    }

    // After the orchestrator returned: read the state, between two checks of the heartbeat. A
    // status is chosen exactly if the heartbeat has not lost the lease and the state decodes.
    method ChooseStatus(task: Text, final: Option<Status>) returns (r: Result<QueueStatus, Failure>, ghost seen: nat)
      requires Recorded()
      modifies store, this`point, this`lost, this`history
      ensures Recorded() && Extends(old(history), history) && (old(lost) ==> lost)
      ensures r == Err(LostLease) <==> lost
      ensures !lost ==> old(|history.events|) <= seen <= |history.events|
                        && (r.Ok? <==> Decodes(history.dbs[seen], task))
      ensures r.Ok? ==> r.value in CLOSING && ReturnCloses(history.dbs[seen], task, final, r.value)
      ensures Alone(schedule) ==> history == old(history) && lost == old(lost) && (!lost ==> seen == |history.events|)
    {
      seen := 0;
      Yield();
      if lost {
        return Err(LostLease), seen;
      }
      ghost var read := history;
      seen := |read.events|;
      var loaded := LoadState(task);
      Yield();
      assert history.dbs[seen] == Present(read);
      if lost {
        return Err(LostLease), seen;
      }
      if loaded.Err? {
        return Err(loaded.error), seen;
      }
      Yield();
      assert history.dbs[seen] == Present(read);
      ReturnStatus(Present(read), task, final);
      return if lost then Err(LostLease) else Ok(QueueStatusOf(loaded.value, final)), seen;
    }

    // The whole try block.
    method TryClaim(claim: Claim, work: seq<Write>, ending: Ending)
      returns (r: Result<QueueStatus, Failure>, ghost seen: nat, ghost at: nat)
      requires Recorded() && HeldOrRetired(store.View(), claim)
      modifies store, this`point, this`lost, this`history
      ensures Recorded() && Extends(old(history), history) && HeldOrRetired(store.View(), claim) && (old(lost) ==> lost)
      ensures r.Ok? ==> old(|history.events|) <= seen <= at && CommittedAt(history, at, claim, r.value)
      ensures r.Ok? ==> !lost && ending.Returns? && Asks(history, at, None, "", "")
                        && ReturnCloses(history.dbs[seen], claim.task, ending.finalStatus, r.value)
      ensures r.Ok? ==> Retired(store.View(), claim.leaseId) && claim.leaseId != []
      ensures r.Err? && r.error.Failed? ==>
                Failing(history, old(|history.events|), |history.events|, claim.task, ending)
      ensures old(Ready(claim)) && Own(claim, work) ==>
                && !lost && (ending.Returns? ==> r.Ok?)
                && (ending.Returns? ==>
                      StateOf(history.dbs[seen], claim.task) == Worked(old(store.View()), claim.task, work))
                && (ending.Raises? ==>
                      && r == Err(Failed(ending.message)) && store.queue == old(store.queue)
                      && StateOf(store.View(), claim.task) == Worked(old(store.View()), claim.task, work))
    {
      at := 0;
      r, seen := RunClaim(claim, work, ending);
      ghost var chosen := history;
      Along(old(history), history, claim);
      if r.Ok? {
        var closed;
        closed, at := Close(claim, r.value, "", "", None);
        ExtendsTransitive(old(history), chosen, history);
        if closed != Done {
          r := Err(LostLease);
        }
      }
    }

    // _fence_lost_claim, then the LEASE_LOST report.
    method FenceLostClaim(claim: Claim) returns (r: Report)
      requires Recorded() && HeldOrRetired(store.View(), claim)
      modifies store, this`point, this`lost, this`history
      ensures Recorded() && Extends(old(history), history) && HeldOrRetired(store.View(), claim)
      ensures |history.events| > old(|history.events|)
              && history.events[|history.events| - 1].step == MarkLost(claim, "worker_lease_lost")
      ensures r == LeaseLostReport <==> history.events[|history.events| - 1].reply in {Done, Raised(LeaseLost)}
      ensures r != LeaseLostReport ==> r.Escaped? && history.events[|history.events| - 1].reply == Raised(r.error)
      ensures r == LeaseLostReport ==> Retired(store.View(), claim.leaseId) && claim.leaseId != []
    {
      YieldHolding(claim);
      ghost var before := history;
      var reply := store.MarkTaskExecutionUnknownIfOwned(claim, "worker_lease_lost");
      ghost var s, o := MarkLost(claim, "worker_lease_lost"), Outcome(store.View(), reply);
      Record(s, reply);
      Along(before, history, claim);
      ExtendsTransitive(old(history), before, history);
      if reply.Raised? && reply.error != LeaseLost {
        return Escaped(reply.error);
      }
      FencingEndsLease(Present(before), s, o, claim);
      return LeaseLostReport;
    }

    // The handler for any exception that is not a lost lease.
    method HandleFailure(claim: Claim, message: string) returns (r: Report, ghost seen: nat, ghost at: nat)
      requires Recorded() && HeldOrRetired(store.View(), claim)
      modifies store, this`point, this`lost, this`history
      ensures Recorded() && Extends(old(history), history) && HeldOrRetired(store.View(), claim)
      ensures !r.Escaped? ==> Retired(store.View(), claim.leaseId) && claim.leaseId != []
      ensures r.Processed? ==>
                !old(lost) && old(|history.events|) <= seen <= at && CommittedAt(history, at, claim, r.status)
                && FailureCloses(history.dbs[seen], claim.task, r.status)
                && FailureAsks(history, at, StateOf(history.dbs[seen], claim.task), r.status, message)
      ensures old(Ready(claim)) ==>
                && (r.Processed? <==> !Unclosable(old(StateOf(store.View(), claim.task))))
                && (r.Processed? ==> StateOf(history.dbs[seen], claim.task) == old(StateOf(store.View(), claim.task)))
    {
      seen, at := 0, 0;
      YieldHolding(claim);
      if lost {
        r := FenceLostClaim(claim);
        return;
      }
      seen := |history.events|;
      var loaded := LoadState(claim.task);
      if loaded.Err? {
        r := Escaped(StateIntegrity);
        return;
      }
      ghost var read := history;
      r, at := ReportFailure(claim, loaded.value, message);
      ExtendsTransitive(old(history), read, history);
      assert history.dbs[seen] == Present(read);
      HandlerStatus(Present(read), claim.task);
    }

    // The handler once it has read the state.
    method ReportFailure(claim: Claim, state: Option<Snapshot>, message: string) returns (r: Report, ghost at: nat)
      requires Recorded() && HeldOrRetired(store.View(), claim)
      modifies store, this`point, this`lost, this`history
      ensures Recorded() && Extends(old(history), history) && HeldOrRetired(store.View(), claim)
      ensures !r.Escaped? ==> Retired(store.View(), claim.leaseId) && claim.leaseId != []
      ensures r.Processed? ==> old(|history.events|) <= at && r.status == FailureStatus(state)
                               && CommittedAt(history, at, claim, r.status)
                               && FailureAsks(history, at, state, r.status, message)
      ensures old(Ready(claim)) && state == old(StateOf(store.View(), claim.task)) ==>
                (r.Processed? <==> !Unclosable(state))
    {
      YieldHolding(claim);
      ghost var ready := history;
      var closed;
      closed, at := CloseFailed(claim, state, message);
      if closed == Raised(LeaseLost) {
        ghost var ended := history;
        ExtendsTransitive(old(history), ready, ended);
        r := FenceLostClaim(claim);
        ExtendsTransitive(old(history), ended, history);
      } else {
        ExtendsTransitive(old(history), ready, history);
        r := if closed == Done then Processed(FailureStatus(state)) else Escaped(closed.error);
      }
    }

    // Closes the claim as the state read last calls for.
    method CloseFailed(claim: Claim, state: Option<Snapshot>, message: string) returns (r: Reply, ghost at: nat)
      requires Recorded() && HeldOrRetired(store.View(), claim)
      modifies store, this`history
      ensures Recorded() && Extends(old(history), history) && HeldOrRetired(store.View(), claim)
      ensures r == Done ==> at == old(|history.events|) && CommittedAt(history, at, claim, FailureStatus(state))
                            && FailureAsks(history, at, state, FailureStatus(state), message)
      ensures r == Done ==> Retired(store.View(), claim.leaseId) && claim.leaseId != []
      ensures r != Done ==> r.Raised?
      ensures old(Undisturbed(schedule, store.View(), claim)) && (state.Some? ==> state.value.intact)
              && state == old(StateOf(store.View(), claim.task)) ==>
                r != Raised(LeaseLost) && (r == Done <==> !Unclosable(state))
    {
      var status := FailureStatus(state);
      ghost var before := store.View();
      if state.Some? && Terminal(state.value.status) {
        r, at := Close(claim, status, "", "", None);
      } else {
        var uncertain := MayHaveStarted(state);
        r, at := Close(claim, status, if uncertain then "execution_unknown" else "worker_failed", message,
                       Some(if uncertain then EXECUTION_UNKNOWN else FAILED));
        if (state.Some? ==> state.value.intact) && state == StateOf(before, claim.task) {
          ClosableExactly(before, claim.task, state);
        }
      }
    }

    // _process_claim. Whatever the schedule and the orchestrator do, a normal return leaves
    // the claim's lease retired for good, and processed=True is reported only after a
    // finish_task_claim of this call committed under the still unexpired lease, with the
    // status that the task's state, as read during the call, calls for. A worker left alone
    // reports processed whenever the orchestrator returns, and after a failure exactly unless
    // the state cannot be closed.
    method ProcessClaim(claim: Claim, work: seq<Write>, ending: Ending)
      returns (r: Report, ghost seen: nat, ghost at: nat)
      requires Recorded() && HeldOrRetired(store.View(), claim)
      modifies store, this`point, this`lost, this`history
      ensures Recorded() && Extends(old(history), history)
      ensures !r.Escaped? ==> Retired(store.View(), claim.leaseId)
      ensures r.Processed? ==>
                && !old(lost) && old(|history.events|) <= seen <= at && CommittedAt(history, at, claim, r.status)
                && ClosedAs(history, old(|history.events|), seen, at, claim.task, ending, r.status)
      ensures old(Ready(claim)) && Own(claim, work) ==>
                var worked := Worked(old(store.View()), claim.task, work);
                && (ending.Returns? ==> r.Processed?)
                && (ending.Raises? ==> (r.Processed? <==> !Unclosable(worked)))
                && (r.Processed? && !ending.RaisesLeaseLost? ==> StateOf(history.dbs[seen], claim.task) == worked)
    {
      r, seen, at := SettleClaim(claim, work, ending);
      ghost var ended := history;
      YieldHolding(claim);
      ExtendsTransitive(old(history), ended, history);
      if r.Processed? {
        StillClosed(ended, history, old(|history.events|), seen, at, claim.task, ending, r.status);
      }
    }

    // The same, up to the stop of the heartbeat.
    method SettleClaim(claim: Claim, work: seq<Write>, ending: Ending)
      returns (r: Report, ghost seen: nat, ghost at: nat)
      requires Recorded() && HeldOrRetired(store.View(), claim)
      modifies store, this`point, this`lost, this`history
      ensures Recorded() && Extends(old(history), history) && HeldOrRetired(store.View(), claim)
      ensures !r.Escaped? ==> Retired(store.View(), claim.leaseId) && claim.leaseId != []
      ensures r.Processed? ==>
                && !old(lost) && old(|history.events|) <= seen <= at && CommittedAt(history, at, claim, r.status)
                && ClosedAs(history, old(|history.events|), seen, at, claim.task, ending, r.status)
      ensures old(Ready(claim)) && Own(claim, work) ==>
                var worked := Worked(old(store.View()), claim.task, work);
                && (ending.Returns? ==> r.Processed?)
                && (ending.Raises? ==> (r.Processed? <==> !Unclosable(worked)))
                && (r.Processed? && !ending.RaisesLeaseLost? ==> StateOf(history.dbs[seen], claim.task) == worked)
    {
      var attempt;
      attempt, seen, at := TryClaim(claim, work, ending);
      ghost var tried := history;
      match attempt {
        case Ok(status) =>
          r := Processed(status);
        case Err(LostLease) =>
          r := FenceLostClaim(claim);
        case Err(Failed(message)) =>
          r, seen, at := HandleFailure(claim, message);
          if r.Processed? {
            FailingExtends(tried, history, old(|history.events|), |tried.events|, seen, claim.task, ending);
          }
      }
      ExtendsTransitive(old(history), tried, history);
    }

    // One turn of _reconcile_approved_waiting_tasks.
    method ReconcileOne(t: Text, now: int) returns (r: Reply, ghost at: nat)
      requires Recorded()
      modifies store, this`point, this`lost, this`history
      ensures Recorded() && Extends(old(history), history)
      ensures old(|history.events|) <= at < |history.events| && ReconciledAt(history, at, t, now)
      ensures r == Done || r.Raised?
      ensures r == Done <==> Readable(history.dbs[at], t)
    {
      Yield();
      at := |history.events|;
      ghost var before := Present(history);
      r := store.RequeueWaitingApprovalTask(t, now);
      Record(Requeue(t, now), r);
      RequeueReconciles(before, t, now, Outcome(store.View(), r));
      if r.Raised? && r.error in {LeaseLost, NotApproved, NotWaiting} {
        r := Done;
      }
    }

    // _reconcile_approved_waiting_tasks over the ids it listed. It requeues exactly the tasks
    // that may go on at the time it comes to them; the first one whose state does not decode
    // then makes it raise, so run_once stops there, before it claims anything.
    method ReconcileApproved(ids: seq<Text>, now: int) returns (r: Reply, ghost at: seq<nat>)
      requires Recorded()
      modifies store, this`point, this`lost, this`history
      ensures Recorded() && Extends(old(history), history)
      ensures |at| <= |ids| && Reconciled(history, old(|history.events|), at, ids, now)
      ensures r == Done ==> |at| == |ids| && forall i :: 0 <= i < |at| ==> Readable(history.dbs[at[i]], ids[i])
      ensures r != Done ==> r.Raised? && at != [] && !Readable(history.dbs[at[|at|-1]], ids[|at|-1])
    {
      at := [];
      for i := 0 to |ids|
        invariant Recorded() && Extends(old(history), history)
        invariant |at| == i && Reconciled(history, old(|history.events|), at, ids, now)
        invariant forall j :: 0 <= j < i ==> Readable(history.dbs[at[j]], ids[j])
      {
        ghost var was, next := history, 0;
        var reply;
        reply, next := ReconcileOne(ids[i], now);
        ReconciledOn(was, history, old(|history.events|), at, ids, now, next);
        ExtendsTransitive(old(history), was, history);
        at := at + [next];
        if reply.Raised? {
          return reply, at;
        }
      }
      return Done, at;
    }

    // run_once, research stages aside: reconcile, claim, and process what was claimed.
    method RunOnce(ids: seq<Text>, now: int, worker: Text, ttl: int, lease: Text, stamp: int, base: int,
                   work: seq<Write>, ending: Ending)
      returns (r: Once, ghost claimed: nat, ghost seen: nat, ghost at: nat)
      requires Recorded()
      modifies store, this`point, this`lost, this`history
      ensures Recorded() && Extends(old(history), history)
      ensures r.Ran? ==> old(|history.events|) <= claimed < |history.events|
                         && history.events[claimed].step == Step.ClaimNext(worker, ttl, lease, stamp, base)
                         && history.events[claimed].reply.Claimed?
      ensures r.Ran? && !r.report.Escaped? ==> Retired(store.View(), lease)
      ensures r.Ran? && r.report.Processed? ==>
                && CommittedAt(history, at, history.events[claimed].reply.claim, r.report.status)
                && ClosedAs(history, claimed + 1, seen, at, history.events[claimed].reply.claim.task, ending,
                            r.report.status)
      ensures r.NotExecutable? ==>
                Answered(history, old(|history.events|), claimed, Step.ClaimNext(worker, ttl, lease, stamp, base),
                         {Recovered(r.task, r.status), Settled(r.task, r.status)})
      ensures r.NoTask? ==>
                lease == [] || lease in store.issued
                || Answered(history, old(|history.events|), claimed, Step.ClaimNext(worker, ttl, lease, stamp, base),
                            {Nothing})
    {
      claimed, seen, at := 0, 0, 0;
      var reconciled, tried := ReconcileApproved(ids, now);
      if reconciled.Raised? {
        r := Stopped(reconciled.error);
        return;
      }
      ghost var before := history;
      var reply;
      reply, claimed := ClaimNext(worker, ttl, lease, stamp, base);
      ghost var taken := history;
      ExtendsTransitive(old(history), before, taken);
      match reply {
        case Raised(error) => r := Stopped(error);
        case Claimed(claim, _) =>
          lost := false;    // a new heartbeat
          var report;
          report, seen, at := ProcessClaim(claim, work, ending);
          ExtendsTransitive(old(history), taken, history);
          r := Ran(report);
        case Recovered(task, status) => r := NotExecutable(task, status);
        case Settled(task, status) => r := NotExecutable(task, status);
        case _ => r := NoTask;
      }
    }

    // claim_next_task by this worker.
    method ClaimNext(worker: Text, ttl: int, lease: Text, stamp: int, base: int) returns (r: Reply, ghost at: nat)
      requires Recorded()
      modifies store, this`point, this`lost, this`history
      ensures Recorded() && Extends(old(history), history)
      ensures ((lease == [] || lease in store.issued) && r == Nothing)
              || Answered(history, old(|history.events|), at, Step.ClaimNext(worker, ttl, lease, stamp, base), {r})
      ensures r == Nothing || r.Claimed? || r.Recovered? || r.Settled? || r.Raised?
      ensures r.Claimed? ==>
                && Answered(history, old(|history.events|), at, Step.ClaimNext(worker, ttl, lease, stamp, base), {r})
                && at == |history.events| - 1 && Holds(store.View().queue, r.claim) && r.claim.leaseId == lease
    {
      Yield();
      at := |history.events|;
      if lease == [] || lease in store.issued {
        return Nothing, at;    // uuid4 does not produce this id
      }
      ghost var before := history;
      r := store.ClaimNextTask(worker, ttl, lease, stamp, base);
      ghost var s, o := Step.ClaimNext(worker, ttl, lease, stamp, base), Outcome(store.View(), r);
      Record(s, r);
      ExtendsTransitive(old(history), before, history);
      ClaimIsHeld(Present(before), s, o);
    }
  }

  lemma StillClosed(h: History, g: History, from: nat, seen: nat, at: nat, task: Text, ending: Ending,
                    status: QueueStatus)
    requires Linked(h) && Linked(g) && Extends(h, g) && ClosedAs(h, from, seen, at, task, ending, status)
    ensures ClosedAs(g, from, seen, at, task, ending, status)
  {
    assert g.dbs[seen] == h.dbs[seen] && g.events[at] == h.events[at];
    if Failing(h, from, seen, task, ending) {
      FailingExtends(h, g, from, seen, seen, task, ending);
    }
    if message :| FailureAsks(h, at, StateOf(h.dbs[seen], task), status, message) {
      assert FailureAsks(g, at, StateOf(g.dbs[seen], task), status, message);
    }
  }

  lemma ClosableExactly(db: Db, task: Text, state: Option<Snapshot>)
    requires state == StateOf(db, task) && (state.Some? ==> state.value.intact && !Terminal(state.value.status))
    ensures Closable(db, task, Some(if MayHaveStarted(state) then EXECUTION_UNKNOWN else FAILED)) <==>
              !Unclosable(state)
  {
    HandlerStatus(db, task);
  }

  lemma RequeueReconciles(db: Db, t: Text, now: int, o: Outcome)
    requires Next(db, Requeue(t, now), o)
    ensures Readable(db, t) ==> t in o.db.queue && o.db.queue[t] == AfterReconcile(db, t, now)
    ensures !Readable(db, t) ==> o.db == db
    ensures o.reply.Raised? && o.reply.error !in {LeaseLost, NotApproved, NotWaiting} <==> !Readable(db, t)
  {}

  lemma ClaimIsHeld(db: Db, s: Step, o: Outcome)
    requires s.ClaimNext? && Next(db, s, o)
    ensures o.reply == Nothing || o.reply.Claimed? || o.reply.Recovered? || o.reply.Settled? || o.reply.Raised?
    ensures o.reply.Claimed? ==> Holds(o.db.queue, o.reply.claim) && o.reply.claim.leaseId == s.lease
  {}

  lemma NotHeldIsRetired(db: Db, c: Claim)
    requires HeldOrRetired(db, c) && !Holds(db.queue, c)
    ensures Retired(db, c.leaseId) && c.leaseId != []
  {}

  lemma FinishEndsLease(a: Db, s: Step, o: Outcome, c: Claim)
    requires s.Finish? && s.claim == c && Next(a, s, o) && o.reply == Done && HeldOrRetired(o.db, c)
    ensures Holds(a.queue, c) && a.queue[c.task].expiresAt.Some? && a.queue[c.task].expiresAt.value > s.now
    ensures c.task in o.db.queue && o.db.queue[c.task].status == s.status
    ensures Retired(o.db, c.leaseId) && c.leaseId != []
  {
    assert !Holds(o.db.queue, c);
    NotHeldIsRetired(o.db, c);
  }

  lemma FencingEndsLease(a: Db, s: Step, o: Outcome, c: Claim)
    requires s.MarkLost? && s.claim == c && Next(a, s, o) && HeldOrRetired(o.db, c)
    requires !o.reply.Raised? || o.reply == Raised(LeaseLost)
    ensures o.reply == Done || o.reply == Raised(LeaseLost)
    ensures Retired(o.db, c.leaseId) && c.leaseId != []
  {
    assert !Holds(o.db.queue, c);
    NotHeldIsRetired(o.db, c);
  }
}
