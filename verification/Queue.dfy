// The durable task queue as a state machine: each committed or rolled-back transaction of
// storage.py is one step. A step's clock readings are inputs and need not be monotone,
// because the source reads the clock before it takes the database lock.
module Queue {
  import opened Wrappers
  import opened Text
  import opened TaskStates

  datatype QueueStatus =
    | Q_QUEUED | Q_LEASED | Q_WAITING_APPROVAL | Q_RETRY_WAIT
    | Q_EXECUTION_UNKNOWN | Q_COMPLETED | Q_FAILED | Q_BLOCKED

  // A row of task_queue. Empty text and None stand for the empty strings of the source.
  datatype Row = Row(
    status: QueueStatus, attempts: nat, maxAttempts: nat, availableAt: int, createdAt: int,
    leaseId: Text, workerId: Text, expiresAt: Option<int>, errorCode: string)

  datatype Claim = Claim(task: Text, leaseId: Text, workerId: Text)

  // Who wrote a checkpoint. No step reads this; it names the block an entry belongs to.
  // Closing entries are written by the transaction that also ends the lease.
  datatype Writer =
    | Unfenced
    | Leased(leaseId: Text, attempt: nat)
    | Closing(leaseId: Text, attempt: nat)

  datatype Checkpoint = Checkpoint(task: Text, sequence: nat, kind: string, snapshot: Snapshot, writer: Writer)

  datatype ActionRow = ActionRow(task: Text, record: ActionRecord)

  datatype Approval = Approval(task: Text, action: Text, approved: bool)

  // `issued` is every lease id handed out so far: uuid4 never repeats one.
  datatype Db = Db(
    queue: map<Text, Row>,
    states: map<Text, Snapshot>,
    log: seq<Checkpoint>,
    actions: map<Text, ActionRow>,
    approvals: map<Text, Approval>,
    issued: set<Text>)

  datatype Error =
    | LeaseLost | InvalidTransition | StateIntegrity | TaskNotFound
    | NotWaiting | NotApproved | InvalidArgument | DuplicateTask | StateMissing

  datatype Reply =
    | Done
    | Nothing
    | Claimed(claim: Claim, attempt: nat)
    | Recovered(task: Text, status: QueueStatus)
    | Settled(task: Text, status: QueueStatus)
    | Raised(error: Error)

  datatype Outcome = Outcome(db: Db, reply: Reply)

  datatype Step =
    | Create(task: Text, maxAttempts: int, body: int, now: int)
    | Save(caller: Option<Claim>, task: Text, snapshot: Snapshot, kind: string, now: int)
    | ClaimNext(worker: Text, ttl: int, lease: Text, stamp: int, expiryBase: int)
    | Renew(claim: Claim, ttl: int, stamp: int, expiryBase: int)
    | Finish(claim: Claim, status: QueueStatus, errorCode: string, message: string, saveAs: Option<Status>, now: int)
    | MarkLost(claim: Claim, reason: string)
    | Requeue(task: Text, now: int)
    | WriteApproval(id: Text, approval: Approval)

  predicate Finished(s: QueueStatus) {
    s in {Q_EXECUTION_UNKNOWN, Q_COMPLETED, Q_FAILED, Q_BLOCKED}
  }

  // _queue_status_for_task_status.
  function QueueStatusFor(s: Status): QueueStatus {
    match s
    case COMPLETED => Q_COMPLETED
    case BLOCKED => Q_BLOCKED
    case WAITING_APPROVAL => Q_WAITING_APPROVAL
    case EXECUTION_UNKNOWN => Q_EXECUTION_UNKNOWN
    case _ => Q_FAILED
  }

  // The lease check. None means the write may proceed; tasks that are not queue managed
  // are not fenced. (_assert_active_lease)
  function Fence(queue: map<Text, Row>, task: Text, caller: Option<Claim>, now: int): Option<Error> {
    if task !in queue then None
    else if caller.None? || caller.value.task != task || !Holds(queue, caller.value) then Some(LeaseLost)
    else if queue[task].expiresAt.None? || queue[task].expiresAt.value <= now then Some(LeaseLost)
    else None
  }

  predicate Holds(queue: map<Text, Row>, c: Claim) {
    && c.task in queue
    && queue[c.task].status == Q_LEASED
    && queue[c.task].leaseId == c.leaseId
    && queue[c.task].workerId == c.workerId
  }

  // COALESCE(MAX(sequence), 0) over the task's checkpoints.
  function MaxSequence(log: seq<Checkpoint>, task: Text): nat {
    if log == [] then 0
    else
      var rest := MaxSequence(log[..|log|-1], task);
      var last := log[|log|-1];
      if last.task == task && last.sequence > rest then last.sequence else rest
  }

  // INSERT OR REPLACE of each action record. action_key is the whole primary key, so rows
  // are shared between tasks.
  function Upsert(rows: map<Text, ActionRow>, task: Text, records: seq<ActionRecord>): map<Text, ActionRow> {
    if records == [] then rows
    else
      var last := records[|records|-1];
      Upsert(rows, task, records[..|records|-1])[last.key := ActionRow(task, last)]
  }

  // _persist_task_state_in_transaction, after its lease check.
  function Persist(db: Db, task: Text, snapshot: Snapshot, kind: string, writer: Writer): Db {
    db.(states := db.states[task := snapshot],
        log := db.log + [Checkpoint(task, MaxSequence(db.log, task) + 1, kind, snapshot, writer)],
        actions := Upsert(db.actions, task, snapshot.actions))
  }

  function WriterOf(db: Db, task: Text): Writer {
    if task in db.queue then Leased(db.queue[task].leaseId, db.queue[task].attempts) else Unfenced
  }

  function CloserOf(row: Row): Writer {
    Closing(row.leaseId, row.attempts)
  }

  // The row after a lease ends.
  function Close(row: Row, status: QueueStatus, errorCode: string): Row {
    row.(status := status, leaseId := [], workerId := [], expiresAt := None, errorCode := errorCode)
  }

  function CloseIn(db: Db, task: Text, status: QueueStatus, errorCode: string): Db
    requires task in db.queue
  {
    db.(queue := db.queue[task := Close(db.queue[task], status, errorCode)])
  }

  function Rollback(db: Db, error: Error): Outcome {
    Outcome(db, Raised(error))
  }

  // create_queued_task. The INSERT into task_queue fails for a task that already has a row.
  function ApplyCreate(db: Db, task: Text, maxAttempts: int, body: int, now: int): Outcome {
    if maxAttempts < 1 then Rollback(db, InvalidArgument)
    else if task in db.queue then Rollback(db, DuplicateTask)
    else
      var saved := Persist(db, task, CreateQueued(body), "TASK_QUEUED", Unfenced);
      var row := Row(Q_QUEUED, 0, maxAttempts, now, now, [], [], None, "");
      Outcome(saved.(queue := saved.queue[task := row]), Done)
  }

  // save_task_state, called with the claim bound to the calling thread.
  function ApplySave(db: Db, caller: Option<Claim>, task: Text, snapshot: Snapshot, kind: string, now: int): Outcome {
    match Fence(db.queue, task, caller, now)
    case Some(e) => Rollback(db, e)
    case None => Outcome(Persist(db, task, snapshot, kind, WriterOf(db, task)), Done)
  }

  // What recovery decides for a persisted state: the queue status, its error code, and the
  // snapshot to persist when the outcome became unknown. Err is InvalidStateTransition.
  datatype Verdict = Verdict(status: QueueStatus, errorCode: string, write: Option<Snapshot>)

  function JudgeExpired(state: Option<Snapshot>): Option<Verdict> {
    if state.None? then
      Some(Verdict(Q_EXECUTION_UNKNOWN, "lease_expired_execution_unknown", None))
    else
      var s := state.value;
      if !s.intact then Some(Verdict(Q_BLOCKED, "malformed_task_state", None))
      else if Terminal(s.status)
        then Some(Verdict(QueueStatusFor(s.status), "lease_expired_after_terminal_state", None))
      else if s.status == WAITING_APPROVAL
        then Some(Verdict(Q_WAITING_APPROVAL, "lease_expired_waiting_approval", None))
      else
        match MarkUnknown(s, "worker_lease_expired")
        case None => None
        case Some(u) => Some(Verdict(Q_EXECUTION_UNKNOWN, "lease_expired_execution_unknown", Some(u)))
  }

  function StateOf(db: Db, task: Text): Option<Snapshot> {
    if task in db.states then Some(db.states[task]) else None
  }

  function Conclude(db: Db, task: Text, v: Verdict): Db
    requires task in db.queue
  {
    var saved := if v.write.Some?
                 then Persist(db, task, v.write.value, "EXECUTION_UNKNOWN", CloserOf(db.queue[task]))
                 else db;
    CloseIn(saved, task, v.status, v.errorCode)
  }

  // _mark_expired_lease_in_transaction.
  function ApplyExpired(db: Db, task: Text): Outcome
    requires task in db.queue
  {
    match JudgeExpired(StateOf(db, task))
    case None => Rollback(db, InvalidTransition)
    case Some(v) => Outcome(Conclude(db, task, v), Recovered(task, v.status))
  }

  predicate Expired(row: Row, stamp: int) {
    row.status == Q_LEASED && row.expiresAt.Some? && row.expiresAt.value <= stamp
  }

  predicate Runnable(row: Row, stamp: int) {
    row.status in {Q_QUEUED, Q_RETRY_WAIT} && row.availableAt <= stamp && row.attempts < row.maxAttempts
  }

  // ORDER BY lease_expires_at, task_id.
  predicate ExpiresBefore(queue: map<Text, Row>, a: Text, b: Text)
    requires a in queue && queue[a].expiresAt.Some?
    requires b in queue && queue[b].expiresAt.Some?
  {
    var x, y := queue[a].expiresAt.value, queue[b].expiresAt.value;
    x < y || (x == y && Less(a, b))
  }

  // ORDER BY available_at, created_at, task_id.
  predicate RunsBefore(queue: map<Text, Row>, a: Text, b: Text)
    requires a in queue && b in queue
  {
    var x, y := queue[a], queue[b];
    || x.availableAt < y.availableAt
    || (x.availableAt == y.availableAt
        && (x.createdAt < y.createdAt || (x.createdAt == y.createdAt && Less(a, b))))
  }

  ghost predicate FirstExpired(queue: map<Text, Row>, t: Text, stamp: int) {
    && t in queue && Expired(queue[t], stamp)
    && forall o :: o in queue && Expired(queue[o], stamp) && o != t ==> ExpiresBefore(queue, t, o)
  }

  ghost predicate FirstRunnable(queue: map<Text, Row>, t: Text, stamp: int) {
    && t in queue && Runnable(queue[t], stamp)
    && forall o :: o in queue && Runnable(queue[o], stamp) && o != t ==> RunsBefore(queue, t, o)
  }

  // The claiming half of claim_next_task for the selected candidate.
  function ApplyTake(db: Db, task: Text, worker: Text, ttl: int, lease: Text, expiryBase: int): Outcome
    requires task in db.queue
  {
    var row := db.queue[task];
    var leased := row.(status := Q_LEASED, attempts := row.attempts + 1, leaseId := lease, workerId := worker,
                       expiresAt := Some(expiryBase + ttl));
    var taken := db.(queue := db.queue[task := leased], issued := db.issued + {lease});
    if task !in db.states then Rollback(db, StateMissing)
    else
      var s := db.states[task];
      if s.intact && s.status in {EXECUTION_UNKNOWN, BLOCKED, FAILED, COMPLETED} then
        Outcome(CloseIn(taken, task, QueueStatusFor(s.status), "queue_state_not_executable"),
                Settled(task, QueueStatusFor(s.status)))
      else if !s.intact || s.status !in {CREATED, QUEUED, READY, WAITING_APPROVAL} then
        Outcome(CloseIn(taken, task, Q_BLOCKED, "malformed_task_state"), Settled(task, Q_BLOCKED))
      else
        Outcome(taken, Claimed(Claim(task, lease, worker), row.attempts + 1))
  }

  // claim_next_task: recover one expired lease, else claim one runnable task.
  ghost predicate ClaimNextAllows(db: Db, worker: Text, ttl: int, lease: Text, stamp: int, expiryBase: int,
                                  o: Outcome) {
    if worker == [] || ttl < 1 then o == Rollback(db, InvalidArgument)
    else if exists t :: t in db.queue && Expired(db.queue[t], stamp) then
      exists t :: FirstExpired(db.queue, t, stamp) && o == ApplyExpired(db, t)
    else if exists t :: t in db.queue && Runnable(db.queue[t], stamp) then
      exists t :: FirstRunnable(db.queue, t, stamp) && o == ApplyTake(db, t, worker, ttl, lease, expiryBase)
    else
      o == Outcome(db, Nothing)
  }

  // renew_task_lease.
  function ApplyRenew(db: Db, c: Claim, ttl: int, stamp: int, expiryBase: int): Outcome {
    if ttl < 1 then Rollback(db, InvalidArgument)
    else if !Holds(db.queue, c) || db.queue[c.task].expiresAt.None? || db.queue[c.task].expiresAt.value <= stamp
    then Rollback(db, LeaseLost)
    else Outcome(db.(queue := db.queue[c.task := db.queue[c.task].(expiresAt := Some(expiryBase + ttl))]), Done)
  }

  // The snapshot finish_task_claim persists for state_status; None is InvalidStateTransition.
  function FailureSnapshot(s: Snapshot, saveAs: Status, note: string): Option<Snapshot> {
    if saveAs == EXECUTION_UNKNOWN then
      if s.status == EXECUTION_UNKNOWN then Some(s) else MarkUnknown(s, "worker_execution_interrupted")
    else if saveAs == FAILED && !Terminal(s.status) then
      if FAILED in Successors(s.status) then Some(s.(status := FAILED, errors := s.errors + [note])) else None
    else
      Some(s)
  }

  // finish_task_claim.
  function ApplyFinish(db: Db, c: Claim, status: QueueStatus, errorCode: string, message: string,
                       saveAs: Option<Status>, now: int): Outcome {
    if status !in {Q_WAITING_APPROVAL, Q_EXECUTION_UNKNOWN, Q_COMPLETED, Q_FAILED, Q_BLOCKED} then
      Rollback(db, InvalidArgument)
    else if !Holds(db.queue, c) then Rollback(db, LeaseLost)
    else if db.queue[c.task].expiresAt.None? || db.queue[c.task].expiresAt.value <= now then Rollback(db, LeaseLost)
    else if saveAs.None? || c.task !in db.states then
      Outcome(CloseIn(db, c.task, status, errorCode), Done)
    else if !db.states[c.task].intact then Rollback(db, StateIntegrity)
    else
      var note := if message != "" then message else if errorCode != "" then errorCode else "worker_failed";
      match FailureSnapshot(db.states[c.task], saveAs.value, note)
      case None => Rollback(db, InvalidTransition)
      case Some(s) =>
        var kind := if saveAs.value == EXECUTION_UNKNOWN then "EXECUTION_UNKNOWN" else "WORKER_FAILED";
        Outcome(CloseIn(Persist(db, c.task, s, kind, CloserOf(db.queue[c.task])), c.task, status, errorCode), Done)
  }

  // What mark_task_execution_unknown_if_owned decides.
  function JudgeLost(state: Option<Snapshot>, reason: string): Option<Verdict>
    requires state.Some? ==> state.value.intact
  {
    if state.None? then Some(Verdict(Q_EXECUTION_UNKNOWN, "execution_unknown", None))
    else
      var s := state.value;
      if Terminal(s.status) then Some(Verdict(QueueStatusFor(s.status), "", None))
      else if s.status == WAITING_APPROVAL then Some(Verdict(Q_WAITING_APPROVAL, "", None))
      else
        match MarkUnknown(s, reason)
        case None => None
        case Some(u) => Some(Verdict(Q_EXECUTION_UNKNOWN, "execution_unknown", Some(u)))
  }

  // mark_task_execution_unknown_if_owned: no expiry check, only ownership.
  function ApplyMarkLost(db: Db, c: Claim, reason: string): Outcome {
    if !Holds(db.queue, c) then Rollback(db, LeaseLost)
    else if c.task in db.states && !db.states[c.task].intact then Rollback(db, StateIntegrity)
    else
      match JudgeLost(StateOf(db, c.task), reason)
      case None => Rollback(db, InvalidTransition)
      case Some(v) => Outcome(Conclude(db, c.task, v), Done)
  }

  predicate ApprovedFor(approvals: map<Text, Approval>, task: Text, action: Text, id: Text) {
    id in approvals && approvals[id].approved && approvals[id].task == task && approvals[id].action == action
  }

  // Every approval the state names exists, is APPROVED, and is bound to this task and action.
  predicate AllApproved(approvals: map<Text, Approval>, task: Text, needed: map<Text, Text>) {
    forall a :: a in needed ==> ApprovedFor(approvals, task, a, needed[a])
  }

  // requeue_waiting_approval_task.
  function ApplyRequeue(db: Db, task: Text, now: int): Outcome {
    if task !in db.queue || task !in db.states then Rollback(db, TaskNotFound)
    else
      var s := db.states[task];
      if !s.intact then Rollback(db, StateIntegrity)
      else if db.queue[task].status != Q_WAITING_APPROVAL || s.status != WAITING_APPROVAL then Rollback(db, NotWaiting)
      else if s.approvals == map[] || !AllApproved(db.approvals, task, s.approvals) then Rollback(db, NotApproved)
      else
        var row := db.queue[task].(status := Q_QUEUED, availableAt := now, errorCode := "");
        Outcome(db.(queue := db.queue[task := row]), Done)
  }

  // One transaction. A claiming step brings a lease id that was never handed out before.
  ghost predicate Next(db: Db, s: Step, o: Outcome) {
    match s
    case Create(t, m, b, now) => o == ApplyCreate(db, t, m, b, now)
    case Save(c, t, snap, kind, now) => o == ApplySave(db, c, t, snap, kind, now)
    case ClaimNext(w, ttl, lease, stamp, base) =>
      lease != [] && lease !in db.issued && ClaimNextAllows(db, w, ttl, lease, stamp, base, o)
    case Renew(c, ttl, stamp, base) => o == ApplyRenew(db, c, ttl, stamp, base)
    case Finish(c, qs, e, m, saveAs, now) => o == ApplyFinish(db, c, qs, e, m, saveAs, now)
    case MarkLost(c, reason) => o == ApplyMarkLost(db, c, reason)
    case Requeue(t, now) => o == ApplyRequeue(db, t, now)
    case WriteApproval(id, a) => o == Outcome(db.(approvals := db.approvals[id := a]), Done)
  }

  const EMPTY := Db(map[], map[], [], map[], map[], {})
}
