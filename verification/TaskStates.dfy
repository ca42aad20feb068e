// The durable task state and its transition table (core/task_state.py).
module TaskStates {
  import opened Wrappers
  import opened Text

  datatype Status =
    | CREATED | QUEUED | PLANNING | READY | EXECUTING | EXECUTION_UNKNOWN
    | OBSERVING | VERIFYING | WAITING_APPROVAL | BLOCKED | FAILED | COMPLETED

  predicate Terminal(s: Status) {
    s in {BLOCKED, FAILED, COMPLETED}
  }

  function Successors(s: Status): set<Status> {
    match s
    case CREATED => {CREATED, PLANNING, READY, WAITING_APPROVAL, BLOCKED, FAILED, EXECUTION_UNKNOWN}
    case QUEUED => {QUEUED, PLANNING, READY, WAITING_APPROVAL, BLOCKED, FAILED, EXECUTION_UNKNOWN}
    case PLANNING => {PLANNING, READY, WAITING_APPROVAL, BLOCKED, FAILED, EXECUTION_UNKNOWN}
    case READY => {READY, EXECUTING, WAITING_APPROVAL, COMPLETED, BLOCKED, FAILED, EXECUTION_UNKNOWN}
    case EXECUTING => {EXECUTING, OBSERVING, EXECUTION_UNKNOWN, BLOCKED, FAILED}
    case EXECUTION_UNKNOWN => {EXECUTION_UNKNOWN, OBSERVING, VERIFYING, READY, BLOCKED, FAILED}
    case OBSERVING => {OBSERVING, VERIFYING, EXECUTION_UNKNOWN, READY, BLOCKED, FAILED}
    case VERIFYING => {VERIFYING, READY, COMPLETED, BLOCKED, FAILED}
    case WAITING_APPROVAL => {WAITING_APPROVAL, READY, BLOCKED, FAILED}
    case BLOCKED => {BLOCKED}
    case FAILED => {FAILED}
    case COMPLETED => {COMPLETED}
  }

  // One entry of the state's action_records. `inFlight` says whether its status is
  // EXECUTING or OBSERVING; `body` stands for the fields no queue operation looks at.
  datatype ActionRecord = ActionRecord(key: Text, inFlight: bool, body: int)

  // One persisted state_json. `intact` says whether TaskState.from_dict accepts it.
  datatype Snapshot = Snapshot(
    intact: bool,
    status: Status,
    approvals: map<Text, Text>,
    actions: seq<ActionRecord>,
    recovery: string,
    errors: seq<string>,
    body: int)

  // TaskState.create_queued.
  function CreateQueued(body: int): Snapshot {
    Snapshot(true, QUEUED, map[], [], "", [], body)
  }

  // state.checkpoint("EXECUTION_UNKNOWN", ...) with the recovery reason, or touch() when the
  // state already says so; None is InvalidStateTransition.
  function MarkUnknown(s: Snapshot, reason: string): Option<Snapshot> {
    if s.status == EXECUTION_UNKNOWN || EXECUTION_UNKNOWN in Successors(s.status)
    then Some(s.(status := EXECUTION_UNKNOWN, recovery := reason))
    else None
  }
}
