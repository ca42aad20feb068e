// Research stages: claims with leases, a legacy path without one, and cancellation.
module ResearchStages {
  import opened Wrappers
  import opened Text

  datatype StageStatus = QUEUED | RUNNING | COMPLETED | PARTIAL | FAILED | CANCELLED | UNKNOWN | UNAVAILABLE

  const MAX_STAGES_PER_ANALYSIS := 32
  const MAX_TTL := 86_400

  // A JSON payload after safe_json, with the length of its encoding.
  datatype Payload = Payload(body: int, bytes: nat)

  const EMPTY_PAYLOAD := Payload(0, 2)

  datatype Stage = Stage(
    analysis: Text, owner: Text, status: StageStatus, maxOutput: nat, createdAt: int,
    attempts: nat, maxAttempts: nat, leaseId: Text, workerId: Text, expiresAt: Option<int>,
    result: Payload, partial: Payload, errorCode: string)

  type Stages = map<Text, Stage>

  datatype StageClaim = StageClaim(stage: Text, owner: Text, leaseId: Text, workerId: Text)

  datatype StageError =
    | WORKER_INVALID | TTL_INVALID | LIMIT_REACHED | TERMINAL_REQUIRED | CLAIM_INVALID | NOT_FOUND
    | TOO_LARGE | LEASE_LOST | NOT_STARTABLE | NOT_RUNNING | NOT_CANCELLABLE

  // `owned` names the owner the caller acts for; None is the is_owner access to any stage.
  datatype StageStep =
    | Create(id: Text, analysis: Text, owner: Text, maxOutput: nat, now: int)
    | ClaimNext(worker: Text, ttl: int, lease: Text, stamp: int, expiryBase: int)
    | FinishClaim(claim: StageClaim, status: StageStatus, result: Payload, partial: Payload, code: string, stamp: int)
    | MarkUnknown(claim: StageClaim, reason: string)
    | Start(id: Text, owned: Option<Text>)
    | Finish(id: Text, owned: Option<Text>, status: StageStatus, result: Payload, partial: Payload, code: string)
    | Cancel(id: Text, owned: Option<Text>)

  datatype StageReply = Done | Nothing | Claimed(claim: StageClaim) | NotOwned | Raised(error: StageError)

  predicate Terminal(s: StageStatus) {
    s !in {QUEUED, RUNNING}
  }

  function Siblings(stages: Stages, analysis: Text, owner: Text): set<Text> {
    set id | id in stages && stages[id].analysis == analysis && stages[id].owner == owner
  }

  predicate Visible(stages: Stages, id: Text, owned: Option<Text>) {
    id in stages && (owned.Some? ==> stages[id].owner == owned.value)
  }

  // The first statement of claim_next: RUNNING without a lease, or past it, becomes UNKNOWN.
  predicate Overdue(s: Stage, stamp: int) {
    s.status == RUNNING && (s.expiresAt.None? || s.expiresAt.value <= stamp)
  }

  function End(s: Stage, status: StageStatus): Stage {
    s.(status := status, leaseId := [], workerId := [], expiresAt := None)
  }

  function Sweep(stages: Stages, stamp: int): Stages {
    map id | id in stages ::
      if Overdue(stages[id], stamp) then End(stages[id], UNKNOWN).(errorCode := "stage_lease_expired") else stages[id]
  }

  predicate Claimable(s: Stage) {
    s.status == QUEUED && s.attempts < s.maxAttempts
  }

  // ORDER BY created_at, stage_id.
  predicate Earlier(stages: Stages, a: Text, b: Text)
    requires a in stages && b in stages
  {
    stages[a].createdAt < stages[b].createdAt || (stages[a].createdAt == stages[b].createdAt && Less(a, b))
  }

  ghost predicate FirstClaimable(stages: Stages, id: Text) {
    && id in stages && Claimable(stages[id])
    && forall o :: o in stages && Claimable(stages[o]) && o != id ==> Earlier(stages, id, o)
  }

  function Take(s: Stage, worker: Text, lease: Text, expires: int): Stage {
    s.(status := RUNNING, attempts := s.attempts + 1, leaseId := lease, workerId := worker, expiresAt := Some(expires))
  }

  ghost predicate ClaimNextAllows(a: Stages, worker: Text, ttl: int, lease: Text, stamp: int, base: int, b: Stages,
                                  r: StageReply) {
    if worker == [] then b == a && r == Raised(WORKER_INVALID)
    else if !(1 <= ttl <= MAX_TTL) then b == a && r == Raised(TTL_INVALID)
    else
      var swept := Sweep(a, stamp);
      if exists id :: id in swept && Claimable(swept[id]) then
        exists id :: FirstClaimable(swept, id)
          && b == swept[id := Take(swept[id], worker, lease, base + ttl)]
          && r == Claimed(StageClaim(id, swept[id].owner, lease, worker))
      else b == swept && r == Nothing
  }

  predicate Holds(stages: Stages, c: StageClaim) {
    && c.stage in stages && stages[c.stage].owner == c.owner && stages[c.stage].status == RUNNING
    && stages[c.stage].leaseId == c.leaseId && stages[c.stage].workerId == c.workerId
  }

  predicate WellFormed(c: StageClaim) {
    c.stage != [] && c.owner != [] && c.leaseId != [] && c.workerId != []
  }

  function ApplyFinishClaim(a: Stages, c: StageClaim, status: StageStatus, result: Payload, partial: Payload,
                            code: string, stamp: int)
    : (Stages, StageReply)
  {
    if !Terminal(status) then (a, Raised(TERMINAL_REQUIRED))
    else if !WellFormed(c) then (a, Raised(CLAIM_INVALID))
    else if !Visible(a, c.stage, Some(c.owner)) then (a, Raised(NOT_FOUND))
    else if result.bytes > a[c.stage].maxOutput || partial.bytes > a[c.stage].maxOutput then (a, Raised(TOO_LARGE))
    else if !Holds(a, c) || a[c.stage].expiresAt.None? || a[c.stage].expiresAt.value <= stamp
    then (a, Raised(LEASE_LOST))
    else (a[c.stage := End(a[c.stage], status).(result := result, partial := partial, errorCode := code)], Done)
  }

  function ApplyMarkUnknown(a: Stages, c: StageClaim, reason: string): (Stages, StageReply) {
    if !WellFormed(c) || !Holds(a, c) then (a, NotOwned)
    else (a[c.stage := End(a[c.stage], UNKNOWN).(errorCode := reason)], Done)
  }

  function ApplyStart(a: Stages, id: Text, owned: Option<Text>): (Stages, StageReply) {
    if !Visible(a, id, owned) then (a, Raised(NOT_FOUND))
    else if a[id].status != QUEUED then (a, Raised(NOT_STARTABLE))
    else (a[id := a[id].(status := RUNNING)], Done)
  }

  function ApplyFinish(a: Stages, id: Text, owned: Option<Text>, status: StageStatus, result: Payload, partial: Payload,
                       code: string)
    : (Stages, StageReply)
  {
    if !Terminal(status) then (a, Raised(TERMINAL_REQUIRED))
    else if !Visible(a, id, owned) then (a, Raised(NOT_FOUND))
    else if a[id].status != RUNNING then (a, Raised(NOT_RUNNING))
    else if result.bytes > a[id].maxOutput || partial.bytes > a[id].maxOutput then (a, Raised(TOO_LARGE))
    else if a[id].leaseId != [] || a[id].workerId != [] || a[id].expiresAt != None then (a, Raised(NOT_RUNNING))
    else (a[id := End(a[id], status).(result := result, partial := partial, errorCode := code)], Done)
  }

  function ApplyCancel(a: Stages, id: Text, owned: Option<Text>): (Stages, StageReply) {
    if !Visible(a, id, owned) then (a, Raised(NOT_FOUND))
    else if Terminal(a[id].status) then (a, Raised(NOT_CANCELLABLE))
    else (a[id := End(a[id], CANCELLED)], Done)
  }

  function ApplyCreate(a: Stages, id: Text, analysis: Text, owner: Text, maxOutput: nat, now: int)
    : (Stages, StageReply)
  {
    if |Siblings(a, analysis, owner)| >= MAX_STAGES_PER_ANALYSIS then (a, Raised(LIMIT_REACHED))
    else (a[id := Stage(analysis, owner, QUEUED, maxOutput, now, 0, 1, [], [], None, EMPTY_PAYLOAD, EMPTY_PAYLOAD, "")],
          Done)
  }

  // One transaction. Stage ids and lease ids are uuid4 values, so a created id is new.
  ghost predicate Next(a: Stages, s: StageStep, b: Stages, r: StageReply) {
    match s
    case Create(id, an, o, m, now) => id !in a && (b, r) == ApplyCreate(a, id, an, o, m, now)
    case ClaimNext(w, ttl, lease, stamp, base) => lease != [] && ClaimNextAllows(a, w, ttl, lease, stamp, base, b, r)
    case FinishClaim(c, st, res, part, code, stamp) => (b, r) == ApplyFinishClaim(a, c, st, res, part, code, stamp)
    case MarkUnknown(c, reason) => (b, r) == ApplyMarkUnknown(a, c, reason)
    case Start(id, owned) => (b, r) == ApplyStart(a, id, owned)
    case Finish(id, owned, st, res, part, code) => (b, r) == ApplyFinish(a, id, owned, st, res, part, code)
    case Cancel(id, owned) => (b, r) == ApplyCancel(a, id, owned)
  }

  // ---- Properties -------------------------------------------------------------------------

  function Level(s: StageStatus): nat {
    match s case QUEUED => 0 case RUNNING => 1 case _ => 2
  }

  predicate WritesResult(s: StageStep, id: Text) {
    (s.FinishClaim? && s.claim.stage == id) || (s.Finish? && s.id == id)
  }

  // How one row may move in one transaction: nothing after a terminal status, otherwise only
  // upwards, and the payloads only in a committed finish that makes the row terminal.
  predicate RowMoves(x: Stage, y: Stage, wrote: bool) {
    && (Terminal(x.status) ==> y == x)
    && Level(x.status) <= Level(y.status)
    && (Level(x.status) == Level(y.status) ==> y == x)
    && (y.result != x.result || y.partial != x.partial ==> wrote)
    && (wrote ==> x.status == RUNNING && Terminal(y.status))
  }

  lemma RowsMoveUp(a: Stages, s: StageStep, b: Stages, r: StageReply, id: Text)
    requires Next(a, s, b, r) && id in a
    ensures id in b && RowMoves(a[id], b[id], WritesResult(s, id) && r == Done)
    ensures r.Claimed? && r.claim.stage == id ==> a[id].status == QUEUED && b[id].status == RUNNING
  {
  }

  datatype StageEvent = StageEvent(step: StageStep, reply: StageReply)

  ghost predicate StageRun(ss: seq<Stages>, events: seq<StageEvent>) {
    && |ss| == |events| + 1
    && forall i {:trigger events[i]} :: 0 <= i < |events| ==> Next(ss[i], events[i].step, ss[i+1], events[i].reply)
  }

  lemma {:induction false} StatusOnlyMovesUp(ss: seq<Stages>, events: seq<StageEvent>, i: nat, j: nat, id: Text)
    requires StageRun(ss, events) && i <= j < |ss| && id in ss[i]
    ensures id in ss[j] && Level(ss[i][id].status) <= Level(ss[j][id].status)
    ensures Terminal(ss[i][id].status) ==> ss[j][id] == ss[i][id]
    decreases j
  {
    if i < j {
      StatusOnlyMovesUp(ss, events, i, j - 1, id);
      RowsMoveUp(ss[j-1], events[j-1].step, ss[j], events[j-1].reply, id);
    }
  }

  lemma ClaimFindsQueued(ss: seq<Stages>, events: seq<StageEvent>, i: nat)
    requires StageRun(ss, events) && i < |events| && events[i].reply.Claimed?
    ensures var id := events[i].reply.claim.stage;
      id in ss[i] && id in ss[i+1] && ss[i][id].status == QUEUED && ss[i+1][id].status == RUNNING
  {
    assert Next(ss[i], events[i].step, ss[i+1], events[i].reply);
  }

  // A stage is claimed at most once in any run, whatever its attempt limit.
  lemma StageIsClaimedAtMostOnce(ss: seq<Stages>, events: seq<StageEvent>, i: nat, j: nat)
    requires StageRun(ss, events) && i < j < |events| && events[i].reply.Claimed? && events[j].reply.Claimed?
    ensures events[i].reply.claim.stage != events[j].reply.claim.stage
  {
    ClaimFindsQueued(ss, events, i);
    ClaimFindsQueued(ss, events, j);
    StatusOnlyMovesUp(ss, events, i + 1, j, events[i].reply.claim.stage);
  }

  // A stage's result is written at most once in any run.
  lemma ResultIsWrittenAtMostOnce(ss: seq<Stages>, events: seq<StageEvent>, i: nat, j: nat, id: Text)
    requires StageRun(ss, events) && i < j < |events| && id in ss[i]
    requires WritesResult(events[i].step, id) && events[i].reply == Done
    ensures !(WritesResult(events[j].step, id) && events[j].reply == Done)
    ensures id in ss[j] && id in ss[j+1] && ss[j+1][id] == ss[i+1][id]
  {
    RowsMoveUp(ss[i], events[i].step, ss[i+1], events[i].reply, id);
    StatusOnlyMovesUp(ss, events, i + 1, j, id);
    StatusOnlyMovesUp(ss, events, i + 1, j + 1, id);
    RowsMoveUp(ss[j], events[j].step, ss[j+1], events[j].reply, id);
  }

  // A cancel that committed wins over the worker: the stage stays CANCELLED with the payloads
  // it had, and every later finish of that stage fails.
  lemma CancelWins(ss: seq<Stages>, events: seq<StageEvent>, i: nat, j: nat, id: Text)
    requires StageRun(ss, events) && i < j < |events|
    requires events[i].step.Cancel? && events[i].step.id == id && events[i].reply == Done
    ensures id in ss[i] && id in ss[j+1] && ss[j+1][id].status == CANCELLED
    ensures ss[j+1][id].result == ss[i][id].result && ss[j+1][id].partial == ss[i][id].partial
    ensures WritesResult(events[j].step, id) ==> events[j].reply != Done
  {
    assert Next(ss[i], events[i].step, ss[i+1], events[i].reply);
    StatusOnlyMovesUp(ss, events, i + 1, j, id);
    StatusOnlyMovesUp(ss, events, i + 1, j + 1, id);
    RowsMoveUp(ss[j], events[j].step, ss[j+1], events[j].reply, id);
  }

  // The legacy path takes no lease, so the next claim_next of any worker ends a started stage
  // as UNKNOWN, whatever it then claims, and a later legacy finish is refused for good.
  lemma ClaimEndsLegacyStage(ss: seq<Stages>, events: seq<StageEvent>, i: nat, j: nat, id: Text)
    requires StageRun(ss, events) && i < j < |events|
    requires id in ss[i] && ss[i][id].status == RUNNING && ss[i][id].expiresAt == None
    requires events[i].step.ClaimNext? && !events[i].reply.Raised?
    ensures id in ss[i+1] && ss[i+1][id].status == UNKNOWN
    ensures id in ss[j+1] && ss[j+1][id] == ss[i+1][id]
    ensures events[j].step.Finish? && events[j].step.id == id ==> events[j].reply.Raised?
  {
    assert Next(ss[i], events[i].step, ss[i+1], events[i].reply);
    StatusOnlyMovesUp(ss, events, i + 1, j, id);
    StatusOnlyMovesUp(ss, events, i + 1, j + 1, id);
    RowsMoveUp(ss[j], events[j].step, ss[j+1], events[j].reply, id);
    assert Next(ss[j], events[j].step, ss[j+1], events[j].reply);
  }

  // Lease columns are filled together, and only while RUNNING.
  predicate StageOk(s: Stage) {
    && (s.status != RUNNING ==> s.leaseId == [] && s.workerId == [] && s.expiresAt == None)
    && (s.leaseId == [] <==> s.workerId == []) && (s.leaseId == [] <==> s.expiresAt == None)
    && s.attempts <= s.maxAttempts
  }

  ghost predicate StagesValid(a: Stages) {
    && (forall id :: id in a ==> StageOk(a[id]))
    && (forall an, o :: |Siblings(a, an, o)| <= 32)
  }

  lemma SiblingsAfterCreate(a: Stages, id: Text, s: Stage, an: Text, o: Text)
    requires id !in a
    ensures Siblings(a[id := s], an, o) == Siblings(a, an, o) + (if s.analysis == an && s.owner == o then {id} else {})
  {
  }

  lemma SiblingsUnchanged(a: Stages, b: Stages, an: Text, o: Text)
    requires a.Keys == b.Keys && forall id :: id in a ==> a[id].analysis == b[id].analysis && a[id].owner == b[id].owner
    ensures Siblings(a, an, o) == Siblings(b, an, o)
  {
  }

  lemma RowStaysOk(a: Stages, s: StageStep, b: Stages, r: StageReply, id: Text)
    requires Next(a, s, b, r) && id in b && (id in a ==> StageOk(a[id]))
    ensures StageOk(b[id])
    ensures id in a ==> b[id].analysis == a[id].analysis && b[id].owner == a[id].owner
    ensures id !in a ==> s.Create? && r == Done
  {
  }

  lemma LimitKept(a: Stages, s: StageStep, b: Stages, r: StageReply, an: Text, o: Text)
    requires StagesValid(a) && Next(a, s, b, r)
    ensures |Siblings(b, an, o)| <= 32
  {
    if s.Create? {
      if r == Done {
        SiblingsAfterCreate(a, s.id, b[s.id], an, o);
      }
    } else {
      forall id | id in b ensures id in a && b[id].analysis == a[id].analysis && b[id].owner == a[id].owner {
        RowStaysOk(a, s, b, r, id);
      }
      forall id | id in a ensures id in b {
        RowsMoveUp(a, s, b, r, id);
      }
      SiblingsUnchanged(a, b, an, o);
    }
  }

  // Every transaction keeps the lease columns consistent and at most 32 stages per analysis
  // and owner.
  lemma StagesValidKept(a: Stages, s: StageStep, b: Stages, r: StageReply)
    requires StagesValid(a) && Next(a, s, b, r)
    ensures StagesValid(b)
  {
    forall id | id in b ensures StageOk(b[id]) {
      RowStaysOk(a, s, b, r, id);
    }
    forall an, o ensures |Siblings(b, an, o)| <= 32 {
      LimitKept(a, s, b, r, an, o);
    }
  }

  // ---- The repository as an object ---------------------------------------------------------

  class ResearchStageRepository {
    var rows: Stages

    constructor ()
      ensures rows == map[]
    {
      rows := map[];
    }

    method ClaimNextStage(worker: Text, ttl: int, lease: Text, stamp: int, expiryBase: int) returns (r: StageReply)
      requires lease != []
      modifies this
      ensures Next(old(rows), ClaimNext(worker, ttl, lease, stamp, expiryBase), rows, r)
    {
      if worker == [] {
        return Raised(WORKER_INVALID);
      }
      if !(1 <= ttl <= MAX_TTL) {
        return Raised(TTL_INVALID);
      }
      rows := map id | id in rows ::
        if rows[id].status == RUNNING && (rows[id].expiresAt.None? || rows[id].expiresAt.value <= stamp)
        then rows[id].(status := UNKNOWN, errorCode := "stage_lease_expired", leaseId := [], workerId := [],
                       expiresAt := None)
        else rows[id];
      assert rows == Sweep(old(rows), stamp);
      var chosen := SelectClaimable();
      if chosen.None? {
        return Nothing;
      }
      var id := chosen.value;
      ghost var swept := rows;
      rows := rows[id := rows[id].(status := RUNNING, attempts := rows[id].attempts + 1, leaseId := lease,
                                   workerId := worker, expiresAt := Some(expiryBase + ttl))];
      assert FirstClaimable(swept, id) && rows == swept[id := Take(swept[id], worker, lease, expiryBase + ttl)];
      return Claimed(StageClaim(id, rows[id].owner, lease, worker));
    }

    // SELECT ... ORDER BY created_at, stage_id LIMIT 1.
    method SelectClaimable() returns (found: Option<Text>)
      ensures found.Some? ==> FirstClaimable(rows, found.value)
      ensures found.None? ==> forall id :: id in rows ==> !Claimable(rows[id])
    {
      var rest := rows.Keys;
      found := None;
      while rest != {}
        invariant rest <= rows.Keys
        invariant found.Some? ==> found.value in rows && Claimable(rows[found.value])
        invariant forall u :: u in rows && u !in rest && Claimable(rows[u]) ==>
          found.Some? && (u == found.value || Earlier(rows, found.value, u))
        decreases rest
      {
        var u :| u in rest;
        rest := rest - {u};
        if Claimable(rows[u]) {
          if found.None? || Earlier(rows, u, found.value) {
            ghost var was := found;
            found := Some(u);
            forall v | v in rows && v !in rest && v != u && Claimable(rows[v]) ensures Earlier(rows, u, v) {
              if v != was.value && Less(u, was.value) && Less(was.value, v) {
                LessTransitive(u, was.value, v);
              }
            }
          } else {
            LessTotal(u, found.value);
          }
        }
      }
    }

    method FinishStageClaim(c: StageClaim, status: StageStatus, result: Payload, partial: Payload, code: string,
                            stamp: int)
      returns (r: StageReply)
      modifies this
      ensures Next(old(rows), FinishClaim(c, status, result, partial, code, stamp), rows, r)
    {
      if !Terminal(status) {
        return Raised(TERMINAL_REQUIRED);
      }
      if c.stage == [] || c.owner == [] || c.leaseId == [] || c.workerId == [] {
        return Raised(CLAIM_INVALID);
      }
      if c.stage !in rows || rows[c.stage].owner != c.owner {
        return Raised(NOT_FOUND);
      }
      var row := rows[c.stage];
      if result.bytes > row.maxOutput || partial.bytes > row.maxOutput {
        return Raised(TOO_LARGE);
      }
      if row.status != RUNNING || row.leaseId != c.leaseId || row.workerId != c.workerId
        || row.expiresAt.None? || row.expiresAt.value <= stamp {
        return Raised(LEASE_LOST);
      }
      rows := rows[c.stage := End(row, status).(result := result, partial := partial, errorCode := code)];
      return Done;
    }

    method MarkUnknownIfOwned(c: StageClaim, reason: string) returns (r: StageReply)
      modifies this
      ensures Next(old(rows), MarkUnknown(c, reason), rows, r)
    {
      if !WellFormed(c) || !Holds(rows, c) {
        return NotOwned;
      }
      rows := rows[c.stage := End(rows[c.stage], UNKNOWN).(errorCode := reason)];
      return Done;
    }

    method CancelStage(id: Text, owned: Option<Text>) returns (r: StageReply)
      modifies this
      ensures Next(old(rows), Cancel(id, owned), rows, r)
    {
      if id !in rows || (owned.Some? && rows[id].owner != owned.value) {
        return Raised(NOT_FOUND);
      }
      if Terminal(rows[id].status) {
        return Raised(NOT_CANCELLABLE);
      }
      rows := rows[id := End(rows[id], CANCELLED)];
      return Done;
    }

    method StartStage(id: Text, owned: Option<Text>) returns (r: StageReply)
      modifies this
      ensures Next(old(rows), Start(id, owned), rows, r)
    {
      if id !in rows || (owned.Some? && rows[id].owner != owned.value) {
        return Raised(NOT_FOUND);
      }
      if rows[id].status != QUEUED {
        return Raised(NOT_STARTABLE);
      }
      rows := rows[id := rows[id].(status := RUNNING)];
      return Done;
    }

    method FinishStage(id: Text, owned: Option<Text>, status: StageStatus, result: Payload, partial: Payload,
                       code: string)
      returns (r: StageReply)
      modifies this
      ensures Next(old(rows), Finish(id, owned, status, result, partial, code), rows, r)
    {
      if !Terminal(status) {
        return Raised(TERMINAL_REQUIRED);
      }
      if id !in rows || (owned.Some? && rows[id].owner != owned.value) {
        return Raised(NOT_FOUND);
      }
      var row := rows[id];
      if row.status != RUNNING {
        return Raised(NOT_RUNNING);
      }
      if result.bytes > row.maxOutput || partial.bytes > row.maxOutput {
        return Raised(TOO_LARGE);
      }
      if row.leaseId != [] || row.workerId != [] || row.expiresAt != None {
        return Raised(NOT_RUNNING);
      }
      rows := rows[id := End(row, status).(result := result, partial := partial, errorCode := code)];
      return Done;
    }
  }
}
