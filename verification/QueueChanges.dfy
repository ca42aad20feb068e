// Every transaction of the queue changes at most one row and appends at most one checkpoint.
// `Classify` proves this once for all steps; the invariants and the whole-run theorems
// then reason about the few kinds of change instead of about the transactions.
module QueueChanges {
  import opened Wrappers
  import opened Text
  import opened TaskStates
  import opened Queue

  datatype Move =
    | Same                    // the row, if any, keeps its value
    | Born                    // a new row in QUEUED
    | Taken(lease: Text)      // QUEUED to LEASED
    | Refused(lease: Text)    // QUEUED to a finished status: the state was not executable
    | Renewed                 // LEASED with a later expiry
    | Ended                   // LEASED to any other status but QUEUED
    | Requeued                // WAITING_APPROVAL to QUEUED

  datatype Change = Change(task: Text, move: Move, entry: Option<Checkpoint>)

  predicate NoLease(r: Row) {
    r.leaseId == [] && r.workerId == [] && r.expiresAt == None
  }

  predicate RowMoves(r: Row, m: Move, q: Row) {
    && q.maxAttempts == r.maxAttempts
    && match m
       case Same => q == r
       case Born => false
       case Taken(l) =>
         r.status in {Q_QUEUED, Q_RETRY_WAIT} && r.attempts < r.maxAttempts && q.status == Q_LEASED
         && q.attempts == r.attempts + 1 && q.leaseId == l != [] && q.workerId != [] && q.expiresAt.Some?
       case Refused(_) =>
         r.status in {Q_QUEUED, Q_RETRY_WAIT} && r.attempts < r.maxAttempts && Finished(q.status)
         && q.attempts == r.attempts + 1 && NoLease(q)
       case Renewed => r.status == Q_LEASED && r.expiresAt.Some? && q.expiresAt.Some?
                       && q == r.(expiresAt := q.expiresAt)
       case Ended =>
         r.status == Q_LEASED && q.attempts == r.attempts && NoLease(q)
         && (Finished(q.status) || q.status == Q_WAITING_APPROVAL)
       case Requeued =>
         r.status == Q_WAITING_APPROVAL && q.status == Q_QUEUED
         && q == r.(status := Q_QUEUED, availableAt := q.availableAt, errorCode := q.errorCode)
  }

  // The task's approvals were complete when it went back to the queue.
  predicate Justified(db: Db, task: Text) {
    && task in db.states && db.states[task].intact && db.states[task].status == WAITING_APPROVAL
    && db.states[task].approvals != map[]
    && AllApproved(db.approvals, task, db.states[task].approvals)
  }

  predicate LogMoves(a: Db, c: Change, b: Db) {
    if c.entry.None? then b.log == a.log && b.states == a.states && b.actions == a.actions
    else
      var e := c.entry.value;
      && e.task == c.task && e.sequence == MaxSequence(a.log, c.task) + 1
      && b.log == a.log + [e]
      && b.states == a.states[c.task := e.snapshot]
      && b.actions == Upsert(a.actions, c.task, e.snapshot.actions)
  }

  predicate WriterAllowed(a: Db, c: Change) {
    c.entry.Some? ==>
      match c.move
      case Same => c.entry.value.writer == WriterOf(a, c.task)
                   && (c.task in a.queue ==> a.queue[c.task].status == Q_LEASED)
      case Born => c.entry.value.writer == Unfenced
      case Ended => c.task in a.queue && c.entry.value.writer == CloserOf(a.queue[c.task])
      case _ => false
  }

  predicate NewRow(r: Row) {
    r.status == Q_QUEUED && r.attempts == 0 && r.maxAttempts >= 1 && NoLease(r)
  }

  predicate QueueMoves(a: Db, c: Change, b: Db) {
    match c.move
    case Same => b.queue == a.queue
    case Born => c.task !in a.queue && c.task in b.queue && NewRow(b.queue[c.task])
                 && b.queue == a.queue[c.task := b.queue[c.task]]
    case m => c.task in a.queue && c.task in b.queue && RowMoves(a.queue[c.task], m, b.queue[c.task])
              && b.queue == a.queue[c.task := b.queue[c.task]]
  }

  predicate LeaseMoves(a: Db, m: Move, b: Db) {
    match m
    case Taken(l) => l != [] && l !in a.issued && b.issued == a.issued + {l}
    case Refused(l) => l != [] && l !in a.issued && b.issued == a.issued + {l}
    case _ => b.issued == a.issued
  }

  ghost predicate Explains(a: Db, c: Change, b: Db) {
    && QueueMoves(a, c, b)
    && LogMoves(a, c, b)
    && WriterAllowed(a, c)
    && LeaseMoves(a, c.move, b)
    && (c.move == Born ==> c.entry.Some?)
    && (c.move == Requeued ==> Justified(a, c.task))
  }

  lemma Classify(a: Db, s: Step, o: Outcome) returns (c: Change)
    requires Next(a, s, o)
    ensures Explains(a, c, o.db)
    ensures c.move == Requeued ==> s.Requeue? && s.task == c.task && o.reply == Done
    ensures c.move.Taken? || c.move == Renewed ==>
      (s.ClaimNext? || s.Renew?) && s.ttl >= 1 && o.db.queue[c.task].expiresAt == Some(s.expiryBase + s.ttl)
  {
    if o.db.(approvals := a.approvals) == a {
      c := ClassifyIdle(a, o.db);
    } else {
      match s
      case Create(t, m, b, now) => c := ClassifyCreate(a, t, m, b, now, o);
      case Save(caller, t, snap, kind, now) => c := ClassifySave(a, caller, t, snap, kind, now, o);
      case ClaimNext(w, ttl, lease, stamp, base) => c := ClassifyClaim(a, w, ttl, lease, stamp, base, o);
      case Renew(cl, ttl, stamp, base) => c := ClassifyRenew(a, cl, ttl, stamp, base, o);
      case Finish(cl, qs, e, m, saveAs, now) => c := ClassifyFinish(a, cl, qs, e, m, saveAs, now, o);
      case MarkLost(cl, reason) => c := ClassifyLost(a, cl, reason, o);
      case Requeue(t, now) => c := ClassifyRequeue(a, t, now, o);
    }
  }

  lemma ClassifyIdle(a: Db, b: Db) returns (c: Change)
    requires b.(approvals := a.approvals) == a
    ensures Explains(a, c, b) && c.move == Same
  {
    c := Change([], Same, None);
  }

  lemma ClassifyCreate(a: Db, t: Text, m: int, body: int, now: int, o: Outcome) returns (c: Change)
    requires o == ApplyCreate(a, t, m, body, now) && !o.reply.Raised?
    ensures Explains(a, c, o.db) && c.move == Born
  {
    c := Change(t, Born, Some(o.db.log[|a.log|]));
  }

  lemma ClassifyRenew(a: Db, cl: Claim, ttl: int, stamp: int, base: int, o: Outcome) returns (c: Change)
    requires o == ApplyRenew(a, cl, ttl, stamp, base) && !o.reply.Raised?
    ensures Explains(a, c, o.db) && c == Change(cl.task, Renewed, None)
    ensures ttl >= 1 && o.db.queue[cl.task].expiresAt == Some(base + ttl)
  {
    c := Change(cl.task, Renewed, None);
  }

  lemma ClassifyRequeue(a: Db, t: Text, now: int, o: Outcome) returns (c: Change)
    requires o == ApplyRequeue(a, t, now) && o.db != a
    ensures Explains(a, c, o.db) && c == Change(t, Requeued, None) && o.reply == Done
  {
    c := Change(t, Requeued, None);
  }

  lemma ClassifySave(a: Db, caller: Option<Claim>, t: Text, snap: Snapshot, kind: string, now: int, o: Outcome)
    returns (c: Change)
    requires o == ApplySave(a, caller, t, snap, kind, now) && !o.reply.Raised?
    ensures Explains(a, c, o.db) && c.move == Same
  {
    c := Change(t, Same, Some(o.db.log[|a.log|]));
  }

  lemma ClassifyFinish(a: Db, cl: Claim, qs: QueueStatus, e: string, m: string, saveAs: Option<Status>, now: int,
                       o: Outcome)
    returns (c: Change)
    requires o == ApplyFinish(a, cl, qs, e, m, saveAs, now) && !o.reply.Raised?
    ensures Explains(a, c, o.db) && c.move == Ended
  {
    c := Change(cl.task, Ended, if |o.db.log| == |a.log| then None else Some(o.db.log[|a.log|]));
  }

  lemma ClassifyVerdict(a: Db, task: Text, v: Verdict, b: Db) returns (c: Change)
    requires task in a.queue && a.queue[task].status == Q_LEASED
    requires Finished(v.status) || v.status == Q_WAITING_APPROVAL
    requires b == Conclude(a, task, v)
    ensures Explains(a, c, b) && c.task == task && c.move == Ended && c.entry.Some? == v.write.Some?
  {
    c := Change(task, Ended, if v.write.None? then None else Some(b.log[|a.log|]));
  }

  lemma ClassifyLost(a: Db, cl: Claim, reason: string, o: Outcome) returns (c: Change)
    requires o == ApplyMarkLost(a, cl, reason) && o.db != a
    ensures Explains(a, c, o.db) && c.move == Ended
  {
    c := ClassifyVerdict(a, cl.task, JudgeLost(StateOf(a, cl.task), reason).value, o.db);
  }

  lemma ClassifyClaim(a: Db, w: Text, ttl: int, lease: Text, stamp: int, base: int, o: Outcome) returns (c: Change)
    requires lease != [] && lease !in a.issued
    requires ClaimNextAllows(a, w, ttl, lease, stamp, base, o)
    ensures Explains(a, c, o.db) && c.move != Requeued && c.move != Renewed
    ensures c.move.Taken? ==> ttl >= 1 && o.db.queue[c.task].expiresAt == Some(base + ttl)
  {
    if o.reply.Raised? || o.reply == Nothing {
      c := Change([], Same, None);
    } else if exists t :: t in a.queue && Expired(a.queue[t], stamp) {
      var t :| FirstExpired(a.queue, t, stamp) && o == ApplyExpired(a, t);
      c := ClassifyVerdict(a, t, JudgeExpired(StateOf(a, t)).value, o.db);
    } else {
      var t :| FirstRunnable(a.queue, t, stamp) && o == ApplyTake(a, t, w, ttl, lease, base);
      c := ClassifyTake(a, t, w, ttl, lease, stamp, base, o);
    }
  }

  lemma ClassifyTake(a: Db, t: Text, w: Text, ttl: int, lease: Text, stamp: int, base: int, o: Outcome)
    returns (c: Change)
    requires lease != [] && lease !in a.issued && w != []
    requires t in a.queue && Runnable(a.queue[t], stamp)
    requires o == ApplyTake(a, t, w, ttl, lease, base) && !o.reply.Raised?
    ensures Explains(a, c, o.db) && c.task == t && c.entry == None
    ensures c.move == if o.reply.Claimed? then Taken(lease) else Refused(lease)
    ensures c.move.Taken? ==> o.db.queue[t].expiresAt == Some(base + ttl)
  {
    c := Change(t, if o.reply.Claimed? then Taken(lease) else Refused(lease), None);
    if !o.reply.Claimed? {
      var leased := a.queue[t].(status := Q_LEASED, attempts := a.queue[t].attempts + 1, leaseId := lease,
                                workerId := w, expiresAt := Some(base + ttl));
      assert o.db.queue[t] == Close(leased, o.db.queue[t].status, o.db.queue[t].errorCode);
      assert o.db.queue == a.queue[t := o.db.queue[t]];
    }
  }
}
