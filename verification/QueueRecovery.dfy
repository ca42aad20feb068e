// Recovery of leases whose worker is gone: when it commits, what it leaves behind, and what
// happens to the queue when it cannot commit.
module QueueRecovery {
  import opened Wrappers
  import opened Text
  import opened TaskStates
  import opened Queue
  import opened QueueChanges
  import opened QueueInvariants
  import opened QueueRuns

  // The one persisted state recovery cannot handle: VERIFYING has no transition to
  // EXECUTION_UNKNOWN, so the checkpoint raises and the transaction rolls back.
  predicate Unrecoverable(db: Db, t: Text) {
    t in db.states && db.states[t].intact && db.states[t].status == VERIFYING
  }

  // The queue row and the persisted state tell the same story, and work that was neither
  // finished nor waiting is marked unknown in both.
  predicate Agrees(before: Db, after: Db, t: Text) {
    && t in before.states && t in after.states && t in after.queue
    && after.queue[t].status == QueueStatusFor(after.states[t].status)
    && (if Terminal(before.states[t].status) || before.states[t].status == WAITING_APPROVAL
        then after.states[t] == before.states[t]
        else after.states[t].status == EXECUTION_UNKNOWN
             && after.states[t] == before.states[t].(status := EXECUTION_UNKNOWN, recovery := after.states[t].recovery))
    && after.queue[t].leaseId == [] && after.queue[t].workerId == [] && after.queue[t].expiresAt == None
  }

  lemma ConcludeAgrees(db: Db, t: Text, v: Verdict)
    requires t in db.queue && t in db.states && db.states[t].intact
    requires v.write.Some? ==>
      && v.status == Q_EXECUTION_UNKNOWN
      && !Terminal(db.states[t].status) && db.states[t].status != WAITING_APPROVAL
      && v.write.value == db.states[t].(status := EXECUTION_UNKNOWN, recovery := v.write.value.recovery)
    requires v.write.None? ==>
      && v.status == QueueStatusFor(db.states[t].status)
      && (Terminal(db.states[t].status) || db.states[t].status == WAITING_APPROVAL)
    ensures Agrees(db, Conclude(db, t, v), t)
  {
  }

  // The transaction's own decision, for a task that has a state row.
  lemma ExpiredVerdict(db: Db, t: Text)
    requires t in db.queue && t in db.states
    ensures var o := ApplyExpired(db, t);
      && (o.reply.Recovered? <==> !Unrecoverable(db, t))
      && (Unrecoverable(db, t) ==> o == Outcome(db, Raised(InvalidTransition)))
      && (o.reply.Recovered? ==> o.reply.task == t && t in o.db.queue && o.reply.status == o.db.queue[t].status)
      && (o.reply.Recovered? && db.states[t].intact ==> Agrees(db, o.db, t))
      && (o.reply.Recovered? && !db.states[t].intact ==> o.db.queue[t].status == Q_BLOCKED && o.db.states == db.states)
  {
    var v := JudgeExpired(StateOf(db, t));
    if v.Some? && db.states[t].intact {
      ConcludeAgrees(db, t, v.value);
    }
  }

  // Recovery of the first expired lease commits exactly when its state is not VERIFYING.
  // When it does not, claim_next_task raises and changes nothing.
  lemma ExpiredLeaseRecovery(db: Db, t: Text, s: Step, o: Outcome)
    requires RowsOk(db) && s.ClaimNext? && s.worker != [] && s.ttl >= 1 && Next(db, s, o)
    requires FirstExpired(db.queue, t, s.stamp)
    ensures o.reply.Recovered? <==> !Unrecoverable(db, t)
    ensures Unrecoverable(db, t) ==> o == Outcome(db, Raised(InvalidTransition))
    ensures o.reply.Recovered? ==> o.reply.task == t && t in o.db.queue && o.reply.status == o.db.queue[t].status
    ensures o.reply.Recovered? && db.states[t].intact ==> Agrees(db, o.db, t)
    ensures o.reply.Recovered? && !db.states[t].intact ==> o.db.queue[t].status == Q_BLOCKED && o.db.states == db.states
  {
    ExpiredIsChosen(db, t, s, o);
    ExpiredVerdict(db, t);
  }

  lemma ExpiredIsChosen(db: Db, t: Text, s: Step, o: Outcome)
    requires s.ClaimNext? && s.worker != [] && s.ttl >= 1 && Next(db, s, o)
    requires FirstExpired(db.queue, t, s.stamp)
    ensures o == ApplyExpired(db, t)
  {
    assert t in db.queue && Expired(db.queue[t], s.stamp);
    var u :| FirstExpired(db.queue, u, s.stamp) && o == ApplyExpired(db, u);
    FirstExpiredIsUnique(db.queue, t, u, s.stamp);
  }

  lemma FirstExpiredIsUnique(queue: map<Text, Row>, t: Text, u: Text, stamp: int)
    requires FirstExpired(queue, t, stamp) && FirstExpired(queue, u, stamp)
    ensures t == u
  {
    if t != u {
      LessTransitive(t, u, t);
      LessIrreflexive(t);
    }
  }

  // The watchdog's and the worker's own fencing call: it needs ownership, not an unexpired
  // lease, and commits exactly when the state decodes and is not VERIFYING.
  lemma OwnedLeaseRecovery(db: Db, c: Claim, reason: string)
    requires RowsOk(db)
    ensures var o := ApplyMarkLost(db, c, reason);
      && (o.reply == Done <==> Holds(db.queue, c) && db.states[c.task].intact && !Unrecoverable(db, c.task))
      && (o.reply == Done ==> Agrees(db, o.db, c.task))
      && (o.reply != Done ==> o.db == db)
  {
    if Holds(db.queue, c) && db.states[c.task].intact {
      var v := JudgeLost(StateOf(db, c.task), reason);
      if v.Some? {
        ConcludeAgrees(db, c.task, v.value);
      }
    }
  }

  // The worker's failure path asks finish_task_claim to persist EXECUTION_UNKNOWN. Under a
  // held, unexpired lease over a decodable state that commits exactly when the status has an
  // edge to EXECUTION_UNKNOWN: VERIFYING has none although the worker counts it as started.
  lemma FailureClosesExactlyWithAnEdge(db: Db, c: Claim, code: string, message: string, now: int)
    requires Holds(db.queue, c) && db.queue[c.task].expiresAt.Some? && db.queue[c.task].expiresAt.value > now
    requires c.task in db.states && db.states[c.task].intact
    ensures var o := ApplyFinish(db, c, Q_EXECUTION_UNKNOWN, code, message, Some(EXECUTION_UNKNOWN), now);
      && (o.reply == Done <==>
          db.states[c.task].status in {CREATED, QUEUED, PLANNING, READY, EXECUTING, OBSERVING, EXECUTION_UNKNOWN})
      && (o.reply == Done ==>
          o.db.states[c.task].status == EXECUTION_UNKNOWN && o.db.queue[c.task].status == Q_EXECUTION_UNKNOWN)
      && (o.reply != Done ==> o == Outcome(db, Raised(InvalidTransition)))
  {
  }

  // Clock readings of one transaction, where it reads the clock.
  predicate ReadsAfter(s: Step, e: int) {
    match s
    case Save(_, _, _, _, now) => now >= e
    case ClaimNext(_, _, _, stamp, base) => stamp >= e && base >= e
    case Renew(_, _, stamp, base) => stamp >= e && base >= e
    case Finish(_, _, _, _, _, now) => now >= e
    case _ => true
  }

  // An expired lease over a VERIFYING state that comes before every other lease.
  ghost predicate Blocks(db: Db, t: Text, e: int) {
    && t in db.queue && db.queue[t].status == Q_LEASED && db.queue[t].expiresAt == Some(e)
    && Unrecoverable(db, t)
    && forall u :: u in db.queue && u != t && db.queue[u].status == Q_LEASED && db.queue[u].expiresAt.Some?
         ==> ExpiresBefore(db.queue, t, u)
  }

  lemma BlockedClaimRaises(db: Db, s: Step, o: Outcome, t: Text, e: int)
    requires Blocks(db, t, e) && Next(db, s, o) && ReadsAfter(s, e)
    requires s.ClaimNext? && s.worker != [] && s.ttl >= 1
    ensures o == Outcome(db, Raised(InvalidTransition))
  {
    assert FirstExpired(db.queue, t, s.stamp);
    ExpiredIsChosen(db, t, s, o);
  }

  // The transaction leaves the row and the state of t alone.
  predicate Untouched(a: Db, b: Db, t: Text) {
    && t in a.queue && t in b.queue && b.queue[t] == a.queue[t]
    && t in a.states && t in b.states && b.states[t] == a.states[t]
  }

  lemma BlockedFinishFails(db: Db, s: Step, o: Outcome, t: Text, e: int)
    requires Blocks(db, t, e) && Next(db, s, o) && ReadsAfter(s, e) && s.Finish?
    ensures Untouched(db, o.db, t)
  {
  }

  lemma BlockedFencingFails(db: Db, s: Step, o: Outcome, t: Text, e: int)
    requires Blocks(db, t, e) && Next(db, s, o) && s.MarkLost?
    ensures Untouched(db, o.db, t)
  {
  }

  lemma BlockedRowUntouched(db: Db, s: Step, o: Outcome, t: Text, e: int)
    requires Blocks(db, t, e) && Next(db, s, o) && ReadsAfter(s, e)
    ensures Untouched(db, o.db, t)
  {
    match s
    case ClaimNext(w, ttl, _, _, _) =>
      if w != [] && ttl >= 1 {
        BlockedClaimRaises(db, s, o, t, e);
      }
    case Finish(_, _, _, _, _, _) => BlockedFinishFails(db, s, o, t, e);
    case MarkLost(_, _) => BlockedFencingFails(db, s, o, t, e);
    case _ =>
  }

  lemma BlockageKept(db: Db, s: Step, o: Outcome, t: Text, e: int)
    requires Blocks(db, t, e) && Next(db, s, o) && ReadsAfter(s, e)
    ensures Blocks(o.db, t, e)
  {
    BlockedRowUntouched(db, s, o, t, e);
    var c := Classify(db, s, o);
    BlockageKeptBy(db, c, o.db, t, e);
  }

  lemma BlockageKeptBy(a: Db, c: Change, b: Db, t: Text, e: int)
    requires Blocks(a, t, e) && Explains(a, c, b)
    requires t in b.queue && b.queue[t] == a.queue[t] && t in b.states && b.states[t] == a.states[t]
    requires c.move.Taken? || c.move == Renewed ==>
               b.queue[c.task].expiresAt.Some? && b.queue[c.task].expiresAt.value > e
    ensures Blocks(b, t, e)
  {
  }

  // Head-of-line blocking: from such a state on, as long as clocks read at or after the
  // expiry, nothing ever moves that row, and every claim attempt of every worker raises.
  lemma VerifyingLeaseBlocksTheQueue(dbs: seq<Db>, events: seq<Event>, j: nat, t: Text, e: int)
    requires IsRun(dbs, events) && j < |dbs| && Blocks(dbs[0], t, e)
    requires forall i {:trigger events[i]} :: 0 <= i < |events| ==> ReadsAfter(events[i].step, e)
    ensures Blocks(dbs[j], t, e) && dbs[j].queue[t] == dbs[0].queue[t] && dbs[j].states[t] == dbs[0].states[t]
    ensures j < |events| && events[j].step.ClaimNext? && events[j].step.worker != [] && events[j].step.ttl >= 1 ==>
      events[j].reply == Raised(InvalidTransition) && dbs[j+1] == dbs[j]
  {
    BlockagePersists(dbs, events, j, t, e);
    if j < |events| && events[j].step.ClaimNext? && events[j].step.worker != [] && events[j].step.ttl >= 1 {
      BlockedClaimRaises(dbs[j], events[j].step, Outcome(dbs[j+1], events[j].reply), t, e);
    }
  }

  lemma {:induction false} BlockagePersists(dbs: seq<Db>, events: seq<Event>, j: nat, t: Text, e: int)
    requires IsRun(dbs, events) && j < |dbs| && Blocks(dbs[0], t, e)
    requires forall i {:trigger events[i]} :: 0 <= i < |events| ==> ReadsAfter(events[i].step, e)
    ensures Blocks(dbs[j], t, e) && dbs[j].queue[t] == dbs[0].queue[t] && dbs[j].states[t] == dbs[0].states[t]
  {
    if j > 0 {
      BlockagePersists(dbs, events, j - 1, t, e);
      BlockageStep(dbs, events, j - 1, t, e);
    }
  }

  lemma BlockageStep(dbs: seq<Db>, events: seq<Event>, i: nat, t: Text, e: int)
    requires IsRun(dbs, events) && i < |events| && Blocks(dbs[i], t, e) && ReadsAfter(events[i].step, e)
    ensures Blocks(dbs[i+1], t, e) && dbs[i+1].queue[t] == dbs[i].queue[t] && dbs[i+1].states[t] == dbs[i].states[t]
  {
    var s, o := events[i].step, Outcome(dbs[i+1], events[i].reply);
    BlockedRowUntouched(dbs[i], s, o, t, e);
    BlockageKept(dbs[i], s, o, t, e);
  }

  // Such a state is reached by an ordinary run: a task is created and claimed, its worker
  // saves a VERIFYING checkpoint under its lease and then stops.
  lemma BlockageIsReachable() returns (dbs: seq<Db>, events: seq<Event>, t: Text)
    ensures IsRun(dbs, events) && dbs[0] == EMPTY && |events| == 3
    ensures Blocks(dbs[3], t, 61)
  {
    t := [1];
    var db1, s0, r0 := BlockageCreate(t);
    var db2, s1, r1 := BlockageClaim(db1, t);
    var db3, s2, r2 := BlockageSave(db2, t);
    dbs := [EMPTY, db1, db2, db3];
    events := [Event(s0, r0), Event(s1, r1), Event(s2, r2)];
  }

  lemma BlockageCreate(t: Text) returns (db: Db, s: Step, r: Reply)
    ensures Next(EMPTY, s, Outcome(db, r))
    ensures db.queue.Keys == {t} == db.states.Keys && Runnable(db.queue[t], 1) && db.states[t] == CreateQueued(0)
    ensures db.issued == {}
  {
    s := Create(t, 3, 0, 0);
    var o := ApplyCreate(EMPTY, t, 3, 0, 0);
    db, r := o.db, o.reply;
  }

  lemma BlockageClaim(db: Db, t: Text) returns (db': Db, s: Step, r: Reply)
    requires db.queue.Keys == {t} == db.states.Keys && Runnable(db.queue[t], 1) && db.states[t] == CreateQueued(0)
    requires db.issued == {}
    ensures Next(db, s, Outcome(db', r))
    ensures db'.queue.Keys == {t} && Holds(db'.queue, Claim(t, [2], [3])) && db'.queue[t].expiresAt == Some(61)
  {
    s := ClaimNext([3], 60, [2], 1, 1);
    var o := ApplyTake(db, t, [3], 60, [2], 1);
    db', r := o.db, o.reply;
    assert FirstRunnable(db.queue, t, 1) && o == ApplyTake(db, t, [3], 60, [2], 1);
    assert !exists u :: u in db.queue && Expired(db.queue[u], 1);
  }

  lemma BlockageSave(db: Db, t: Text) returns (db': Db, s: Step, r: Reply)
    requires db.queue.Keys == {t} && Holds(db.queue, Claim(t, [2], [3])) && db.queue[t].expiresAt == Some(61)
    ensures Next(db, s, Outcome(db', r)) && Blocks(db', t, 61)
  {
    var snap := CreateQueued(0).(status := VERIFYING);
    s := Save(Some(Claim(t, [2], [3])), t, snap, "VERIFYING", 2);
    var o := ApplySave(db, s.caller, t, snap, "VERIFYING", 2);
    db', r := o.db, o.reply;
  }
}
