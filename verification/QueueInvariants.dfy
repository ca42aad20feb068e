// What every transaction of the queue keeps.
module QueueInvariants {
  import opened Wrappers
  import opened Text
  import opened TaskStates
  import opened Queue
  import opened QueueChanges

  // LEASED holds exactly when the lease columns are filled, and attempts are bounded.
  predicate RowOk(r: Row) {
    && (r.status == Q_LEASED ==> r.leaseId != [] && r.workerId != [] && r.expiresAt.Some? && r.attempts >= 1)
    && (r.status != Q_LEASED ==> NoLease(r))
    && r.attempts <= r.maxAttempts && r.maxAttempts >= 1
    && r.status != Q_RETRY_WAIT
  }

  ghost predicate RowsOk(db: Db) {
    forall t :: t in db.queue ==>
      RowOk(db.queue[t]) && t in db.states && (db.queue[t].status == Q_LEASED ==> db.queue[t].leaseId in db.issued)
  }

  ghost predicate LeasesDistinct(db: Db) {
    forall t, u :: t in db.queue && u in db.queue && t != u && db.queue[t].status == Q_LEASED
                   && db.queue[u].status == Q_LEASED
      ==> db.queue[t].leaseId != db.queue[u].leaseId
  }

  // Two checkpoints of one task, in log order: attempts never decrease, one attempt is one
  // lease, different attempts have different leases, and a closing entry ends its block.
  predicate Precedes(a: Writer, b: Writer) {
    a.Unfenced? ||
    (&& !b.Unfenced?
     && a.attempt <= b.attempt
     && (a.attempt == b.attempt <==> a.leaseId == b.leaseId)
     && (a.Closing? ==> a.attempt < b.attempt))
  }

  ghost predicate InBlocks(log: seq<Checkpoint>) {
    forall i, j :: 0 <= i < j < |log| && log[i].task == log[j].task ==> Precedes(log[i].writer, log[j].writer)
  }

  // How one checkpoint's writer relates to the current row of its task.
  ghost predicate TagOk(db: Db, e: Checkpoint) {
    !e.writer.Unfenced? ==>
      && e.task in db.queue
      && e.writer.leaseId in db.issued
      && e.writer.attempt <= db.queue[e.task].attempts
      && (db.queue[e.task].status == Q_LEASED ==>
            (e.writer.attempt == db.queue[e.task].attempts <==> e.writer.leaseId == db.queue[e.task].leaseId)
            && (e.writer.attempt == db.queue[e.task].attempts ==> e.writer.Leased?))
  }

  ghost predicate TagsOk(db: Db) {
    forall i :: 0 <= i < |db.log| ==> TagOk(db, db.log[i])
  }

  // The last checkpoint of a task, counted from the end of the log.
  function Latest(log: seq<Checkpoint>, task: Text): Option<Checkpoint> {
    if log == [] then None
    else if log[|log|-1].task == task then Some(log[|log|-1])
    else Latest(log[..|log|-1], task)
  }

  function Count(log: seq<Checkpoint>, task: Text): nat {
    if log == [] then 0
    else Count(log[..|log|-1], task) + if log[|log|-1].task == task then 1 else 0
  }

  // The state row is the last checkpoint's snapshot, and sequences count 1, 2, 3, ...
  ghost predicate StatesOk(db: Db) {
    && (forall t :: t in db.states <==> Latest(db.log, t).Some?)
    && (forall t :: t in db.states ==> db.states[t] == Latest(db.log, t).value.snapshot)
    && (forall i :: 0 <= i < |db.log| ==> db.log[i].sequence == Count(db.log[..i], db.log[i].task) + 1)
  }

  // The last record with the key, or -1.
  function LastIndex(records: seq<ActionRecord>, key: Text): (j: int)
    ensures -1 <= j < |records|
    ensures j >= 0 ==> records[j].key == key
    ensures forall h :: j < h < |records| ==> records[h].key != key
  {
    if records == [] then -1
    else if records[|records|-1].key == key then |records| - 1
    else LastIndex(records[..|records|-1], key)
  }

  // Checkpoint i holds the last record written under the key in the whole log.
  ghost predicate LastWrite(log: seq<Checkpoint>, i: int, key: Text) {
    && 0 <= i < |log|
    && LastIndex(log[i].snapshot.actions, key) >= 0
    && (forall h :: i < h < |log| ==> LastIndex(log[h].snapshot.actions, key) == -1)
  }

  ghost predicate Mentions(log: seq<Checkpoint>, key: Text) {
    exists i :: 0 <= i < |log| && LastIndex(log[i].snapshot.actions, key) >= 0
  }

  function WrittenBy(e: Checkpoint, key: Text): ActionRow
    requires LastIndex(e.snapshot.actions, key) >= 0
  {
    ActionRow(e.task, e.snapshot.actions[LastIndex(e.snapshot.actions, key)])
  }

  // The action rows are exactly the last writes of the checkpoint log.
  ghost predicate ActionsOk(db: Db) {
    && (forall k :: Mentions(db.log, k) ==> k in db.actions)
    && (forall k :: k in db.actions ==>
          exists i :: LastWrite(db.log, i, k) && db.actions[k] == WrittenBy(db.log[i], k))
  }

  ghost predicate Valid(db: Db) {
    RowsOk(db) && LeasesDistinct(db) && InBlocks(db.log) && TagsOk(db) && StatesOk(db) && ActionsOk(db)
  }

  lemma EmptyValid()
    ensures Valid(EMPTY)
  {
  }

  lemma RowsKept(a: Db, c: Change, b: Db)
    requires RowsOk(a) && Explains(a, c, b)
    ensures RowsOk(b)
  {
  }

  lemma LeasesKept(a: Db, c: Change, b: Db)
    requires RowsOk(a) && LeasesDistinct(a) && Explains(a, c, b)
    ensures LeasesDistinct(b)
  {
    forall t, u | t in b.queue && u in b.queue && t != u && b.queue[t].status == Q_LEASED
                  && b.queue[u].status == Q_LEASED
      ensures b.queue[t].leaseId != b.queue[u].leaseId
    {
      if c.task != t && c.task != u {
        assert b.queue[t] == a.queue[t] && b.queue[u] == a.queue[u];
      }
    }
  }

  lemma TagsKept(a: Db, c: Change, b: Db)
    requires RowsOk(a) && TagsOk(a) && Explains(a, c, b)
    ensures TagsOk(b)
  {
    forall i | 0 <= i < |b.log| ensures TagOk(b, b.log[i]) {
      if i < |a.log| {
        assert b.log[i] == a.log[i] && TagOk(a, a.log[i]);
      }
    }
  }

  lemma BlocksKept(a: Db, c: Change, b: Db)
    requires RowsOk(a) && TagsOk(a) && InBlocks(a.log) && Explains(a, c, b)
    ensures InBlocks(b.log)
  {
    if c.entry.Some? {
      forall i | 0 <= i < |a.log| && a.log[i].task == c.task
        ensures Precedes(a.log[i].writer, c.entry.value.writer)
      {
        assert TagOk(a, a.log[i]);
      }
    }
  }

  lemma {:induction false} MaxSequenceIsCount(log: seq<Checkpoint>, task: Text)
    requires forall i :: 0 <= i < |log| ==> log[i].sequence == Count(log[..i], log[i].task) + 1
    ensures MaxSequence(log, task) == Count(log, task)
  {
    if log != [] {
      var init := log[..|log|-1];
      forall i | 0 <= i < |init| ensures init[i].sequence == Count(init[..i], init[i].task) + 1 {
        assert init[..i] == log[..i];
      }
      MaxSequenceIsCount(init, task);
    }
  }

  lemma StatesKept(a: Db, c: Change, b: Db)
    requires StatesOk(a) && LogMoves(a, c, b)
    ensures StatesOk(b)
  {
    if c.entry.Some? {
      MaxSequenceIsCount(a.log, c.task);
      assert b.log[..|a.log|] == a.log;
      forall i | 0 <= i < |b.log| ensures b.log[i].sequence == Count(b.log[..i], b.log[i].task) + 1 {
        if i < |a.log| {
          assert b.log[..i] == a.log[..i] && b.log[i] == a.log[i];
        }
      }
    }
  }

  lemma {:induction false} UpsertLast(rows: map<Text, ActionRow>, task: Text, records: seq<ActionRecord>, k: Text)
    ensures var j := LastIndex(records, k);
      if j >= 0 then k in Upsert(rows, task, records) && Upsert(rows, task, records)[k] == ActionRow(task, records[j])
      else (k in Upsert(rows, task, records) <==> k in rows)
           && (k in rows ==> Upsert(rows, task, records)[k] == rows[k])
  {
    if records != [] {
      UpsertLast(rows, task, records[..|records|-1], k);
    }
  }

  lemma ActionKept(a: Db, task: Text, e: Checkpoint, b: Db, k: Text)
    requires ActionsOk(a) && e.task == task
    requires b.log == a.log + [e] && b.actions == Upsert(a.actions, task, e.snapshot.actions)
    requires k in b.actions || Mentions(b.log, k)
    ensures k in b.actions
    ensures exists i :: LastWrite(b.log, i, k) && b.actions[k] == WrittenBy(b.log[i], k)
  {
    UpsertLast(a.actions, task, e.snapshot.actions, k);
    if LastIndex(e.snapshot.actions, k) >= 0 {
      assert LastWrite(b.log, |a.log|, k);
    } else {
      if Mentions(b.log, k) {
        MentionedBefore(a.log, e, k);
      }
      var i :| LastWrite(a.log, i, k) && a.actions[k] == WrittenBy(a.log[i], k);
      StillLastWrite(a.log, e, i, k);
    }
  }

  lemma MentionedBefore(log: seq<Checkpoint>, e: Checkpoint, k: Text)
    requires LastIndex(e.snapshot.actions, k) < 0 && Mentions(log + [e], k)
    ensures Mentions(log, k)
  {
    var i :| 0 <= i < |log + [e]| && LastIndex((log + [e])[i].snapshot.actions, k) >= 0;
    assert log[i] == (log + [e])[i];
  }

  lemma StillLastWrite(log: seq<Checkpoint>, e: Checkpoint, i: int, k: Text)
    requires LastIndex(e.snapshot.actions, k) < 0 && LastWrite(log, i, k)
    ensures LastWrite(log + [e], i, k) && (log + [e])[i] == log[i]
  {}

  lemma ActionsKept(a: Db, c: Change, b: Db)
    requires ActionsOk(a) && LogMoves(a, c, b)
    ensures ActionsOk(b)
  {
    if c.entry.Some? {
      forall k | k in b.actions || Mentions(b.log, k)
        ensures k in b.actions
        ensures exists i :: LastWrite(b.log, i, k) && b.actions[k] == WrittenBy(b.log[i], k)
      {
        ActionKept(a, c.task, c.entry.value, b, k);
      }
    }
  }

  // Every transaction, with whatever clock readings, keeps the whole invariant.
  lemma ValidKept(a: Db, s: Step, o: Outcome)
    requires Valid(a) && Next(a, s, o)
    ensures Valid(o.db)
  {
    var c := Classify(a, s, o);
    RowsKept(a, c, o.db);
    LeasesKept(a, c, o.db);
    TagsKept(a, c, o.db);
    BlocksKept(a, c, o.db);
    StatesKept(a, c, o.db);
    ActionsKept(a, c, o.db);
  }
}
