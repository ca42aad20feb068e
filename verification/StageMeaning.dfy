// What the transactions on research stages do, said on the rows, and what a finished stage
// holds in every later state.
module StageMeaning {
  import opened Wrappers
  import opened Text
  import opened ResearchStages

  // The row is running under this very claim, and its lease has not run out.
  predicate RunsUnder(a: Stages, c: StageClaim, stamp: int) {
    && c.stage in a && a[c.stage].status == RUNNING && a[c.stage].owner == c.owner
    && a[c.stage].leaseId == c.leaseId && a[c.stage].workerId == c.workerId
    && a[c.stage].expiresAt.Some? && stamp < a[c.stage].expiresAt.value
  }

  predicate InBudget(s: Stage, result: Payload, partial: Payload) {
    result.bytes <= s.maxOutput && partial.bytes <= s.maxOutput
  }

  // The stage ended in this status with these payloads, and nothing else of it changed.
  predicate EndedWith(x: Stage, y: Stage, status: StageStatus, result: Payload, partial: Payload, code: string) {
    && y.status == status && y.result == result && y.partial == partial && y.errorCode == code
    && y.leaseId == [] && y.workerId == [] && y.expiresAt == None
    && y.analysis == x.analysis && y.owner == x.owner && y.maxOutput == x.maxOutput
    && y.createdAt == x.createdAt && y.attempts == x.attempts && y.maxAttempts == x.maxAttempts
  }

  predicate OnlyStage(a: Stages, b: Stages, id: Text) { id in a && id in b && b == a[id := b[id]] }

  predicate Ends(s: StageStatus) {
    s == COMPLETED || s == PARTIAL || s == FAILED || s == CANCELLED || s == UNKNOWN || s == UNAVAILABLE
  }

  // finish_claim commits exactly for a final status, a whole claim that runs the stage under an
  // unexpired lease, and payloads within the stage's budget. It then writes the result to the
  // result and the partial result to the partial result. Otherwise nothing changes.
  lemma FinishClaimExactly(a: Stages, c: StageClaim, status: StageStatus, result: Payload, partial: Payload,
                           code: string, stamp: int)
    ensures var (b, r) := ApplyFinishClaim(a, c, status, result, partial, code, stamp);
      var whole := c.stage != [] && c.owner != [] && c.leaseId != [] && c.workerId != [];
      && (r == Done <==>
            Ends(status) && whole && RunsUnder(a, c, stamp) && InBudget(a[c.stage], result, partial))
      && (r == Done ==> OnlyStage(a, b, c.stage) && EndedWith(a[c.stage], b[c.stage], status, result, partial, code))
      && (r != Done ==> r.Raised? && b == a)
      && (r == Raised(LEASE_LOST) <==>
            && Ends(status) && whole && c.stage in a && a[c.stage].owner == c.owner
            && InBudget(a[c.stage], result, partial) && !RunsUnder(a, c, stamp))
      && (r == Raised(NOT_FOUND) <==> Ends(status) && whole && (c.stage !in a || a[c.stage].owner != c.owner))
  {}

  // The legacy finish needs a stage that is running without a lease.
  lemma LegacyFinishExactly(a: Stages, id: Text, owned: Option<Text>, status: StageStatus, result: Payload,
                            partial: Payload, code: string)
    ensures var (b, r) := ApplyFinish(a, id, owned, status, result, partial, code);
      && (r == Done <==>
            && Ends(status) && id in a && (owned.Some? ==> a[id].owner == owned.value) && a[id].status == RUNNING
            && a[id].leaseId == [] && a[id].workerId == [] && a[id].expiresAt == None
            && InBudget(a[id], result, partial))
      && (r == Done ==> OnlyStage(a, b, id) && EndedWith(a[id], b[id], status, result, partial, code))
      && (r != Done ==> r.Raised? && b == a)
  {}

  // Marking unknown, cancelling and starting keep the payloads; who may do them, and when.
  lemma UnknownExactly(a: Stages, c: StageClaim, reason: string)
    ensures var (b, r) := ApplyMarkUnknown(a, c, reason);
      && (r == Done <==>
            && c.stage != [] && c.owner != [] && c.leaseId != [] && c.workerId != [] && c.stage in a
            && a[c.stage].status == RUNNING && a[c.stage].owner == c.owner
            && a[c.stage].leaseId == c.leaseId && a[c.stage].workerId == c.workerId)
      && (r == Done ==>
            && OnlyStage(a, b, c.stage)
            && EndedWith(a[c.stage], b[c.stage], UNKNOWN, a[c.stage].result, a[c.stage].partial, reason))
      && (r != Done ==> r == NotOwned && b == a)
  {}

  lemma CancelExactly(a: Stages, id: Text, owned: Option<Text>)
    ensures var (b, r) := ApplyCancel(a, id, owned);
      && (r == Done <==>
            id in a && (owned.Some? ==> a[id].owner == owned.value)
                && (a[id].status == QUEUED || a[id].status == RUNNING))
      && (r == Done ==>
            && OnlyStage(a, b, id)
            && EndedWith(a[id], b[id], CANCELLED, a[id].result, a[id].partial, a[id].errorCode))
      && (r != Done ==> r.Raised? && b == a)
  {}

  lemma StartExactly(a: Stages, id: Text, owned: Option<Text>)
    ensures var (b, r) := ApplyStart(a, id, owned);
      && (r == Done <==> id in a && (owned.Some? ==> a[id].owner == owned.value) && a[id].status == QUEUED)
      && (r == Done ==> OnlyStage(a, b, id) && b[id].status == RUNNING && b[id].(status := QUEUED) == a[id])
      && (r != Done ==> r.Raised? && b == a)
  {}

  // claim_next ends every stage that runs without a lease or past it, touches no other, and
  // takes the first queued stage by creation time and id under the new lease.
  lemma ClaimExactly(a: Stages, s: StageStep, b: Stages, r: StageReply, id: Text)
    requires s.ClaimNext? && Next(a, s, b, r) && !r.Raised? && id in a
    ensures id in b
    ensures var overdue := a[id].status == RUNNING && (a[id].expiresAt == None || a[id].expiresAt.value <= s.stamp);
      && (overdue ==> EndedWith(a[id], b[id], UNKNOWN, a[id].result, a[id].partial, "stage_lease_expired"))
      && (!overdue && r != Claimed(StageClaim(id, a[id].owner, s.lease, s.worker)) ==> b[id] == a[id])
    ensures r.Claimed? ==>
      && r.claim.leaseId == s.lease && r.claim.workerId == s.worker && r.claim.stage in a && r.claim.stage in b
      && var x, y := a[r.claim.stage], b[r.claim.stage];
      && x.status == QUEUED && x.attempts < x.maxAttempts && y.status == RUNNING && y.attempts == x.attempts + 1
      && RunsUnder(b, r.claim, s.expiryBase + s.ttl - 1) && y.expiresAt == Some(s.expiryBase + s.ttl)
      && y.result == x.result && y.partial == x.partial
      && (a[id].status == QUEUED && a[id].attempts < a[id].maxAttempts && id != r.claim.stage ==>
            x.createdAt <= a[id].createdAt && (x.createdAt == a[id].createdAt ==> Less(r.claim.stage, id)))
    ensures r == Nothing ==> a[id].status == QUEUED ==> a[id].attempts >= a[id].maxAttempts
  {
    if r == Nothing {
      assert id in Sweep(a, s.stamp) && !Claimable(Sweep(a, s.stamp)[id]);
    }
  }

  // What the worker delivered under its lease is what every later state shows.
  lemma FinishedStageKeepsItsPayloads(ss: seq<Stages>, events: seq<StageEvent>, i: nat, j: nat)
    requires StageRun(ss, events) && i < j < |ss|
    requires events[i].step.FinishClaim? && events[i].reply == Done
    ensures var s := events[i].step;
      && s.claim.stage in ss[i] && RunsUnder(ss[i], s.claim, s.stamp)
      && s.claim.stage in ss[j] && Ends(ss[j][s.claim.stage].status)
      && EndedWith(ss[i][s.claim.stage], ss[j][s.claim.stage], s.status, s.result, s.partial, s.code)
  {
    var s := events[i].step;
    assert Next(ss[i], s, ss[i+1], events[i].reply);
    FinishClaimExactly(ss[i], s.claim, s.status, s.result, s.partial, s.code, s.stamp);
    StatusOnlyMovesUp(ss, events, i + 1, j, s.claim.stage);
  }

  // A claim that no longer runs its stage, for whatever reason, never finishes it.
  lemma LostStageClaimNeverFinishes(ss: seq<Stages>, events: seq<StageEvent>, i: nat, j: nat, c: StageClaim)
    requires StageRun(ss, events) && i <= j < |events| && c.stage in ss[i] && Ends(ss[i][c.stage].status)
    requires events[j].step.FinishClaim? && events[j].step.claim.stage == c.stage
    ensures events[j].reply.Raised? && ss[j+1] == ss[j]
  {
    var s := events[j].step;
    StatusOnlyMovesUp(ss, events, i, j, c.stage);
    assert Next(ss[j], s, ss[j+1], events[j].reply);
    FinishClaimExactly(ss[j], s.claim, s.status, s.result, s.partial, s.code, s.stamp);
  }
}
