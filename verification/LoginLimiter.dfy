// AuthManager._record_login_attempt_or_raise: a sliding window over the stored events. The
// cutoff comes from a clock read before the lock is taken, the stored stamp from one inside.
module LoginLimiter {
  import opened Text

  // Rejected is LOGIN_RATE_LIMITED; Other stands for every other event type.
  datatype Kind = Attempt | Rejected | Other

  datatype Event = Event(kind: Kind, at: int, remote: Text)

  datatype Policy = Policy(limit: nat, window: nat)

  predicate InWindow(e: Event, remote: Text, from: int, to: int) {
    e.kind == Attempt && e.remote == remote && from <= e.at <= to
  }

  // Recorded attempts of a remote key in a closed window.
  function CountIn(log: seq<Event>, remote: Text, from: int, to: int): nat {
    if log == [] then 0
    else
      var n := |log| - 1;
      CountIn(log[..n], remote, from, to) + if InWindow(log[n], remote, from, to) then 1 else 0
  }

  // The SELECT COUNT(*): no upper bound on the stamp.
  function CountSince(log: seq<Event>, remote: Text, cutoff: int): nat {
    if log == [] then 0
    else
      var n := |log| - 1;
      CountSince(log[..n], remote, cutoff)
      + if log[n].kind == Attempt && log[n].remote == remote && cutoff <= log[n].at then 1 else 0
  }

  datatype Step =
    | Login(reading: int, stamp: int, remote: Text)
    | Insert(event: Event)

  function Apply(p: Policy, log: seq<Event>, s: Step): seq<Event> {
    match s
    case Login(reading, stamp, remote) =>
      if CountSince(log, remote, reading - p.window) >= p.limit then log else log + [Event(Attempt, stamp, remote)]
    case Insert(e) => log + [e]
  }

  function Run(p: Policy, steps: seq<Step>): seq<Event> {
    if steps == [] then [] else Apply(p, Run(p, steps[..|steps| - 1]), steps[|steps| - 1])
  }

  // Only logins write attempts and rejections, and each login reads the clock for its cutoff
  // no later than for its stamp. Nothing is assumed between different logins.
  ghost predicate Orderly(steps: seq<Step>) {
    forall i {:trigger steps[i]} :: 0 <= i < |steps| ==>
      match steps[i]
      case Login(reading, stamp, _) => reading <= stamp
      case Insert(e) => e.kind == Other
  }

  class AuthManager {
    const policy: Policy
    var events: seq<Event>

    constructor (policy: Policy)
      ensures this.policy == policy && events == []
    {
      this.policy := policy;
      events := [];
    }

    // The rejection event is inserted in the transaction the raise rolls back.
    method RecordLoginAttemptOrRaise(reading: int, stamp: int, remote: Text) returns (raised: bool)
      modifies this
      ensures events == Apply(policy, old(events), Login(reading, stamp, remote))
      ensures raised <==> events == old(events)
    {
      var before := events;
      var count := CountSince(events, remote, reading - policy.window);
      if count >= policy.limit {
        events := events + [Event(Rejected, stamp, remote)];
        events := before;
        return true;
      }
      events := events + [Event(Attempt, stamp, remote)];
      return false;
    }
  }

  lemma {:induction false} WindowWithinSince(log: seq<Event>, remote: Text, from: int, to: int, cutoff: int)
    requires cutoff <= from
    ensures CountIn(log, remote, from, to) <= CountSince(log, remote, cutoff)
  {
    if log != [] {
      WindowWithinSince(log[..|log| - 1], remote, from, to, cutoff);
    }
  }

  // No closed window of the configured length ever holds more than the limit.
  lemma {:induction false} WindowIsBounded(p: Policy, steps: seq<Step>, remote: Text, from: int)
    requires Orderly(steps)
    ensures CountIn(Run(p, steps), remote, from, from + p.window) <= p.limit
  {
    if steps != [] {
      var n := |steps| - 1;
      var log := Run(p, steps[..n]);
      WindowIsBounded(p, steps[..n], remote, from);
      var next := Apply(p, log, steps[n]);
      if next != log {
        assert next[..|log|] == log;
        if InWindow(next[|log|], remote, from, from + p.window) {
          assert steps[n].Login?;
          WindowWithinSince(log, remote, from, from + p.window, steps[n].reading - p.window);
        }
      }
    }
  }

  // A rejection leaves no trace: no LOGIN_RATE_LIMITED event is ever stored.
  lemma {:induction false} RejectionsAreNotRecorded(p: Policy, steps: seq<Step>)
    requires Orderly(steps)
    ensures forall i :: 0 <= i < |Run(p, steps)| ==> Run(p, steps)[i].kind != Rejected
  {
    if steps != [] {
      var n := |steps| - 1;
      RejectionsAreNotRecorded(p, steps[..n]);
      assert steps[n].Insert? ==> steps[n].event.kind == Other;
    }
  }

  // The limit is used in full: below it within the last window, an attempt is recorded.
  lemma {:induction false} QuietRemoteIsAdmitted(p: Policy, steps: seq<Step>, reading: int, stamp: int, remote: Text)
    requires forall i {:trigger steps[i]} :: 0 <= i < |steps| && steps[i].Login? ==> steps[i].stamp <= reading
    requires Orderly(steps) && CountIn(Run(p, steps), remote, reading - p.window, reading) < p.limit
    ensures Run(p, steps + [Login(reading, stamp, remote)]) == Run(p, steps) + [Event(Attempt, stamp, remote)]
  {
    StampsBounded(p, steps, reading);
    SinceWithinWindow(Run(p, steps), remote, reading - p.window, reading);
    assert (steps + [Login(reading, stamp, remote)])[..|steps|] == steps;
  }

  lemma {:induction false} StampsBounded(p: Policy, steps: seq<Step>, bound: int)
    requires Orderly(steps)
    requires forall i {:trigger steps[i]} :: 0 <= i < |steps| && steps[i].Login? ==> steps[i].stamp <= bound
    ensures forall i :: 0 <= i < |Run(p, steps)| && Run(p, steps)[i].kind == Attempt ==> Run(p, steps)[i].at <= bound
  {
    if steps != [] {
      var n := |steps| - 1;
      StampsBounded(p, steps[..n], bound);
      assert steps[n].Insert? ==> steps[n].event.kind == Other;
    }
  }

  lemma {:induction false} SinceWithinWindow(log: seq<Event>, remote: Text, from: int, to: int)
    requires forall i :: 0 <= i < |log| && log[i].kind == Attempt ==> log[i].at <= to
    ensures CountSince(log, remote, from) == CountIn(log, remote, from, to)
  {
    if log != [] {
      SinceWithinWindow(log[..|log| - 1], remote, from, to);
    }
  }

  lemma RunStep(p: Policy, steps: seq<Step>, s: Step)
    ensures Run(p, steps + [s]) == Apply(p, Run(p, steps), s)
  {
    assert (steps + [s])[..|steps|] == steps;
  }

  lemma CountStep(log: seq<Event>, e: Event, remote: Text, from: int, to: int)
    ensures CountIn(log + [e], remote, from, to) ==
              CountIn(log, remote, from, to) + if InWindow(e, remote, from, to) then 1 else 0
    ensures CountSince(log + [e], remote, from)
         == CountSince(log, remote, from) + if e.kind == Attempt && e.remote == remote && from <= e.at then 1 else 0
  {
    assert (log + [e])[..|log|] == log;
  }

  // k attempts at the same instant, each with its cutoff read at that instant.
  function Burst(t: int, remote: Text, k: nat): seq<Step> {
    seq(k, _ => Login(t, t, remote))
  }

  function Attempts(t: int, remote: Text, k: nat): seq<Event> {
    seq(k, _ => Event(Attempt, t, remote))
  }

  lemma OneMore(t: int, remote: Text, k: nat)
    ensures Burst(t, remote, k + 1) == Burst(t, remote, k) + [Login(t, t, remote)]
    ensures Attempts(t, remote, k + 1) == Attempts(t, remote, k) + [Event(Attempt, t, remote)]
  {}

  lemma {:induction false} AttemptsCount(t: int, remote: Text, k: nat, from: int, to: int)
    ensures CountIn(Attempts(t, remote, k), remote, from, to) == if from <= t <= to then k else 0
    ensures CountSince(Attempts(t, remote, k), remote, from) == if from <= t then k else 0
  {
    if k > 0 {
      AttemptsCount(t, remote, k - 1, from, to);
      OneMore(t, remote, k - 1);
      CountStep(Attempts(t, remote, k - 1), Event(Attempt, t, remote), remote, from, to);
    }
  }

  lemma Admitted(p: Policy, steps: seq<Step>, log: seq<Event>, reading: int, stamp: int, remote: Text)
    requires Run(p, steps) == log && CountSince(log, remote, reading - p.window) < p.limit
    ensures Run(p, steps + [Login(reading, stamp, remote)]) == log + [Event(Attempt, stamp, remote)]
  {
    RunStep(p, steps, Login(reading, stamp, remote));
  }

  lemma BelowLimit(p: Policy, t: int, remote: Text, k: nat)
    requires k < p.limit
    ensures CountSince(Attempts(t, remote, k), remote, t - p.window) < p.limit
  {
    AttemptsCount(t, remote, k, t - p.window, t);
  }

  lemma {:induction false} BurstFills(p: Policy, t: int, remote: Text, k: nat)
    requires k <= p.limit
    ensures Run(p, Burst(t, remote, k)) == Attempts(t, remote, k)
  {
    if k > 0 {
      BurstFills(p, t, remote, k - 1);
      BelowLimit(p, t, remote, k - 1);
      OneMore(t, remote, k - 1);
      Admitted(p, Burst(t, remote, k - 1), Attempts(t, remote, k - 1), t, t, remote);
    }
  }

  // After this run, this login breaks the limit of the window that opens at from.
  ghost predicate Exceeds(p: Policy, steps: seq<Step>, login: Step, from: int)
    requires login.Login?
  {
    Orderly(steps) && CountIn(Run(p, steps + [login]), login.remote, from, from + p.window) > p.limit
  }

  ghost predicate CanExceed(p: Policy, login: Step)
    requires login.Login?
  {
    exists steps, from :: Exceeds(p, steps, login, from)
  }

  // A full window just old enough for the late cutoff to miss it.
  lemma SteppingBackExceeds(p: Policy, login: Step)
    requires login.Login? && login.stamp < login.reading && p.limit > 0
    ensures CanExceed(p, login)
  {
    var t, remote := login.stamp - p.window, login.remote;
    var steps, log := Burst(t, remote, p.limit), Attempts(t, remote, p.limit);
    assert Orderly(steps);
    BurstFills(p, t, remote, p.limit);
    AttemptsCount(t, remote, p.limit, login.reading - p.window, login.stamp);
    Admitted(p, steps, log, login.reading, login.stamp, remote);
    AttemptsCount(t, remote, p.limit, t, t + p.window);
    CountStep(log, Event(Attempt, login.stamp, remote), remote, t, t + p.window);
    assert Exceeds(p, steps, login, t);
  }

  lemma OrderlyLoginKeepsTheLimit(p: Policy, steps: seq<Step>, login: Step, from: int)
    requires login.Login? && (login.reading <= login.stamp || p.limit == 0)
    ensures !Exceeds(p, steps, login, from)
  {
    if Orderly(steps) {
      if login.reading <= login.stamp {
        WindowIsBounded(p, steps + [login], login.remote, from);
      } else {
        RunStep(p, steps, login);
        WindowIsBounded(p, steps, login.remote, from);
      }
    }
  }

  // A login can break the limit of a window, after some orderly run, exactly when its clock
  // steps back between the two readings.
  lemma LimitBreaksExactlyWhenTheClockStepsBack(p: Policy, reading: int, stamp: int, remote: Text)
    ensures CanExceed(p, Login(reading, stamp, remote)) <==> stamp < reading && p.limit > 0
  {
    var login := Login(reading, stamp, remote);
    if stamp < reading && p.limit > 0 {
      SteppingBackExceeds(p, login);
    } else {
      forall steps, from ensures !Exceeds(p, steps, login, from) {
        OrderlyLoginKeepsTheLimit(p, steps, login, from);
      }
    }
  }
}
