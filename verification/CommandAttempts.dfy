/** One command's attempts, inside the lock (`CommandManager.send_command`). */
module CommandAttempts {
  import opened Common
  import opened CommandRuns

  /** What the preflight says before an attempt; it may also raise. */
  datatype Preflight = Passes | Refuses | Raises

  /** How one attempt ended: a transient failure is worth another, and the others are not.  While the
      integration shuts down an attempt is answered without a request. */
  datatype Answer = Accepted | ShutDown | Unauthorized | Transient | Permanent | Unexpected

  /** How the command ended: before an attempt, or with the last one's answer. */
  datatype Ending = Vetoed | Broken | Answered(answer: Answer)

  datatype Result = Sent | NotSent | AuthFailed

  function ResultOf(ending: Ending): Result {
    if ending == Answered(Accepted) then Sent
    else if ending == Answered(Unauthorized) then AuthFailed
    else NotSent
  }

  /** Consecutive failures afterwards: a veto and a shutdown are none, for nothing went wrong. */
  function FailuresAfter(failures: nat, ending: Ending): nat {
    if ending == Answered(Accepted) then 0
    else if ending == Vetoed || ending == Answered(ShutDown) then failures
    else failures + 1
  }

  function Allowed(retry: bool): nat {
    1 + if retry then RETRIES else 0
  }

  /** The first attempts passed their preflights, and each failed in a way worth retrying. */
  ghost predicate Retried(passes: seq<Preflight>, answers: seq<Answer>, attempts: nat) {
    && attempts <= |passes| == |answers|
    && forall i :: 0 <= i < attempts ==> passes[i] == Passes && answers[i] == Transient
  }

  /** How the command ends after that many attempts. */
  ghost predicate Ends(passes: seq<Preflight>, answers: seq<Answer>, attempts: nat, ending: Ending)
    requires |passes| == |answers|
  {
    match ending
    case Vetoed => attempts < |passes| && Retried(passes, answers, attempts) && passes[attempts] == Refuses
    case Broken => attempts < |passes| && Retried(passes, answers, attempts) && passes[attempts] == Raises
    case Answered(answer) =>
      && 0 < attempts <= |passes| && Retried(passes, answers, attempts - 1)
      && passes[attempts - 1] == Passes && answers[attempts - 1] == answer
      && (answer == Transient ==> attempts == |passes|)
  }

  /** It ends in one way only: at the first attempt that its preflight stops, that is answered for good,
      or that is the last allowed. */
  lemma EndsOneWay(passes: seq<Preflight>, answers: seq<Answer>, p: nat, e: Ending, q: nat, f: Ending)
    requires |passes| == |answers|
    requires Ends(passes, answers, p, e) && Ends(passes, answers, q, f)
    ensures p == q && e == f
  {
  }

  class CommandManager {
    var consecutiveFailures: nat
    var lastCommandTime: Option<real>

    constructor ()
      ensures consecutiveFailures == 0 && lastCommandTime == None
    {
      consecutiveFailures, lastCommandTime := 0, None;
    }

    /** How long a command still has to wait once it owns the lock: what a new owner waits in every run. */
    method Spacing(now: real) returns (wait: real)
      ensures wait == Pause(lastCommandTime, now) && 0.0 <= wait <= SPACING
      ensures lastCommandTime.Some? && lastCommandTime.value <= now ==> now + wait >= lastCommandTime.value + SPACING
      ensures forall s: System :: s.last == lastCommandTime && s.now == now ==>
        Enter(s) == if wait > 0.0 then CommandRuns.Spacing(now + wait) else Ready(0)
    {
      wait := 0.0;
      if lastCommandTime.Some? {
        var sinceLast := now - lastCommandTime.value;
        if sinceLast < 1.0 {
          wait := Max(0.0, Min(1.0, 1.0 - sinceLast));
        }
      }
    }

    /** The attempts themselves.  `passes` and `answers` are what the preflight and the charger would say
        to each, and `now` the clock when the command leaves.  Only a command that came as far as an
        attempt paces the next one, and a shutdown keeps its attempt off the wire. */
    method Attempt(retry: bool, passes: seq<Preflight>, answers: seq<Answer>, now: real)
      returns (result: Result, attempts: nat, posts: nat, ending: Ending)
      requires |passes| == |answers| == Allowed(retry)
      modifies this
      ensures Ends(passes, answers, attempts, ending) && result == ResultOf(ending)
      ensures posts == if ending == Answered(ShutDown) then attempts - 1 else attempts
      ensures lastCommandTime == if attempts > 0 then Some(now) else old(lastCommandTime)
      ensures consecutiveFailures == FailuresAfter(old(consecutiveFailures), ending)
    {
      attempts, posts := 0, 0;
      while attempts < Allowed(retry)
        invariant attempts == posts < Allowed(retry)
        invariant Retried(passes, answers, attempts)
        invariant consecutiveFailures == old(consecutiveFailures)
        invariant lastCommandTime == if attempts > 0 then Some(now) else old(lastCommandTime)
        decreases Allowed(retry) - attempts
      {
        if passes[attempts] == Refuses {
          return NotSent, attempts, posts, Vetoed;
        }
        if passes[attempts] == Raises {
          consecutiveFailures := consecutiveFailures + 1;
          return NotSent, attempts, posts, Broken;
        }
        lastCommandTime := Some(now);
        var answer := answers[attempts];
        attempts, ending := attempts + 1, Answered(answer);
        if answer == ShutDown {
          return NotSent, attempts, posts, ending;
        }
        posts := posts + 1;
        match answer {
          case Accepted =>
            consecutiveFailures := 0;
            return Sent, attempts, posts, ending;
          case Unauthorized =>
            consecutiveFailures := consecutiveFailures + 1;
            return AuthFailed, attempts, posts, ending;
          case Transient =>
            if attempts == Allowed(retry) {
              break;
            }
          case _ =>
            break;
        }
      }
      consecutiveFailures := consecutiveFailures + 1;
      result := NotSent;
    }
  }
}
