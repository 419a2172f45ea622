/** The SOC limit's Stops as commands among all others: one system made of the command queue
    and of the limit controller.

    A Stop task queues a command of its own when it begins.  The command waits for the lock,
    spaces itself and retries like any other; its preflight is the controller's check, evaluated
    in the same section as the request it allows, on every attempt.
 */
module StopCommands {
  import opened Common
  import C = CommandRuns
  import L = SocLimitRuns
  import PriorityLocks
  import SocLimit

  /** `stops` names the Stop task behind a command. */
  datatype System = System(queue: C.System, limit: L.System, stops: map<nat, nat>)

  datatype Step =
    | Other(step: C.Step)                                // the clock, or another command
    | Around(own: L.Step)                                // polls, toggles, helpers, cancellations
    | QueueStop(stop: nat, command: nat)                 // a Stop begins and queues its command
    | Moves(step: C.Step)                                // its command waits, wakes or retries
    | Attempt(command: nat)                              // its preflight, and the request if it passes
    | Answer(command: nat, outcome: SocLimit.Outcome)    // its command returns
    | Ended(step: C.Step)                                // its command ends by cancellation

  predicate Of(step: C.Step, c: nat) {
    match step
    case Tick(_) => false
    case Send(t, _) => t == c
    case Cancel(t) => t == c
    case Resume(t) => t == c
    case Wake(t) => t == c
    case Transmit(t) => t == c
    case Veto(t) => t == c
    case Refuse(t) => t == c
    case Reply(t, _) => t == c
    case Retry(t) => t == c
    case Abort(t) => t == c
  }

  /** The lock is this waiting command's, and nobody cancelled it. */
  predicate Granted(q: C.System, c: nat) {
    && c in q.tasks && q.tasks[c].Waiting? && !q.tasks[c].cancelling
    && q.tasks[c].order in q.lock.futures && q.lock.futures[q.tasks[c].order] == PriorityLocks.Granted
  }

  predicate MovesOn(s: System, step: C.Step) {
    match step
    case Cancel(c) => c in s.stops && s.stops[c] in s.limit.tasks && s.limit.tasks[s.stops[c]].cancelled
    case Resume(c) => c in s.stops && Granted(s.queue, c)
    case Wake(c) => c in s.stops
    case Retry(c) => c in s.stops
    case Reply(c, again) => c in s.stops && again
    case _ => false
  }

  predicate EndsCancelled(s: System, step: C.Step) {
    match step
    case Resume(c) => c in s.stops && !Granted(s.queue, c)
    case Veto(c) => c in s.stops
    case Abort(c) => c in s.stops
    case _ => false
  }

  function CommandOf(step: C.Step): nat
    requires !step.Tick?
  {
    step.task
  }

  predicate HasCommand(s: System, stop: nat) {
    stop in s.stops.Values
  }

  /** What the controller does on its own: a Stop that has no command can only begin, be turned away or end. */
  predicate OnItsOwn(s: System, step: L.Step) {
    match step
    case Begin(t) => !HasCommand(s, t)
    case Finish(t, outcome) => !HasCommand(s, t) && outcome == SocLimit.Rejected
    case EndCancelled(t) => !HasCommand(s, t)
    case Check(_) => false
    case _ => true
  }

  /** The preflight of a Stop's command, on this instant's poll. */
  predicate Passes(s: System, c: nat)
    requires c in s.stops && s.stops[c] in s.limit.tasks
  {
    SocLimit.Checked(s.limit.controller, s.limit.world, s.limit.tasks[s.stops[c]].job.generation).1
  }

  ghost predicate Next(s: System, s': System, step: Step) {
    match step
    case Other(cs) =>
      && (forall c :: c in s.stops ==> !Of(cs, c))
      && C.Next(s.queue, s'.queue, cs) && s'.limit == s.limit && s'.stops == s.stops
    case Around(ls) =>
      OnItsOwn(s, ls) && L.Next(s.limit, s'.limit, ls) && s'.queue == s.queue && s'.stops == s.stops
    case QueueStop(t, c) =>
      && !HasCommand(s, t) && c !in s.queue.tasks
      && L.Next(s.limit, s'.limit, L.Begin(t)) && s'.limit.tasks[t].phase == L.Commanding
      && C.Next(s.queue, s'.queue, C.Send(c, 0)) && s'.stops == s.stops[c := t]
    case Moves(cs) =>
      MovesOn(s, cs) && C.Next(s.queue, s'.queue, cs) && s'.limit == s.limit && s'.stops == s.stops
    case Attempt(c) =>
      && c in s.stops && s.stops[c] in s.limit.tasks
      && L.Next(s.limit, s'.limit, L.Check(s.stops[c]))
      && C.Next(s.queue, s'.queue, if Passes(s, c) then C.Transmit(c) else C.Veto(c)) && s'.stops == s.stops
    case Answer(c, outcome) =>
      && c in s.stops && L.Next(s.limit, s'.limit, L.Finish(s.stops[c], outcome))
      && C.Next(s.queue, s'.queue, C.Reply(c, false)) && s'.stops == s.stops
    case Ended(cs) =>
      && EndsCancelled(s, cs) && C.Next(s.queue, s'.queue, cs)
      && L.Next(s.limit, s'.limit, L.EndCancelled(s.stops[CommandOf(cs)])) && s'.stops == s.stops
  }

  ghost predicate Init(s: System) {
    C.Init(s.queue) && L.Init(s.limit) && s.stops == map[]
  }

  // --- What every step keeps -------------------------------------------------------

  /** A Stop and its command go through their lives together; whatever came past a first
      attempt has passed a check. */
  ghost predicate InStep(s: System, c: nat)
    requires c in s.stops
  {
    && c in s.queue.tasks && s.stops[c] in s.limit.tasks
    && var stop, phase := s.limit.tasks[s.stops[c]], s.queue.tasks[c];
       && stop.phase == (if phase.Finished? then L.Ended else L.Commanding)
       && (C.Attempted(phase) ==> stop.passed)
  }

  ghost predicate Paired(s: System) {
    && (forall c :: c in s.stops ==> InStep(s, c))
    && forall c, d :: c in s.stops && d in s.stops && s.stops[c] == s.stops[d] ==> c == d
  }

  /** The commands of the Stops on the wire, in order. */
  function StopRequests(wire: seq<C.Post>, stops: map<nat, nat>): seq<nat> {
    if wire == [] then [] else
      var rest, last := StopRequests(wire[..|wire| - 1], stops), wire[|wire| - 1].task;
      if last in stops then rest + [last] else rest
  }

  /** What the controller takes for sent is what the command queue sent for it, one for one. */
  ghost predicate Mirrored(s: System) {
    var requests := StopRequests(s.queue.wire, s.stops);
    && |requests| == |s.limit.wire|
    && forall i :: 0 <= i < |requests| ==> FromStop(s, requests[i], s.limit.wire[i])
  }

  ghost predicate FromStop(s: System, c: nat, m: L.Sent) {
    && c in s.stops && s.stops[c] in s.limit.tasks
    && m.controller.generation == s.limit.tasks[s.stops[c]].job.generation
  }

  ghost predicate Inv(s: System) {
    C.Inv(s.queue) && L.Inv(s.limit) && Paired(s) && Mirrored(s)
  }

  // --- The two parts -----------------------------------------------------------------

  lemma QueueIsKept(q: C.System, q': C.System, step: C.Step)
    requires C.Inv(q) && C.Next(q, q', step)
    ensures C.Inv(q')
  {
    hide C.LockInv, C.WireInv, C.Next;
    C.StepKeepsLock(q, q', step);
    C.StepKeepsWire(q, q', step);
  }

  lemma PartsAreKept(s: System, s': System, step: Step)
    requires C.Inv(s.queue) && L.Inv(s.limit) && Next(s, s', step)
    ensures C.Inv(s'.queue) && L.Inv(s'.limit)
  {
    hide C.Inv, L.Inv, C.Next, L.Next, OnItsOwn, MovesOn, Passes;
    match step
    case Other(cs) => QueueIsKept(s.queue, s'.queue, cs);
    case Around(ls) => L.StepKeepsInv(s.limit, s'.limit, ls);
    case QueueStop(t, c) =>
      QueueIsKept(s.queue, s'.queue, C.Send(c, 0));
      L.StepKeepsInv(s.limit, s'.limit, L.Begin(t));
    case Moves(cs) => QueueIsKept(s.queue, s'.queue, cs);
    case Attempt(c) =>
      QueueIsKept(s.queue, s'.queue, if Passes(s, c) then C.Transmit(c) else C.Veto(c));
      L.StepKeepsInv(s.limit, s'.limit, L.Check(s.stops[c]));
    case Answer(c, outcome) =>
      QueueIsKept(s.queue, s'.queue, C.Reply(c, false));
      L.StepKeepsInv(s.limit, s'.limit, L.Finish(s.stops[c], outcome));
    case Ended(cs) =>
      QueueIsKept(s.queue, s'.queue, cs);
      L.StepKeepsInv(s.limit, s'.limit, L.EndCancelled(s.stops[CommandOf(cs)]));
  }

  // --- The pairing --------------------------------------------------------------------

  /** A command's step leaves every other command alone. */
  lemma OtherCommandsStay(q: C.System, q': C.System, step: C.Step, c: nat)
    requires C.Next(q, q', step) && !Of(step, c) && c in q.tasks
    ensures c in q'.tasks && q'.tasks[c] == q.tasks[c]
  {
  }

  /** A step of the controller on its own leaves the Stops that have a command where they are. */
  lemma OtherStopsStay(l: L.System, l': L.System, step: L.Step, t: nat)
    requires L.Next(l, l', step) && t in l.tasks
    requires !L.ByTask(step, t)
    ensures t in l'.tasks && l'.tasks[t].phase == l.tasks[t].phase && l'.tasks[t].passed == l.tasks[t].passed
    ensures l'.tasks[t].job == l.tasks[t].job
  {
    if step.Poll? {
      PolledTasksStay(l, l', step.world, t);
    }
  }

  lemma PolledTasksStay(l: L.System, l': L.System, w: SocLimit.World, t: nat)
    requires L.Next(l, l', L.Poll(w)) && t in l.tasks
    ensures t in l'.tasks && l'.tasks[t].phase == l.tasks[t].phase && l'.tasks[t].passed == l.tasks[t].passed
    ensures l'.tasks[t].job == l.tasks[t].job
  {
    hide SocLimit.Processed;
    var ticket: nat :| ticket !in l.tasks && l' == L.Polled(l, w, ticket);
  }

  /** How one Stop's own steps move it. */
  lemma JobsStay(l: L.System, l': L.System, step: L.Step, t: nat)
    requires L.Next(l, l', step) && t in l.tasks && L.ByTask(step, t)
    ensures t in l'.tasks && l'.tasks[t].job == l.tasks[t].job && (l.tasks[t].passed ==> l'.tasks[t].passed)
  {
  }

  lemma OnItsOwnKeepsPair(s: System, s': System, ls: L.Step, c: nat)
    requires Paired(s) && Next(s, s', Around(ls)) && c in s.stops
    ensures InStep(s', c)
  {
    hide L.Next, C.Next;
    assert InStep(s, c);
    assert s.stops[c] in s.stops.Values;
    OtherStopsStay(s.limit, s'.limit, ls, s.stops[c]);
  }

  lemma QueueingKeepsPair(s: System, s': System, t: nat, k: nat, c: nat)
    requires Paired(s) && Next(s, s', QueueStop(t, k)) && c in s'.stops
    ensures InStep(s', c)
  {
    if c == k {
      SendingStartsOutside(s.queue, s'.queue, k);
    } else {
      assert InStep(s, c);
      assert s.stops[c] in s.stops.Values;
      OtherCommandsStay(s.queue, s'.queue, C.Send(k, 0), c);
      OtherStopsStay(s.limit, s'.limit, L.Begin(t), s.stops[c]);
    }
  }

  lemma SendingStartsOutside(q: C.System, q': C.System, c: nat)
    requires C.Next(q, q', C.Send(c, 0))
    ensures c in q'.tasks && !q'.tasks[c].Finished? && !C.Attempted(q'.tasks[c])
  {
  }

  lemma MovingKeepsPair(s: System, s': System, cs: C.Step, c: nat)
    requires Paired(s) && Next(s, s', Moves(cs)) && c in s.stops
    ensures InStep(s', c)
  {
    assert InStep(s, c);
    if Of(cs, c) {
      MovingOn(s, s'.queue, cs, c);
    } else {
      OtherCommandsStay(s.queue, s'.queue, cs, c);
    }
  }

  lemma MovingOn(s: System, q': C.System, cs: C.Step, c: nat)
    requires MovesOn(s, cs) && Of(cs, c) && C.Next(s.queue, q', cs) && c in s.queue.tasks
    ensures c in q'.tasks && !q'.tasks[c].Finished? && !s.queue.tasks[c].Finished?
    ensures C.Attempted(q'.tasks[c]) ==> C.Attempted(s.queue.tasks[c])
  {
  }

  lemma AttemptKeepsPair(s: System, s': System, k: nat, c: nat)
    requires Paired(s) && Next(s, s', Attempt(k)) && c in s.stops
    ensures InStep(s', c)
  {
    assert InStep(s, c);
    if c == k {
      AttemptMoves(s, s', c);
    } else {
      OtherCommandsStay(s.queue, s'.queue, if Passes(s, k) then C.Transmit(k) else C.Veto(k), c);
      OtherStopsStay(s.limit, s'.limit, L.Check(s.stops[k]), s.stops[c]);
    }
  }

  /** The preflight decides for both: a request and a passed check, or the end of both. */
  lemma AttemptMoves(s: System, s': System, c: nat)
    requires Next(s, s', Attempt(c))
    ensures c in s'.queue.tasks && s.stops[c] in s'.limit.tasks
    ensures Passes(s, c) ==> s'.queue.tasks[c].Posting? && s'.limit.tasks[s.stops[c]].phase == L.Commanding
    ensures Passes(s, c) ==> s'.limit.tasks[s.stops[c]].passed
    ensures !Passes(s, c) ==> s'.queue.tasks[c].Finished? && s'.limit.tasks[s.stops[c]].phase == L.Ended
  {
    hide SocLimit.Checked, SocLimit.Finished, SocLimit.DecisionNow;
  }

  lemma AnswerKeepsPair(s: System, s': System, k: nat, outcome: SocLimit.Outcome, c: nat)
    requires Paired(s) && Next(s, s', Answer(k, outcome)) && c in s.stops
    ensures InStep(s', c)
  {
    assert InStep(s, c);
    if c != k {
      OtherCommandsStay(s.queue, s'.queue, C.Reply(k, false), c);
      OtherStopsStay(s.limit, s'.limit, L.Finish(s.stops[k], outcome), s.stops[c]);
    }
  }

  lemma EndingKeepsPair(s: System, s': System, cs: C.Step, c: nat)
    requires Paired(s) && Next(s, s', Ended(cs)) && c in s.stops
    ensures InStep(s', c)
  {
    assert InStep(s, c);
    if Of(cs, c) {
      EndsBoth(s, s', cs, c);
    } else {
      OtherCommandsStay(s.queue, s'.queue, cs, c);
      OtherStopsStay(s.limit, s'.limit, L.EndCancelled(s.stops[CommandOf(cs)]), s.stops[c]);
    }
  }

  lemma EndsBoth(s: System, s': System, cs: C.Step, c: nat)
    requires Next(s, s', Ended(cs)) && Of(cs, c) && c in s.queue.tasks
    ensures c in s'.queue.tasks && s'.queue.tasks[c].Finished?
    ensures s.stops[c] in s'.limit.tasks && s'.limit.tasks[s.stops[c]].phase == L.Ended
  {
  }

  lemma PairsAreKept(s: System, s': System, step: Step)
    requires Inv(s) && Next(s, s', step)
    ensures Paired(s')
  {
    forall c | c in s'.stops ensures InStep(s', c) {
      hide InStep, C.Inv, L.Inv, Mirrored;
      match step
      case Other(cs) =>
        assert InStep(s, c) && !Of(cs, c);
        AnotherKeepsPair(s, s', cs, c);
      case Around(ls) => OnItsOwnKeepsPair(s, s', ls, c);
      case QueueStop(t, k) => QueueingKeepsPair(s, s', t, k, c);
      case Moves(cs) => MovingKeepsPair(s, s', cs, c);
      case Attempt(k) => AttemptKeepsPair(s, s', k, c);
      case Answer(k, outcome) => AnswerKeepsPair(s, s', k, outcome, c);
      case Ended(cs) => EndingKeepsPair(s, s', cs, c);
    }
    OwnersStayApart(s, s', step);
  }

  lemma AnotherKeepsPair(s: System, s': System, cs: C.Step, c: nat)
    requires c in s.stops && InStep(s, c) && !Of(cs, c) && Next(s, s', Other(cs))
    ensures InStep(s', c)
  {
    OtherCommandsStay(s.queue, s'.queue, cs, c);
  }

  lemma OwnersStayApart(s: System, s': System, step: Step)
    requires Paired(s) && Next(s, s', step)
    ensures forall c, d :: c in s'.stops && d in s'.stops && s'.stops[c] == s'.stops[d] ==> c == d
  {
    hide InStep, C.Next, L.Next;
    if step.QueueStop? {
      assert forall c :: c in s.stops ==> s.stops[c] in s.stops.Values;
    }
  }

  // --- The mirror -----------------------------------------------------------------------

  lemma {:induction false} ClosingRequests(wire: seq<C.Post>, now: real, stops: map<nat, nat>)
    ensures StopRequests(C.CloseLast(wire, now), stops) == StopRequests(wire, stops)
  {
    if wire != [] {
      assert C.CloseLast(wire, now)[..|wire| - 1] == wire[..|wire| - 1];
    }
  }

  lemma {:induction false} OneMoreRequest(wire: seq<C.Post>, p: C.Post, stops: map<nat, nat>)
    ensures StopRequests(wire + [p], stops) == StopRequests(wire, stops) + (if p.task in stops then [p.task] else [])
  {
    assert (wire + [p])[..|wire|] == wire;
  }

  lemma {:induction false} NewCommandSentNothing(wire: seq<C.Post>, stops: map<nat, nat>, c: nat, t: nat)
    requires forall p :: p in wire ==> p.task != c
    ensures StopRequests(wire, stops[c := t]) == StopRequests(wire, stops)
  {
    if wire != [] {
      NewCommandSentNothing(wire[..|wire| - 1], stops, c, t);
      assert wire[|wire| - 1] in wire;
    }
  }

  /** Only a transmission adds a request to the wire. */
  lemma WireGrowsByTransmitting(q: C.System, q': C.System, step: C.Step, stops: map<nat, nat>)
    requires C.Next(q, q', step)
    ensures StopRequests(q'.wire, stops) ==
      StopRequests(q.wire, stops) + (if step.Transmit? && step.task in stops then [step.task] else [])
  {
    hide StopRequests, PriorityLocks.Releases;
    ClosingRequests(q.wire, q.now, stops);
    if step.Transmit? {
      OneMoreRequest(q.wire, q'.wire[|q.wire|], stops);
    }
  }

  /** Only a check that passes adds to what the controller takes for sent. */
  lemma SentGrowsByChecking(l: L.System, l': L.System, step: L.Step)
    requires L.Next(l, l', step) && !step.Check?
    ensures l'.wire == l.wire
  {
    if step.Poll? {
      PollSendsNothing(l, l', step.world);
    }
  }

  lemma PollSendsNothing(l: L.System, l': L.System, w: SocLimit.World)
    requires L.Next(l, l', L.Poll(w))
    ensures l'.wire == l.wire
  {
    hide SocLimit.Processed;
  }

  lemma TasksAndJobsStay(l: L.System, l': L.System, step: L.Step, t: nat)
    requires L.Next(l, l', step) && t in l.tasks
    ensures t in l'.tasks && l'.tasks[t].job == l.tasks[t].job
  {
    if L.ByTask(step, t) {
      JobsStay(l, l', step, t);
    } else {
      OtherStopsStay(l, l', step, t);
    }
  }

  /** Nothing sent on either side: the mirror stands. */
  lemma MirrorStands(s: System, s': System)
    requires Mirrored(s) && s'.limit.wire == s.limit.wire
    requires StopRequests(s'.queue.wire, s'.stops) == StopRequests(s.queue.wire, s.stops)
    requires forall c :: c in s.stops ==> c in s'.stops && s'.stops[c] == s.stops[c]
    requires forall t :: t in s.limit.tasks ==> t in s'.limit.tasks && s'.limit.tasks[t].job == s.limit.tasks[t].job
    ensures Mirrored(s')
  {
    hide StopRequests;
    var requests := StopRequests(s.queue.wire, s.stops);
    forall i | 0 <= i < |requests| ensures FromStop(s', requests[i], s'.limit.wire[i]) {
      assert FromStop(s, requests[i], s.limit.wire[i]);
    }
  }

  /** A Stop's request is mirrored by the check that let it through. */
  lemma AttemptIsMirrored(s: System, s': System, c: nat)
    requires Mirrored(s) && Next(s, s', Attempt(c))
    ensures Mirrored(s')
  {
    hide StopRequests, C.Next;
    var requests := StopRequests(s.queue.wire, s.stops);
    var l, l', t := s.limit, s'.limit, s.stops[c];
    WireGrowsByTransmitting(s.queue, s'.queue, if Passes(s, c) then C.Transmit(c) else C.Veto(c), s.stops);
    CheckSends(s, s', c);
    forall u | u in l.tasks ensures u in l'.tasks && l'.tasks[u].job == l.tasks[u].job {
      TasksAndJobsStay(l, l', L.Check(t), u);
    }
    if Passes(s, c) {
      forall i | 0 <= i < |requests| + 1 ensures FromStop(s', (requests + [c])[i], l'.wire[i]) {
        if i < |requests| {
          assert FromStop(s, requests[i], l.wire[i]);
        }
      }
    } else {
      MirrorStands(s, s');
    }
  }

  lemma CheckSends(s: System, s': System, c: nat)
    requires Next(s, s', Attempt(c))
    ensures Passes(s, c) ==> |s'.limit.wire| == |s.limit.wire| + 1 && s'.limit.wire[..|s.limit.wire|] == s.limit.wire
    ensures Passes(s, c) ==> s'.limit.wire[|s.limit.wire|].controller == s.limit.controller
    ensures Passes(s, c) ==> s.limit.controller.generation == s.limit.tasks[s.stops[c]].job.generation
    ensures !Passes(s, c) ==> s'.limit.wire == s.limit.wire
  {
  }

  lemma MirrorIsKept(s: System, s': System, step: Step)
    requires Inv(s) && Next(s, s', step)
    ensures Mirrored(s')
  {
    hide Mirrored, StopRequests, C.Next, L.Next, C.LockInv, C.Paced, C.Orderly;
    if step.Attempt? {
      AttemptIsMirrored(s, s', step.command);
    } else {
      QueueSendsNothing(s, s', step);
      LimitSendsNothing(s, s', step);
      MirrorStands(s, s');
    }
  }

  lemma QueueSendsNothing(s: System, s': System, step: Step)
    requires C.Inv(s.queue) && Next(s, s', step) && !step.Attempt?
    ensures StopRequests(s'.queue.wire, s'.stops) == StopRequests(s.queue.wire, s.stops)
    ensures forall c :: c in s.stops ==> c in s'.stops && (Paired(s) ==> s'.stops[c] == s.stops[c])
  {
    hide StopRequests, C.Next, L.Next, C.LockInv, C.Paced, C.Orderly, InStep;
    match step
    case Other(cs) =>
      WireGrowsByTransmitting(s.queue, s'.queue, cs, s.stops);
      match cs {
        case Transmit(c) => assert Of(cs, c) && c !in s.stops;
        case _ =>
      }
    case Around(_) =>
    case QueueStop(t, c) =>
      WireGrowsByTransmitting(s.queue, s'.queue, C.Send(c, 0), s.stops);
      assert s'.queue.wire == s.queue.wire by { SendingSendsNothing(s.queue, s'.queue, c); }
      NewCommandSentNothing(s.queue.wire, s.stops, c, t);
      assert Paired(s) && c in s.stops ==> c in s.queue.tasks by { PairedCommandsExist(s); }
    case Moves(cs) => WireGrowsByTransmitting(s.queue, s'.queue, cs, s.stops);
    case Answer(c, _) => WireGrowsByTransmitting(s.queue, s'.queue, C.Reply(c, false), s.stops);
    case Ended(cs) => WireGrowsByTransmitting(s.queue, s'.queue, cs, s.stops);
  }

  lemma PairedCommandsExist(s: System)
    ensures Paired(s) ==> forall c :: c in s.stops ==> c in s.queue.tasks
  {
    if Paired(s) {
      forall c | c in s.stops ensures c in s.queue.tasks {
        assert InStep(s, c);
      }
    }
  }

  lemma SendingSendsNothing(q: C.System, q': C.System, c: nat)
    requires C.Next(q, q', C.Send(c, 0))
    ensures q'.wire == q.wire && c !in q.tasks
  {
  }

  lemma LimitSendsNothing(s: System, s': System, step: Step)
    requires Next(s, s', step) && !step.Attempt?
    ensures s'.limit.wire == s.limit.wire
    ensures forall t :: t in s.limit.tasks ==> t in s'.limit.tasks && s'.limit.tasks[t].job == s.limit.tasks[t].job
  {
    hide C.Next, L.Next;
    if s'.limit != s.limit {
      var ls := match step
        case Around(x) => x
        case QueueStop(t, _) => L.Begin(t)
        case Answer(c, outcome) => L.Finish(s.stops[c], outcome)
        case Ended(x) => L.EndCancelled(s.stops[CommandOf(x)])
        case _ => L.Shutdown;
      SentGrowsByChecking(s.limit, s'.limit, ls);
      forall t | t in s.limit.tasks ensures t in s'.limit.tasks && s'.limit.tasks[t].job == s.limit.tasks[t].job {
        TasksAndJobsStay(s.limit, s'.limit, ls, t);
      }
    }
  }

  // --- Every run ---------------------------------------------------------------------------

  lemma StepKeepsInv(s: System, s': System, step: Step)
    requires Inv(s) && Next(s, s', step)
    ensures Inv(s')
  {
    hide Paired, Mirrored, Next, C.Inv, L.Inv;
    PartsAreKept(s, s', step);
    PairsAreKept(s, s', step);
    MirrorIsKept(s, s', step);
  }

  ghost predicate IsRun(run: seq<System>, steps: seq<Step>) {
    && |run| == |steps| + 1
    && Init(run[0])
    && forall i :: 0 <= i < |steps| ==> Next(run[i], run[i + 1], steps[i])
  }

  lemma {:induction false} EveryStateIsSafe(run: seq<System>, steps: seq<Step>, k: nat)
    requires IsRun(run, steps) && k < |run|
    ensures Inv(run[k])
  {
    hide Next, Inv;
    if k == 0 {
      InitIsSafe(run[0]);
    } else {
      EveryStateIsSafe(run, steps, k - 1);
      StepKeepsInv(run[k - 1], run[k], steps[k - 1]);
    }
  }

  lemma InitIsSafe(s: System)
    requires Init(s)
    ensures Inv(s)
  {
  }

  /** Every request of a Stop's command, first attempt or retry, goes out at an instant at which the
      Stop is due by the newest poll, in its own generation, and is what the controller takes for sent. */
  lemma EveryStopRequestIsDue(run: seq<System>, steps: seq<Step>, k: nat)
    requires IsRun(run, steps) && k < |steps|
    requires StopRequests(run[k + 1].queue.wire, run[k + 1].stops) != StopRequests(run[k].queue.wire, run[k].stops)
    ensures steps[k].Attempt? && steps[k].command in run[k].stops && run[k].stops[steps[k].command] in run[k].limit.tasks
    ensures SocLimit.Due(run[k].limit.controller, run[k].limit.world)
    ensures run[k].limit.tasks[run[k].stops[steps[k].command]].job.generation == run[k].limit.controller.generation
    ensures var m := L.Sent(run[k].limit.controller, run[k].limit.world, SocLimit.DecisionNow(run[k].limit.world));
      run[k + 1].limit.wire == run[k].limit.wire + [m]
  {
    hide StopRequests;
    EveryStateIsSafe(run, steps, k);
    StepOfRun(run, steps, k);
    if steps[k].Attempt? {
      var c := steps[k].command;
      WireGrowsByTransmitting(run[k].queue, run[k + 1].queue, if Passes(run[k], c) then C.Transmit(c) else C.Veto(c), run[k].stops);
    } else {
      QueueSendsNothing(run[k], run[k + 1], steps[k]);
    }
  }

  lemma StepOfRun(run: seq<System>, steps: seq<Step>, k: nat)
    requires IsRun(run, steps) && k < |steps|
    ensures |run| == |steps| + 1 && Next(run[k], run[k + 1], steps[k])
  {
  }

  /** The event is raised only for a Stop whose request really was on the wire: one of the same
      generation, sent before the event by a command of that Stop. */
  lemma EventHasItsRequest(run: seq<System>, steps: seq<Step>, k: nat, e: L.Event) returns (c: nat, t: nat)
    requires IsRun(run, steps) && k < |run| && e in run[k].limit.events
    ensures c in StopRequests(run[k].queue.wire, run[k].stops)
    ensures c in run[k].stops && t == run[k].stops[c] && t in run[k].limit.tasks
    ensures run[k].limit.tasks[t].job.generation == e.generation
  {
    hide Next, StopRequests, Paired;
    EveryStateIsSafe(run, steps, k);
    var s := run[k];
    assert L.Caused(e, s.limit.wire);
    c := StopRequests(s.queue.wire, s.stops)[e.sentBefore - 1];
    assert FromStop(s, c, s.limit.wire[e.sentBefore - 1]);
    t := s.stops[c];
  }

  /** An answer finds its Stop ready for it: whatever is on the wire has passed a check. */
  lemma AnswersFindTheirStop(run: seq<System>, steps: seq<Step>, k: nat, c: nat)
    requires IsRun(run, steps) && k < |run| && c in run[k].stops
    ensures c in run[k].queue.tasks && run[k].stops[c] in run[k].limit.tasks
    ensures run[k].queue.tasks[c].Posting? ==>
      var stop := run[k].limit.tasks[run[k].stops[c]]; stop.phase == L.Commanding && stop.passed
  {
    hide Next, Mirrored;
    EveryStateIsSafe(run, steps, k);
    assert InStep(run[k], c);
  }

  /** At most one Stop is on its way: the others that have a command and are not done were cancelled. */
  lemma OneLiveStop(run: seq<System>, steps: seq<Step>, k: nat, c: nat, d: nat)
    requires IsRun(run, steps) && k < |run| && c in run[k].stops && d in run[k].stops && c != d
    requires run[k].stops[c] in run[k].limit.tasks && run[k].stops[d] in run[k].limit.tasks
    requires c in run[k].queue.tasks && d in run[k].queue.tasks
    requires !run[k].queue.tasks[c].Finished? && !run[k].queue.tasks[d].Finished?
    ensures run[k].limit.tasks[run[k].stops[c]].cancelled || run[k].limit.tasks[run[k].stops[d]].cancelled
  {
    hide Next, Mirrored;
    EveryStateIsSafe(run, steps, k);
    assert InStep(run[k], c) && InStep(run[k], d);
  }
}
