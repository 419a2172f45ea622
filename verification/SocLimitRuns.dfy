/** Every interleaving of polls, toggles, Stop tasks and command outcomes around
    the SOC limit controller.

    A step is what runs between two awaits.  A cancelled task ends at its next
    resumption, and nothing runs between a preflight that passes and its request.
    How long a Stop waits for the lock, the spacing and its retries is left open:
    its checks may come at any time and any number of times.
 */
module SocLimitRuns {
  import opened Common
  import opened SocLimit

  datatype Phase = Yielded | Commanding | Ended

  /** A background Stop; `passed` says that one of its own checks passed. */
  datatype Task = Task(job: Job, phase: Phase, cancelled: bool, passed: bool)

  /** A Stop put on the wire, with what was read at that instant. */
  datatype Sent = Sent(controller: Controller, world: World, decision: Decision)

  /** The event, the poll it was raised on, and how many Stops were sent before it. */
  datatype Event = Event(generation: nat, decision: Decision, world: World, sentBefore: nat)

  datatype System = System(controller: Controller, tasks: map<nat, Task>, world: World, wire: seq<Sent>, events: seq<Event>)

  datatype Step =
    | Poll(world: World)
    | Helpers(target: Option<real>, current: Option<real>)
    | SetEnabled(value: bool)
    | Shutdown
    | Begin(task: nat)
    | Check(task: nat)
    | Finish(task: nat, outcome: Outcome)
    | CancelTask(task: nat)
    | EndCancelled(task: nat)

  ghost predicate Init(s: System) {
    s.controller == IDLE && s.tasks == map[] && s.wire == [] && s.events == []
  }

  function Cancel(tasks: map<nat, Task>, t: Option<nat>): map<nat, Task> {
    if t.Some? && t.value in tasks then tasks[t.value := tasks[t.value].(cancelled := true)] else tasks
  }

  predicate Ready(s: System, t: nat, phase: Phase) {
    t in s.tasks && !s.tasks[t].cancelled && s.tasks[t].phase == phase
  }

  predicate TaskDone(s: System) {
    s.controller.task.Some? && s.controller.task.value in s.tasks && s.tasks[s.controller.task.value].phase == Ended
  }

  function EndTask(s: System, t: nat): map<nat, Task>
    requires t in s.tasks
  {
    s.tasks[t := s.tasks[t].(phase := Ended)]
  }

  ghost predicate Next(s: System, s': System, step: Step) {
    match step
    case Poll(w) => exists ticket: nat :: ticket !in s.tasks && s' == Polled(s, w, ticket)
    case Helpers(target, current) => s' == s.(world := s.world.(target := target, current := current))
    case SetEnabled(value) =>
      s' == s.(controller := Toggled(s.controller, value),
               tasks := if value == s.controller.enabled then s.tasks else Cancel(s.tasks, s.controller.task))
    case Shutdown =>
      s' == s.(controller := Rearmed(s.controller.(enabled := false)), tasks := Cancel(s.tasks, s.controller.task))
    case Begin(t) =>
      && Ready(s, t, Yielded)
      && var (c, proceed) := Begun(s.controller, s.world, s.tasks[t].job);
         s' == s.(controller := c, tasks := s.tasks[t := s.tasks[t].(phase := if proceed then Commanding else Ended)])
    case Check(t) =>
      && Ready(s, t, Commanding)
      && var (c, due) := Checked(s.controller, s.world, s.tasks[t].job.generation);
         if due then
           s' == s.(controller := c, tasks := s.tasks[t := s.tasks[t].(passed := true)],
                    wire := s.wire + [Sent(s.controller, s.world, DecisionNow(s.world))])
         else
           s' == s.(controller := Finished(c, s.tasks[t].job.generation, Rejected), tasks := EndTask(s, t))
    case Finish(t, outcome) =>
      && Ready(s, t, Commanding) && (outcome == Accepted ==> s.tasks[t].passed)
      && s' == s.(controller := Finished(s.controller, s.tasks[t].job.generation, outcome), tasks := EndTask(s, t))
    case CancelTask(t) =>
      t in s.tasks && s' == s.(tasks := Cancel(s.tasks, Some(t)))
    case EndCancelled(t) =>
      && t in s.tasks && s.tasks[t].cancelled && s'== s.(tasks := EndTask(s, t))
  }

  /** A poll arrives and its listener runs. */
  function Polled(s: System, w: World, ticket: nat): System {
    var r := Processed(s.controller, w, TaskDone(s), ticket);
    var cancelled := Cancel(s.tasks, r.cancelled);
    var tasks := if r.started.Some? then cancelled[ticket := Task(r.started.value, Yielded, false, false)] else cancelled;
    var events := if r.reached.Some?
                  then s.events + [Event(Boundary(s.controller, w).generation, r.reached.value, w, |s.wire|)] else s.events;
    System(r.controller, tasks, w, s.wire, events)
  }

  // --- What every step keeps -------------------------------------------------------

  /** Only the recorded task of the current generation can still act. */
  ghost predicate OneActor(s: System) {
    && (s.controller.task.Some? ==> s.controller.task.value in s.tasks)
    && (forall t :: t in s.tasks && s.tasks[t].phase == Yielded ==> !s.tasks[t].passed)
    && forall t :: t in s.tasks && s.tasks[t].phase != Ended && !s.tasks[t].cancelled ==>
         s.controller.task == Some(t) && s.tasks[t].job.generation == s.controller.generation
  }

  /** The newest Stop on the wire is one of this generation, and it decided `d` if any is given. */
  ghost predicate LastSent(s: System, d: Option<Decision>) {
    && s.wire != []
    && var last := s.wire[|s.wire| - 1];
       last.controller.generation == s.controller.generation && (d.Some? ==> d.value == last.decision)
  }

  /** An attempt that counts was sent in this generation, and the token names its decision. */
  ghost predicate Attributable(s: System) {
    && (s.controller.attempted ==> LastSent(s, s.controller.pending))
    && forall t :: t in s.tasks && s.tasks[t].phase != Ended && !s.tasks[t].cancelled && s.tasks[t].passed ==>
         LastSent(s, s.controller.pending)
  }

  /** Every Stop went out while it was due, and says what it was decided on. */
  ghost predicate AllDue(wire: seq<Sent>) {
    forall m :: m in wire ==> Due(m.controller, m.world) && m.decision == DecisionNow(m.world)
  }

  /** The Stop an event confirms. */
  ghost predicate Caused(e: Event, wire: seq<Sent>) {
    && 0 < e.sentBefore <= |wire|
    && e.world.evseEnabled == Some(1)
    && var m := wire[e.sentBefore - 1];
       m.controller.generation == e.generation && m.world.evseEnabled == Some(0) && m.decision == e.decision
  }

  /** The events so far: each caused by a Stop of its generation, no two of one generation,
      and the latch set exactly while the newest is of the current one. */
  ghost predicate EventLog(events: seq<Event>, wire: seq<Sent>, generation: nat, fired: bool) {
    && (forall e :: e in events ==> Caused(e, wire) && e.generation <= generation)
    && (forall i, j :: 0 <= i < j < |events| ==> events[i].generation < events[j].generation)
    && (fired <==> events != [] && events[|events| - 1].generation == generation)
  }

  ghost predicate Events(s: System) {
    EventLog(s.events, s.wire, s.controller.generation, s.controller.fired)
  }

  ghost predicate Inv(s: System) {
    OneActor(s) && Attributable(s) && AllDue(s.wire) && Events(s)
  }

  // --- Polls -----------------------------------------------------------------------

  lemma PollKeepsActor(s: System, w: World, ticket: nat)
    requires Inv(s) && ticket !in s.tasks
    ensures OneActor(Polled(s, w, ticket))
  {
    hide Processed, Attributable, AllDue, Events;
    TaskAfterPoll(s.controller, w, TaskDone(s), ticket);
  }

  /** A new Stop starts only once the recorded one has ended or been cancelled. */
  lemma TaskAfterPoll(c: Controller, w: World, done: bool, ticket: nat)
    ensures var r := Processed(c, w, done, ticket);
      && (r.controller.generation != c.generation ==> r.cancelled == c.task)
      && (r.controller.generation == c.generation ==> r.cancelled == None)
      && if r.started.Some? then
           && r.controller.task == Some(ticket) && r.started.value.generation == r.controller.generation
           && (r.controller.generation == c.generation && c.task.Some? ==> done)
         else r.controller.task == if r.controller.generation == c.generation then c.task else None
  {
  }

  /** Within a generation a poll attempts nothing itself, and can only spend the token. */
  lemma TokenAfterPoll(c: Controller, w: World, done: bool, ticket: nat)
    ensures var r := Processed(c, w, done, ticket).controller;
      if r.generation == c.generation then r.attempted == c.attempted && (r.pending == c.pending || r.pending == None)
      else !r.attempted
  {
  }

  lemma SentWithoutToken(s: System, s': System)
    requires s.wire == s'.wire && s.controller.generation == s'.controller.generation
    requires s'.controller.pending == s.controller.pending || s'.controller.pending == None
    ensures LastSent(s, s.controller.pending) ==> LastSent(s', s'.controller.pending)
  {
  }

  lemma PollKeepsAttribution(s: System, w: World, ticket: nat)
    requires Inv(s) && ticket !in s.tasks
    ensures Attributable(Polled(s, w, ticket))
  {
    hide Processed, Events, AllDue, LastSent;
    TokenAfterPoll(s.controller, w, TaskDone(s), ticket);
    TaskAfterPoll(s.controller, w, TaskDone(s), ticket);
    if Polled(s, w, ticket).controller.generation == s.controller.generation {
      SentWithoutToken(s, Polled(s, w, ticket));
    }
  }

  /** What an evaluation may do to the latch: raise the event of this generation, or end the generation. */
  lemma LatchAfterPoll(c: Controller, w: World, done: bool, ticket: nat)
    ensures var r, b := Processed(c, w, done, ticket), Boundary(c, w);
      if Readable(c, w) then
        && c.generation <= b.generation <= r.controller.generation
        && r.reached == (if Confirms(b, w) then b.pending else None)
        && (r.controller.fired <==> r.controller.generation == b.generation && (b.fired || Confirms(b, w)))
        && (b != c ==> b.generation > c.generation && !b.fired)
        && (Confirms(b, w) ==> b == c)
      else r == Reaction(c, None, None, None)
  {
  }

  lemma LogEvent(events: seq<Event>, wire: seq<Sent>, e: Event, later: nat)
    requires EventLog(events, wire, e.generation, false) && Caused(e, wire) && later >= e.generation
    ensures EventLog(events + [e], wire, later, later == e.generation)
  {
    forall f | f in events ensures f.generation < e.generation {
      var i :| 0 <= i < |events| && events[i] == f;
      assert events[|events| - 1] in events;
      assert i < |events| - 1 ==> events[i].generation < events[|events| - 1].generation;
    }
  }

  lemma NewGeneration(events: seq<Event>, wire: seq<Sent>, generation: nat, fired: bool, later: nat)
    requires EventLog(events, wire, generation, fired) && later > generation
    ensures EventLog(events, wire, later, false)
  {
    if events != [] {
      assert events[|events| - 1] in events;
    }
  }

  lemma NewestStopCauses(s: System, w: World)
    requires Attributable(s) && AllDue(s.wire) && Confirms(s.controller, w)
    ensures Caused(Event(s.controller.generation, s.controller.pending.value, w, |s.wire|), s.wire)
  {
    assert s.wire[|s.wire| - 1] in s.wire;
  }

  lemma PollKeepsEvents(s: System, w: World, ticket: nat)
    requires Inv(s) && ticket !in s.tasks
    ensures Events(Polled(s, w, ticket))
  {
    hide Processed, Cancel, Boundary, Readable, OneActor, EventLog, Caused, Attributable, AllDue;
    var c, later := s.controller, Polled(s, w, ticket).controller.generation;
    LatchAfterPoll(c, w, TaskDone(s), ticket);
    if Readable(c, w) && Confirms(Boundary(c, w), w) {
      NewestStopCauses(s, w);
      LogEvent(s.events, s.wire, Event(c.generation, c.pending.value, w, |s.wire|), later);
    } else if later > c.generation {
      NewGeneration(s.events, s.wire, c.generation, c.fired, later);
    }
  }

  // --- Stop tasks ------------------------------------------------------------------

  lemma BeginKeeps(s: System, s': System, t: nat)
    requires Inv(s) && Next(s, s', Begin(t))
    ensures Inv(s')
  {
    hide EventLog, AllDue;
  }

  lemma LongerWire(events: seq<Event>, wire: seq<Sent>, m: Sent, generation: nat, fired: bool)
    requires EventLog(events, wire, generation, fired)
    ensures EventLog(events, wire + [m], generation, fired)
  {
    forall e | e in events ensures Caused(e, wire + [m]) {
      assert (wire + [m])[e.sentBefore - 1] == wire[e.sentBefore - 1];
    }
  }

  lemma CheckKeeps(s: System, s': System, t: nat)
    requires Inv(s) && Next(s, s', Check(t))
    ensures Inv(s')
  {
    hide EventLog, Due;
    if s'.wire != s.wire {
      LongerWire(s.events, s.wire, s'.wire[|s.wire|], s.controller.generation, s.controller.fired);
    }
  }

  lemma FinishKeeps(s: System, s': System, t: nat, outcome: Outcome)
    requires Inv(s) && Next(s, s', Finish(t, outcome))
    ensures Inv(s')
  {
    hide EventLog, AllDue;
  }

  lemma RearmKeeps(s: System, s': System, enabled: bool)
    requires Inv(s)
    requires s' == s.(controller := Rearmed(s.controller.(enabled := enabled)), tasks := Cancel(s.tasks, s.controller.task))
    ensures Inv(s')
  {
  }

  lemma PollKeeps(s: System, w: World, ticket: nat)
    requires Inv(s) && ticket !in s.tasks
    ensures Inv(Polled(s, w, ticket))
  {
    hide OneActor, Attributable, Events, Processed;
    PollKeepsActor(s, w, ticket);
    PollKeepsAttribution(s, w, ticket);
    PollKeepsEvents(s, w, ticket);
  }

  lemma HelpersKeep(s: System, s': System, target: Option<real>, current: Option<real>)
    requires Inv(s) && Next(s, s', Helpers(target, current))
    ensures Inv(s')
  {
  }

  lemma CancellingKeeps(s: System, s': System, t: nat)
    requires Inv(s) && Next(s, s', CancelTask(t))
    ensures Inv(s')
  {
    hide EventLog, AllDue;
  }

  lemma EndingKeeps(s: System, s': System, t: nat)
    requires Inv(s) && Next(s, s', EndCancelled(t))
    ensures Inv(s')
  {
  }

  lemma StepKeepsInv(s: System, s': System, step: Step)
    requires Inv(s) && Next(s, s', step)
    ensures Inv(s')
  {
    hide Inv, Processed, Polled;
    match step
    case Poll(w) =>
      var ticket: nat :| ticket !in s.tasks && s' == Polled(s, w, ticket);
      PollKeeps(s, w, ticket);
    case Helpers(target, current) => HelpersKeep(s, s', target, current);
    case SetEnabled(value) =>
      if value != s.controller.enabled {
        RearmKeeps(s, s', value);
      }
    case Shutdown => RearmKeeps(s, s', false);
    case Begin(t) => BeginKeeps(s, s', t);
    case Check(t) => CheckKeeps(s, s', t);
    case Finish(t, outcome) => FinishKeeps(s, s', t, outcome);
    case CancelTask(t) => CancellingKeeps(s, s', t);
    case EndCancelled(t) => EndingKeeps(s, s', t);
  }

  // --- Every run -------------------------------------------------------------------

  ghost predicate IsRun(run: seq<System>, steps: seq<Step>) {
    && |run| == |steps| + 1
    && Init(run[0])
    && forall i :: 0 <= i < |steps| ==> Next(run[i], run[i + 1], steps[i])
  }

  lemma {:induction false} EveryStateIsSafe(run: seq<System>, steps: seq<Step>, k: nat)
    requires IsRun(run, steps) && k < |run|
    ensures Inv(run[k])
  {
    if k > 0 {
      EveryStateIsSafe(run, steps, k - 1);
      StepKeepsInv(run[k - 1], run[k], steps[k - 1]);
    }
  }

  /** The event fires at most once between re-arms: a generation never has two. */
  lemma EventOncePerGeneration(run: seq<System>, steps: seq<Step>, k: nat, i: nat, j: nat)
    requires IsRun(run, steps) && k < |run| && i < j < |run[k].events|
    ensures run[k].events[i].generation != run[k].events[j].generation
  {
    EveryStateIsSafe(run, steps, k);
  }

  /** It fires only after a Stop of the same generation went out, due, while the newest poll
      read 0, on a later poll that reads 1; and it reports that Stop's decision. */
  lemma EventConfirmsItsOwnStop(run: seq<System>, steps: seq<Step>, k: nat, e: Event)
    requires IsRun(run, steps) && k < |run| && e in run[k].events
    ensures 0 < e.sentBefore <= |run[k].wire| && e.world.evseEnabled == Some(1)
    ensures var m := run[k].wire[e.sentBefore - 1];
            m.controller.generation == e.generation && Due(m.controller, m.world)
            && e.decision == DecisionNow(m.world)
  {
    EveryStateIsSafe(run, steps, k);
    assert Caused(e, run[k].wire);
    assert run[k].wire[e.sentBefore - 1] in run[k].wire;
  }

  /** Every Stop on the wire, retries included, was due by what was read at that instant. */
  lemma EveryStopIsDue(run: seq<System>, steps: seq<Step>, k: nat)
    requires IsRun(run, steps) && k < |steps| && run[k + 1].wire != run[k].wire
    ensures Due(run[k].controller, run[k].world)
    ensures run[k + 1].wire == run[k].wire + [Sent(run[k].controller, run[k].world, DecisionNow(run[k].world))]
  {
    assert Next(run[k], run[k + 1], steps[k]);
  }

  /** A poll starts a Stop exactly when charging has reached the target and nothing forbids it: the
      latch and a running Stop do, unless the counters show that they belong to an earlier session. */
  lemma StopStartsExactlyWhen(c: Controller, w: World, done: bool, ticket: nat)
    ensures Processed(c, w, done, ticket).started.Some? <==>
      && Readable(c, w) && w.active && w.evseEnabled == Some(0) && AtTarget(w)
      && (((c.pending.Some? || c.fired) && (EnergyBack(c, w) || ClockBack(c, w))) || (!c.fired && (c.task.Some? ==> done)))
  {
  }

  /** And the limit does stop the charge: a due poll with nothing in flight leads, through the first
      sections of its Stop, to a request on the wire. */
  lemma ADueStopGoesOut(s: System, w: World, ticket: nat) returns (polled: System, begun: System, sent: System)
    requires Due(s.controller, w) && !s.controller.fired && (s.controller.task.Some? ==> TaskDone(s)) && ticket !in s.tasks
    ensures Next(s, polled, Poll(w)) && Next(polled, begun, Begin(ticket)) && Next(begun, sent, Check(ticket))
    ensures |sent.wire| == |s.wire| + 1 && sent.wire[|s.wire|].decision == DecisionNow(w)
    ensures sent.controller.pending == Some(DecisionNow(w)) && sent.controller.attempted && !sent.controller.fired
    ensures sent.controller.enabled && sent.controller.generation == s.controller.generation
  {
    polled := Polled(s, w, ticket);
    var job := polled.tasks[ticket].job;
    var c := Begun(polled.controller, w, job).0;
    begun := polled.(controller := c, tasks := polled.tasks[ticket := polled.tasks[ticket].(phase := Commanding)]);
    sent := begun.(controller := Checked(c, w, job.generation).0,
                   tasks := begun.tasks[ticket := begun.tasks[ticket].(passed := true)],
                   wire := begun.wire + [Sent(c, w, DecisionNow(w))]);
  }

  /** ... and the poll of the same session that then reads 1 raises the event with that decision. */
  lemma TheConfirmationIsReported(s: System, w: World, ticket: nat)
    requires Readable(s.controller, w) && s.controller.pending.Some? && s.controller.attempted && !s.controller.fired
    requires w.evseEnabled == Some(1) && (w.active ==> !EnergyBack(s.controller, w) && !ClockBack(s.controller, w))
    ensures Polled(s, w, ticket).events == s.events + [Event(s.controller.generation, s.controller.pending.value, w, |s.wire|)]
  {
  }

  predicate ByTask(step: Step, t: nat) {
    step == Begin(t) || step == Check(t) || step == EndCancelled(t) || (step.Finish? && step.task == t)
  }

  /** A task from an older generation never transmits, raises the event or touches the token. */
  lemma OldTasksAreHarmless(run: seq<System>, steps: seq<Step>, k: nat, t: nat)
    requires IsRun(run, steps) && k < |steps| && ByTask(steps[k], t) && t in run[k].tasks
    requires run[k].tasks[t].job.generation != run[k].controller.generation
    ensures run[k + 1].controller == run[k].controller
    ensures run[k + 1].wire == run[k].wire && run[k + 1].events == run[k].events
  {
    EveryStateIsSafe(run, steps, k);
    assert Next(run[k], run[k + 1], steps[k]);
  }
}
