/** The SOC limit controller (`SocLimitController`): its state, and the atomic
    sections of the poll listener and of the background Stop task. */
module SocLimit {
  import opened Common

  /** A smaller session energy than this (kWh) below the recorded one is a new session. */
  const RESET_EPS: real := 0.5

  /** What the controller can read at one instant: the newest poll and the SOC calculator. */
  datatype World = World(
    available: bool,
    success: bool,
    suspended: Option<bool>,  // "Disable limits"; None when unreadable
    active: bool,
    evseEnabled: Option<int>, // 0 charging, 1 stopped
    energy: Option<real>,
    clock: Option<int>,
    target: Option<real>,
    current: Option<real>)    // exact SOC at `energy`

  /** What a Stop is about: the rounded SOC and target it was decided on. */
  datatype Decision = Decision(soc: int, target: int)

  datatype Controller = Controller(
    enabled: bool,
    fired: bool,
    pending: Option<Decision>,
    attempted: bool,
    pendingEnergy: Option<real>,
    pendingClock: Option<int>,
    generation: nat,
    task: Option<nat>)

  /** The arguments a Stop task is started with. */
  datatype Job = Job(generation: nat, decision: Decision, energy: real, clock: Option<int>)

  /** What one evaluation of a poll did besides changing the controller. */
  datatype Reaction = Reaction(controller: Controller, reached: Option<Decision>, cancelled: Option<nat>, started: Option<Job>)

  datatype Outcome = Accepted | Rejected | AuthFailed

  const IDLE := Controller(false, false, None, false, None, None, 0, None)

  /** Reset the latch, and invalidate any Stop in flight. */
  function Rearmed(c: Controller): Controller {
    Controller(c.enabled, false, None, false, None, None, c.generation + 1, None)
  }

  function WithdrawToken(c: Controller): Controller {
    if c.fired then c else c.(pending := None, pendingEnergy := None, pendingClock := None)
  }

  /** The session counters went back, so a new session is running. */
  predicate EnergyBack(c: Controller, w: World) {
    c.pendingEnergy.Some? && w.energy.Some? && w.energy.value < c.pendingEnergy.value - RESET_EPS
  }

  predicate ClockBack(c: Controller, w: World) {
    c.pendingClock.Some? && w.clock.Some? && w.clock.value < c.pendingClock.value
  }

  predicate Confirms(c: Controller, w: World) {
    c.pending.Some? && c.attempted && !c.fired && w.evseEnabled == Some(1)
  }

  predicate AtTarget(w: World) {
    && w.energy.Some? && w.target.Some? && w.current.Some?
    && w.target.value > 0.0 && w.current.value >= w.target.value
  }

  /** The newest poll may be acted on: enabled, settled, and limits known not to be suspended. */
  predicate Readable(c: Controller, w: World) {
    c.enabled && w.available && w.success && w.suspended == Some(false)
  }

  /** Everything a Stop needs at the moment it goes on the wire. */
  predicate Due(c: Controller, w: World) {
    Readable(c, w) && w.active && w.evseEnabled == Some(0) && AtTarget(w) && !EnergyBack(c, w) && !ClockBack(c, w)
  }

  function DecisionNow(w: World): Decision
    requires AtTarget(w)
  {
    Decision(Round(w.current.value), Round(w.target.value))
  }

  // --- The atomic sections, on values ----------------------------------------------

  function Toggled(c: Controller, enabled: bool): Controller {
    if enabled == c.enabled then c else Rearmed(c.(enabled := enabled))
  }

  /** A re-arm on a poll that proves a new session. */
  function Boundary(c: Controller, w: World): Controller {
    if w.active && (c.pending.Some? || c.fired) && (EnergyBack(c, w) || ClockBack(c, w)) then Rearmed(c) else c
  }

  /** The confirmation of a Stop by the charger itself. */
  function Confirmed(c: Controller, w: World): Controller {
    if Confirms(c, w) then c.(fired := true, pending := None) else c
  }

  predicate StartsStop(c: Controller, w: World, done: bool) {
    && w.active && !c.fired && (c.task.Some? ==> done)
    && w.evseEnabled == Some(0) && AtTarget(w)
  }

  /** `process`: one evaluation of the newest poll.  `done` says whether the recorded task has
      ended, and `ticket` names the task that would be started. */
  function Processed(c: Controller, w: World, done: bool, ticket: nat): Reaction {
    if !Readable(c, w) then Reaction(c, None, None, None) else
      var settled := Boundary(c, w);
      var seen := Confirmed(settled, w);
      var reached := if Confirms(settled, w) then settled.pending else None;
      if !w.active && (seen.fired || seen.pending.Some? || seen.task.Some?) then
        Reaction(Rearmed(seen), reached, c.task, None)
      else if StartsStop(seen, w, done) then
        Reaction(seen.(task := Some(ticket)), reached, if settled != c then c.task else None,
                 Some(Job(seen.generation, DecisionNow(w), w.energy.value, w.clock)))
      else Reaction(seen, reached, if settled != c then c.task else None, None)
  }

  /** `_stop` after its first yield: record the attempt, unless limits were suspended meanwhile. */
  function Begun(c: Controller, w: World, job: Job): (r: (Controller, bool)) {
    var recorded := if c.pending.Some? then c
                    else c.(attempted := false, pending := Some(job.decision),
                            pendingEnergy := Some(job.energy), pendingClock := job.clock);
    if w.suspended == Some(true) then (WithdrawToken(recorded), false) else (recorded, true)
  }

  /** `_stop_still_due`: the check at the wire. */
  function Checked(c: Controller, w: World, generation: nat): (r: (Controller, bool)) {
    if generation == c.generation && Due(c, w) then (c.(pending := Some(DecisionNow(w)), attempted := true), true)
    else (c, false)
  }

  /** `_stop` after the command was answered. */
  function Finished(c: Controller, generation: nat, outcome: Outcome): Controller {
    if generation != c.generation then c
    else if outcome == Accepted then c.(attempted := true)
    else WithdrawToken(c)
  }

  lemma StopsAtTarget(c: Controller, w: World, done: bool)
    ensures StartsStop(c, w, done) ==> w.active && AtTarget(w)
  {
  }

  /** Only an active poll can prove a new session, and a confirmation leaves the task alone. */
  lemma KeptUntilTheEnd(c: Controller, w: World)
    requires !w.active
    ensures Boundary(c, w) == c && Confirmed(c, w).task == c.task
  {
  }

  // --- The controller --------------------------------------------------------------

  class SocLimitController {
    var enabled: bool
    var fired: bool
    var pending: Option<Decision>
    var attempted: bool
    var pendingEnergy: Option<real>
    var pendingClock: Option<int>
    var generation: nat
    var stopTask: Option<nat>

    ghost function State(): Controller
      reads this
    {
      Controller(enabled, fired, pending, attempted, pendingEnergy, pendingClock, generation, stopTask)
    }

    constructor ()
      ensures State() == IDLE
    {
      enabled, fired, pending, attempted := false, false, None, false;
      pendingEnergy, pendingClock, generation, stopTask := None, None, 0, None;
    }

    /** Returns the task it cancelled. */
    method Rearm() returns (cancelled: Option<nat>)
      modifies this
      ensures State() == Rearmed(old(State())) && cancelled == old(stopTask)
    {
      fired, pending, attempted := false, None, false;
      pendingEnergy, pendingClock := None, None;
      generation := generation + 1;
      cancelled := stopTask;
      stopTask := None;
    }

    method SetEnabled(value: bool) returns (cancelled: Option<nat>)
      modifies this
      ensures State() == Toggled(old(State()), value)
      ensures cancelled == if value == old(enabled) then None else old(stopTask)
    {
      if value == enabled {
        return None;
      }
      enabled := value;
      cancelled := Rearm();
    }

    /** A poll that proves a new session discards what belongs to the old one. */
    method LeaveOldSession(w: World) returns (cancelled: Option<nat>)
      modifies this
      ensures State() == Boundary(old(State()), w)
      ensures cancelled == if State() != old(State()) then old(stopTask) else None
    {
      cancelled := None;
      if w.active && (pending.Some? || fired) {
        var energyReset := pendingEnergy.Some? && w.energy.Some? && w.energy.value < pendingEnergy.value - RESET_EPS;
        var clockReset := pendingClock.Some? && w.clock.Some? && w.clock.value < pendingClock.value;
        if energyReset || clockReset {
          cancelled := Rearm();
        }
      }
    }

    /** `_emit_reached`, once the charger confirms the Stop. */
    method ConfirmStop(w: World) returns (reached: Option<Decision>)
      modifies this
      ensures State() == Confirmed(old(State()), w)
      ensures reached == if Confirms(old(State()), w) then old(pending) else None
    {
      reached := None;
      if pending.Some? && attempted && !fired && w.evseEnabled == Some(1) {
        reached := pending;
        fired, pending := true, None;
      }
    }

    /** The rest of an active poll: whether a Stop is to be started. */
    method NeedsStop(w: World, done: bool) returns (needed: bool)
      requires w.active
      ensures needed == StartsStop(State(), w, done)
    {
      if w.evseEnabled == None || fired || (stopTask.Some? && !done) || w.evseEnabled != Some(0) {
        return false;
      }
      if w.target == None || w.target.value <= 0.0 || w.energy == None {
        return false;
      }
      return w.current.Some? && w.current.value >= w.target.value;
    }

    method Process(w: World, done: bool, ticket: nat)
      returns (reached: Option<Decision>, cancelled: Option<nat>, started: Option<Job>)
      modifies this
      ensures Reaction(State(), reached, cancelled, started) == Processed(old(State()), w, done, ticket)
    {
      hide Boundary, Confirms, StartsStop;
      reached, cancelled, started := None, None, None;
      if !enabled || !w.available || !w.success || w.suspended != Some(false) {
        return;
      }
      cancelled := LeaveOldSession(w);
      reached := ConfirmStop(w);
      StopsAtTarget(State(), w, done);
      if !w.active {
        if fired || pending.Some? || stopTask.Some? {
          KeptUntilTheEnd(old(State()), w);
          cancelled := Rearm();
        }
        return;
      }
      var needed := NeedsStop(w, done);
      if needed {
        stopTask := Some(ticket);
        started := Some(Job(generation, Decision(Round(w.current.value), Round(w.target.value)), w.energy.value, w.clock));
      }
    }

    method BeginStop(w: World, job: Job) returns (proceed: bool)
      modifies this
      ensures (State(), proceed) == Begun(old(State()), w, job)
    {
      if pending == None {
        attempted := false;
        pending := Some(job.decision);
        pendingEnergy := Some(job.energy);
        pendingClock := job.clock;
      }
      if w.suspended == Some(true) {
        if !fired {
          pending, pendingEnergy, pendingClock := None, None, None;
        }
        return false;
      }
      return true;
    }

    method StopStillDue(w: World, gen: nat) returns (due: bool)
      modifies this
      ensures (State(), due) == Checked(old(State()), w, gen)
    {
      if gen != generation || !enabled || !w.available || !w.success {
        return false;
      }
      if w.suspended != Some(false) || !w.active || w.evseEnabled != Some(0) || w.energy == None
         || w.target == None || w.target.value <= 0.0
         || (pendingEnergy.Some? && w.energy.value < pendingEnergy.value - RESET_EPS)
         || (pendingClock.Some? && w.clock.Some? && w.clock.value < pendingClock.value) {
        return false;
      }
      if w.current == None || w.current.value < w.target.value {
        return false;
      }
      pending := Some(Decision(Round(w.current.value), Round(w.target.value)));
      attempted := true;
      return true;
    }

    method FinishStop(gen: nat, outcome: Outcome)
      modifies this
      ensures State() == Finished(old(State()), gen, outcome)
    {
      if gen != generation {
        return;
      }
      if outcome != Accepted {
        if !fired {
          pending, pendingEnergy, pendingClock := None, None, None;
        }
        return;
      }
      attempted := true;
    }
  }
}
