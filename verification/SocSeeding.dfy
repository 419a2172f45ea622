/** Initial SOC over a run of polls and hand edits: when it is taken from the car, and how long
    a value once set is kept. */
module SocSeeding {
  import opened Common
  import opened SocArithmetic

  const ERROR: int := 7
  const SESSION_ACTIVE: set<int> := {4, 6}
  const CONNECTED: set<int> := {3, 4, 5, 6}

  /** What the entity keeps: whether this plug-in cycle has its anchor, the session clock as last
      seen in it, and the value itself. */
  datatype Entity = Entity(seeded: bool, clock: Option<int>, value: Option<real>)

  /** One coordinator update: whether it succeeded, the charger's named state, and what a seed
      would be made of.  `configured` says a car SOC sensor is set up. */
  datatype Poll = Poll(
    success: bool,
    state: Option<int>,
    clock: Option<int>,
    configured: bool,
    car: Option<real>,
    meter: Meter,
    helpers: Helpers)

  datatype Event = Update(poll: Poll) | SetByHand(value: real)

  predicate Unplugged(p: Poll) {
    p.success && p.state.Some? && p.state.value !in CONNECTED && p.state.value != ERROR
  }

  /** The poll shows a plugged-in car with a session clock. */
  predicate TellsTheClock(p: Poll) {
    p.success && p.state.Some? && p.state.value in CONNECTED && p.clock.Some?
  }

  function Noted(e: Entity, clock: Option<int>): Entity {
    if clock == None then e
    else e.(seeded := e.seeded && (e.clock.Some? ==> clock.value >= e.clock.value), clock := clock)
  }

  /** `_maybe_seed_from_external_soc`. */
  function Updated(e: Entity, p: Poll): Entity {
    if !p.success || p.state == None then e
    else if Unplugged(p) then e.(seeded := false)
    else
      var noted := if p.state.value in CONNECTED then Noted(e, p.clock) else e;
      if noted.seeded || p.state.value !in SESSION_ACTIVE || !p.configured then noted
      else match Rebased(p.car, p.meter, p.helpers)
        case Refused(_) => noted
        case Anchored(percent) => noted.(seeded := true, value := Some(Clamped(percent)))
  }

  function After(e: Entity, event: Event): Entity {
    match event
    case Update(p) => Updated(e, p)
    case SetByHand(v) => e.(seeded := true, value := Some(Clamped(v)))
  }

  function Run(start: Entity, events: seq<Event>): Entity {
    if events == [] then start else After(Run(start, events[..|events| - 1]), events[|events| - 1])
  }

  lemma {:induction false} Unfold(start: Entity, events: seq<Event>, event: Event)
    ensures Run(start, events + [event]) == After(Run(start, events), event)
  {
    assert (events + [event])[..|events|] == events;
  }

  /** The session clock last told, from `clock` on. */
  function Told(clock: Option<int>, events: seq<Event>): Option<int> {
    if events == [] then clock else
      var last := events[|events| - 1];
      if last.Update? && TellsTheClock(last.poll) then last.poll.clock else Told(clock, events[..|events| - 1])
  }

  /** One plug-in cycle: no unplug is seen, and the session clock never goes back. */
  predicate OneCycle(clock: Option<int>, events: seq<Event>) {
    events == [] ||
    var before, last := events[..|events| - 1], events[|events| - 1];
    && OneCycle(clock, before)
    && (last.Update? ==> !Unplugged(last.poll))
    && (last.Update? && TellsTheClock(last.poll) && Told(clock, before).Some? ==> last.poll.clock.value >= Told(clock, before).value)
  }

  lemma {:induction false} TheClockIsTheLastTold(start: Entity, events: seq<Event>)
    ensures Run(start, events).clock == Told(start.clock, events)
  {
    if events != [] {
      TheClockIsTheLastTold(start, events[..|events| - 1]);
    }
  }

  predicate NoHand(events: seq<Event>) {
    forall i :: 0 <= i < |events| ==> events[i].Update?
  }

  /** A value, once set by hand or taken from the car, is kept for the rest of the plug-in cycle
      whatever the car reports: seeding happens at most once a cycle and never over the user. */
  lemma {:induction false} ASettledValueIsKept(start: Entity, events: seq<Event>)
    requires start.seeded && OneCycle(start.clock, events) && NoHand(events)
    ensures Run(start, events).seeded && Run(start, events).value == start.value
  {
    if events != [] {
      var before, last := events[..|events| - 1], events[|events| - 1];
      assert last.Update?;
      ASettledValueIsKept(start, before);
      TheClockIsTheLastTold(start, before);
    }
  }

  /** An event that lets the next usable reading seed again. */
  predicate Rearms(e: Entity, p: Poll) {
    Unplugged(p) || (TellsTheClock(p) && e.clock.Some? && p.clock.value < e.clock.value)
  }

  /** A poll a seed may be taken on, with a usable reading. */
  predicate Seeds(p: Poll) {
    && p.success && p.state.Some? && p.state.value in SESSION_ACTIVE && p.configured
    && Rebased(p.car, p.meter, p.helpers).Anchored?
  }

  lemma ActiveIsConnected(state: int)
    ensures state in SESSION_ACTIVE ==> state in CONNECTED
    ensures state in CONNECTED ==> state != ERROR
  {
  }

  /** What one poll does, whatever came before. */
  lemma OnePoll(e: Entity, p: Poll)
    ensures Updated(e, p).seeded <==> Seeds(p) || (e.seeded && !Rearms(e, p))
    ensures Updated(e, p).value ==
      if Seeds(p) && (!e.seeded || Rearms(e, p)) then Some(Clamped(Rebased(p.car, p.meter, p.helpers).percent))
      else e.value
  {
    hide Rebased, Clamped;
    if p.success && p.state.Some? {
      ActiveIsConnected(p.state.value);
    }
  }

  /** A poll changes the anchor flag only as it should: seeded afterwards exactly when it seeds, or
      was seeded and nothing re-armed it. */
  lemma SeededAfterAPollExactlyWhen(start: Entity, events: seq<Event>, p: Poll)
    ensures var e := Run(start, events);
      Run(start, events + [Update(p)]).seeded <==> Seeds(p) || (e.seeded && !Rearms(e, p))
  {
    hide Run, Rebased, Updated, Seeds, Rearms;
    Unfold(start, events, Update(p));
    OnePoll(Run(start, events), p);
  }

  /** And it changes the value only by seeding an unanchored cycle: the value is then the car's
      reading taken back to the start of the session. */
  lemma TheValueMovesOnlyBySeeding(start: Entity, events: seq<Event>, p: Poll)
    ensures var e, next := Run(start, events), Run(start, events + [Update(p)]);
      next.value ==
        if Seeds(p) && (!e.seeded || Rearms(e, p)) then Some(Clamped(Rebased(p.car, p.meter, p.helpers).percent))
        else e.value
  {
    hide Run, Rebased, Updated, Rearms, Clamped;
    Unfold(start, events, Update(p));
    OnePoll(Run(start, events), p);
  }

  /** The first usable reading of an unanchored session is taken, however many unusable ones went
      before, and is then kept to the end of the cycle; every later figure of the session follows the
      car to within 0.5/capacity percent. */
  lemma TheSessionFollowsTheCar(start: Entity, events: seq<Event>, p: Poll, later: seq<Event>, energy: real)
    requires !Run(start, events).seeded && Seeds(p) && Settled(p.helpers)
    requires p.meter.Delivered? && 0.0 <= p.meter.kwh <= energy
    requires OneCycle(Run(start, events + [Update(p)]).clock, later) && NoHand(later)
    ensures var initial := Run(Run(start, events + [Update(p)]), later).value;
      var after := p.helpers.(initial := initial);
      && ExactPercent(after, energy).Some?
      && var truth := Min(100.0, p.car.value + Gained(p.helpers, energy - p.meter.kwh));
         Within(ExactPercent(after, energy).value, truth, 0.5 / p.helpers.capacity.value)
  {
    hide Run, Rebased, ExactPercent, Within, Gained;
    SeededAfterAPollExactlyWhen(start, events, p);
    TheValueMovesOnlyBySeeding(start, events, p);
    ASettledValueIsKept(Run(start, events + [Update(p)]), later);
    ReadingIsInRange(p.car, p.meter, p.helpers);
    SeedReadsBack(p.helpers, p.car.value, p.meter.kwh, energy);
  }

  lemma ReadingIsInRange(car: Option<real>, meter: Meter, h: Helpers)
    requires Rebased(car, meter, h).Anchored?
    ensures car.Some? && 0.0 <= car.value <= 100.0
  {
  }

  /** The entity as the integration keeps it. */
  class InitialSoc {
    var sessionSeeded: bool
    var cycleSessionTime: Option<int>
    var value: Option<real>

    ghost function State(): Entity
      reads this
    {
      Entity(sessionSeeded, cycleSessionTime, value)
    }

    constructor (restored: Option<real>)
      ensures State() == Entity(false, None, restored)
    {
      sessionSeeded, cycleSessionTime, value := false, None, restored;
    }

    method SetNativeValue(v: real)
      modifies this
      ensures State() == After(old(State()), SetByHand(v))
    {
      sessionSeeded := true;
      value := Some(Clamped(v));
    }

    method NoteSessionClock(clock: Option<int>)
      modifies this
      ensures State() == Noted(old(State()), clock)
    {
      if clock == None {
        return;
      }
      if cycleSessionTime.Some? && clock.value < cycleSessionTime.value {
        sessionSeeded := false;
      }
      cycleSessionTime := clock;
    }

    method MaybeSeed(p: Poll)
      modifies this
      ensures State() == After(old(State()), Update(p))
    {
      if !p.success || p.state == None {
        return;
      }
      var state := p.state.value;
      if state !in CONNECTED && state != ERROR {
        sessionSeeded := false;
        return;
      }
      if state in CONNECTED {
        NoteSessionClock(p.clock);
      }
      if sessionSeeded || state !in SESSION_ACTIVE || !p.configured {
        return;
      }
      var seed := Rebased(p.car, p.meter, p.helpers);
      if seed.Refused? {
        return;
      }
      sessionSeeded := true;
      value := Some(Clamped(seed.percent));
    }
  }
}
