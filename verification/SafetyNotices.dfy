/** The life of a safety notice (`EveusSafetyManager._process_policy`): debounce, recovery,
    latching, dismissal and re-alert, over every run of polls, dismissals and reloads. */
module SafetyNotices {
  import opened Common

  // --- Signals -------------------------------------------------------------------------

  /** The charger's own fault: none, a code, or unreadable. */
  datatype Fault = NoFault | Code(code: int) | Unreadable

  const ERROR: int := 7

  /** The codes the charger can name; 0 is "no error". */
  predicate NamedCode(code: int) {
    0 <= code <= 14
  }

  /** `_fault_code`: the code of the error state, from a state the map can name. */
  function FaultCode(state: Option<int>, subState: Option<int>): Fault {
    if state == None then Unreadable
    else if state.value != ERROR then NoFault
    else if subState.Some? && NamedCode(subState.value) && subState.value != 0 then Code(subState.value)
    else Unreadable
  }

  /** A fault is never taken from a payload that does not report one, and an error without a
      code of its own is not taken for the absence of a fault. */
  lemma FaultsAreReported(state: Option<int>, subState: Option<int>)
    ensures FaultCode(state, subState).Code? ==> state == Some(ERROR) && subState == Some(FaultCode(state, subState).code)
    ensures FaultCode(state, subState) == NoFault <==> state.Some? && state.value != ERROR
    ensures FaultCode(state, subState) != Code(0)
  {
  }

  /** A policy; its raw signals are absent when the charger has no telemetry for it. */
  datatype Policy = Policy(
    codes: set<int>, autoClear: bool, hasRawTrigger: bool, hasRawRecovered: bool, triggerPolls: nat, recoveryPolls: nat)

  ghost predicate Usable(p: Policy) {
    p.triggerPolls >= 1 && p.recoveryPolls >= 1
  }

  datatype Signals = Signals(trigger: Option<bool>, recovered: Option<bool>, fault: bool)

  /** `evaluate_policy_signals` and `matching_firmware_fault`: true, false or unknown. */
  function Evaluate(p: Policy, fault: Fault, raw: Option<bool>, rawRecovered: Option<bool>): Signals {
    var matches := if p.codes == {} then Some(false)
                   else match fault case Unreadable => None case NoFault => Some(false) case Code(c) => Some(c in p.codes);
    var cleared := if p.codes == {} then Some(true) else if matches == None then None else Some(!matches.value);
    var rawTrigger := if p.hasRawTrigger then raw else Some(false);
    var rawClear := if p.hasRawRecovered then rawRecovered else Some(true);
    Signals(
      if matches == Some(true) || rawTrigger == Some(true) then Some(true)
      else if p.hasRawTrigger && rawTrigger == None then None
      else if !p.hasRawTrigger && matches == None then None
      else Some(false),
      if cleared == Some(false) || rawClear == Some(false) then Some(false)
      else if cleared == None || rawClear == None then None
      else Some(true),
      fault.Code? && fault.code in p.codes)
  }

  /** A firmware fault decides both signals, and without one only readings that are known do: the raw
      trigger alone where there is one, and for recovery the fault code and the raw signal together. */
  lemma SignalsAreConservative(p: Policy, fault: Fault, raw: Option<bool>, rawRecovered: Option<bool>)
    ensures var s, known := Evaluate(p, fault, raw, rawRecovered), p.codes == {} || fault != Unreadable;
      && (s.fault ==> s.trigger == Some(true) && s.recovered == Some(false))
      && (s.trigger == Some(true) <==> s.fault || (p.hasRawTrigger && raw == Some(true)))
      && (s.trigger == Some(false) <==> !s.fault && if p.hasRawTrigger then raw == Some(false) else known)
      && (s.recovered == Some(true) <==> !s.fault && known && (p.hasRawRecovered ==> rawRecovered == Some(true)))
      && (s.recovered == Some(false) <==> s.fault || (p.hasRawRecovered && rawRecovered == Some(false)))
  {
    ThreeValued(raw);
    ThreeValued(rawRecovered);
  }

  lemma ThreeValued(reading: Option<bool>)
    ensures reading == None || reading == Some(true) || reading == Some(false)
  {
    match reading
    case None =>
    case Some(b) =>
      if b {
        assert reading == Some(true);
      } else {
        assert reading == Some(false);
      }
  }

  // --- One policy ----------------------------------------------------------------------

  /** The registry's notice: absent, or active and possibly dismissed by the user. */
  datatype Notice = Absent | Active(dismissed: bool)

  /** The counters, the sticky memory, its copy in storage, and the notice. */
  datatype State = State(
    triggerStreak: nat, recoveryStreak: nat, recovered: bool, recoveredSinceRaised: bool, saved: bool, notice: Notice)

  const START := State(0, 0, false, false, false, Absent)

  /** `OtherSave`: another policy's change wrote every policy's memory to storage. */
  datatype Input = Poll(signals: Signals) | Dismiss | TakeBack | Reload | OtherSave

  function AtMost(n: nat, limit: nat): nat {
    if n <= limit then n else limit
  }

  function Triggered(p: Policy, s: State, fault: bool): State {
    var streak := if fault then p.triggerPolls else AtMost(s.triggerStreak + 1, p.triggerPolls);
    var seen := s.(triggerStreak := streak, recoveryStreak := 0, recovered := false);
    if streak < p.triggerPolls then seen
    else if s.notice == Absent || (s.notice.dismissed && s.recoveredSinceRaised) then
      seen.(notice := Active(false), recoveredSinceRaised := false,
            saved := if s.recoveredSinceRaised then false else s.saved)
    else seen
  }

  function Quiet(p: Policy, s: State, trigger: Option<bool>, recovered: Option<bool>): State {
    var seen := if trigger == Some(false) then s.(triggerStreak := 0) else s;
    if s.notice == Absent then seen.(recoveryStreak := 0, recovered := false) else
      var counted :=
        match recovered
        case Some(true) =>
          var streak := AtMost(s.recoveryStreak + 1, p.recoveryPolls);
          seen.(recoveryStreak := streak, recovered := streak >= p.recoveryPolls)
        case Some(false) => seen.(recoveryStreak := 0, recovered := false)
        case None => seen;
      if !counted.recovered then counted
      else if p.autoClear || s.notice.dismissed then
        State(0, 0, false, false, if s.recoveredSinceRaised then s.saved else false, Absent)
      else counted.(recoveredSinceRaised := true, saved := if s.recoveredSinceRaised then s.saved else true)
  }

  /** One poll, the user dismissing the notice or taking that back, or one reload of the entry, which
      keeps only what was saved. */
  function After(p: Policy, s: State, input: Input): State {
    match input
    case Poll(g) => if g.trigger == Some(true) then Triggered(p, s, g.fault) else Quiet(p, s, g.trigger, g.recovered)
    case Dismiss => if s.notice == Absent then s else s.(notice := Active(true))
    case TakeBack => if s.notice == Absent then s else s.(notice := Active(false))
    case Reload => State(0, 0, false, s.saved, s.saved, s.notice)
    case OtherSave => s.(saved := s.recoveredSinceRaised)
  }

  function Run(p: Policy, inputs: seq<Input>): State {
    if inputs == [] then START else After(p, Run(p, inputs[..|inputs| - 1]), inputs[|inputs| - 1])
  }

  // --- What a run has shown, in terms of its inputs alone ----------------------------------

  /** True trigger readings since the last false one. */
  function TrueRun(inputs: seq<Input>): nat {
    if inputs == [] then 0 else
      var rest := TrueRun(inputs[..|inputs| - 1]);
      match inputs[|inputs| - 1]
      case Poll(g) => if g.trigger == Some(true) then rest + 1 else if g.trigger == Some(false) then 0 else rest
      case _ => rest
  }

  /** A firmware fault since the last false trigger reading. */
  predicate FaultRun(inputs: seq<Input>) {
    if inputs == [] then false else
      var rest := FaultRun(inputs[..|inputs| - 1]);
      match inputs[|inputs| - 1]
      case Poll(g) => if g.trigger == Some(true) then g.fault || rest else if g.trigger == Some(false) then false else rest
      case _ => rest
  }

  /** Recovered readings since the last one that was not recovered, or that triggered, or a reload. */
  function RecoveredRun(inputs: seq<Input>): nat {
    if inputs == [] then 0 else
      var rest := RecoveredRun(inputs[..|inputs| - 1]);
      match inputs[|inputs| - 1]
      case Poll(g) =>
        if g.trigger == Some(true) || g.recovered == Some(false) then 0
        else if g.recovered == Some(true) then rest + 1 else rest
      case Reload => 0
      case _ => rest
  }

  /** A true trigger reading turns `before` into a notice that the user has not dismissed. */
  predicate Raises(before: Notice, input: Input, after: Notice) {
    input.Poll? && input.signals.trigger == Some(true) && after == Active(false) && before != Active(false)
  }

  /** The last input raised a new notice. */
  predicate RaisedNow(p: Policy, inputs: seq<Input>) {
    inputs != [] && Raises(Run(p, inputs[..|inputs| - 1]).notice, inputs[|inputs| - 1], Run(p, inputs).notice)
  }

  /** The last input deleted the notice. */
  predicate DeletedNow(p: Policy, inputs: seq<Input>) {
    inputs != [] && Run(p, inputs).notice == Absent && Run(p, inputs[..|inputs| - 1]).notice.Active?
  }

  /** True trigger readings since the last false one, reload or deletion; a firmware fault counts as
      the whole debounce. */
  function TriggerRun(p: Policy, inputs: seq<Input>): nat {
    if inputs == [] || DeletedNow(p, inputs) then 0 else
      var rest := TriggerRun(p, inputs[..|inputs| - 1]);
      match inputs[|inputs| - 1]
      case Poll(g) =>
        if g.trigger == Some(true) then (if g.fault then p.triggerPolls else rest + 1)
        else if g.trigger == Some(false) then 0 else rest
      case Reload => 0
      case _ => rest
  }

  /** Recovery is confirmed while the notice is open. */
  predicate ConfirmedNow(p: Policy, inputs: seq<Input>) {
    Run(p, inputs).notice.Active? && RecoveredRun(inputs) >= p.recoveryPolls
  }

  /** Recovery has been confirmed at some input since the notice was raised. */
  predicate Recovered(p: Policy, inputs: seq<Input>) {
    if inputs == [] || RaisedNow(p, inputs) then false
    else ConfirmedNow(p, inputs) || Recovered(p, inputs[..|inputs| - 1])
  }

  /** A reload since the notice was raised has read the memory of an earlier notice. */
  predicate StaleReload(p: Policy, inputs: seq<Input>)
    decreases |inputs|, 0
  {
    if inputs == [] || RaisedNow(p, inputs) then false
    else (inputs[|inputs| - 1] == Reload && StaleStorage(p, inputs[..|inputs| - 1])) || StaleReload(p, inputs[..|inputs| - 1])
  }

  /** The storage still holds the memory of a notice that is deleted: none of the saves that would have
      corrected it came since. */
  predicate StaleStorage(p: Policy, inputs: seq<Input>)
    decreases |inputs|, 0
  {
    if inputs == [] then false else
      var before := inputs[..|inputs| - 1];
      match inputs[|inputs| - 1]
      case Poll(_) =>
        if DeletedNow(p, inputs) then Remembered(p, before)
        else !ConfirmedNow(p, inputs) && StaleStorage(p, before)
      case Reload => false
      case OtherSave => false
      case _ => StaleStorage(p, before)
  }

  /** What the manager believes of an open notice: that it has recovered. */
  predicate Remembered(p: Policy, inputs: seq<Input>)
    decreases |inputs|, 1
  {
    Recovered(p, inputs) || StaleReload(p, inputs)
  }

  lemma {:induction false} Unfold(p: Policy, inputs: seq<Input>, input: Input)
    ensures (inputs + [input])[..|inputs|] == inputs
    ensures Run(p, inputs + [input]) == After(p, Run(p, inputs), input)
  {
    assert (inputs + [input])[..|inputs|] == inputs;
  }

  // --- Invariants over all runs -----------------------------------------------------------

  /** The counters are the runs of readings. */
  ghost predicate Counts(p: Policy, inputs: seq<Input>, s: State) {
    && s.triggerStreak == AtMost(TriggerRun(p, inputs), p.triggerPolls)
    && s.recoveryStreak == (if s.notice.Active? then AtMost(RecoveredRun(inputs), p.recoveryPolls) else 0)
    && (s.recovered <==> s.recoveryStreak >= p.recoveryPolls)
    && (s.recovered ==> s.recoveredSinceRaised && !p.autoClear)
  }

  lemma {:induction false} CountersCount(p: Policy, inputs: seq<Input>)
    requires Usable(p)
    ensures Counts(p, inputs, Run(p, inputs))
  {
    if inputs != [] {
      var before, input := inputs[..|inputs| - 1], inputs[|inputs| - 1];
      CountersCount(p, before);
      CountStep(p, before, input);
      assert before + [input] == inputs;
    }
  }

  /** The runs of readings, one input further. */
  lemma UnfoldRuns(p: Policy, before: seq<Input>, input: Input)
    ensures RecoveredRun(before + [input]) ==
      match input
      case Poll(g) =>
        if g.trigger == Some(true) || g.recovered == Some(false) then 0
        else RecoveredRun(before) + (if g.recovered == Some(true) then 1 else 0)
      case Reload => 0
      case _ => RecoveredRun(before)
    ensures TriggerRun(p, before + [input]) ==
      if DeletedNow(p, before + [input]) then 0
      else match input
        case Poll(g) =>
          if g.trigger == Some(true) then (if g.fault then p.triggerPolls else TriggerRun(p, before) + 1)
          else if g.trigger == Some(false) then 0 else TriggerRun(p, before)
        case Reload => 0
        case _ => TriggerRun(p, before)
  {
    Unfold(p, before, input);
  }

  lemma CountStep(p: Policy, before: seq<Input>, input: Input)
    requires Usable(p) && Counts(p, before, Run(p, before))
    ensures Counts(p, before + [input], Run(p, before + [input]))
  {
    hide Run, RecoveredRun, TriggerRun;
    Unfold(p, before, input);
    UnfoldRuns(p, before, input);
  }

  /** The memory of an open notice is what the run shows, and the storage differs from the memory
      exactly when it is stale. */
  ghost predicate Remembers(p: Policy, inputs: seq<Input>, s: State) {
    && (s.notice.Active? ==> (s.recoveredSinceRaised <==> Remembered(p, inputs)))
    && (s.recoveredSinceRaised ==> s.saved)
    && (s.saved != s.recoveredSinceRaised <==> StaleStorage(p, inputs))
  }

  lemma {:induction false} MemoryIsExact(p: Policy, inputs: seq<Input>)
    requires Usable(p)
    ensures Remembers(p, inputs, Run(p, inputs))
  {
    if inputs != [] {
      var before, input := inputs[..|inputs| - 1], inputs[|inputs| - 1];
      MemoryIsExact(p, before);
      CountersCount(p, before);
      CountersCount(p, inputs);
      assert before + [input] == inputs;
      MemoryStep(p, before, input);
    }
  }

  /** What is said of the memory, one input further. */
  lemma UnfoldMemory(p: Policy, before: seq<Input>, input: Input)
    ensures var inputs := before + [input];
      && (RaisedNow(p, inputs) <==> Raises(Run(p, before).notice, input, Run(p, inputs).notice))
      && (Recovered(p, inputs) <==> !RaisedNow(p, inputs) && (ConfirmedNow(p, inputs) || Recovered(p, before)))
      && (StaleReload(p, inputs) <==>
            !RaisedNow(p, inputs) && ((input == Reload && StaleStorage(p, before)) || StaleReload(p, before)))
      && (StaleStorage(p, inputs) <==>
            match input
            case Poll(_) =>
              if Run(p, inputs).notice == Absent && Run(p, before).notice.Active? then Remembered(p, before)
              else !ConfirmedNow(p, inputs) && StaleStorage(p, before)
            case Reload => false
            case OtherSave => false
            case _ => StaleStorage(p, before))
  {
    Unfold(p, before, input);
  }

  lemma MemoryStep(p: Policy, before: seq<Input>, input: Input)
    requires Usable(p) && Remembers(p, before, Run(p, before))
    requires Counts(p, before, Run(p, before)) && Counts(p, before + [input], Run(p, before + [input]))
    ensures Remembers(p, before + [input], Run(p, before + [input]))
  {
    hide Run, TriggerRun, RecoveredRun, RaisedNow, Recovered, StaleReload, StaleStorage;
    Unfold(p, before, input);
    UnfoldRuns(p, before, input);
    UnfoldMemory(p, before, input);
  }

  // --- When a notice comes and goes ---------------------------------------------------------

  /** Over every run: an input raises a notice exactly when it is a true trigger reading that completes
      the debounce, and there is no notice, or a dismissed one that has recovered since it was raised
      or that a reload of stale storage took for recovered. */
  lemma RaisedExactlyWhen(p: Policy, inputs: seq<Input>, input: Input)
    requires Usable(p)
    ensures RaisedNow(p, inputs + [input]) <==>
      && input.Poll? && input.signals.trigger == Some(true) && TriggerRun(p, inputs + [input]) >= p.triggerPolls
      && match Run(p, inputs).notice
         case Absent => true
         case Active(dismissed) => dismissed && (Recovered(p, inputs) || StaleReload(p, inputs))
  {
    hide Recovered, StaleReload, StaleStorage, RecoveredRun, TriggerRun;
    Unfold(p, inputs, input);
    MemoryIsExact(p, inputs);
    CountersCount(p, inputs + [input]);
  }

  lemma {:induction false} TriggerRunIsBacked(p: Policy, inputs: seq<Input>)
    ensures TriggerRun(p, inputs) <= TrueRun(inputs) || FaultRun(inputs)
  {
    if inputs != [] {
      TriggerRunIsBacked(p, inputs[..|inputs| - 1]);
    }
  }

  /** In terms of the readings alone: only a firmware fault, or a whole debounce of true readings, raises
      a notice, with no false one between. */
  lemma RaisedOnlyWithEvidence(p: Policy, inputs: seq<Input>, input: Input)
    requires Usable(p) && RaisedNow(p, inputs + [input])
    ensures FaultRun(inputs + [input]) || TrueRun(inputs + [input]) >= p.triggerPolls
  {
    hide RaisedNow, TriggerRun, TrueRun, FaultRun;
    RaisedExactlyWhen(p, inputs, input);
    TriggerRunIsBacked(p, inputs + [input]);
  }

  /** It deletes one exactly when recovery is confirmed by readings of one load that all came after the
      last trigger, and the notice clears itself or was dismissed. */
  lemma DeletedExactlyWhen(p: Policy, inputs: seq<Input>, input: Input)
    requires Usable(p) && Run(p, inputs).notice.Active?
    ensures Run(p, inputs + [input]).notice == Absent <==>
      && input.Poll? && input.signals.trigger != Some(true)
      && RecoveredRun(inputs + [input]) >= p.recoveryPolls && (p.autoClear || Run(p, inputs).notice.dismissed)
  {
    hide TriggerRun;
    Unfold(p, inputs, input);
    CountersCount(p, inputs);
  }

  /** A dismissed notice that never recovered is raised again exactly when its trigger is fresh and a
      reload since it was raised has read the memory of an earlier notice. */
  lemma DismissalIsOverriddenExactlyWhen(p: Policy, inputs: seq<Input>, g: Signals)
    requires Usable(p) && Run(p, inputs).notice == Active(true) && !Recovered(p, inputs)
    requires g.trigger == Some(true) && TriggerRun(p, inputs + [Poll(g)]) >= p.triggerPolls
    ensures RaisedNow(p, inputs + [Poll(g)]) <==> StaleReload(p, inputs)
  {
    hide Recovered, StaleReload, TriggerRun, RaisedNow;
    RaisedExactlyWhen(p, inputs, Poll(g));
  }

  /** A recovered and dismissed one always is. */
  lemma ARecoveredNoticeAlertsAgain(p: Policy, inputs: seq<Input>, g: Signals)
    requires Usable(p) && Run(p, inputs).notice == Active(true) && Recovered(p, inputs)
    requires g.trigger == Some(true) && TriggerRun(p, inputs + [Poll(g)]) >= p.triggerPolls
    ensures RaisedNow(p, inputs + [Poll(g)]) && !Recovered(p, inputs + [Poll(g)])
  {
    hide StaleReload, TriggerRun, RaisedNow;
    RaisedExactlyWhen(p, inputs, Poll(g));
  }

  /** Without a reload since it was raised, the memory is never wrong. */
  lemma {:induction false} OnlyReloadsMislead(p: Policy, inputs: seq<Input>, later: seq<Input>)
    requires RaisedNow(p, inputs) && Reload !in later
    ensures !StaleReload(p, inputs + later)
  {
    if later == [] {
      assert inputs + later == inputs;
    } else {
      var before, last := later[..|later| - 1], later[|later| - 1];
      assert inputs + later == (inputs + before) + [last];
      Unfold(p, inputs + before, last);
      assert last in later;
      OnlyReloadsMislead(p, inputs, before);
    }
  }

  /** An unknown poll moves nothing, except that it still deletes a dismissed notice whose recovery
      was confirmed before. */
  lemma UnknownMovesNothing(p: Policy, inputs: seq<Input>)
    requires Usable(p)
    ensures Run(p, inputs + [Poll(Signals(None, None, false))]) == Run(p, inputs)
      <==> !(RecoveredRun(inputs) >= p.recoveryPolls && Run(p, inputs).notice == Active(true))
  {
    Unfold(p, inputs, Poll(Signals(None, None, false)));
    CountersCount(p, inputs);
  }

  // --- Where it goes wrong -------------------------------------------------------------------

  const RELAY := Policy({3}, false, false, false, 1, 2)
  const FAULTY := Poll(Signals(Some(true), Some(false), true))
  const CLEAR := Poll(Signals(Some(false), Some(true), false))
  const UNKNOWN := Poll(Signals(None, None, false))

  lemma RecoveredRelay()
    ensures Run(RELAY, [FAULTY, CLEAR, CLEAR]) == State(0, 2, true, true, true, Active(false))
    ensures RecoveredRun([FAULTY, CLEAR, CLEAR]) == 2
  {
    Unfold(RELAY, [], FAULTY);
    Unfold(RELAY, [FAULTY], CLEAR);
    Unfold(RELAY, [FAULTY, CLEAR], CLEAR);
    assert [FAULTY] + [CLEAR] == [FAULTY, CLEAR] && [FAULTY, CLEAR] + [CLEAR] == [FAULTY, CLEAR, CLEAR];
    assert RecoveredRun([FAULTY, CLEAR]) == 1;
  }

  /** A poll that knows nothing deletes the notice: its recovery was confirmed, and then it was dismissed. */
  lemma AnUnknownPollDeletes()
    ensures Run(RELAY, [FAULTY, CLEAR, CLEAR, Dismiss]).notice == Active(true)
    ensures Run(RELAY, [FAULTY, CLEAR, CLEAR, Dismiss, UNKNOWN]).notice == Absent
  {
    RecoveredRelay();
    var recovered := [FAULTY, CLEAR, CLEAR];
    Unfold(RELAY, recovered, Dismiss);
    Unfold(RELAY, recovered + [Dismiss], UNKNOWN);
    assert recovered + [Dismiss] == [FAULTY, CLEAR, CLEAR, Dismiss];
    assert recovered + [Dismiss] + [UNKNOWN] == [FAULTY, CLEAR, CLEAR, Dismiss, UNKNOWN];
  }

  /** Over a reload the promise can break: deleting a recovered notice clears the memory
      without saving it, so a later notice that never recovered is taken for a recovered
      one after the reload, and raised again over its dismissal. */
  lemma StaleStorageReopensADismissedNotice()
    ensures var inputs := [FAULTY, CLEAR, CLEAR, Dismiss, CLEAR, FAULTY, Dismiss, Reload];
      && Run(RELAY, inputs).notice == Active(true) && !Recovered(RELAY, inputs)
      && RaisedNow(RELAY, inputs + [FAULTY])
  {
    RecoveredRelay();
    var recovered := [FAULTY, CLEAR, CLEAR];
    Unfold(RELAY, recovered, Dismiss);
    Unfold(RELAY, recovered + [Dismiss], CLEAR);
    var deleted := recovered + [Dismiss] + [CLEAR];
    assert Run(RELAY, deleted) == State(0, 0, false, false, true, Absent);
    Unfold(RELAY, deleted, FAULTY);
    Unfold(RELAY, deleted + [FAULTY], Dismiss);
    var again := deleted + [FAULTY] + [Dismiss];
    Unfold(RELAY, again, Reload);
    assert Run(RELAY, again + [Reload]) == State(0, 0, false, true, true, Active(true));
    Unfold(RELAY, again + [Reload], FAULTY);
    assert again + [Reload] == [FAULTY, CLEAR, CLEAR, Dismiss, CLEAR, FAULTY, Dismiss, Reload];
    assert RaisedNow(RELAY, deleted + [FAULTY]);
    assert RecoveredRun(deleted + [FAULTY]) == 0 == RecoveredRun(again);
    assert !Recovered(RELAY, deleted + [FAULTY]) && !Recovered(RELAY, again);
  }

  // --- The manager's state for one policy ------------------------------------------------------

  class PolicyState {
    var triggerStreak: nat
    var recoveryStreak: nat
    var recovered: bool
    var recoveredSinceRaised: bool
    var saved: bool
    var notice: Notice

    ghost function Now(): State
      reads this
    {
      State(triggerStreak, recoveryStreak, recovered, recoveredSinceRaised, saved, notice)
    }

    constructor ()
      ensures Now() == START
    {
      triggerStreak, recoveryStreak, recovered, recoveredSinceRaised, saved, notice := 0, 0, false, false, false, Absent;
    }

    /** Reconcile the notice against one fresh successful payload. */
    method Process(p: Policy, g: Signals)
      modifies this
      ensures Now() == After(p, old(Now()), Poll(g))
    {
      var persist := false;
      if g.trigger == Some(true) {
        recoveryStreak, recovered := 0, false;
        triggerStreak := if g.fault then p.triggerPolls else AtMost(triggerStreak + 1, p.triggerPolls);
        if triggerStreak >= p.triggerPolls {
          if notice.Active? && notice.dismissed && recoveredSinceRaised {
            notice := Absent;
          }
          if notice == Absent {
            notice := Active(false);
            if recoveredSinceRaised {
              recoveredSinceRaised := false;
              saved := recoveredSinceRaised;
            }
          }
        }
        return;
      }
      if g.trigger == Some(false) {
        triggerStreak := 0;
      }
      if notice == Absent {
        recoveryStreak, recovered := 0, false;
        return;
      }
      if g.recovered == Some(true) {
        recoveryStreak := AtMost(recoveryStreak + 1, p.recoveryPolls);
        recovered := recoveryStreak >= p.recoveryPolls;
      } else if g.recovered == Some(false) {
        recoveryStreak, recovered := 0, false;
      }
      if !recovered {
        return;
      }
      if !recoveredSinceRaised {
        recoveredSinceRaised, persist := true, true;
      }
      if p.autoClear || notice.dismissed {
        notice := Absent;
        triggerStreak, recoveryStreak, recovered, recoveredSinceRaised := 0, 0, false, false;
      }
      // The write is deferred: it saves what is remembered once the poll is over.
      if persist {
        saved := recoveredSinceRaised;
      }
    }
  }
}
