/** Concurrent writes to one setpoint (`async_set_native_value`, `_send_latest_write`
    and `_send_pinned_command`), as atomic steps between awaits.

    Calls are numbered in the order they are made; a call's number is also its token.
    A newer call takes the place of an older one that is still unsent, and the
    replaced call reports what became of the write that replaced it.
 */
module SetpointWrites {
  import opened Common

  datatype Outcome = Applied | Failed | Replaced

  datatype Phase =
    | Queued                 // waiting for the command lock
    | Sending(value: real)   // inside it, its value pinned on the display
    | Awaiting(token: nat)   // replaced, waiting for a newer write's outcome
    | Returned(ok: bool)

  /** One request on the wire: the value in Home Assistant's unit, and the number sent for it. */
  datatype Post = Post(call: nat, value: real, device: int)

  /** How an entity writes: whether requests are rounded to whole units first, and the device's
      units in one of Home Assistant's. */
  datatype Unit = Unit(whole: bool, scale: real)

  datatype Number = Number(
    unit: Unit,
    lo: real, hi: real,                // the writable bounds, which may move
    phases: seq<Phase>, raws: seq<real>,
    latest: Option<nat>,               // `_latest_write`
    holder: Option<nat>, queue: seq<nat>,
    pinned: Option<real>,              // `_pending_value`
    outcomes: map<nat, Outcome>,       // settled tokens
    accepted: set<nat>,                // writes the charger accepted
    wire: seq<Post>)

  datatype Step =
    | Bounds(lo: real, hi: real)
    | Write(raw: real)
    | Enter(call: nat)
    | GiveUpQueue(call: nat)
    | Transmit(call: nat)
    | Veto(call: nat)
    | Reply(call: nat, ok: bool)
    | Raise(call: nat)
    | Learn(call: nat)
    | GiveUpWait(call: nat)

  ghost predicate Init(s: Number) {
    && s.phases == [] && s.raws == [] && s.latest == None && s.holder == None && s.queue == []
    && s.pinned == None && s.outcomes == map[] && s.accepted == {} && s.wire == []
  }

  function Clamp(s: Number, raw: real): real {
    Max(s.lo, Min(s.hi, raw))
  }

  /** `_normalize_write`: charging current is asked for in whole amps. */
  function Normalized(unit: Unit, raw: real): real {
    if unit.whole then Round(raw) as real else raw
  }

  /** What the charger is sent for a value. */
  function DeviceValue(unit: Unit, value: real): int {
    Round(value * unit.scale)
  }

  /** The value a request becomes at some moment. */
  function Asked(s: Number, raw: real): real {
    Clamp(s, Normalized(s.unit, raw))
  }

  /** Inside the lock a call that is still the latest pins its clamped value and sends it. */
  function StartSending(s: Number, c: nat): Number
    requires c < |s.phases| == |s.raws|
  {
    var value := Asked(s, s.raws[c]);
    s.(phases := s.phases[c := Sending(value)], holder := Some(c), pinned := Some(value))
  }

  /** Settle the token and move the call on; leaving the lock also releases the pin. */
  function Settle(s: Number, c: nat, outcome: Outcome, next: Phase): Number
    requires c < |s.phases|
  {
    s.(outcomes := s.outcomes[c := outcome], phases := s.phases[c := next])
  }

  function Unlocked(s: Number): Number {
    s.(holder := None, pinned := None)
  }

  ghost predicate IsSending(s: Number, c: nat) {
    c < |s.phases| == |s.raws| && s.phases[c].Sending? && s.latest.Some?
  }

  ghost predicate IsQueued(s: Number, c: nat) {
    c < |s.phases| == |s.raws| && s.phases[c].Queued? && s.latest.Some? && c in s.queue
  }

  function Without(queue: seq<nat>, c: nat): seq<nat> {
    if queue == [] then [] else (if queue[0] == c then [] else [queue[0]]) + Without(queue[1..], c)
  }

  ghost predicate OnWire(wire: seq<Post>, c: nat) {
    exists p :: p in wire && p.call == c
  }

  ghost predicate Next(s: Number, s': Number, step: Step) {
    match step
    case Bounds(lo, hi) => s' == s.(lo := lo, hi := hi)
    case Write(raw) =>
      && |s.raws| == |s.phases|
      && var c := |s.phases|;
         var entered := s.(phases := s.phases + [Queued], raws := s.raws + [raw], latest := Some(c));
         s' == if s.holder == None && s.queue == [] then StartSending(entered, c)
               else entered.(queue := s.queue + [c])
    case Enter(c) =>
      && IsQueued(s, c) && s.holder == None && s.queue[0] == c
      && var freed := s.(queue := s.queue[1..]);
         s' == if s.latest == Some(c) then StartSending(freed, c)
               else Settle(freed, c, Replaced, Awaiting(s.latest.value))
    case GiveUpQueue(c) =>
      && IsQueued(s, c)
      && s' == Settle(s.(queue := Without(s.queue, c)), c, if s.latest == Some(c) then Failed else Replaced, Returned(false))
    case Transmit(c) =>
      && IsSending(s, c) && s.latest == Some(c)
      && s' == s.(wire := s.wire + [Post(c, s.phases[c].value, DeviceValue(s.unit, s.phases[c].value))])
    case Veto(c) =>
      && IsSending(s, c) && s.latest != Some(c)
      && s' == Settle(Unlocked(s), c, Replaced, Awaiting(s.latest.value))
    case Reply(c, ok) =>
      && IsSending(s, c) && (ok ==> OnWire(s.wire, c))
      && var told := if ok then s.(accepted := s.accepted + {c}) else s;
         s' == if s.latest != Some(c) then Settle(Unlocked(told), c, Replaced, Awaiting(s.latest.value))
               else Settle(Unlocked(told), c, if ok then Applied else Failed, Returned(ok))
    case Raise(c) =>
      && IsSending(s, c)
      && s' == Settle(Unlocked(s), c, if s.latest == Some(c) then Failed else Replaced, Returned(false))
    case Learn(c) =>
      && c < |s.phases| && s.phases[c].Awaiting? && s.phases[c].token in s.outcomes && s.latest.Some?
      && s' == s.(phases := s.phases[c :=
                match s.outcomes[s.phases[c].token]
                case Applied => Returned(true)
                case Failed => Returned(false)
                case Replaced => Awaiting(s.latest.value)])
    case GiveUpWait(c) =>
      && c < |s.phases| && s.phases[c].Awaiting?
      && s' == s.(phases := s.phases[c := Returned(false)])
  }

  // --- What every step keeps -------------------------------------------------------

  /** `_latest_write` is the newest call's token. */
  ghost predicate LatestIsNewest(s: Number) {
    |s.raws| == |s.phases| && s.latest == if s.phases == [] then None else Some(|s.phases| - 1)
  }

  ghost predicate Locked(s: Number) {
    && (forall c :: 0 <= c < |s.phases| && s.phases[c].Sending? ==> s.holder == Some(c) && s.pinned == Some(s.phases[c].value))
    && (s.holder.Some? ==> s.holder.value < |s.phases| && s.phases[s.holder.value].Sending?)
    && (s.pinned.Some? <==> s.holder.Some?)
  }

  /** A token is settled exactly when its call has left the lock. */
  ghost predicate SettledOnce(s: Number) {
    forall c: nat :: c in s.outcomes <==> c < |s.phases| && (s.phases[c].Awaiting? || s.phases[c].Returned?)
  }

  /** Outcomes are true: applied values were accepted, replaced ones have a newer write. */
  ghost predicate Truthful(s: Number) {
    && (forall c :: c in s.outcomes && s.outcomes[c] == Applied ==> c in s.accepted)
    && (forall c :: c in s.outcomes && s.outcomes[c] == Replaced ==> c + 1 < |s.phases|)
    && (forall c :: c in s.accepted ==> c < |s.phases| && OnWire(s.wire, c))
    && forall c :: 0 <= c < |s.phases| && s.phases[c] == Returned(true) ==> NewerAccepted(s, c)
  }

  ghost predicate NewerAccepted(s: Number, c: nat) {
    exists d :: d in s.accepted && c <= d
  }

  /** A replaced call only ever waits for a newer one. */
  ghost predicate WaitsAscend(s: Number) {
    forall c :: 0 <= c < |s.phases| && s.phases[c].Awaiting? ==> c < s.phases[c].token < |s.phases|
  }

  /** Values reach the wire in request order. */
  ghost predicate InOrder(s: Number) {
    && (forall i, j :: 0 <= i < j < |s.wire| ==> s.wire[i].call <= s.wire[j].call)
    && forall p :: p in s.wire ==> p.call < |s.phases|
  }

  ghost predicate Inv(s: Number) {
    LatestIsNewest(s) && Locked(s) && SettledOnce(s) && Truthful(s) && WaitsAscend(s) && InOrder(s)
  }

  lemma StepKeepsInv(s: Number, s': Number, step: Step)
    requires Inv(s) && Next(s, s', step)
    ensures Inv(s')
  {
    hide Truthful, InOrder, Locked, SettledOnce, WaitsAscend;
    match step
    case Bounds(_, _) => SameCallsKeep(s, s');
    case Write(_) => WriteKeeps(s, s', step);
    case Enter(c) =>
      SameCallsKeep(s, s.(queue := s.queue[1..]));
      if s.latest == Some(c) {
        assert s.phases[c].Queued?;
        StartKeeps(s.(queue := s.queue[1..]), s', c);
      } else {
        SettleKeeps(s.(queue := s.queue[1..]), s', c, Replaced);
      }
    case GiveUpQueue(c) =>
      SameCallsKeep(s, s.(queue := Without(s.queue, c)));
      SettleKeeps(s.(queue := Without(s.queue, c)), s', c, if s.latest == Some(c) then Failed else Replaced);
    case Transmit(c) => TransmitKeeps(s, s', c);
    case Veto(c) => SettleKeeps(s, s', c, Replaced);
    case Reply(c, ok) =>
      SettleKeeps(s, s', c, if s.latest != Some(c) then Replaced else if ok then Applied else Failed);
    case Raise(c) => SettleKeeps(s, s', c, if s.latest == Some(c) then Failed else Replaced);
    case Learn(c) =>
      LearningIsTruthful(s, c);
      LearnKeeps(s, s', c);
    case GiveUpWait(c) => LearnKeeps(s, s', c);
  }

  lemma SameCallsKeep(s: Number, s': Number)
    requires Inv(s) && s' == s.(lo := s'.lo, hi := s'.hi, queue := s'.queue)
    ensures Inv(s')
  {
    StillAccepted(s, s');
  }

  lemma StillAccepted(s: Number, s': Number)
    requires s.accepted <= s'.accepted
    ensures forall c: nat :: NewerAccepted(s, c) ==> NewerAccepted(s', c)
  {
  }

  lemma AcceptedCounts(s: Number, c: nat, d: nat)
    requires c <= d && d in s.accepted
    ensures NewerAccepted(s, c)
  {
  }

  lemma WriteKeeps(s: Number, s': Number, step: Step)
    requires Inv(s) && step.Write? && Next(s, s', step)
    ensures Inv(s')
  {
    hide OnWire, NewerAccepted;
    StillAccepted(s, s');
  }

  lemma StartKeeps(s: Number, s': Number, c: nat)
    requires Inv(s) && c < |s.phases| && s.phases[c].Queued? && s.holder == None && s' == StartSending(s, c)
    ensures Inv(s')
  {
    StillAccepted(s, s');
  }

  lemma TransmitKeeps(s: Number, s': Number, c: nat)
    requires Inv(s) && Next(s, s', Transmit(c))
    ensures Inv(s')
  {
    hide OnWire, NewerAccepted;
    StillAccepted(s, s');
    forall d | d in s.accepted ensures OnWire(s'.wire, d) {
      LongerWire(s.wire, s'.wire[|s.wire|], d);
    }
  }

  lemma LongerWire(wire: seq<Post>, p: Post, d: nat)
    requires OnWire(wire, d)
    ensures OnWire(wire + [p], d)
  {
    var q :| q in wire && q.call == d;
    assert q in wire + [p];
  }

  /** A call leaves the lock, or the queue before it, with an outcome that is true. */
  lemma SettleKeeps(s: Number, s': Number, c: nat, outcome: Outcome)
    requires Inv(s) && c < |s.phases| && (s.phases[c].Queued? || s.phases[c].Sending?)
    requires |s'.phases| == |s.phases| && s'.phases == s.phases[c := s'.phases[c]]
    requires s'.raws == s.raws && s'.latest == s.latest && s'.wire == s.wire
    requires s'.outcomes == s.outcomes[c := outcome]
    requires if s.phases[c].Sending? then s'.holder == None && s'.pinned == None else s'.holder == s.holder && s'.pinned == s.pinned
    requires s'.accepted == s.accepted || (s'.accepted == s.accepted + {c} && OnWire(s.wire, c))
    requires s'.phases[c] == Returned(false)
          || (s'.phases[c] == Returned(true) && outcome == Applied)
          || (s.latest.Some? && s'.phases[c] == Awaiting(s.latest.value) && outcome == Replaced)
    requires outcome == Applied ==> c in s'.accepted
    requires outcome == Replaced ==> s.latest != Some(c)
    ensures Inv(s')
  {
    hide OnWire, NewerAccepted;
    StillAccepted(s, s');
    if c in s'.accepted {
      AcceptedCounts(s', c, c);
    }
  }

  lemma LearnKeeps(s: Number, s': Number, c: nat)
    requires Inv(s) && c < |s.phases| && s.phases[c].Awaiting? && |s'.phases| == |s.phases|
    requires s' == s.(phases := s.phases[c := s'.phases[c]])
    requires s'.phases[c] == Returned(false)
          || (s'.phases[c] == Returned(true) && s.phases[c].token in s.accepted)
          || (s.latest.Some? && s'.phases[c] == Awaiting(s.latest.value) && c + 1 < |s.phases|)
    ensures Inv(s')
  {
    hide OnWire, NewerAccepted;
    StillAccepted(s, s');
    if s.phases[c].token in s.accepted {
      AcceptedCounts(s', c, s.phases[c].token);
    }
  }

  lemma LearningIsTruthful(s: Number, c: nat)
    requires Inv(s) && c < |s.phases| && s.phases[c].Awaiting?
    ensures c + 1 < |s.phases|
    ensures s.phases[c].token in s.outcomes && s.outcomes[s.phases[c].token] == Applied ==> s.phases[c].token in s.accepted
  {
  }

  // --- Every run -------------------------------------------------------------------

  ghost predicate IsRun(run: seq<Number>, steps: seq<Step>) {
    && |run| == |steps| + 1
    && Init(run[0])
    && forall i :: 0 <= i < |steps| ==> Next(run[i], run[i + 1], steps[i])
  }

  lemma {:induction false} EveryStateIsSafe(run: seq<Number>, steps: seq<Step>, k: nat)
    requires IsRun(run, steps) && k < |run|
    ensures Inv(run[k])
  {
    if k > 0 {
      EveryStateIsSafe(run, steps, k - 1);
      StepKeepsInv(run[k - 1], run[k], steps[k - 1]);
    }
  }

  /** Values reach the wire in request order, never an older one after a newer one. */
  lemma WireFollowsRequests(run: seq<Number>, steps: seq<Step>, k: nat, i: nat, j: nat)
    requires IsRun(run, steps) && k < |run| && i < j < |run[k].wire|
    ensures run[k].wire[i].call <= run[k].wire[j].call
  {
    EveryStateIsSafe(run, steps, k);
  }

  /** Clamping gives the writable value nearest to the request. */
  lemma ClampIsNearest(s: Number, raw: real, v: real)
    requires s.lo <= v <= s.hi
    ensures s.lo <= Clamp(s, raw) <= s.hi && Abs(Clamp(s, raw) - raw) <= Abs(v - raw)
  {
  }

  /** What the charger is sent stands for the value to half a device unit, and exactly where the value
      is a whole number of them. */
  lemma DeviceValueIsNearest(unit: Unit, value: real)
    requires unit.scale > 0.0
    ensures value - 0.5 / unit.scale <= DeviceValue(unit, value) as real / unit.scale <= value + 0.5 / unit.scale
    ensures (value * unit.scale).Floor as real == value * unit.scale ==> DeviceValue(unit, value) as real / unit.scale == value
  {
    hide DeviceValue;
    var device := RoundedProduct(unit, value);
    SharedFactor(value, device, 0.5, unit.scale);
    SharedFactor(value, device, 0.0, unit.scale);
    assert 0.0 / unit.scale == 0.0;
  }

  lemma RoundedProduct(unit: Unit, value: real) returns (device: real)
    ensures device == DeviceValue(unit, value) as real
    ensures value * unit.scale - 0.5 <= device <= value * unit.scale + 0.5
    ensures (value * unit.scale).Floor as real == value * unit.scale ==> device == value * unit.scale
  {
    hide Round;
    WholeStaysWhole(value * unit.scale);
    device := DeviceValue(unit, value) as real;
  }

  lemma WholeStaysWhole(x: real)
    ensures x - 0.5 <= Round(x) as real <= x + 0.5
    ensures x.Floor as real == x ==> Round(x) as real == x
  {
  }

  /** A distance in the device's unit is that distance over the scale in Home Assistant's. */
  lemma SharedFactor(value: real, device: real, distance: real, scale: real)
    requires scale > 0.0
    ensures value * scale - distance <= device <= value * scale + distance ==>
      value - distance / scale <= device / scale <= value + distance / scale
  {
    var v, q, d := value, device / scale, distance / scale;
    assert q * scale == device && d * scale == distance;
    if value * scale - distance <= device <= value * scale + distance {
      Cancelled(v - d, q, scale);
      Cancelled(q, v + d, scale);
    }
  }

  lemma Cancelled(a: real, b: real, scale: real)
    requires scale > 0.0
    ensures a * scale <= b * scale ==> a <= b
  {
    if a > b {
      assert (a - b) * scale > 0.0;
    }
  }

  /** The value is the call's own request, clamped against the bounds of some moment of the run. */
  ghost predicate Requested(run: seq<Number>, k: int, c: nat, value: real)
    requires 0 <= k < |run|
  {
    c < |run[k].raws| && exists j :: 0 <= j <= k && run[j].unit == run[k].unit && value == Asked(run[j], run[k].raws[c])
  }

  ghost predicate AllRequested(run: seq<Number>, k: int)
    requires 0 <= k < |run|
  {
    && (forall c :: 0 <= c < |run[k].phases| && run[k].phases[c].Sending? ==> Requested(run, k, c, run[k].phases[c].value))
    && (forall p :: p in run[k].wire ==> Requested(run, k, p.call, p.value))
    && forall p :: p in run[k].wire ==> p.device == DeviceValue(run[k].unit, p.value)
  }

  /** What is pinned is the call's own request, clamped, and what is sent is that in the device's unit. */
  lemma {:induction false} EverySentValueWasRequested(run: seq<Number>, steps: seq<Step>, k: nat)
    requires IsRun(run, steps) && k < |run|
    ensures AllRequested(run, k)
  {
    hide Inv, Next;
    if k > 0 {
      EverySentValueWasRequested(run, steps, k - 1);
      EveryStateIsSafe(run, steps, k - 1);
      StepOfRun(run, steps, k - 1);
      RequestsAreKept(run, k - 1, steps[k - 1]);
    } else {
      NothingSentYet(run, steps);
    }
  }

  lemma NothingSentYet(run: seq<Number>, steps: seq<Step>)
    requires IsRun(run, steps)
    ensures run[0].phases == [] && run[0].wire == []
  {
  }

  /** No step changes what a call asked for, or the unit. */
  lemma StepKeepsRequests(s: Number, s': Number, step: Step)
    requires Next(s, s', step) && |s.raws| == |s.phases|
    ensures s'.unit == s.unit && |s'.raws| >= |s.raws| && forall c :: 0 <= c < |s.raws| ==> s'.raws[c] == s.raws[c]
  {
  }

  lemma StepSends(s: Number, s': Number, step: Step, p: Post)
    requires Next(s, s', step) && p in s'.wire && p !in s.wire
    ensures p.call < |s.phases| && s.phases[p.call] == Sending(p.value) && p.device == DeviceValue(s.unit, p.value)
  {
  }

  lemma RequestsAreKept(run: seq<Number>, k: nat, step: Step)
    requires k + 1 < |run| && Inv(run[k]) && Next(run[k], run[k + 1], step)
    requires AllRequested(run, k)
    ensures AllRequested(run, k + 1)
  {
    hide Inv, Next, Asked, DeviceValue;
    var s, s' := run[k], run[k + 1];
    InvCounts(s);
    StepKeepsRequests(s, s', step);
    forall c: nat, value | Requested(run, k, c, value) ensures Requested(run, k + 1, c, value) {
      var j :| 0 <= j <= k && run[j].unit == s.unit && value == Asked(run[j], s.raws[c]);
      assert s'.raws[c] == s.raws[c];
    }
    forall c | 0 <= c < |s'.phases| && s'.phases[c].Sending? ensures Requested(run, k + 1, c, s'.phases[c].value) {
      if c < |s.phases| && s.phases[c] == s'.phases[c] {
        assert Requested(run, k, c, s.phases[c].value);
      } else {
        SameBounds(s, s', c, step);
      }
    }
    forall p | p in s'.wire ensures Requested(run, k + 1, p.call, p.value) && p.device == DeviceValue(s'.unit, p.value) {
      if p !in s.wire {
        StepSends(s, s', step, p);
      }
    }
  }

  lemma InvCounts(s: Number)
    requires Inv(s)
    ensures |s.raws| == |s.phases|
  {
  }

  lemma SameBounds(s: Number, s': Number, c: nat, step: Step)
    requires Inv(s) && Next(s, s', step) && c < |s'.phases| && s'.phases[c].Sending?
    requires c < |s.phases| ==> s.phases[c] != s'.phases[c]
    ensures c < |s'.raws| && s'.phases[c].value == Asked(s, s'.raws[c])
  {
    hide Truthful, InOrder, Locked, SettledOnce, WaitsAscend;
  }

  /** A call reports success only if its own write or a newer one was accepted. */
  lemma SuccessIsReal(run: seq<Number>, steps: seq<Step>, k: nat, c: nat)
    requires IsRun(run, steps) && k < |run| && c < |run[k].phases| && run[k].phases[c] == Returned(true)
    ensures exists d :: d in run[k].accepted && c <= d && OnWire(run[k].wire, d)
  {
    EveryStateIsSafe(run, steps, k);
    assert NewerAccepted(run[k], c);
  }

  /** A settled token never changes, and none is settled twice. */
  lemma TokensSettleOnce(run: seq<Number>, steps: seq<Step>, k: nat, c: nat)
    requires IsRun(run, steps) && k < |steps| && c in run[k].outcomes
    ensures c in run[k + 1].outcomes && run[k + 1].outcomes[c] == run[k].outcomes[c]
  {
    hide Truthful, InOrder, Locked, WaitsAscend, IsRun;
    StepOfRun(run, steps, k);
    EveryStateIsSafe(run, steps, k);
  }

  lemma StepOfRun(run: seq<Number>, steps: seq<Step>, k: nat)
    requires IsRun(run, steps) && k < |steps|
    ensures |run| == |steps| + 1 && Next(run[k], run[k + 1], steps[k])
  {
  }

  /** The chain of waiting calls ascends, so it ends at a call that is not waiting for another. */
  lemma {:induction false} WaitingEnds(run: seq<Number>, steps: seq<Step>, k: nat, c: nat) returns (e: nat)
    requires IsRun(run, steps) && k < |run| && c < |run[k].phases|
    ensures c <= e < |run[k].phases| && !run[k].phases[e].Awaiting?
    decreases |run[k].phases| - c
  {
    EveryStateIsSafe(run, steps, k);
    if run[k].phases[c].Awaiting? {
      e := WaitingEnds(run, steps, k, run[k].phases[c].token);
    } else {
      e := c;
    }
  }

  /** The newest call is never replaced: once it settles, whoever waits on it learns a final result. */
  lemma TheNewestIsFinal(run: seq<Number>, steps: seq<Step>, k: nat, c: nat)
    requires IsRun(run, steps) && k < |run| && run[k].latest == Some(c) && c in run[k].outcomes
    ensures run[k].outcomes[c] != Replaced
    ensures forall w {:trigger run[k].phases[w]} :: 0 <= w < |run[k].phases| && run[k].phases[w] == Awaiting(c) ==> w < c
  {
    EveryStateIsSafe(run, steps, k);
  }

  /** The pin is on the display exactly while its write is inside the lock, however that ends. */
  lemma PinFollowsTheLock(run: seq<Number>, steps: seq<Step>, k: nat)
    requires IsRun(run, steps) && k < |run|
    ensures run[k].pinned.Some? <==> exists c :: 0 <= c < |run[k].phases| && run[k].phases[c].Sending?
    ensures forall c, d | 0 <= c < |run[k].phases| && 0 <= d < |run[k].phases| ::
              run[k].phases[c].Sending? && run[k].phases[d].Sending? ==> c == d
  {
    EveryStateIsSafe(run, steps, k);
  }

  // --- The entity ------------------------------------------------------------------

  /** The entity, with the sections of its calls between two awaits as methods.  The charger and the
      command lock are seen through `wire`, `accepted`, `holder` and `queue`. */
  class SetpointNumber {
    const unit: Unit
    var lo: real
    var hi: real
    var phases: seq<Phase>
    var raws: seq<real>
    var latest: Option<nat>
    var holder: Option<nat>
    var queue: seq<nat>
    var pinned: Option<real>
    var outcomes: map<nat, Outcome>
    var accepted: set<nat>
    var wire: seq<Post>

    ghost function State(): Number
      reads this
    {
      Number(unit, lo, hi, phases, raws, latest, holder, queue, pinned, outcomes, accepted, wire)
    }

    constructor (unit: Unit, lo: real, hi: real)
      ensures Init(State()) && Inv(State())
    {
      this.unit, this.lo, this.hi := unit, lo, hi;
      phases, raws, latest, holder, queue := [], [], None, None, [];
      pinned, outcomes, accepted, wire := None, map[], {}, [];
    }

    /** `async_set_native_value`, up to where it waits for the lock or for the charger. */
    method SetNativeValue(raw: real)
      requires Inv(State())
      modifies this
      ensures Inv(State()) && Next(old(State()), State(), Write(raw))
    {
      hide Truthful, InOrder, Locked, SettledOnce, WaitsAscend;
      ghost var before := State();
      var token := |phases|;
      phases, raws, latest := phases + [Queued], raws + [raw], Some(token);
      if holder == None && queue == [] {
        Pin(token);
      } else {
        queue := queue + [token];
      }
      StepKeepsInv(before, State(), Write(raw));
    }

    /** `_send_latest_write`: clamp against the bounds of now, and pin the value. */
    method Pin(c: nat)
      requires c < |phases| == |raws|
      modifies this
      ensures State() == StartSending(old(State()), c)
    {
      var raw := if unit.whole then Round(raws[c]) as real else raws[c];
      var clamped := Max(lo, Min(hi, raw));
      phases := phases[c := Sending(clamped)];
      holder, pinned := Some(c), Some(clamped);
    }

    /** The lock is granted: send if still the latest, else step aside for the newer call. */
    method EnterLock(c: nat)
      requires Inv(State()) && IsQueued(State(), c) && holder == None && queue[0] == c
      modifies this
      ensures Inv(State()) && Next(old(State()), State(), Enter(c))
    {
      hide Truthful, InOrder, Locked, SettledOnce, WaitsAscend;
      ghost var before := State();
      queue := queue[1..];
      if latest == Some(c) {
        Pin(c);
      } else {
        outcomes := outcomes[c := Replaced];
        phases := phases[c := Awaiting(latest.value)];
      }
      StepKeepsInv(before, State(), Enter(c));
    }

    /** The preflight at the wire, and the request when it passes. */
    method Preflight(c: nat) returns (sent: bool)
      requires Inv(State()) && IsSending(State(), c)
      modifies this
      ensures Inv(State()) && Next(old(State()), State(), if sent then Transmit(c) else Veto(c))
    {
      hide Truthful, InOrder, Locked, SettledOnce, WaitsAscend;
      ghost var before := State();
      sent := latest == Some(c);
      if sent {
        wire := wire + [Post(c, phases[c].value, DeviceValue(unit, phases[c].value))];
      } else {
        holder, pinned := None, None;
        outcomes := outcomes[c := Replaced];
        phases := phases[c := Awaiting(latest.value)];
      }
      StepKeepsInv(before, State(), if sent then Transmit(c) else Veto(c));
    }

    /** `send_command` returned: release the pin, settle the token, and report or wait. */
    method Answered(c: nat, ok: bool)
      requires Inv(State()) && IsSending(State(), c) && (ok ==> OnWire(wire, c))
      modifies this
      ensures Inv(State()) && Next(old(State()), State(), Reply(c, ok))
    {
      hide Truthful, InOrder, Locked, SettledOnce, WaitsAscend;
      ghost var before := State();
      holder, pinned := None, None;
      if ok {
        accepted := accepted + {c};
      }
      if latest != Some(c) {
        outcomes := outcomes[c := Replaced];
        phases := phases[c := Awaiting(latest.value)];
      } else {
        outcomes := outcomes[c := if ok then Applied else Failed];
        phases := phases[c := Returned(ok)];
      }
      StepKeepsInv(before, State(), Reply(c, ok));
    }

    /** An exception or a cancellation while sending. */
    method Interrupted(c: nat)
      requires Inv(State()) && IsSending(State(), c)
      modifies this
      ensures Inv(State()) && Next(old(State()), State(), Raise(c))
    {
      hide Truthful, InOrder, Locked, SettledOnce, WaitsAscend;
      ghost var before := State();
      holder, pinned := None, None;
      outcomes := outcomes[c := if latest == Some(c) then Failed else Replaced];
      phases := phases[c := Returned(false)];
      StepKeepsInv(before, State(), Raise(c));
    }

    /** One round of the loop of a replaced call: the write it waited on is settled. */
    method LearnOutcome(c: nat)
      requires Inv(State()) && c < |phases| && phases[c].Awaiting? && phases[c].token in outcomes
      modifies this
      ensures Inv(State()) && Next(old(State()), State(), Learn(c))
    {
      hide Truthful, InOrder, Locked, SettledOnce, WaitsAscend;
      ghost var before := State();
      match outcomes[phases[c].token] {
        case Applied => phases := phases[c := Returned(true)];
        case Failed => phases := phases[c := Returned(false)];
        case Replaced => phases := phases[c := Awaiting(latest.value)];
      }
      StepKeepsInv(before, State(), Learn(c));
    }
  }
}
