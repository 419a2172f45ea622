/** Remembering that a charge is finished (`_track_charge_completion`, `seed_charge_completion`).

    State 5 is a finished charge and a paused one alike.  Only subState 0, seen at some
    poll of the stretch, tells them apart, and a plug-in that was missed shows only in
    a session clock that went back.
 */
module ChargeCompletion {
  import opened Common

  const COMPLETE: int := 5

  /** What a poll shows: the state if the map can name it, whether the firmware is known to be
      modern, the session clock and the subState. */
  datatype Snapshot = Snapshot(state: Option<int>, modern: bool, clock: Option<int>, subState: Option<int>)

  datatype Memory = Memory(completed: bool, at: Option<int>, seed: Option<int>)

  const NOTHING := Memory(false, None, None)

  predicate Leaves(x: Snapshot) {
    x.state.Some? && x.state.value != COMPLETE
  }

  /** Parked in state 5, on firmware whose subState is understood. */
  predicate Parked(x: Snapshot) {
    x.state == Some(COMPLETE) && x.modern
  }

  function Anchor(m: Memory): Option<int> {
    if m.completed then m.at else m.seed
  }

  function Tracked(m: Memory, x: Snapshot): Memory {
    if x.state == None then m
    else if Leaves(x) then NOTHING
    else if !x.modern then m
    else
      var anchor := if x.clock.Some? then Anchor(m) else None;
      var kept := if anchor.Some? then x.clock.value >= anchor.value else m.completed;
      var completed := kept || x.subState == Some(0);
      Memory(completed,
             if !completed then None else if x.clock.Some? then x.clock else m.at,
             if x.clock.Some? then None else m.seed)
  }

  /** The inputs of the memory: polls, and completions saved by an earlier run. */
  datatype Input = Observed(snapshot: Snapshot) | Seeded(clock: int)

  function After(m: Memory, input: Input): Memory {
    match input
    case Observed(x) => Tracked(m, x)
    case Seeded(clock) => m.(seed := Some(clock))
  }

  function Run(inputs: seq<Input>): Memory {
    if inputs == [] then NOTHING else After(Run(inputs[..|inputs| - 1]), inputs[|inputs| - 1])
  }

  lemma {:induction false} Unfold(inputs: seq<Input>, input: Input)
    ensures Run(inputs + [input]) == After(Run(inputs), input)
  {
    assert (inputs + [input])[..|inputs|] == inputs;
  }

  // --- What justifies a completion -----------------------------------------------------------

  predicate Stays(inputs: seq<Input>, from: int) {
    forall i :: 0 <= i < |inputs| && from <= i && inputs[i].Observed? ==> !Leaves(inputs[i].snapshot)
  }

  predicate ClockAt(inputs: seq<Input>, i: int) {
    0 <= i < |inputs| && inputs[i].Observed? && Parked(inputs[i].snapshot) && inputs[i].snapshot.clock.Some?
  }

  /** The reported session clocks never go back from `from` on. */
  ghost predicate ClocksAscend(inputs: seq<Input>, from: int) {
    forall i, j :: from <= i < j && ClockAt(inputs, i) && ClockAt(inputs, j) ==>
      inputs[i].snapshot.clock.value <= inputs[j].snapshot.clock.value
  }

  /** A saved completion that no poll has answered since: no known other state, no reported clock
      to hold it against, and no later one in its place. */
  predicate SeedOpen(inputs: seq<Input>, j: int, clock: int) {
    && 0 <= j < |inputs| && inputs[j] == Seeded(clock) && Stays(inputs, j)
    && forall i :: j < i < |inputs| ==> !ClockAt(inputs, i) && !inputs[i].Seeded?
  }

  ghost predicate SeedReached(inputs: seq<Input>, now: int) {
    exists j, clock :: SeedOpen(inputs, j, clock) && clock <= now
  }

  /** A poll that shows the charge complete: subState 0, or, for a charge not complete before, a
      clock at or past the open saved completion.  A charge complete before has a clock to be held
      against, so a poll without one shows nothing new about it. */
  ghost predicate Evidence(inputs: seq<Input>, k: int) {
    && 0 <= k < |inputs| && inputs[k].Observed? && Parked(inputs[k].snapshot)
    && var x, before := inputs[k].snapshot, Run(inputs[..k]).completed;
       || (x.subState == Some(0) && (before ==> x.clock.Some?))
       || (!before && x.clock.Some? && SeedReached(inputs[..k], x.clock.value))
  }

  /** The current stretch of state 5 has evidence, and no replug since. */
  ghost predicate Justified(inputs: seq<Input>, k: int) {
    Evidence(inputs, k) && Stays(inputs, k) && ClocksAscend(inputs, k)
  }

  ghost predicate NoClockPast(inputs: seq<Input>, from: int, at: Option<int>) {
    forall i :: from <= i && ClockAt(inputs, i) ==> at.Some? && inputs[i].snapshot.clock.value <= at.value
  }

  ghost predicate CompletionExplained(inputs: seq<Input>, m: Memory) {
    && (m.completed ==> exists k :: Justified(inputs, k) && NoClockPast(inputs, k, m.at))
    && (!m.completed ==> m.at == None)
  }

  ghost predicate SeedExplained(inputs: seq<Input>, m: Memory) {
    m.seed.Some? ==> exists j :: SeedOpen(inputs, j, m.seed.value)
  }

  ghost predicate Explained(inputs: seq<Input>, m: Memory) {
    m == Run(inputs) && CompletionExplained(inputs, m) && SeedExplained(inputs, m)
  }

  lemma EvidenceStays(inputs: seq<Input>, input: Input, k: int)
    requires 0 <= k < |inputs|
    ensures Evidence(inputs + [input], k) <==> Evidence(inputs, k)
  {
    assert (inputs + [input])[..k] == inputs[..k];
  }

  lemma SeedStays(inputs: seq<Input>, input: Input, j: int, clock: int)
    requires SeedOpen(inputs, j, clock) && input.Observed?
    requires !Leaves(input.snapshot) && !(Parked(input.snapshot) && input.snapshot.clock.Some?)
    ensures SeedOpen(inputs + [input], j, clock)
  {
  }

  lemma StepExplainsSeed(inputs: seq<Input>, m: Memory, input: Input)
    requires SeedExplained(inputs, m)
    ensures SeedExplained(inputs + [input], After(m, input))
  {
    if After(m, input).seed.Some? {
      if input.Seeded? {
        assert SeedOpen(inputs + [input], |inputs|, input.clock);
      } else {
        var j :| SeedOpen(inputs, j, m.seed.value);
        SeedStays(inputs, input, j, m.seed.value);
      }
    }
  }

  /** The completion is the one from before: no poll has put it in question. */
  predicate Unquestioned(m: Memory, input: Input) {
    || input.Seeded? || !Parked(input.snapshot) || input.snapshot.clock == None
    || m.at == None || input.snapshot.clock.value >= m.at.value
  }

  lemma OldEvidenceHolds(inputs: seq<Input>, m: Memory, input: Input)
    requires Explained(inputs, m) && m.completed && After(m, input).completed && Unquestioned(m, input)
    ensures CompletionExplained(inputs + [input], After(m, input))
  {
    hide Evidence, Run;
    var k :| Justified(inputs, k) && NoClockPast(inputs, k, m.at);
    assert Evidence(inputs, k) ==> 0 <= k < |inputs| by { EvidenceIsInside(inputs, k); }
    EvidenceStays(inputs, input, k);
    assert Justified(inputs + [input], k) && NoClockPast(inputs + [input], k, After(m, input).at);
  }

  lemma EvidenceIsInside(inputs: seq<Input>, k: int)
    ensures Evidence(inputs, k) ==> 0 <= k < |inputs|
  {
  }

  /** A completion that begins now has its evidence in this poll. */
  lemma NewEvidence(inputs: seq<Input>, m: Memory, x: Snapshot)
    requires Explained(inputs, m) && Parked(x) && Tracked(m, x).completed
    requires !m.completed || !Unquestioned(m, Observed(x))
    ensures Evidence(inputs + [Observed(x)], |inputs|)
  {
    assert (inputs + [Observed(x)])[..|inputs|] == inputs;
    if x.subState != Some(0) {
      var j :| SeedOpen(inputs, j, m.seed.value);
    }
  }

  lemma NewEvidenceHolds(inputs: seq<Input>, m: Memory, x: Snapshot)
    requires Explained(inputs, m) && Parked(x) && Tracked(m, x).completed
    requires !m.completed || !Unquestioned(m, Observed(x))
    ensures CompletionExplained(inputs + [Observed(x)], Tracked(m, x))
  {
    hide Evidence, Run, Explained;
    var longer, n := inputs + [Observed(x)], |inputs|;
    NewEvidence(inputs, m, x);
    assert Justified(longer, n) && NoClockPast(longer, n, Tracked(m, x).at);
  }

  /** What a poll can do to a charge that was not complete, or that it questions. */
  lemma Completes(m: Memory, input: Input)
    requires After(m, input).completed && !(m.completed && Unquestioned(m, input))
    ensures input.Observed? && Parked(input.snapshot) && After(m, input) == Tracked(m, input.snapshot)
  {
  }

  lemma NotCompleted(m: Memory, input: Input)
    requires !m.completed ==> m.at == None
    ensures !After(m, input).completed ==> After(m, input).at == None
  {
  }

  lemma StepExplained(inputs: seq<Input>, m: Memory, input: Input)
    requires Explained(inputs, m)
    ensures Explained(inputs + [input], After(m, input))
  {
    hide Evidence, Justified, NoClockPast, SeedExplained, After, Run;
    StepExplainsSeed(inputs, m, input);
    Unfold(inputs, input);
    NotCompleted(m, input);
    if After(m, input).completed {
      if m.completed && Unquestioned(m, input) {
        OldEvidenceHolds(inputs, m, input);
      } else {
        Completes(m, input);
        NewEvidenceHolds(inputs, m, input.snapshot);
      }
    }
  }

  lemma {:induction false} RunExplained(inputs: seq<Input>)
    ensures Explained(inputs, Run(inputs))
  {
    if inputs != [] {
      var before, input := inputs[..|inputs| - 1], inputs[|inputs| - 1];
      RunExplained(before);
      StepExplained(before, Run(before), input);
      assert before + [input] == inputs;
    }
  }

  // --- ... and what completes one -------------------------------------------------------------

  /** The open saved completion is the one remembered. */
  lemma {:induction false} OpenSeedIsHeld(inputs: seq<Input>, j: int, clock: int)
    requires SeedOpen(inputs, j, clock)
    ensures Run(inputs).seed == Some(clock)
  {
    var before, input := inputs[..|inputs| - 1], inputs[|inputs| - 1];
    if j < |before| {
      assert forall i :: 0 <= i < |before| ==> (ClockAt(before, i) <==> ClockAt(inputs, i));
      OpenSeedIsHeld(before, j, clock);
      assert inputs[|before|] == input && !ClockAt(inputs, |before|);
    }
  }

  /** The clock a completion is held against is none, or one reported since its evidence. */
  ghost predicate HeldAgainst(inputs: seq<Input>, k: int, at: Option<int>) {
    at.Some? ==> exists i :: k <= i && ClockAt(inputs, i) && inputs[i].snapshot.clock == at
  }

  lemma {:induction false} EvidenceCompletes(inputs: seq<Input>, k: int)
    requires 0 <= k < |inputs| && Justified(inputs, k)
    ensures Run(inputs).completed && HeldAgainst(inputs, k, Run(inputs).at)
    decreases |inputs|
  {
    hide Run, Evidence, HeldAgainst, Explained;
    var before, input := inputs[..|inputs| - 1], inputs[|inputs| - 1];
    assert before + [input] == inputs;
    if k == |before| {
      RunExplained(before);
      EvidenceNow(before, input);
    } else {
      EvidenceStays(before, input, k);
      JustifiedBefore(before, input, k);
      EvidenceCompletes(before, k);
      StillCompleted(before, input, k);
    }
  }

  lemma JustifiedBefore(before: seq<Input>, input: Input, k: int)
    requires 0 <= k < |before| && Evidence(before, k) && Justified(before + [input], k)
    ensures Justified(before, k)
  {
    hide Evidence;
    var inputs := before + [input];
    assert forall i :: 0 <= i < |before| ==> (ClockAt(before, i) <==> ClockAt(inputs, i)) && before[i] == inputs[i];
  }

  lemma StillCompleted(before: seq<Input>, input: Input, k: int)
    requires 0 <= k < |before| && Stays(before + [input], k) && ClocksAscend(before + [input], k)
    requires Run(before).completed && HeldAgainst(before, k, Run(before).at)
    ensures Run(before + [input]).completed && HeldAgainst(before + [input], k, Run(before + [input]).at)
  {
    hide Run;
    var inputs, n, m := before + [input], |before|, Run(before);
    Unfold(before, input);
    assert inputs[n] == input;
    if m.at.Some? {
      var i :| k <= i && ClockAt(before, i) && before[i].snapshot.clock == m.at;
      assert ClockAt(inputs, i) && inputs[i].snapshot.clock == m.at;
      assert ClockAt(inputs, n) ==> m.at.value <= inputs[n].snapshot.clock.value;
    }
    assert After(m, input).at == m.at || (ClockAt(inputs, n) && inputs[n].snapshot.clock == After(m, input).at);
  }

  lemma EvidenceNow(before: seq<Input>, input: Input)
    requires Evidence(before + [input], |before|) && Explained(before, Run(before))
    ensures Run(before + [input]).completed && HeldAgainst(before + [input], |before|, Run(before + [input]).at)
  {
    assert (before + [input])[|before|] == input;
    assert input.snapshot.clock.Some? ==> ClockAt(before + [input], |before|);
    assert (before + [input])[..|before|] == before;
    if input.snapshot.subState != Some(0) {
      var j, clock :| SeedOpen(before, j, clock) && clock <= input.snapshot.clock.value;
      OpenSeedIsHeld(before, j, clock);
    }
  }

  /** A charge counts as complete exactly while the current stretch of state 5 has a poll that
      shows it, from which on the reported session clocks never go back. */
  lemma CompletedExactlyWhenJustified(inputs: seq<Input>)
    ensures Run(inputs).completed <==> exists k :: Justified(inputs, k)
  {
    RunExplained(inputs);
    if k :| Justified(inputs, k) {
      EvidenceCompletes(inputs, k);
    }
  }

  /** A saved completion that a lower clock disproved is not revived by a higher one. */
  lemma ADisprovedCompletionStaysDisproved(inputs: seq<Input>, saved: int, low: int, high: int)
    requires low < saved && !Run(inputs).completed
    ensures var parked := (clock: int) => Observed(Snapshot(Some(COMPLETE), true, Some(clock), Some(1)));
      !Run(inputs + [Seeded(saved)] + [parked(low)] + [parked(high)]).completed
  {
    var parked := (clock: int) => Observed(Snapshot(Some(COMPLETE), true, Some(clock), Some(1)));
    Unfold(inputs, Seeded(saved));
    Unfold(inputs + [Seeded(saved)], parked(low));
    Unfold(inputs + [Seeded(saved)] + [parked(low)], parked(high));
  }

  /** Once complete, it stays so until a known state other than 5, or a clock below the last
      confirming one on a poll that does not show the charge complete itself. */
  lemma CompletedPersists(inputs: seq<Input>, input: Input)
    requires Run(inputs).completed
    ensures Run(inputs + [input]).completed <==>
      !(input.Observed? && (Leaves(input.snapshot)
        || (Parked(input.snapshot) && input.snapshot.subState != Some(0) && input.snapshot.clock.Some?
            && Run(inputs).at.Some? && input.snapshot.clock.value < Run(inputs).at.value)))
  {
    assert (inputs + [input])[..|inputs|] == inputs;
  }

  /** The recorded clock is the newest one reported since the evidence. */
  lemma RecordedClockIsTheNewest(inputs: seq<Input>, i: int)
    requires Run(inputs).completed && i == |inputs| - 1 && ClockAt(inputs, i)
    ensures Run(inputs).at == inputs[i].snapshot.clock
  {
  }

  /** A poll whose state is missing or unknown changes nothing. */
  lemma UnknownChangesNothing(inputs: seq<Input>, x: Snapshot)
    requires x.state == None
    ensures Run(inputs + [Observed(x)]) == Run(inputs)
  {
    assert (inputs + [Observed(x)])[..|inputs|] == inputs;
  }

  /** A poll of the stretch that reads subState 0 marks it complete, whatever came before. */
  lemma SubStateZeroCompletes(inputs: seq<Input>, x: Snapshot)
    requires Parked(x) && x.subState == Some(0)
    ensures Run(inputs + [Observed(x)]).completed
  {
    assert (inputs + [Observed(x)])[..|inputs|] == inputs;
  }

  // --- The coordinator's fields ----------------------------------------------------------------

  class CompletionTracker {
    var chargeCompleted: bool
    var chargeCompletedAt: Option<int>
    var completionSeed: Option<int>

    ghost function State(): Memory
      reads this
    {
      Memory(chargeCompleted, chargeCompletedAt, completionSeed)
    }

    constructor ()
      ensures State() == NOTHING
    {
      chargeCompleted, chargeCompletedAt, completionSeed := false, None, None;
    }

    method Track(x: Snapshot)
      modifies this
      ensures State() == After(old(State()), Observed(x))
    {
      if x.state == None {
        return;
      }
      if x.state != Some(COMPLETE) {
        completionSeed, chargeCompleted, chargeCompletedAt := None, false, None;
        return;
      }
      if !x.modern {
        return;
      }
      if x.clock.Some? {
        var seed := completionSeed;
        completionSeed := None;
        var anchor := if chargeCompleted then chargeCompletedAt else seed;
        if anchor.Some? {
          chargeCompleted := x.clock.value >= anchor.value;
        }
      }
      if x.subState == Some(0) {
        chargeCompleted := true;
      }
      if !chargeCompleted {
        chargeCompletedAt := None;
      } else if x.clock.Some? {
        chargeCompletedAt := x.clock;
      }
    }

    /** A saved completion, settled at once against the last poll. */
    method SeedCompletion(clock: int, last: Snapshot)
      modifies this
      ensures State() == After(After(old(State()), Seeded(clock)), Observed(last))
    {
      completionSeed := Some(clock);
      Track(last);
    }
  }
}
