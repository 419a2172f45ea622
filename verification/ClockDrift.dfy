/** The clock-drift notice (`ClockDriftTracker`, `update_clock_drift_issue` and the hysteresis
    they share with other notices): when it appears, which fix it names, and when it goes. */
module ClockDrift {
  import opened Common

  const THRESHOLD: int := 600
  const CLEAR_THRESHOLD: int := 120
  const TOLERANCE: int := 300
  const TRIGGER_POLLS: nat := 3
  const CLEAR_POLLS: nat := 2
  const FOLLOW_POLLS: nat := 3

  /** The charger's clock minus Home Assistant's, in seconds; the part of Home Assistant's offset
      short of a whole hour; and whether the charger's offset differs from it. */
  datatype Reading = Reading(drift: int, residue: nat, zoneDiffers: bool)

  datatype Kind = Sync | TimeZone | Following | Fractional

  /** Which repair is shown. */
  datatype Notice = Notice(kind: Kind, hours: nat)

  /** One coordinator update: a failed one, or one whose clock may be missing. */
  datatype Poll = Failed | Read(reading: Option<Reading>, following: bool)

  function Size(x: int): (r: nat)
    ensures r == x || r == -x
  {
    if x < 0 then -x else x
  }

  // --- What a drift is called ------------------------------------------------------------

  predicate Unreachable(r: Reading) {
    r.residue != 0 && (Size(r.drift + r.residue) <= TOLERANCE || Size(r.drift - (3600 - r.residue)) <= TOLERANCE)
  }

  function Classified(r: Reading, following: bool): Notice {
    var hours := Round(r.drift as real / 3600.0);
    if Unreachable(r) then Notice(Fractional, 0)
    else if hours != 0 && Size(r.drift - hours * 3600) <= TOLERANCE && r.zoneDiffers then
      Notice(if following then Following else TimeZone, Size(hours))
    else Notice(Sync, 0)
  }

  /** The nearest hour is the only one a drift can be within the tolerance of. */
  lemma NearestHour(drift: int, n: int)
    requires Size(drift - n * 3600) <= TOLERANCE
    ensures Round(drift as real / 3600.0) == n
  {
    var x := drift as real / 3600.0;
    assert (drift - n * 3600) as real / 3600.0 == x - n as real;
    assert x - 0.1 <= n as real <= x + 0.1;
  }

  /** A time-zone fix is offered exactly when the drift sits at a whole number of hours, not zero,
      that a different offset would explain and that no fractional offset does. */
  lemma TimeZoneIsOfferedExactlyWhen(r: Reading, following: bool, hours: nat)
    ensures Classified(r, following) == Notice(if following then Following else TimeZone, hours) <==>
      !Unreachable(r) && r.zoneDiffers && hours > 0
      && (Size(r.drift - hours * 3600) <= TOLERANCE || Size(r.drift + hours * 3600) <= TOLERANCE)
  {
    if Size(r.drift - hours * 3600) <= TOLERANCE {
      NearestHour(r.drift, hours);
    }
    if Size(r.drift + hours * 3600) <= TOLERANCE {
      var n: int := hours;
      NearestHour(r.drift, -n);
    }
  }

  // --- The tracker -------------------------------------------------------------------------

  datatype Tracker = Tracker(
    driftStreak: nat, okStreak: nat, active: bool, published: Option<Notice>,
    rekeyStreak: nat, candidate: Option<Notice>)

  const NEW_TRACKER := Tracker(0, 0, false, None, 0, None)

  predicate Drifted(r: Reading) {
    Size(r.drift) > THRESHOLD
  }

  function Needed(r: Reading, following: bool): nat {
    TRIGGER_POLLS + if Classified(r, following).kind == Following then FOLLOW_POLLS else 0
  }

  datatype Decision = Raise | Clear | Leave

  /** `_evaluate_hysteresis`, for one readable clock. */
  function Evaluated(t: Tracker, r: Reading, following: bool): (Decision, Tracker) {
    if Drifted(r) then
      var counted := t.(driftStreak := t.driftStreak + 1, okStreak := 0);
      if counted.driftStreak >= Needed(r, following) && !t.active then (Raise, counted.(active := true))
      else (Leave, counted)
    else
      var calm := Size(r.drift) <= CLEAR_THRESHOLD || !t.active;
      var counted := t.(driftStreak := 0, okStreak := if calm then t.okStreak + 1 else 0);
      if calm && t.active && counted.okStreak >= CLEAR_POLLS then (Clear, counted.(active := false))
      else (Leave, counted)
  }

  /** `update_clock_drift_issue`. */
  function After(t: Tracker, p: Poll): Tracker {
    if p.Failed? then t
    else if p.reading == None then t.(rekeyStreak := 0)
    else
      var r, notice := p.reading.value, Classified(p.reading.value, p.following);
      var (decision, e) := Evaluated(t, r, p.following);
      match decision
      case Raise => e.(published := Some(notice), rekeyStreak := 0)
      case Clear => e.(published := None, rekeyStreak := 0)
      case Leave =>
        if t.published.Some? && Drifted(r) && Some(notice) != t.published then
          var streak := if t.candidate == Some(notice) then t.rekeyStreak + 1 else 1;
          if streak >= TRIGGER_POLLS then e.(published := Some(notice), rekeyStreak := 0, candidate := Some(notice))
          else e.(rekeyStreak := streak, candidate := Some(notice))
        else e.(rekeyStreak := 0)
  }

  function Run(polls: seq<Poll>): Tracker {
    if polls == [] then NEW_TRACKER else After(Run(polls[..|polls| - 1]), polls[|polls| - 1])
  }

  // --- What the polls show, without the tracker ------------------------------------------------

  /** Drifted readings since the last that was not; polls without a clock are passed over. */
  function DriftRun(polls: seq<Poll>): nat {
    if polls == [] then 0 else
      var rest, p := DriftRun(polls[..|polls| - 1]), polls[|polls| - 1];
      if p.Failed? || p.reading == None then rest
      else if Drifted(p.reading.value) then rest + 1 else 0
  }

  /** Readings in sync since the last that was not. */
  function CalmRun(polls: seq<Poll>): nat {
    if polls == [] then 0 else
      var rest, p := CalmRun(polls[..|polls| - 1]), polls[|polls| - 1];
      if p.Failed? || p.reading == None then rest
      else if Size(p.reading.value.drift) <= CLEAR_THRESHOLD then rest + 1 else 0
  }

  predicate Shows(p: Poll, c: Notice) {
    p.Read? && p.reading.Some? && Drifted(p.reading.value) && Classified(p.reading.value, p.following) == c
  }

  /** Successful polls in a row, up to now, that drifted and are called `c`. */
  function ClassRun(polls: seq<Poll>, c: Notice): nat {
    if polls == [] then 0 else
      var rest, p := ClassRun(polls[..|polls| - 1], c), polls[|polls| - 1];
      if p.Failed? then rest else if Shows(p, c) then rest + 1 else 0
  }

  lemma OneClassAtATime(polls: seq<Poll>, c: Notice, d: Notice)
    requires c != d && ClassRun(polls, c) > 0
    ensures ClassRun(polls, d) == 0
  {
    if polls[|polls| - 1].Failed? {
      OneClassAtATime(polls[..|polls| - 1], c, d);
    }
  }

  /** The counters are these runs, as long as they are looked at. */
  ghost predicate Counts(polls: seq<Poll>, t: Tracker) {
    && t.driftStreak == DriftRun(polls)
    && (t.active ==> t.okStreak == CalmRun(polls))
    && (t.active <==> t.published.Some?)
    && (t.active ==> CalmRun(polls) < CLEAR_POLLS)
  }

  lemma {:induction false} CountersCount(polls: seq<Poll>)
    ensures Counts(polls, Run(polls))
  {
    if polls != [] {
      CountersCount(polls[..|polls| - 1]);
    }
  }

  /** While a notice is shown, the re-key streak is the run of the one class that could replace it. */
  ghost predicate Rekeys(polls: seq<Poll>, t: Tracker) {
    forall c {:trigger ClassRun(polls, c)} :: t.published.Some? && Some(c) != t.published && ClassRun(polls, c) > 0 ==>
      t.candidate == Some(c) && t.rekeyStreak == ClassRun(polls, c) < TRIGGER_POLLS
  }

  ghost predicate StreakIsBacked(polls: seq<Poll>, t: Tracker) {
    t.rekeyStreak > 0 ==> t.candidate.Some? && t.rekeyStreak <= ClassRun(polls, t.candidate.value)
  }

  lemma {:induction false} RekeyStreakCounts(polls: seq<Poll>)
    ensures Rekeys(polls, Run(polls)) && StreakIsBacked(polls, Run(polls))
  {
    if polls != [] {
      var before, p := polls[..|polls| - 1], polls[|polls| - 1];
      RekeyStreakCounts(before);
      CountersCount(before);
      RekeyStep(before, Run(before), p);
      assert before + [p] == polls;
    }
  }

  lemma RekeyStep(before: seq<Poll>, t: Tracker, p: Poll)
    requires Rekeys(before, t) && StreakIsBacked(before, t) && Counts(before, t)
    ensures Rekeys(before + [p], After(t, p)) && StreakIsBacked(before + [p], After(t, p))
  {
    hide Classified, DriftRun, CalmRun;
    var polls, t' := before + [p], After(t, p);
    assert polls[..|polls| - 1] == before;
    if t'.rekeyStreak > 0 {
      var c := t'.candidate.value;
      assert ClassRun(polls, c) == ClassRun(before, c) + (if p.Failed? then 0 else 1);
    }
    forall c | t'.published.Some? && Some(c) != t'.published && ClassRun(polls, c) > 0
      ensures t'.candidate == Some(c) && t'.rekeyStreak == ClassRun(polls, c) < TRIGGER_POLLS
    {
      if p.Failed? {
        assert ClassRun(before, c) == ClassRun(polls, c);
      } else {
        assert Shows(p, c);
        assert ClassRun(polls, c) == ClassRun(before, c) + 1;
      }
    }
  }

  // --- The life of the notice ---------------------------------------------------------------

  lemma Unfold(polls: seq<Poll>, p: Poll)
    ensures Run(polls + [p]) == After(Run(polls), p)
  {
    assert (polls + [p])[..|polls|] == polls;
  }

  /** A notice appears exactly on the drifted reading that completes the debounce, and it names the
      fix for that reading. */
  lemma AppearsExactlyWhen(polls: seq<Poll>, p: Poll)
    requires Run(polls).published == None
    ensures Run(polls + [p]).published ==
      if p.Read? && p.reading.Some? && Drifted(p.reading.value) && DriftRun(polls + [p]) >= Needed(p.reading.value, p.following)
      then Some(Classified(p.reading.value, p.following)) else None
  {
    Unfold(polls, p);
    CountersCount(polls);
    CountersCount(polls + [p]);
  }

  /** It goes exactly when the second reading in a row is in sync. */
  lemma GoesExactlyWhen(polls: seq<Poll>, p: Poll)
    requires Run(polls).published.Some?
    ensures Run(polls + [p]).published == None <==> CalmRun(polls + [p]) >= CLEAR_POLLS
  {
    assert (polls + [p])[..|polls|] == polls;
    CountersCount(polls);
    CountersCount(polls + [p]);
  }

  /** A shown notice is rewritten exactly when another classification has held for a whole debounce of
      successful polls: a drift that swings across a boundary rewrites nothing. */
  lemma RewrittenExactlyWhen(polls: seq<Poll>, p: Poll, c: Notice)
    requires Run(polls).published.Some? && Run(polls).published != Some(c)
    ensures Run(polls + [p]).published == Some(c) <==> ClassRun(polls + [p], c) >= TRIGGER_POLLS
  {
    hide Classified, DriftRun, CalmRun;
    assert (polls + [p])[..|polls|] == polls;
    CountersCount(polls);
    RekeyStreakCounts(polls);
    RekeyStreakCounts(polls + [p]);
    Unfold(polls, p);
    if Run(polls + [p]).published == Some(c) {
      assert Shows(p, c);
    }
  }

  /** So a notice never keeps naming the wrong fix: once a classification has held that long, it is
      the one shown. */
  lemma TheRightFixIsShown(polls: seq<Poll>, c: Notice)
    requires Run(polls).published.Some? && ClassRun(polls, c) >= TRIGGER_POLLS
    ensures Run(polls).published == Some(c)
  {
    RekeyStreakCounts(polls);
  }

  /** A poll without a clock, or a failed one, neither shows, clears nor rewrites a notice. */
  lemma NoClockNoChange(polls: seq<Poll>, p: Poll)
    requires p.Failed? || p.reading == None
    ensures var t, t' := Run(polls), Run(polls + [p]);
      t'.published == t.published && t'.driftStreak == t.driftStreak && t'.okStreak == t.okStreak
  {
    Unfold(polls, p);
  }

  class ClockDriftTracker {
    var driftStreak: nat
    var okStreak: nat
    var active: bool
    var published: Option<Notice>
    var rekeyStreak: nat
    var rekeyCandidate: Option<Notice>

    ghost function State(): Tracker
      reads this
    {
      Tracker(driftStreak, okStreak, active, published, rekeyStreak, rekeyCandidate)
    }

    constructor ()
      ensures State() == NEW_TRACKER
    {
      driftStreak, okStreak, active := 0, 0, false;
      published, rekeyStreak, rekeyCandidate := None, 0, None;
    }

    method Evaluate(r: Reading, following: bool) returns (decision: Decision)
      modifies this
      ensures (decision, State()) == Evaluated(old(State()), r, following)
    {
      var drift := Size(r.drift);
      if drift > THRESHOLD {
        okStreak := 0;
        driftStreak := driftStreak + 1;
        var needed := TRIGGER_POLLS;
        if Classified(r, following).kind == Following {
          needed := needed + FOLLOW_POLLS;
        }
        if driftStreak >= needed && !active {
          active := true;
          return Raise;
        }
        return Leave;
      }
      driftStreak := 0;
      if drift <= CLEAR_THRESHOLD || !active {
        okStreak := okStreak + 1;
        if active && okStreak >= CLEAR_POLLS {
          active := false;
          return Clear;
        }
      } else {
        okStreak := 0;
      }
      return Leave;
    }

    method Update(p: Poll)
      modifies this
      ensures State() == After(old(State()), p)
    {
      if p.Failed? {
        return;
      }
      if p.reading == None {
        rekeyStreak := 0;
        return;
      }
      var notice := Classified(p.reading.value, p.following);
      var decision := Evaluate(p.reading.value, p.following);
      var rekey := false;
      if decision == Leave && published.Some? && Size(p.reading.value.drift) > THRESHOLD && Some(notice) != published {
        rekeyStreak := if rekeyCandidate == Some(notice) then rekeyStreak + 1 else 1;
        rekeyCandidate := Some(notice);
        rekey := rekeyStreak >= TRIGGER_POLLS;
      } else {
        rekeyStreak := 0;
      }
      if decision == Raise || rekey {
        published := Some(notice);
        rekeyStreak := 0;
      } else if decision == Clear {
        published := None;
        rekeyStreak := 0;
      }
    }
  }
}
