/** Holding a lifetime meter that drops for a poll or two (`MeterGuard`). */
module MeterGuards {
  import opened Common

  const CONFIRM_POLLS: nat := 3

  /** The guarded payload keys, and one for every other key of a payload. */
  datatype Key = TotalEnergy | IEM1 | IEM2 | IEM1Money | IEM2Money | Other(name: string)

  const METER_KEYS: seq<Key> := [TotalEnergy, IEM1, IEM2, IEM1Money, IEM2Money]

  /** A payload value: a finite number, or anything else. */
  datatype Value = Number(value: real) | Unusable(text: string)

  type Payload = map<Key, Value>

  datatype Command = RstEM1 | RstEM2 | AnyOther

  function Zeroes(command: Command): set<Key> {
    match command
    case RstEM1 => {IEM1, IEM1Money}
    case RstEM2 => {IEM2, IEM2Money}
    case AnyOther => {}
  }

  function Numeric(payload: Payload, key: Key): Option<real> {
    if key in payload && payload[key].Number? then Some(payload[key].value) else None
  }

  // --- One meter ---------------------------------------------------------------------

  /** What the guard remembers of one meter. */
  datatype Meter = Meter(accepted: Option<real>, drops: nat, resetExpected: bool)

  const UNSEEN := Meter(None, 0, false)

  predicate Lower(m: Meter, value: real) {
    m.accepted.Some? && value < m.accepted.value
  }

  function Read(m: Meter, value: real): (r: (Meter, real)) {
    if Lower(m, value) && !m.resetExpected && m.drops + 1 < CONFIRM_POLLS
    then (m.(drops := m.drops + 1), m.accepted.value)
    else (Meter(Some(value), 0, false), value)
  }

  /** Everything that can happen to a meter; a poll without a number leaves no input. */
  datatype Input = Reading(value: real) | Missing | ExpectReset | Seed(value: real)

  function After(m: Meter, input: Input): Meter {
    match input
    case Reading(v) => Read(m, v).0
    case Missing => m
    case ExpectReset => m.(resetExpected := true)
    case Seed(v) => if m.accepted == None && v >= 0.0 then m.(accepted := Some(v)) else m
  }

  function Run(inputs: seq<Input>): Meter {
    if inputs == [] then UNSEEN else After(Run(inputs[..|inputs| - 1]), inputs[|inputs| - 1])
  }

  /** How many numeric readings in a row, up to now, were below `base`. */
  function LowRun(inputs: seq<Input>, base: real): nat {
    if inputs == [] then 0 else
      var rest := LowRun(inputs[..|inputs| - 1], base);
      match inputs[|inputs| - 1]
      case Reading(v) => if v < base then rest + 1 else 0
      case _ => rest
  }

  lemma {:induction false} NoReadingsYet(inputs: seq<Input>, base: real)
    requires Run(inputs).accepted == None
    ensures LowRun(inputs, base) == 0 && Run(inputs).drops == 0
  {
    if inputs != [] {
      NoReadingsYet(inputs[..|inputs| - 1], base);
    }
  }

  /** The drop counter is the length of the run of lower readings that ends now. */
  lemma {:induction false} DropsCountTheLowRun(inputs: seq<Input>)
    requires Run(inputs).accepted.Some?
    ensures Run(inputs).drops == LowRun(inputs, Run(inputs).accepted.value) < CONFIRM_POLLS
  {
    var before := Run(inputs[..|inputs| - 1]);
    if before.accepted.Some? {
      DropsCountTheLowRun(inputs[..|inputs| - 1]);
    } else {
      NoReadingsYet(inputs[..|inputs| - 1], Run(inputs).accepted.value);
    }
  }

  /** A reading is published at or above what was read, and what is published is the new baseline. */
  lemma PublishedIsBaseline(inputs: seq<Input>, value: real)
    ensures var (m, out) := Read(Run(inputs), value);
      out >= value && m.accepted == Some(out) && Run(inputs + [Reading(value)]) == m
  {
    assert (inputs + [Reading(value)])[..|inputs|] == inputs;
  }

  /** The published value falls only on the third lower reading in a row, or on the
      first reading after an expected reset, and then to what was read. */
  lemma FallsOnlyWhenConfirmed(inputs: seq<Input>, value: real)
    requires Run(inputs).accepted.Some?
    ensures var base, out := Run(inputs).accepted.value, Read(Run(inputs), value).1;
      out < base <==> value < base && (Run(inputs).resetExpected || LowRun(inputs + [Reading(value)], base) == CONFIRM_POLLS)
    ensures Read(Run(inputs), value).1 < Run(inputs).accepted.value ==> Read(Run(inputs), value).1 == value
  {
    DropsCountTheLowRun(inputs);
    assert (inputs + [Reading(value)])[..|inputs|] == inputs;
  }

  /** An expected reset is spent on the next reading, whatever it is, and on nothing else. */
  lemma {:induction false} ResetExpectedUntilNextReading(inputs: seq<Input>, later: seq<Input>)
    requires forall i :: 0 <= i < |later| ==> !later[i].Reading?
    ensures Run(inputs + [ExpectReset] + later).resetExpected
    ensures forall v :: !Read(Run(inputs + [ExpectReset] + later), v).0.resetExpected
                     && Read(Run(inputs + [ExpectReset] + later), v).1 == v
  {
    var all := inputs + [ExpectReset] + later;
    if later == [] {
      assert all[..|all| - 1] == inputs;
    } else {
      assert all[..|all| - 1] == inputs + [ExpectReset] + later[..|later| - 1];
      ResetExpectedUntilNextReading(inputs, later[..|later| - 1]);
    }
  }

  /** One or two low polls leave no trace: they publish the baseline, and the next
      reading at or above it finds the guard as if they had not been. */
  lemma DipLeavesNoTrace(m: Meter, first: real, second: real, value: real)
    requires m.accepted.Some? && m.drops == 0 && !m.resetExpected
    requires first < m.accepted.value && second < m.accepted.value <= value
    ensures Read(m, first).1 == m.accepted.value
    ensures Read(Read(m, first).0, value) == Read(m, value)
    ensures Read(Read(m, first).0, second).1 == m.accepted.value
    ensures Read(Read(Read(m, first).0, second).0, value) == Read(m, value)
  {
  }

  function Seeded(m: Meter, saved: Payload, key: Key): Meter {
    if Numeric(saved, key).Some? then After(m, Seed(Numeric(saved, key).value)) else m
  }

  // --- The guard of one charger --------------------------------------------------------

  class MeterGuard {
    var accepted: map<Key, real>
    var drops: map<Key, nat>
    var resets: set<Key>

    /** The guard's memory of one meter. */
    function Of(key: Key): Meter
      reads this
    {
      Meter(if key in accepted then Some(accepted[key]) else None, if key in drops then drops[key] else 0, key in resets)
    }

    constructor ()
      ensures forall key :: Of(key) == UNSEEN
    {
      accepted, drops, resets := map[], map[], {};
    }

    /** Takes saved readings for the meters not seen yet. */
    method SeedFrom(saved: Payload)
      modifies this
      ensures forall key :: Of(key) == if key in METER_KEYS then Seeded(old(Of(key)), saved, key) else old(Of(key))
    {
      var i := 0;
      while i < |METER_KEYS|
        invariant 0 <= i <= |METER_KEYS|
        invariant forall key :: Of(key) == if key in METER_KEYS[..i] then Seeded(old(Of(key)), saved, key) else old(Of(key))
      {
        var key := METER_KEYS[i];
        KeysAreDistinct(i);
        var value := Numeric(saved, key);
        if value.Some? && value.value >= 0.0 && key !in accepted {
          accepted := accepted[key := value.value];
        }
        i := i + 1;
      }
    }

    method ExpectResetOf(command: Command)
      modifies this
      ensures forall key :: Of(key) == if key in Zeroes(command) then After(old(Of(key)), ExpectReset) else old(Of(key))
    {
      resets := resets + Zeroes(command);
    }

    /** The payload with every unconfirmed drop held back.  Each meter is guarded alone. */
    method Apply(payload: Payload) returns (out: Payload)
      modifies this
      ensures forall key :: key in METER_KEYS && Numeric(payload, key).Some? ==>
        Read(old(Of(key)), Numeric(payload, key).value) == (Of(key), PublishedNumber(out, key))
      ensures forall key :: key !in METER_KEYS || Numeric(payload, key) == None ==>
        Of(key) == old(Of(key)) && Same(payload, out, key)
      ensures out.Keys == payload.Keys
    {
      hide Read;
      out := payload;
      var i := 0;
      while i < |METER_KEYS|
        invariant 0 <= i <= |METER_KEYS| && out.Keys == payload.Keys
        invariant forall key :: key in METER_KEYS[..i] && Numeric(payload, key).Some? ==>
          Read(old(Of(key)), Numeric(payload, key).value) == (Of(key), PublishedNumber(out, key))
        invariant forall key :: key !in METER_KEYS[..i] || Numeric(payload, key) == None ==>
          Of(key) == old(Of(key)) && Same(payload, out, key)
      {
        KeysAreDistinct(i);
        out := ApplyKey(METER_KEYS[i], out);
        i := i + 1;
      }
    }

    /** The body of that loop, for one key. */
    method ApplyKey(key: Key, payload: Payload) returns (out: Payload)
      modifies this
      ensures out.Keys == payload.Keys
      ensures Numeric(payload, key) == None ==> Of(key) == old(Of(key)) && out == payload
      ensures Numeric(payload, key).Some? ==>
        Read(old(Of(key)), Numeric(payload, key).value) == (Of(key), PublishedNumber(out, key))
      ensures forall other :: other != key ==> Of(other) == old(Of(other)) && Same(payload, out, other)
    {
      out := payload;
      var value := Numeric(out, key);
      if value == None {
        return;
      }
      if key in accepted && value.value < accepted[key] && key !in resets {
        var count := (if key in drops then drops[key] else 0) + 1;
        if count < CONFIRM_POLLS {
          drops := drops[key := count];
          out := out[key := Number(accepted[key])];
          return;
        }
      }
      accepted := accepted[key := value.value];
      drops := drops - {key};
      resets := resets - {key};
    }
  }

  function PublishedNumber(payload: Payload, key: Key): real {
    if Numeric(payload, key).Some? then Numeric(payload, key).value else 0.0
  }

  predicate Same(payload: Payload, out: Payload, key: Key) {
    (key in payload <==> key in out) && (key in payload ==> out[key] == payload[key])
  }

  lemma KeysAreDistinct(i: nat)
    requires i < |METER_KEYS|
    ensures METER_KEYS[i] !in METER_KEYS[..i]
    ensures METER_KEYS[..i + 1] == METER_KEYS[..i] + [METER_KEYS[i]]
  {
  }
}
