/** Thinned publication of accumulated meters (`OptimizedEveusSensor` with
    `minute_publication`, and the reset bookkeeping of `MonetaryCostSensor`).

    A meter is read on every poll but written about once a minute.  The reference is
    a sensor that writes every reading; the total a consumer adds up must not differ.
 */
module MeterPublication {
  import opened Common

  const PUBLISH_BAND: real := 0.1

  datatype Context = Context(online: bool, state: Option<int>, evseEnabled: Option<int>)

  /** One coordinator update.  A missed poll has no reading; `inGrace` says whether the
      entity is still visible then. */
  datatype Update = Update(
    online: bool, inGrace: bool, reading: Option<real>,
    state: Option<int>, evseEnabled: Option<int>, clock: Option<int>, bucket: int, energy: Option<real>)

  /** A published state: its value, and the window its `last_reset` names. */
  datatype Row = Row(value: real, window: nat)

  datatype Sensor = Sensor(
    native: Option<real>,      // the published value
    latest: Option<real>,      // the last reading seen
    context: Option<Context>, clock: Option<int>, bucket: Option<int>, anchor: Option<real>,
    prev: Option<real>, window: nat,
    rows: seq<Row>)

  const NEW_SENSOR := Sensor(None, None, None, None, None, None, None, 0, [])

  /** The meter's value on an update: nothing while polls fail. */
  function ValueOf(u: Update): Option<real> {
    if u.online then u.reading else None
  }

  function ContextOf(u: Update): Context {
    Context(u.online, u.state, u.evseEnabled)
  }

  predicate BandReached(anchor: Option<real>, energy: Option<real>) {
    anchor.Some? && energy.Some? ==>
      Round((energy.value - anchor.value) * 1000000.0) as real / 1000000.0 >= PUBLISH_BAND
  }

  /** What the entity shows after publishing `value`: nothing when unavailable, and the
      value it held when a missed poll has nothing to show inside the grace period. */
  function Shown(s: Sensor, u: Update, value: Option<real>): Option<real> {
    if u.online then value
    else if !u.inGrace || s.native == None then None
    else if value == None then s.native
    else value
  }

  /** A published value opens a window when there is none or when it dropped. */
  function Published(s: Sensor, u: Update, value: Option<real>): Sensor {
    var shown := Shown(s, u, value);
    if shown == None then s.(native := None) else
      var restart := s.window == 0 || (s.prev.Some? && shown.value < s.prev.value);
      var window := if restart then s.window + 1 else s.window;
      s.(native := shown, prev := shown, window := window, rows := s.rows + [Row(shown.value, window)])
  }

  predicate IsReset(s: Sensor, u: Update) {
    || (ValueOf(u).Some? && s.latest.Some? && ValueOf(u).value < s.latest.value)
    || (u.clock.Some? && s.clock.Some? && u.clock.value < s.clock.value)
  }

  predicate Publishes(s: Sensor, flushed: Sensor, u: Update) {
    || IsReset(s, u) || Some(ContextOf(u)) != s.context || ValueOf(u) == None
    || flushed.native == None
    || (s.bucket != Some(u.bucket) && BandReached(s.anchor, u.energy))
  }

  /** The last observed tail goes out before a reset or a missing reading. */
  function Flushed(s: Sensor, u: Update): Sensor {
    if (IsReset(s, u) || ValueOf(u) == None) && s.latest.Some? then Published(s, u, s.latest) else s
  }

  function Updated(s: Sensor, u: Update): Sensor {
    var flushed := Flushed(s, u);
    var publish := Publishes(s, flushed, u);
    var written := Published(flushed, u, if publish then ValueOf(u) else flushed.native);
    written.(latest := ValueOf(u), context := Some(ContextOf(u)), clock := u.clock,
             bucket := if publish then Some(u.bucket) else s.bucket,
             anchor := if publish then u.energy else s.anchor)
  }

  /** What an earlier run left: nothing, or the last row it wrote and the window it was in. */
  datatype Restored = Nothing | Kept(last: Row)

  ghost predicate Usable(r: Restored) {
    r.Kept? ==> r.last.window > 0
  }

  function Start(r: Restored): Sensor {
    match r
    case Nothing => NEW_SENSOR
    case Kept(last) => NEW_SENSOR.(prev := Some(last.value), window := last.window, rows := [last])
  }

  /** Adding the entity publishes what the newest poll reads, before any update is handled. */
  function Added(r: Restored, now: Update): Sensor {
    Published(Start(r), now, ValueOf(now))
  }

  function Run(r: Restored, added: Update, updates: seq<Update>): Sensor {
    if updates == [] then Added(r, added)
    else Updated(Run(r, added, updates[..|updates| - 1]), updates[|updates| - 1])
  }

  // --- The reference -------------------------------------------------------------------

  /** A sensor that publishes every reading, with the same rule for opening windows. */
  function EveryReading(r: Restored, added: Update, updates: seq<Update>): seq<Row> {
    if updates == [] then NextReference(Start(r).rows, ValueOf(added))
    else NextReference(EveryReading(r, added, updates[..|updates| - 1]), ValueOf(updates[|updates| - 1]))
  }

  function NextReference(rows: seq<Row>, value: Option<real>): seq<Row> {
    if value == None then rows else rows + [NextRow(rows, value.value)]
  }

  function NextRow(rows: seq<Row>, value: real): Row {
    if rows == [] then Row(value, 1) else
      var last := rows[|rows| - 1];
      Row(value, if value < last.value then last.window + 1 else last.window)
  }

  /** What a consumer adds up over rows: growth inside a window, and the whole value when a new one opens. */
  function Accumulated(rows: seq<Row>): real {
    if |rows| <= 1 then 0.0 else
      var last, before := rows[|rows| - 1], rows[|rows| - 2];
      Accumulated(rows[..|rows| - 1]) + (if last.window == before.window then last.value - before.value else last.value)
  }

  /** The growth seen but not yet written. */
  function Unpublished(s: Sensor): real {
    if s.latest.Some? && s.prev.Some? then s.latest.value - s.prev.value else 0.0
  }

  /** The first missed poll after a good one is inside the grace period: the outage clock
      starts at that very poll. */
  predicate OutagesStartVisible(updates: seq<Update>) {
    forall i :: 0 < i < |updates| && updates[i - 1].online && !updates[i].online ==> updates[i].inGrace
  }

  // --- Nothing is lost -----------------------------------------------------------------

  predicate LastRowIs(rows: seq<Row>, value: Option<real>, window: nat) {
    if rows == [] then value == None && window == 0
    else value == Some(rows[|rows| - 1].value) && window == rows[|rows| - 1].window
  }

  /** How the thinned sensor stands to the reference after the same updates. */
  ghost predicate InStep(s: Sensor, full: seq<Row>) {
    && LastRowIs(s.rows, s.prev, s.window)
    && (s.native.Some? ==> s.native == s.prev)
    && (s.rows == [] <==> full == [])
    && (full != [] ==> s.window == full[|full| - 1].window > 0)
    && Accumulated(s.rows) + Unpublished(s) == Accumulated(full)
    && (full != [] ==>
          if s.latest.Some? then s.latest.value == full[|full| - 1].value && s.native.Some? && s.prev.value <= s.latest.value
          else s.prev.value == full[|full| - 1].value)
    && (s.latest.Some? ==> s.context.Some? && s.context.value.online && full != [])
    && (s.latest == None && s.native.Some? && s.context.Some? ==> !s.context.value.online)
  }

  lemma AppendRow(rows: seq<Row>, row: Row)
    ensures Accumulated(rows + [row]) ==
      if rows == [] then 0.0
      else Accumulated(rows) + (if row.window == rows[|rows| - 1].window then row.value - rows[|rows| - 1].value else row.value)
  {
    assert (rows + [row])[..|rows|] == rows;
  }

  /** One publication adds to the consumer's total what the window rule says. */
  lemma PublishAdds(s: Sensor, u: Update, value: Option<real>)
    requires LastRowIs(s.rows, s.prev, s.window) && Shown(s, u, value).Some?
    requires s.rows != [] ==> s.window > 0
    ensures var v, s' := Shown(s, u, value).value, Published(s, u, value);
      && LastRowIs(s'.rows, s'.prev, s'.window) && s'.prev == Some(v) && s'.rows != []
      && Accumulated(s'.rows) == (if s.prev == None then 0.0
                                  else Accumulated(s.rows) + (if v < s.prev.value then v else v - s.prev.value))
      && s'.window == (if s.prev == None || v < s.prev.value then s.window + 1 else s.window)
  {
    var v := Shown(s, u, value).value;
    AppendRow(s.rows, Row(v, Published(s, u, value).window));
  }

  /** Writing the withheld tail changes no total and opens no window. */
  lemma FlushKeeps(s: Sensor, u: Update, full: seq<Row>)
    requires InStep(s, full) && s.latest.Some? && (u.online || u.inGrace)
    ensures InStep(Published(s, u, s.latest), full) && Published(s, u, s.latest).prev == s.latest
  {
    PublishAdds(s, u, s.latest);
  }

  lemma UpdateKeepsStep(s: Sensor, u: Update, full: seq<Row>)
    requires InStep(s, full)
    requires s.latest.Some? && !u.online ==> u.inGrace
    ensures InStep(Updated(s, u), NextReference(full, ValueOf(u)))
  {
    hide Accumulated, BandReached;
    var flushed := Flushed(s, u);
    if (IsReset(s, u) || ValueOf(u) == None) && s.latest.Some? {
      FlushKeeps(s, u, full);
    }
    var publish := Publishes(s, flushed, u);
    var value := if publish then ValueOf(u) else flushed.native;
    if Shown(flushed, u, value).Some? {
      PublishAdds(flushed, u, value);
    }
    if ValueOf(u).Some? {
      AppendRow(full, NextRow(full, ValueOf(u).value));
    }
  }

  lemma AddingKeepsStep(r: Restored, now: Update)
    requires Usable(r)
    ensures InStep(Added(r, now), NextReference(Start(r).rows, ValueOf(now)))
  {
    if ValueOf(now).Some? {
      PublishAdds(Start(r), now, ValueOf(now));
      AppendRow(Start(r).rows, NextRow(Start(r).rows, ValueOf(now).value));
    }
  }

  lemma ReferenceUnfolds(r: Restored, added: Update, updates: seq<Update>)
    requires updates != []
    ensures EveryReading(r, added, updates) ==
      NextReference(EveryReading(r, added, updates[..|updates| - 1]), ValueOf(updates[|updates| - 1]))
  {
  }

  lemma LatestFollowsUpdate(s: Sensor, u: Update)
    ensures Updated(s, u).latest == ValueOf(u)
  {
  }

  lemma NothingSeenYet(r: Restored, now: Update)
    ensures Added(r, now).latest == None
  {
  }

  lemma {:induction false} StaysInStep(r: Restored, added: Update, updates: seq<Update>)
    requires Usable(r) && OutagesStartVisible(updates)
    ensures InStep(Run(r, added, updates), EveryReading(r, added, updates))
    ensures Run(r, added, updates).latest.Some? ==> updates != [] && updates[|updates| - 1].online
  {
    hide InStep, Updated, NextReference, Added;
    if updates == [] {
      AddingKeepsStep(r, added);
      NothingSeenYet(r, added);
    } else {
      var before := updates[..|updates| - 1];
      StaysInStep(r, added, before);
      ReferenceUnfolds(r, added, updates);
      LatestFollowsUpdate(Run(r, added, before), updates[|updates| - 1]);
      if before != [] && Run(r, added, before).latest.Some? {
        assert updates[|updates| - 2] == before[|before| - 1];
      }
      UpdateKeepsStep(Run(r, added, before), updates[|updates| - 1], EveryReading(r, added, before));
    }
  }

  /** Thinning loses nothing: from whatever an earlier run left, over any updates, the total added up
      from the published rows, plus the growth not yet written, is the total of publishing every
      reading, and the same number of windows was opened. */
  lemma ThinningLosesNothing(r: Restored, added: Update, updates: seq<Update>)
    requires Usable(r) && OutagesStartVisible(updates)
    ensures var s, full := Run(r, added, updates), EveryReading(r, added, updates);
      && Accumulated(s.rows) + Unpublished(s) == Accumulated(full)
      && (full != [] ==> s.window == full[|full| - 1].window)
  {
    StaysInStep(r, added, updates);
  }

  /** ... and flushing on an orderly unload leaves nothing unwritten. */
  lemma UnloadWritesTheRest(r: Restored, added: Update, updates: seq<Update>, now: Update)
    requires Usable(r) && OutagesStartVisible(updates)
    requires Run(r, added, updates).latest.Some? && (now.online || now.inGrace)
    ensures var s := Run(r, added, updates);
      Accumulated(Published(s, now, s.latest).rows) == Accumulated(EveryReading(r, added, updates))
  {
    StaysInStep(r, added, updates);
    FlushKeeps(Run(r, added, updates), now, EveryReading(r, added, updates));
  }

  /** Thinning does thin: ordinary growth within a minute, or short of the band, writes nothing new. */
  lemma OrdinaryGrowthWaits(s: Sensor, u: Update)
    requires u.online && u.reading.Some? && s.native.Some? && s.context == Some(ContextOf(u)) && !IsReset(s, u)
    requires s.bucket == Some(u.bucket) || !BandReached(s.anchor, u.energy)
    ensures Updated(s, u).native == s.native && Updated(s, u).latest == u.reading
    ensures Updated(s, u).bucket == s.bucket && Updated(s, u).anchor == s.anchor
  {
  }

  // --- The sensor ----------------------------------------------------------------------

  class MeterSensor {
    var native: Option<real>
    var latest: Option<real>
    var context: Option<Context>
    var clock: Option<int>
    var bucket: Option<int>
    var anchor: Option<real>
    var prev: Option<real>
    var window: nat
    var rows: seq<Row>

    ghost function State(): Sensor
      reads this
    {
      Sensor(native, latest, context, clock, bucket, anchor, prev, window, rows)
    }

    constructor (r: Restored)
      ensures State() == Start(r)
    {
      native, latest, context, clock, bucket, anchor := None, None, None, None, None, None;
      prev := if r.Kept? then Some(r.last.value) else None;
      window := if r.Kept? then r.last.window else 0;
      rows := if r.Kept? then [r.last] else [];
    }

    /** `async_added_to_hass`: the first value, before any update is handled. */
    method AddedToHass(now: Update)
      modifies this
      ensures State() == Published(old(State()), now, ValueOf(now))
    {
      Publish(now, ValueOf(now));
    }

    /** The write path: availability, the held value, and the window bookkeeping. */
    method Publish(u: Update, value: Option<real>)
      modifies this
      ensures State() == Published(old(State()), u, value)
    {
      var available := if u.online then value.Some? else u.inGrace && native.Some?;
      if !available {
        native := None;
      } else if value.Some? || u.online {
        native := value;
      }
      if native.Some? {
        if window == 0 || (prev.Some? && native.value < prev.value) {
          window := window + 1;
        }
        prev := native;
        rows := rows + [Row(native.value, window)];
      }
    }

    method HandleUpdate(u: Update)
      modifies this
      ensures State() == Updated(old(State()), u)
    {
      var value := ValueOf(u);
      var now := ContextOf(u);
      var reset := (value.Some? && latest.Some? && value.value < latest.value)
                || (u.clock.Some? && clock.Some? && u.clock.value < clock.value);
      var terminal := reset || Some(now) != context || value == None;
      if (reset || value == None) && latest.Some? {
        Publish(u, latest);
      }
      var publish := terminal || native == None || (bucket != Some(u.bucket) && BandReached(anchor, u.energy));
      Publish(u, if publish then value else native);
      if publish {
        bucket := Some(u.bucket);
        anchor := u.energy;
      }
      latest, context, clock := value, Some(now), u.clock;
    }
  }
}
