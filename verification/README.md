# Verification of the Eveus charger integration

This project models the parts of the Eveus integration for Home Assistant
whose correctness is hard to see from the code: what a charge will cost, when
the SOC limit stops it, what reaches the charger when several writes compete,
what is kept and dropped when meters and notices are thinned or debounced, and
how the state of charge and the finish time are worked out. Everything is
proved for all inputs, all runs or all interleavings, by Dafny 4.11:

    dafny verify dfyconfig.toml

## What is modelled

**Pricing** (`Integrals`, `DayWindows`, `Draws`, `TariffPricing`,
`SchedulePricing`). The meaning of a price is an integral: energy is drawn and
paid for minute by minute, with no notion of days or window edges. The two
pricing loops, with their whole-day shortcut and edge-by-edge walk, are methods
proved to return exactly that price.

**Commands** (`PriorityLocks`, `CommandRuns`, `CommandAttempts`,
`SetpointWrites`, `SocLimit`, `SocLimitRuns`, `StopCommands`). A step is what runs between two
awaits. Any task may be cancelled at any await; a cancelled task ends at its
next resumption, and nothing runs between a preflight that passes and its
request. The properties hold in every state of every run.

**Readings** (`MeterGuards`, `MeterPublication`, `ChargeCompletion`,
`ReveRates`). State machines fed by sequences of polls, each compared with a
reference that speaks of the polls only.

**Notices** (`SafetyNotices`, `ClockDrift`). Debounce, recovery, dismissal and
re-keying over every sequence of polls and user actions.

**Estimates** (`FinishEstimate`, `SocArithmetic`, `SocSeeding`). The damped
finish instant and the round trips of the SOC arithmetic, with explicit error
bounds. Reals stand for the floats, and every `round` of the source is kept as
a rounding to the nearest, half to even.

Objects that the source updates in place are classes here; each method is
proved to compute a function of the old state, and the theorems are about runs
of those functions.

## What is false of the code

- A dismissed notice that never recovered should not be raised again. After a
  reload it can be: deleting a recovered notice clears its memory without
  saving that (`safety.py` 515-524), so the storage may still say "recovered"
  about the next notice of the policy
  (`SafetyNotices.StaleStorageReopensADismissedNotice`).
  `SafetyNotices.DismissalIsOverriddenExactlyWhen` proves over all runs that
  this happens exactly when a reload since the raising has read stale storage,
  and `SafetyNotices.MemoryIsExact` when the storage is stale.
- Unknown readings should move nothing. A poll with unknown signals does delete
  a notice whose recovery was confirmed before and that was dismissed since
  (`SafetyNotices.AnUnknownPollDeletes`), and changes nothing otherwise
  (`SafetyNotices.UnknownMovesNothing`).
- Some amount of energy should reach any target. It does exactly when the
  capacity, rounded to a hundredth of a kWh, reaches it
  (`SocArithmetic.ReachableExactlyWhen`); a capacity such as 10.004 kWh, which
  the entity accepts, never reads as 100 %.

## Model

| member | source | states |
|---|---|---|
| Integrals.Additive | custom_components/eveus/utils.py:618-629 | What is added up over two adjoining stretches is what is added up over both. |
| Integrals.DayFromAnywhere | custom_components/eveus/utils.py:608-614 | A daily quantity adds up to the same over 24 hours from whichever instant it is counted. |
| Integrals.WholeDays | custom_components/eveus/utils.py:608-618 | n days from any instant add up to n times one day, which is what lets whole days be taken out in one step. |
| DayWindows.OverlapIsExact | custom_components/eveus/utils.py:560-564 | Two windows with a length share a minute of the day if and only if one contains the other's start, past midnight included. |
| DayWindows.OpenMinutes | custom_components/eveus/utils.py:614-617 | A window is open for (stop - start) mod 1440 minutes of a day, wrapping or not. |
| DayWindows.NextEdge | custom_components/eveus/utils.py:621-625 | The edge stepped to lies after now and is a window edge, today's or tomorrow's. |
| DayWindows.NothingChangesBeforeNextEdge | custom_components/eveus/utils.py:621-628 | No window opens or closes before the next edge, so one rate covers the whole stretch. |
| DayWindows.AtMostOncePerDay | custom_components/eveus/utils.py:619-628 | Instants less than a day apart that all fall on edges are no more than there are distinct edges. |
| Draws.PriceIsUnique | custom_components/eveus/utils.py:567-629 | A draw has one price, even if the power stops for a while after the last kWh. |
| Draws.PriceBounds | custom_components/eveus/utils.py:567-629 | A price lies between the lowest and the highest rate times the energy. |
| Draws.PriceIsAdditive | custom_components/eveus/utils.py:567-629 | Pricing e1 + e2 is pricing e1, and then e2 from the instant where e1 ends. |
| Draws.DrawWholeDaysMore | custom_components/eveus/utils.py:608-618 | Drawing on for whole days adds that many days' energy and that many days' cost. |
| TariffPricing.IndexIsTheOpenWindow | custom_components/eveus/utils.py:596-600 | For accepted windows the rate is that of any window that is open, not only of the first. |
| TariffPricing.OrderDecidesNothing | custom_components/eveus/utils.py:591-600 | For accepted windows the rate in effect does not depend on the order they are looked at. |
| TariffPricing.WeightedRateIsADay | custom_components/eveus/utils.py:614-617 | `weighted_rate` is the sum of the rates of all the minutes of a day. |
| TariffPricing.WalkEdges | custom_components/eveus/utils.py:619-629 | The edge walk draws exactly the remainder minute by minute, in at most one step per distinct edge and one more. |
| TariffPricing.PriceOverTariffs | custom_components/eveus/utils.py:567-629 | A cost is returned exactly when there is power and the windows have lengths, do not overlap and agree with the active rate; it is then the cost of the plain draw of that energy from that minute, for fractional minutes and wrapping windows too; and the walk is bounded whatever the energy. |
| SchedulePricing.PowerIsTheOpenSchedule | custom_components/eveus/utils.py:668-672 | For accepted schedules the power is that of any schedule that is open, whatever their order. |
| SchedulePricing.DayDrawsSomething | custom_components/eveus/utils.py:691-697 | A day inside accepted schedules draws a positive energy, so dividing by it is safe. |
| SchedulePricing.DrawDay | custom_components/eveus/utils.py:692-697 | The first loop finds the energy and the cost of one day of the plain draw. |
| SchedulePricing.TwoDaysAreEnough | custom_components/eveus/utils.py:700-705 | Any two days draw twice a day's energy, so a remainder below one day's cannot be left over. |
| SchedulePricing.DrawRemainder | custom_components/eveus/utils.py:698-706 | The second loop always ends with nothing left: exactly the remainder is drawn and paid for. |
| SchedulePricing.PriceInSchedules | custom_components/eveus/utils.py:633-706 | A cost is returned exactly when schedules and tariffs can be trusted; it is then the cost of drawing exactly that energy minute by minute, only inside open schedules and at their power. |
| SchedulePricing.TariffPriceBounds | custom_components/eveus/utils.py:567-629 | A tariff price lies between the lowest and highest of the three rates times the energy, and is unique. |
| SchedulePricing.SchedulePriceBounds | custom_components/eveus/utils.py:633-706 | The same bounds and uniqueness for a price inside schedules. |
| SchedulePricing.TilingSchedulesPriceLikeTariffs | custom_components/eveus/utils.py:567-706 | Two schedules of one power that tile the day cost the same as drawing at that power all the time, for every energy, start minute and tariff set. |
| SchedulePricing.PriceTiledDay | custom_components/eveus/utils.py:567-706 | Asked about schedules of one power that tile the day, the two pricing functions answer together and alike. |
| PriorityLocks.PriorityLock.Acquire | custom_components/eveus/common_command.py:41-53 | A free lock is taken at once; otherwise the caller gets a new place in the queue. |
| PriorityLocks.PriorityLock.Release | custom_components/eveus/common_command.py:55-61 | The waiter that is still alive and least by priority, then arrival, becomes the owner; the lock is freed only if there is none. |
| PriorityLocks.NobodyIsPassedOver | custom_components/eveus/common_command.py:55-61 | A release grants no waiter before one that is more urgent or as urgent and earlier. |
| CommandRuns.LeavingKeepsLock | custom_components/eveus/common_command.py:49-69 | An owner that leaves, even one cancelled after the grant, hands the lock to exactly one waiter or frees it. |
| CommandRuns.StepKeepsLock | custom_components/eveus/common_command.py:33-69 | Every step of every command keeps one owner, distinct tickets and no forgotten waiter. |
| CommandRuns.StepKeepsWire | custom_components/eveus/common_command.py:132-211 | Every step keeps the requests in order, paced and at most three to a command. |
| CommandRuns.EveryStateIsSafe | custom_components/eveus/common_command.py:33-211 | Both hold in every state of every run, with sends, cancellations, replies, retries and clock ticks in any order. |
| CommandRuns.OneOwnerAlways | custom_components/eveus/common_command.py:33-69 | At most one command owns the lock, running or granted and not yet resumed; a free lock leaves nobody waiting. |
| CommandRuns.RequestsNeverOverlap | custom_components/eveus/common_command.py:132-145 | A request starts only after every earlier one has ended, and the first request of a command at least one second after it. |
| CommandAttempts.EndsOneWay | custom_components/eveus/common_command.py:157-211 | How many attempts a command makes and how it ends is determined by its preflights and answers. |
| CommandAttempts.CommandManager.Spacing | custom_components/eveus/common_command.py:139-145 | The wait is at most a second, brings the clock to a second past the last attempted command, and is what a new owner waits in every run. |
| CommandAttempts.CommandManager.Attempt | custom_components/eveus/common_command.py:147-230 | Attempts go on while each passed its preflight and failed in a way worth retrying, up to the limit; a veto and a shutdown count as no failure, a preflight that raises does; only a command that came as far as an attempt paces the next one, and a shutdown keeps its attempt off the wire. |
| SetpointWrites.StepKeepsInv | custom_components/eveus/number.py:381-428 | Every step keeps the newest call latest, one call inside the lock, outcomes true, waits ascending and the wire in order. |
| SetpointWrites.EveryStateIsSafe | custom_components/eveus/number.py:381-428 | All of that holds in every state of every run of writes, grants, vetoes, replies, errors and cancellations. |
| SetpointWrites.WireFollowsRequests | custom_components/eveus/number.py:391-428 | Values reach the wire in request order, never an older one after a newer one. |
| SetpointWrites.EverySentValueWasRequested | custom_components/eveus/number.py:381-428 | What is pinned, retries included, is the call's own normalized request, clamped against the bounds of a moment of the run, and what is sent is that value in the device's unit. |
| SetpointWrites.ClampIsNearest | custom_components/eveus/number.py:417-419 | The clamped value is writable, and no writable value is nearer to the request. |
| SetpointWrites.DeviceValueIsNearest | custom_components/eveus/number.py:420-421 | The number sent stands for the value to half a device unit, and exactly where the value is a whole number of them. |
| SetpointWrites.SuccessIsReal | custom_components/eveus/number.py:398-410 | A call returns success only if its own write or a newer one was on the wire and accepted. |
| SetpointWrites.TokensSettleOnce | custom_components/eveus/number.py:396-400 | A settled token stays settled as it was. |
| SetpointWrites.WaitingEnds | custom_components/eveus/number.py:401-403 | Following who waits for whom only ever leads to newer calls and ends at one that waits for nobody. |
| SetpointWrites.TheNewestIsFinal | custom_components/eveus/number.py:387-403 | The newest call never settles as replaced, so whoever waits on it learns whether the value was applied. |
| SetpointWrites.PinFollowsTheLock | custom_components/eveus/control_base.py:103-138 | The display is pinned exactly while a write is inside the lock, however the write ends. |
| SetpointWrites.SetpointNumber.SetNativeValue | custom_components/eveus/number.py:381-395 | A new write becomes the latest and either enters the lock or queues; the invariant is kept. |
| SetpointWrites.SetpointNumber.EnterLock | custom_components/eveus/number.py:391-395 | A granted call sends only if it is still the latest, clamped to the bounds of that moment; otherwise it waits for the newer one. |
| SetpointWrites.SetpointNumber.Preflight | custom_components/eveus/number.py:412-428 | A superseded call puts nothing on the wire. |
| SetpointWrites.SetpointNumber.Answered | custom_components/eveus/control_base.py:113-138 | The pin is released and the token settled on every answer; a superseded write reports neither success nor failure of its own. |
| SetpointWrites.SetpointNumber.Interrupted | custom_components/eveus/number.py:396-398 | An error or a cancellation releases the pin and settles the token. |
| SetpointWrites.SetpointNumber.LearnOutcome | custom_components/eveus/number.py:401-410 | A replaced call reports what became of the write that replaced it. |
| SocLimit.SocLimitController.Rearm | custom_components/eveus/soc_limit.py:123-133 | Re-arming drops the latch and the token, opens a new generation and cancels the recorded task. |
| SocLimit.SocLimitController.SetEnabled | custom_components/eveus/soc_limit.py:97-107 | A redundant toggle changes nothing; a real one re-arms. |
| SocLimit.SocLimitController.LeaveOldSession | custom_components/eveus/soc_limit.py:177-201 | Counters that went back on an active poll, and only those, re-arm. |
| SocLimit.SocLimitController.ConfirmStop | custom_components/eveus/soc_limit.py:202-211 | The latch is set exactly when an attempted, unconfirmed Stop meets a poll that reads 1. |
| SocLimit.SocLimitController.NeedsStop | custom_components/eveus/soc_limit.py:220-251 | The guards of an active poll let a Stop through exactly when one is to start. |
| SocLimit.SocLimitController.Process | custom_components/eveus/soc_limit.py:139-257 | The whole reaction to a poll: new-session detection, confirmation, session end, and starting a Stop. |
| SocLimit.SocLimitController.BeginStop | custom_components/eveus/soc_limit.py:342-366 | The attempt is recorded before the command, and withdrawn when limits were suspended meanwhile. |
| SocLimit.SocLimitController.StopStillDue | custom_components/eveus/soc_limit.py:259-302 | The check at the wire passes exactly when the Stop is due by the newest poll, and then binds the token to that decision. |
| SocLimit.SocLimitController.FinishStop | custom_components/eveus/soc_limit.py:367-404 | An answer to an older generation changes nothing; a failed Stop withdraws the token unless it was confirmed. |
| SocLimitRuns.LatchAfterPoll | custom_components/eveus/soc_limit.py:177-232 | A poll that is acted on raises the event exactly when it confirms the token, and leaves the latch set exactly while the generation it belongs to goes on. |
| SocLimitRuns.TaskAfterPoll | custom_components/eveus/soc_limit.py:225-257 | A new Stop starts only once the recorded one has ended or been cancelled. |
| SocLimitRuns.StepKeepsInv | custom_components/eveus/soc_limit.py:97-404 | Every step keeps one actor, attributable attempts, due Stops and a truthful event log. |
| SocLimitRuns.EveryStateIsSafe | custom_components/eveus/soc_limit.py:97-404 | So does every run, under any interleaving of polls, toggles, helper changes, cancellations, task resumptions and command outcomes. |
| SocLimitRuns.EventOncePerGeneration | custom_components/eveus/soc_limit.py:304-316 | The limit-reached event fires at most once between re-arms. |
| SocLimitRuns.EventConfirmsItsOwnStop | custom_components/eveus/soc_limit.py:202-211 | It fires only on a poll that reads 1 after a Stop of the same generation went out, due, while the newest poll read 0, and it reports that Stop's decision. |
| SocLimitRuns.EveryStopIsDue | custom_components/eveus/soc_limit.py:259-302 | Every Stop the controller takes for sent was due by what was read at that instant. |
| SocLimitRuns.StopStartsExactlyWhen | custom_components/eveus/soc_limit.py:139-257 | A poll starts a Stop exactly when charging has reached the target, limits are known to be on, and neither the latch nor a running Stop of this session is in the way. |
| SocLimitRuns.ADueStopGoesOut | custom_components/eveus/soc_limit.py:249-302 | A due poll with nothing in flight leads, through its Stop's own sections, to a request on the wire. |
| SocLimitRuns.TheConfirmationIsReported | custom_components/eveus/soc_limit.py:202-211 | The poll of the same session that then reads 1 raises the event with that Stop's decision. |
| SocLimitRuns.OldTasksAreHarmless | custom_components/eveus/soc_limit.py:367-392 | A task of an older generation never transmits, raises the event or touches the token. |
| StopCommands.StepKeepsInv | custom_components/eveus/common_command.py:132-211 | Every step of the command queue and the limit controller together keeps the invariants of both, the pairing of each Stop with its command, and the match between what the controller takes for sent and the wire. |
| StopCommands.EveryStateIsSafe | custom_components/eveus/common_command.py:132-211 | All of that holds in every state of every joint run, with other commands, polls, toggles and cancellations in any order. |
| StopCommands.EveryStopRequestIsDue | custom_components/eveus/common_command.py:153-158 | Every request of a Stop's command on the wire, first attempt or retry, goes out at an instant at which the Stop is due by the newest poll and of the current generation. |
| StopCommands.EventHasItsRequest | custom_components/eveus/soc_limit.py:202-211 | The limit-reached event is raised only for a Stop of its generation whose request really was on the wire before. |
| StopCommands.AnswersFindTheirStop | custom_components/eveus/soc_limit.py:367-404 | A Stop's request on the wire has always passed its check, and its task is still waiting for the answer. |
| StopCommands.OneLiveStop | custom_components/eveus/soc_limit.py:123-133 | Of two Stops whose commands are not done, one was cancelled. |
| MeterGuards.DropsCountTheLowRun | custom_components/eveus/meter_guard.py:84-97 | The drop counter is the length of the run of lower readings that ends now, and stays below three. |
| MeterGuards.PublishedIsBaseline | custom_components/eveus/meter_guard.py:80-97 | Every reading is published at or above what was read, and what is published is the stored baseline. |
| MeterGuards.FallsOnlyWhenConfirmed | custom_components/eveus/meter_guard.py:80-97 | The output falls if and only if the reading is lower and is the third lower one in a row or the first after an expected reset. |
| MeterGuards.ResetExpectedUntilNextReading | custom_components/eveus/meter_guard.py:76-96 | An expected reset is spent on the next reading, whatever it is, and on nothing else. |
| MeterGuards.DipLeavesNoTrace | custom_components/eveus/meter_guard.py:84-97 | One or two low polls publish the baseline and leave the guard as if they had not been. |
| MeterGuards.MeterGuard.SeedFrom | custom_components/eveus/meter_guard.py:63-74 | Saved readings are taken only for meters not seen yet, and only non-negative ones. |
| MeterGuards.MeterGuard.ExpectResetOf | custom_components/eveus/meter_guard.py:76-78 | A reset command marks exactly the meters it zeroes. |
| MeterGuards.MeterGuard.Apply | custom_components/eveus/meter_guard.py:80-97 | Each meter of a payload is guarded alone; everything else passes unchanged. |
| MeterPublication.ThinningLosesNothing | custom_components/eveus/sensor_definitions.py:154-206 | From whatever window an earlier run left, over any updates, the total added up from the published rows plus the unwritten growth is the total of publishing every reading, with the same number of windows opened. |
| MeterPublication.UnloadWritesTheRest | custom_components/eveus/sensor_definitions.py:208-212 | Flushing at an orderly unload leaves the two totals equal. |
| MeterPublication.AddingKeepsStep | custom_components/eveus/sensor_definitions.py:411-445 | The value published when the entity is added, on a window kept from an earlier run or none, starts in step. |
| MeterPublication.UpdateKeepsStep | custom_components/eveus/sensor_definitions.py:164-196 | One update keeps the thinned sensor in step with the one that publishes everything. |
| MeterPublication.FlushKeeps | custom_components/eveus/sensor_definitions.py:180-183 | Writing the withheld tail before a reset changes no total and opens no window. |
| MeterPublication.OrdinaryGrowthWaits | custom_components/eveus/sensor_definitions.py:184-206 | Ordinary growth within the minute, or short of the energy band, writes nothing. |
| MeterPublication.MeterSensor.Publish | custom_components/eveus/sensor_definitions.py:411-427 | A published value opens a window when there is none yet or when it dropped. |
| MeterPublication.MeterSensor.AddedToHass | custom_components/eveus/common_base.py:521-526 | Adding the entity publishes the newest reading through the same window bookkeeping. |
| MeterPublication.MeterSensor.HandleUpdate | custom_components/eveus/sensor_definitions.py:164-196 | The poll handler does exactly what the theorems are about, including the double publication at a reset. |
| SafetyNotices.SignalsAreConservative | custom_components/eveus/safety.py:281-334 | A firmware fault decides both signals; nothing is triggered or recovered from unknown data. |
| SafetyNotices.FaultsAreReported | custom_components/eveus/safety.py:125-138 | A fault code is read only from a reported error state, and an error that names none is unknown, not the absence of a fault. |
| SafetyNotices.CountersCount | custom_components/eveus/safety.py:440-524 | Over every run the two counters are the runs of trigger and of recovery readings, and a confirmed recovery is a completed one. |
| SafetyNotices.MemoryIsExact | custom_components/eveus/safety.py:508-524 | Over every run the sticky memory of an open notice is true exactly when recovery was confirmed since it was raised or a reload has read stale storage since; and the storage differs from the memory exactly after a deletion that no later save corrected. |
| SafetyNotices.RaisedExactlyWhen | custom_components/eveus/safety.py:450-484 | Over every run, an input raises a notice exactly when it is a true reading that completes the debounce and there is no notice, or a dismissed one that has recovered since it was raised or that a stale reload took for recovered. |
| SafetyNotices.RaisedOnlyWithEvidence | custom_components/eveus/safety.py:450-487 | In terms of the readings alone: only a firmware fault or a whole debounce of true readings raises a notice, with no false one between. |
| SafetyNotices.DeletedExactlyWhen | custom_components/eveus/safety.py:490-524 | A notice is deleted exactly on a reading that does not trigger while recovery is confirmed, by readings of one load after the last trigger, and the notice clears itself or was dismissed. |
| SafetyNotices.DismissalIsOverriddenExactlyWhen | custom_components/eveus/safety.py:461-475 | On a completed trigger, fault or debounce, a dismissed notice that never recovered is raised again if and only if a reload since it was raised has read the memory of an earlier notice. |
| SafetyNotices.ARecoveredNoticeAlertsAgain | custom_components/eveus/safety.py:468-484 | A dismissed notice that recovered at any time since it was raised is raised again by a completed trigger, and starts unrecovered. |
| SafetyNotices.OnlyReloadsMislead | custom_components/eveus/safety.py:384-407 | From the raising of a notice on, however long, the memory cannot be stale without a reload. |
| SafetyNotices.UnknownMovesNothing | custom_components/eveus/safety.py:486-524 | Over every run, a poll with unknown signals changes nothing at all, except exactly when a confirmed recovery meets a dismissal: then it deletes. |
| SafetyNotices.AnUnknownPollDeletes | custom_components/eveus/safety.py:490-524 | A run of five inputs in which it does. |
| SafetyNotices.StaleStorageReopensADismissedNotice | custom_components/eveus/safety.py:515-524 | A run in which a dismissed, never recovered notice is raised again after a reload. |
| SafetyNotices.PolicyState.Process | custom_components/eveus/safety.py:440-524 | One poll of the manager does exactly the step these theorems are about. |
| ClockDrift.TimeZoneIsOfferedExactlyWhen | custom_components/eveus/issues.py:238-264 | A time-zone fix of h hours is offered exactly when the drift is within 300 s of plus or minus h hours, h is not zero, the offsets differ and no fractional offset explains it. |
| ClockDrift.CountersCount | custom_components/eveus/issues.py:45-78 | The hysteresis counters are the runs of drifted and of in-sync readings, and the notice is shown exactly while active. |
| ClockDrift.AppearsExactlyWhen | custom_components/eveus/issues.py:217-287 | The notice appears exactly on the drifted reading that completes the debounce (longer while the offset is being followed), and names the fix for that reading. |
| ClockDrift.GoesExactlyWhen | custom_components/eveus/issues.py:265-287 | It goes exactly on the second in-sync reading in a row, unknown ones passed over. |
| ClockDrift.RewrittenExactlyWhen | custom_components/eveus/issues.py:314-358 | A shown notice is rewritten exactly when another classification has held for three successful polls in a row. |
| ClockDrift.TheRightFixIsShown | custom_components/eveus/issues.py:314-358 | A classification that has held that long is the one shown. |
| ClockDrift.NoClockNoChange | custom_components/eveus/issues.py:225-233 | A failed poll or one without a clock neither shows, clears nor rewrites the notice, and moves no streak of the debounce. |
| ClockDrift.ClockDriftTracker.Evaluate | custom_components/eveus/issues.py:217-287 | The tracker's decision and counters are those of the model. |
| ClockDrift.ClockDriftTracker.Update | custom_components/eveus/issues.py:290-358 | The notice handler does exactly the step these theorems are about. |
| ReveRates.OnlyTodayOrYesterday | custom_components/eveus/reve.py:630-642 | The occurrence that starts on a day holds the clock only if that day is today, or yesterday past midnight. |
| ReveRates.StartedOnIsTheOccurrence | custom_components/eveus/reve.py:638-645 | The weekday test is true exactly when some day with a listed weekday has its occurrence holding the clock. |
| ReveRates.ActiveRateIsTheFirstInEffect | custom_components/eveus/reve.py:619-646 | The index is i exactly when rate i is the first enabled one in effect by the calendar, and 0 exactly when none is. |
| ReveRates.ActiveRateIsUnknownExactlyWhen | custom_components/eveus/reve.py:632-637 | It is unknown exactly when an enabled rate without length or readable weekdays comes before any match. |
| ReveRates.StationRateHasThePrice | custom_components/eveus/reve.py:649-664 | The station's index names a rate with the station's price: the reckoned one when it has it, else the first enabled one, the base price last, and none only when nothing has it. |
| ChargeCompletion.CompletedExactlyWhenJustified | custom_components/eveus/common_network.py:916-955 | A charge counts as complete if and only if the current stretch of state 5 has a poll with subState 0, or one that reached a saved completion still open, from which on the reported session clocks never go back. |
| ChargeCompletion.ADisprovedCompletionStaysDisproved | custom_components/eveus/common_network.py:940-949 | A saved completion that a lower session clock disproved is not revived by a higher one. |
| ChargeCompletion.OpenSeedIsHeld | custom_components/eveus/common_network.py:936-943 | The saved completion that nothing has answered is the one the next clock is held against. |
| ChargeCompletion.CompletedPersists | custom_components/eveus/common_network.py:927-955 | Once complete it stays so, exactly until a known other state or a clock below the last confirming one. |
| ChargeCompletion.UnknownChangesNothing | custom_components/eveus/common_network.py:927-931 | A missing or unknown state changes nothing. |
| ChargeCompletion.SubStateZeroCompletes | custom_components/eveus/common_network.py:950-951 | subState 0 anywhere in the stretch marks the charge complete, whatever came before. |
| ChargeCompletion.RecordedClockIsTheNewest | custom_components/eveus/common_network.py:952-955 | While complete, the recorded clock is the newest one reported. |
| ChargeCompletion.CompletionTracker.Track | custom_components/eveus/common_network.py:916-955 | One poll of the coordinator does exactly the step these theorems are about. |
| ChargeCompletion.CompletionTracker.SeedCompletion | custom_components/eveus/common_network.py:896-914 | A saved completion is taken and settled at once against the last poll. |
| FinishEstimate.TheEstimateReachesTheTarget | custom_components/eveus/utils.py:427-473 | Charging on for the estimated seconds at the measured power stores exactly the energy missing to the target; the estimate is positive and at most 30 days. |
| FinishEstimate.AnchorIsNear | custom_components/eveus/ev_sensors.py:297-309 | A new anchor is a multiple of 300 s, strictly ahead, within half a step of the estimate, or within a whole one when at most half a step is left. |
| FinishEstimate.TheHeldInstantIsSound | custom_components/eveus/ev_sensors.py:254-311 | After any run of polls the held instant is a multiple of 300 s, strictly after now, and within max(450 s, 3 %) of that poll's estimate. |
| FinishEstimate.StillWhileEstimatesAreNear | custom_components/eveus/ev_sensors.py:288-311 | It does not move over any number of polls whose estimates stay within 150 s of the one it was anchored on while it is ahead, or within a whole step when more than half a step was left. |
| FinishEstimate.NoEstimateForgets | custom_components/eveus/ev_sensors.py:284-322 | A poll without an estimate drops the instant, so the next session is anchored afresh. |
| FinishEstimate.AskingTwiceChangesNothing | custom_components/eveus/ev_sensors.py:284-311 | The two sensors get the same instant at the same moment, in either order. |
| FinishEstimate.TheTwoSensorsAgree | custom_components/eveus/ev_sensors.py:458-502 | Time to Target shows a multiple of five minutes within 150 s of what is left to the held instant, except at the five-minute floor. |
| FinishEstimate.UnderAMinuteExactlyWhen | custom_components/eveus/utils.py:540-544 | "< 1m" is shown exactly when at most half a minute remains. |
| FinishEstimate.Anchors.DampedFinish | custom_components/eveus/ev_sensors.py:254-311 | The shared anchor after one estimate is the model's, and is what is returned. |
| FinishEstimate.Anchors.TimeToTarget | custom_components/eveus/ev_sensors.py:458-502 | Time to Target reads the shared anchor, and forgets it when it has no inputs. |
| FinishEstimate.Anchors.FinishTime | custom_components/eveus/ev_sensors.py:754-777 | Charging Finish Time is the shared anchor itself, and forgets it when it has no inputs. |
| SocArithmetic.ExactPercentIsNear | custom_components/eveus/ev_sensors.py:124-135 | The exact percentage is the unrounded one, capped at 100, to within 0.5/capacity percent. |
| SocArithmetic.SeedIsTheStartOfTheSession | custom_components/eveus/number.py:810-849 | Seeding is refused exactly when the battery has taken more than the car says it holds, and otherwise keeps the difference, which is at most 100. |
| SocArithmetic.LateSeedIsTheImmediateSeed | custom_components/eveus/number.py:810-817 | A reading taken late in the session anchors exactly where an immediate one would. |
| SocArithmetic.SeedReadsBack | custom_components/eveus/number.py:832-849 | After seeding, every reading of the session is the car's SOC plus what was delivered since, to within 0.5/capacity percent; at the same energy it is the car's SOC. |
| SocArithmetic.MoreDeliveredNeverReadsLess | custom_components/eveus/utils.py:368-378 | The battery figure never falls as the session meter rises, and never exceeds the rounded capacity. |
| SocArithmetic.NothingNeededExactlyAtTheTarget | custom_components/eveus/ev_sensors.py:543-563 | Energy to Target is 0 exactly when the exact percentage has reached the target, and never negative. |
| SocArithmetic.TheLimitAndTheForecastAgree | custom_components/eveus/soc_limit.py:249-251 | The SOC limit's comparison holds exactly when Energy to Target is 0. |
| SocArithmetic.DeliveringItReachesTheTarget | custom_components/eveus/ev_sensors.py:543-563 | Delivering Energy to Target, before display rounding, lands within 0.01 kWh of the target. |
| SocArithmetic.TimeAndEnergyToTargetAgree | custom_components/eveus/ev_sensors.py:238-246 | The remaining time at the measured power buys exactly Energy to Target, and both say "reached" together. |
| SocArithmetic.TheTargetIsNeverSeenEarly | custom_components/eveus/ev_sensors.py:124-135 | When the limit sees the target reached, at most 0.005 kWh is missing. |
| SocArithmetic.TheDisplayedPercentIsEarly | custom_components/eveus/utils.py:396-414 | The whole percent on display reaches a target with 0.4 kWh still missing, which is why it is not compared. |
| SocArithmetic.ReachableExactlyWhen | custom_components/eveus/utils.py:368-378 | Some energy reaches the target exactly when the capacity rounded to the hundredth does. |
| SocArithmetic.ACapacityRoundedDownIsNeverFull | custom_components/eveus/utils.py:368-378 | With a capacity of 10.004 kWh a target of 100 % is never seen, however much is delivered. |
| SocSeeding.ASettledValueIsKept | custom_components/eveus/number.py:729-791 | A value set by hand or taken from the car is kept for the rest of the plug-in cycle, whatever the car reports. |
| SocSeeding.SeededAfterAPollExactlyWhen | custom_components/eveus/number.py:736-785 | A cycle is anchored after a poll exactly when the poll seeds it, or it was anchored and neither an unplug nor a clock that went back was seen. |
| SocSeeding.TheValueMovesOnlyBySeeding | custom_components/eveus/number.py:757-791 | A poll changes the value only by seeding an unanchored cycle, to the car's reading taken back to the session start. |
| SocSeeding.TheSessionFollowsTheCar | custom_components/eveus/number.py:729-849 | From the first usable reading to the end of the cycle, every SOC figure follows the car to within 0.5/capacity percent, as long as capacity and correction are not changed. |
| SocSeeding.InitialSoc.SetNativeValue | custom_components/eveus/number.py:722-727 | A hand-set value counts as this cycle's anchor. |
| SocSeeding.InitialSoc.NoteSessionClock | custom_components/eveus/number.py:793-808 | A session clock that went back re-arms seeding. |
| SocSeeding.InitialSoc.MaybeSeed | custom_components/eveus/number.py:729-791 | One coordinator update does exactly the step these theorems are about. |

## Left out

- Floating point: NaN, infinities, overflow and underflow guards (for one, the zero-day-energy branch at `utils.py` 604-605, which only an underflow reaches).
- Schedule minutes: `snapshot.py` does not bound the schedule start and stop; the model takes them as minutes of the day, as the charger reports them, like the tariff minutes.
- Cost to Target: where its inputs come from and when it falls back to the flat rate (`ev_sensors.py` 609-700); only the two pricing functions are modelled.
- MeterPublication.ThinningLosesNothing: supposes that the first missed poll after a good one is still inside the grace period, as the outage clock starts at that very poll (`common_network.py` 610-640) and the grace is 60 s; a restored window comes with its last value, and how the two are read back from Home Assistant's stores is not modelled.
- SetpointWrites: the refusal of a command the charger would drop (`control_base.py` 97-102), the optimistic value after a write and its expiry; a refusal is an error while sending here.
- CommandRuns: which errors are worth a retry, and the length and jitter of the backoff; a reply may ask for another attempt or not, and the clock may advance freely. The classification is in CommandAttempts, which in turn leaves cancellation to CommandRuns.
- CommandAttempts: the REVE GraphQL route and the reason kept for the user.
- StopCommands: a Stop whose attempt the shutdown refuses after its check passed.
- SocLimit: the notification payload and the reauthentication flow.
- SafetyNotices: the table of policies with their thresholds (any policy is covered), the raw telemetry signals, and the delay of the debounced storage write, which is taken to happen at the poll that asks for it.
- ClockDrift: the battery notice, which runs on the same hysteresis with one recovery poll, and the time-zone follower.
- ReveRates: `apply_schedule_command` and `ManualMode`, which are short latches and copies.
- ChargeCompletion: the legacy device-state latch and the transition events; started and finished events may repeat, because an error state hides the plug.
- FinishEstimate: an exception inside a sensor, which forgets the estimate like a missing input.
- SocSeeding: how the flag and the clock are restored after a restart, and the log line written once per cycle.
- SocArithmetic: capacities of zero or less and corrections outside 0-100 %, which the number entities never store; the formulas are modelled there too, but the round trips are stated for stored values.
- Snapshot bounds, entity descriptions, translations, diagnostics, device info, configuration flows, HTTP and GraphQL transport, storage and Home Assistant's registries: I/O or tables.
