/** Commands sharing the wire (`CommandManager.send_command`), as atomic steps between awaits.

    Every command is a task that queues for the lock, spaces itself from the last
    attempted command, POSTs with retries and leaves.  Tasks may be cancelled at any
    await, and the clock may advance between any two steps.
 */
module CommandRuns {
  import opened Common
  import opened PriorityLocks

  const RETRIES: nat := 2
  const SPACING: real := 1.0

  datatype Phase =
    | Waiting(order: nat, cancelling: bool)  // suspended on its future
    | Spacing(wake: real)                    // asleep until the spacing has passed
    | Ready(attempt: nat)                    // before an attempt's preflight
    | Posting(attempt: nat)                  // its request is on the wire
    | Backoff(attempt: nat)                  // asleep before the next attempt
    | Finished

  /** One request on the wire. */
  datatype Post = Post(task: nat, attempt: nat, begun: real, ended: Option<real>)

  datatype System = System(lock: Lock, tasks: map<nat, Phase>, last: Option<real>, now: real, wire: seq<Post>)

  datatype Step =
    | Tick(elapsed: real)
    | Send(task: nat, priority: int)
    | Cancel(task: nat)
    | Resume(task: nat)
    | Wake(task: nat)
    | Transmit(task: nat)
    | Veto(task: nat)
    | Refuse(task: nat)
    | Reply(task: nat, again: bool)
    | Retry(task: nat)
    | Abort(task: nat)

  ghost predicate Init(s: System) {
    s.lock == Lock(false, 0, {}, map[]) && s.tasks == map[] && s.last == None && s.wire == []
  }

  /** How long a new owner still waits: until a second has passed since the last attempted command. */
  function Pause(last: Option<real>, now: real): real {
    if last.Some? && now - last.value < SPACING then Max(0.0, Min(SPACING, SPACING - (now - last.value))) else 0.0
  }

  /** A new owner spaces itself from the last attempted command. */
  function Enter(s: System): Phase {
    if s.last.Some? && s.now - s.last.value < SPACING then Spacing(s.now + Pause(s.last, s.now)) else Ready(0)
  }

  predicate Attempted(p: Phase) {
    p.Posting? || p.Backoff? || (p.Ready? && p.attempt > 0)
  }

  function CloseLast(wire: seq<Post>, now: real): seq<Post> {
    if wire == [] then [] else wire[..|wire| - 1] + [wire[|wire| - 1].(ended := Some(now))]
  }

  /** Leaving the critical section: pace the next command after a real attempt, and release. */
  ghost predicate Exits(s: System, s': System, t: nat, attempted: bool, wire: seq<Post>)
    requires t in s.tasks
  {
    && Releases(s.lock, s'.lock)
    && s' == System(s'.lock, s.tasks[t := Finished], if attempted then Some(s.now) else s.last, s.now, wire)
  }

  ghost predicate Leaves(s: System, s': System, t: nat, wire: seq<Post>)
    requires t in s.tasks
  {
    Exits(s, s', t, Attempted(s.tasks[t]), wire)
  }

  ghost predicate Next(s: System, s': System, step: Step) {
    match step
    case Tick(d) => d >= 0.0 && s' == s.(now := s.now + d)
    case Send(t, priority) =>
      && t !in s.tasks
      && s' == s.(lock := Acquired(s.lock, priority),
                  tasks := s.tasks[t := if s.lock.held then Waiting(s.lock.sequence + 1, false) else Enter(s)])
    case Cancel(t) =>
      && t in s.tasks && s.tasks[t].Waiting? && s.tasks[t].order in s.lock.futures
      && var o := s.tasks[t].order;
         s' == if s.lock.futures[o] == Pending
               then s.(lock := s.lock.(futures := s.lock.futures[o := Cancelled]))
               else s.(tasks := s.tasks[t := Waiting(o, true)])
    case Resume(t) =>
      && t in s.tasks && s.tasks[t].Waiting? && s.tasks[t].order in s.lock.futures
      && (match s.lock.futures[s.tasks[t].order]
          case Pending => false
          case Cancelled => s' == s.(tasks := s.tasks[t := Finished])
          case Granted =>
            if s.tasks[t].cancelling then Leaves(s, s', t, s.wire)
            else s' == s.(tasks := s.tasks[t := Enter(s)]))
    case Wake(t) =>
      && t in s.tasks && s.tasks[t].Spacing? && s.now >= s.tasks[t].wake
      && s' == s.(tasks := s.tasks[t := Ready(0)])
    case Transmit(t) =>
      && t in s.tasks && s.tasks[t].Ready?
      && s' == s.(tasks := s.tasks[t := Posting(s.tasks[t].attempt)],
                  wire := s.wire + [Post(t, s.tasks[t].attempt, s.now, None)])
    case Veto(t) =>
      // the preflight refuses the attempt, or raises
      t in s.tasks && s.tasks[t].Ready? && Leaves(s, s', t, s.wire)
    case Refuse(t) =>
      // the integration is shutting down: the attempt counts, but nothing is sent
      t in s.tasks && s.tasks[t].Ready? && Exits(s, s', t, true, s.wire)
    case Reply(t, again) =>
      && t in s.tasks && s.tasks[t].Posting?
      && if again then
           s.tasks[t].attempt < RETRIES &&
           s' == s.(tasks := s.tasks[t := Backoff(s.tasks[t].attempt)], wire := CloseLast(s.wire, s.now))
         else Leaves(s, s', t, CloseLast(s.wire, s.now))
    case Retry(t) =>
      && t in s.tasks && s.tasks[t].Backoff?
      && s' == s.(tasks := s.tasks[t := Ready(s.tasks[t].attempt + 1)])
    case Abort(t) =>
      && t in s.tasks
      && (s.tasks[t].Spacing? || s.tasks[t].Backoff? || s.tasks[t].Posting?)
      && Leaves(s, s', t, if s.tasks[t].Posting? then CloseLast(s.wire, s.now) else s.wire)
  }

  // --- What every step keeps -----------------------------------------------------

  ghost predicate WaitsOn(s: System, t: nat, o: nat) {
    t in s.tasks && s.tasks[t].Waiting? && s.tasks[t].order == o
  }

  /** The lock belongs to the command inside it, or granted to and not yet resumed. */
  ghost predicate Owns(s: System, t: nat) {
    && t in s.tasks
    && match s.tasks[t]
       case Finished => false
       case Waiting(o, _) => o in s.lock.futures && s.lock.futures[o] == Granted
       case _ => true
  }

  ghost predicate OneOwner(s: System) {
    && (forall t, u :: Owns(s, t) && Owns(s, u) ==> t == u)
    && (s.lock.held <==> exists t :: Owns(s, t))
  }

  ghost predicate Ticketed(s: System) {
    && (forall o :: o in s.lock.futures ==> o <= s.lock.sequence)
    && (forall e :: e in s.lock.waiters ==> e.order in s.lock.futures)
    && (forall t :: t in s.tasks && s.tasks[t].Waiting? ==> s.tasks[t].order in s.lock.futures)
    && (forall t, u, o :: WaitsOn(s, t, o) && WaitsOn(s, u, o) ==> t == u)
  }

  /** Every pending future is in the heap, and a command is suspended on it. */
  ghost predicate NoneForgotten(s: System) {
    && (forall o :: o in s.lock.futures && s.lock.futures[o] == Pending ==> exists p :: Entry(p, o) in s.lock.waiters)
    && (forall o :: o in s.lock.futures && s.lock.futures[o] == Pending ==> exists t :: WaitsOn(s, t, o))
    && (!s.lock.held ==> s.lock.waiters == {})
  }

  ghost predicate Paced(s: System) {
    && (s.last.Some? ==> s.last.value <= s.now)
    && (forall t :: t in s.tasks && s.tasks[t].Spacing? && s.last.Some? ==> s.last.value + SPACING <= s.tasks[t].wake)
    && (forall t :: t in s.tasks && (s.tasks[t].Ready? || s.tasks[t].Posting? || s.tasks[t].Backoff?) && s.last.Some?
          ==> s.last.value + SPACING <= s.now)
    && (forall t :: t in s.tasks && (s.tasks[t].Ready? || s.tasks[t].Posting?) ==> s.tasks[t].attempt <= RETRIES)
    && (forall t :: t in s.tasks && s.tasks[t].Backoff? ==> s.tasks[t].attempt < RETRIES)
  }

  /** What anyone watching the wire sees: requests one after another, those of
      different commands a second apart, and at most three to a command. */
  ghost predicate Orderly(wire: seq<Post>) {
    && (forall i :: 0 <= i < |wire| ==> wire[i].attempt <= RETRIES)
    && (forall i {:trigger wire[i]} :: 0 <= i < |wire| && wire[i].ended.Some? ==> wire[i].begun <= wire[i].ended.value)
    && forall i {:trigger wire[i]} :: 0 <= i && i + 1 < |wire| ==> Follows(wire[i], wire[i + 1])
  }

  ghost predicate Follows(p: Post, q: Post) {
    && p.ended.Some?
    && if p.task == q.task then p.ended.value <= q.begun && q.attempt == p.attempt + 1
       else p.ended.value + SPACING <= q.begun && q.attempt == 0
  }

  /** How the newest request and the owner's phase fit together. */
  ghost predicate NewestPost(s: System) {
    && (s.wire != [] ==>
          var p := s.wire[|s.wire| - 1];
          && p.begun <= s.now
          && p.task in s.tasks
          && if Attempted(s.tasks[p.task]) then
               && (s.tasks[p.task].Posting? <==> p.ended == None)
               && (p.ended.Some? ==> p.ended.value <= s.now)
               && p.attempt == s.tasks[p.task].attempt - (if s.tasks[p.task].Ready? then 1 else 0)
             else p.ended.Some? && s.last.Some? && p.ended.value <= s.last.value)
    && (forall t :: t in s.tasks && Attempted(s.tasks[t]) ==> s.wire != [] && s.wire[|s.wire| - 1].task == t)
    && forall p :: p in s.wire ==> p.task in s.tasks && (s.tasks[p.task].Finished? || Attempted(s.tasks[p.task]))
  }

  ghost predicate LockInv(s: System) {
    OneOwner(s) && Ticketed(s) && NoneForgotten(s)
  }

  ghost predicate WireInv(s: System) {
    Paced(s) && Orderly(s.wire) && NewestPost(s)
  }

  ghost predicate Inv(s: System) {
    LockInv(s) && WireInv(s)
  }

  // --- The lock ------------------------------------------------------------------

  /** An owner that leaves hands the lock to exactly one waiter, or frees it. */
  lemma LeavingKeepsLock(s: System, s': System, t: nat, attempted: bool, wire: seq<Post>)
    requires LockInv(s) && Owns(s, t) && Exits(s, s', t, attempted, wire)
    ensures LockInv(s')
  {
    if Live(s.lock) == {} {
      NoLiveWaiters(s);
      forall v ensures !Owns(s', v) {
        assert Owns(s, v) ==> v == t;
      }
    } else {
      var e :| IsLeast(e, Live(s.lock)) && s'.lock == GrantedTo(s.lock, e);
      var u :| WaitsOn(s, u, e.order);
      assert Owns(s', u);
      forall v | Owns(s', v) ensures v == u {
        assert Owns(s, v) ==> v == t;
        assert WaitsOn(s, v, s.tasks[v].order);
      }
      forall o | o in s'.lock.futures && s'.lock.futures[o] == Pending
        ensures exists p :: Entry(p, o) in s'.lock.waiters
        ensures exists v :: WaitsOn(s', v, o)
      {
        var p :| Entry(p, o) in s.lock.waiters;
        assert Entry(p, o) in Live(s.lock);
        assert Entry(p, o) in s'.lock.waiters;
        var v :| WaitsOn(s, v, o);
        assert WaitsOn(s', v, o);
      }
    }
    forall v, w, o | WaitsOn(s', v, o) && WaitsOn(s', w, o) ensures v == w {
      assert WaitsOn(s, v, o) && WaitsOn(s, w, o);
    }
  }

  lemma NoLiveWaiters(s: System)
    requires LockInv(s) && Live(s.lock) == {}
    ensures forall o :: o in s.lock.futures ==> s.lock.futures[o] != Pending
  {
    forall o | o in s.lock.futures ensures s.lock.futures[o] != Pending {
      if s.lock.futures[o] == Pending {
        PendingIsLive(s, o);
      }
    }
  }

  lemma PendingIsLive(s: System, o: nat)
    requires LockInv(s) && o in s.lock.futures && s.lock.futures[o] == Pending
    ensures Live(s.lock) != {}
  {
    var p :| Entry(p, o) in s.lock.waiters;
    assert Entry(p, o) in Live(s.lock);
  }

  lemma SendingKeepsLock(s: System, s': System, t: nat, priority: int)
    requires LockInv(s) && Next(s, s', Send(t, priority))
    ensures LockInv(s')
  {
    forall o | o in s'.lock.futures && s'.lock.futures[o] == Pending
      ensures exists p :: Entry(p, o) in s'.lock.waiters
      ensures exists v :: WaitsOn(s', v, o)
    {
      if o in s.lock.futures {
        var p :| Entry(p, o) in s.lock.waiters;
        assert Entry(p, o) in s'.lock.waiters;
        var v :| WaitsOn(s, v, o);
        assert WaitsOn(s', v, o);
      } else {
        assert Entry(priority, o) in s'.lock.waiters && WaitsOn(s', t, o);
      }
    }
    forall v ensures Owns(s', v) <==> Owns(s, v) || (v == t && !s.lock.held) {}
    if s.lock.held {
      var v :| Owns(s, v);
      assert Owns(s', v);
    } else {
      assert Owns(s', t);
    }
    forall v, w, o | WaitsOn(s', v, o) && WaitsOn(s', w, o) ensures v == w {
      if v != t && w != t {
        assert WaitsOn(s, v, o) && WaitsOn(s, w, o);
      }
    }
  }

  lemma CancellingKeepsLock(s: System, s': System, t: nat)
    requires LockInv(s) && Next(s, s', Cancel(t))
    ensures LockInv(s')
  {
    forall v ensures Owns(s', v) <==> Owns(s, v) {
      if v in s.tasks && s.tasks[v].Waiting? && s.tasks[v].order == s.tasks[t].order {
        assert WaitsOn(s, v, s.tasks[v].order) && WaitsOn(s, t, s.tasks[v].order);
      }
    }
    forall v, o ensures WaitsOn(s', v, o) <==> WaitsOn(s, v, o) {}
    forall o | o in s'.lock.futures && s'.lock.futures[o] == Pending
      ensures exists p :: Entry(p, o) in s'.lock.waiters
      ensures exists v :: WaitsOn(s', v, o)
    {
      var v :| WaitsOn(s, v, o);
      assert WaitsOn(s', v, o);
    }
  }

  /** A task that was not pending and owns the lock as before: nothing about the lock moves. */
  lemma SameOwnersKeepLock(s: System, s': System, t: nat)
    requires LockInv(s) && t in s.tasks && s'.lock == s.lock && t in s'.tasks && s'.tasks == s.tasks[t := s'.tasks[t]]
    requires Owns(s, t) <==> Owns(s', t)
    requires s'.tasks[t].Waiting? ==> s'.tasks[t].order in s.lock.futures && WaitsOn(s, t, s'.tasks[t].order)
    requires s.tasks[t].Waiting? ==> s.tasks[t].order in s.lock.futures && s.lock.futures[s.tasks[t].order] != Pending
    ensures LockInv(s')
  {
    forall v ensures Owns(s', v) <==> Owns(s, v) {}
    forall o | o in s'.lock.futures && s'.lock.futures[o] == Pending ensures exists v :: WaitsOn(s', v, o) {
      var v :| WaitsOn(s, v, o);
      assert WaitsOn(s', v, o);
    }
    forall v, w, o | WaitsOn(s', v, o) && WaitsOn(s', w, o) ensures v == w {
      assert WaitsOn(s, v, o) && WaitsOn(s, w, o);
    }
  }

  lemma StepKeepsLock(s: System, s': System, step: Step)
    requires LockInv(s) && Next(s, s', step)
    ensures LockInv(s')
  {
    match step
    case Tick(_) =>
      forall v ensures Owns(s', v) <==> Owns(s, v) {}
      forall v, o ensures WaitsOn(s', v, o) <==> WaitsOn(s, v, o) {}
    case Send(t, priority) => SendingKeepsLock(s, s', t, priority);
    case Cancel(t) => CancellingKeepsLock(s, s', t);
    case Resume(t) =>
      if s.lock.futures[s.tasks[t].order] == Granted && s.tasks[t].cancelling {
        LeavingKeepsLock(s, s', t, Attempted(s.tasks[t]), s.wire);
      } else {
        SameOwnersKeepLock(s, s', t);
      }
    case Veto(t) => LeavingKeepsLock(s, s', t, Attempted(s.tasks[t]), s.wire);
    case Refuse(t) => LeavingKeepsLock(s, s', t, true, s.wire);
    case Reply(t, again) =>
      if again {
        SameOwnersKeepLock(s, s', t);
      } else {
        LeavingKeepsLock(s, s', t, Attempted(s.tasks[t]), CloseLast(s.wire, s.now));
      }
    case Abort(t) => LeavingKeepsLock(s, s', t, Attempted(s.tasks[t]), s'.wire);
    case Wake(t) => SameOwnersKeepLock(s, s', t);
    case Transmit(t) => SameOwnersKeepLock(s, s', t);
    case Retry(t) => SameOwnersKeepLock(s, s', t);
  }

  // --- The wire ------------------------------------------------------------------

  /** While a command is inside the lock, every other one waits or is done. */
  lemma OthersAreOutside(s: System, t: nat)
    requires OneOwner(s) && Owns(s, t)
    ensures forall u :: u in s.tasks && u != t ==> s.tasks[u].Waiting? || s.tasks[u].Finished?
  {
    forall u | u in s.tasks && u != t ensures s.tasks[u].Waiting? || s.tasks[u].Finished? {
      assert !Owns(s, u);
    }
  }

  lemma StepKeepsWire(s: System, s': System, step: Step)
    requires Inv(s) && Next(s, s', step)
    ensures WireInv(s')
  {
    hide WireInv, LockInv, Releases;
    match step
    case Tick(_) => TickingKeepsWire(s, s', step);
    case Send(t, _) => EnteringKeepsWire(s, s', t);
    case Cancel(t) => EnteringKeepsWire(s, s', t);
    case Resume(t) =>
      if s.lock.futures[s.tasks[t].order] == Granted && s.tasks[t].cancelling {
        LeavingKeepsWire(s, s', t, false);
      } else {
        EnteringKeepsWire(s, s', t);
      }
    case Wake(t) => WakingKeepsWire(s, s', t);
    case Transmit(t) => TransmittingKeepsWire(s, s', t);
    case Veto(t) => LeavingKeepsWire(s, s', t, Attempted(s.tasks[t]));
    case Refuse(t) => LeavingKeepsWire(s, s', t, true);
    case Reply(t, again) => if again { RepliedKeepsWire(s, s', t); } else { HangingUpKeepsWire(s, s', t); }
    case Retry(t) => RetryingKeepsWire(s, s', t);
    case Abort(t) => if s.tasks[t].Posting? { HangingUpKeepsWire(s, s', t); } else { LeavingKeepsWire(s, s', t, Attempted(s.tasks[t])); }
  }

  lemma TickingKeepsWire(s: System, s': System, step: Step)
    requires Inv(s) && step.Tick? && Next(s, s', step)
    ensures WireInv(s')
  {
    hide Orderly;
  }

  /** A command that starts to wait, stops waiting or enters the lock. */
  lemma EnteringKeepsWire(s: System, s': System, t: nat)
    requires Inv(s) && t in s'.tasks && s'.tasks == s.tasks[t := s'.tasks[t]]
    requires t in s.tasks ==> s.tasks[t].Waiting?
    requires s'.tasks[t] == Enter(s) || s'.tasks[t].Waiting? || s'.tasks[t].Finished?
    requires s'.last == s.last && s'.now == s.now && s'.wire == s.wire
    ensures WireInv(s')
  {
    hide Orderly, LockInv, Releases;
  }

  lemma WakingKeepsWire(s: System, s': System, t: nat)
    requires Inv(s) && Next(s, s', Wake(t))
    ensures WireInv(s')
  {
    hide Orderly, LockInv, Releases;
  }

  lemma TransmittingKeepsWire(s: System, s': System, t: nat)
    requires Inv(s) && Next(s, s', Transmit(t))
    ensures WireInv(s')
  {
    hide Orderly, Releases;
    OthersAreOutside(s, t);
    var q := Post(t, s.tasks[t].attempt, s.now, None);
    if s.wire != [] {
      assert s.wire[|s.wire| - 1] in s.wire;
    }
    AppendingKeepsOrder(s.wire, q);
  }

  lemma AppendingKeepsOrder(wire: seq<Post>, q: Post)
    requires Orderly(wire) && q.ended == None && q.attempt <= RETRIES
    requires wire != [] ==> Follows(wire[|wire| - 1], q)
    ensures Orderly(wire + [q])
  {
    var longer := wire + [q];
    forall i | 0 <= i && i + 1 < |longer| ensures Follows(longer[i], longer[i + 1]) {
      if i + 1 < |wire| {
        assert Follows(wire[i], wire[i + 1]);
      }
    }
  }

  lemma ClosingKeepsOrder(wire: seq<Post>, now: real)
    requires Orderly(wire) && wire != [] && wire[|wire| - 1].begun <= now
    ensures Orderly(CloseLast(wire, now))
  {
    var closed := CloseLast(wire, now);
    forall i | 0 <= i && i + 1 < |closed| ensures Follows(closed[i], closed[i + 1]) {
      assert Follows(wire[i], wire[i + 1]);
    }
  }

  lemma RepliedKeepsWire(s: System, s': System, t: nat)
    requires Inv(s) && Next(s, s', Reply(t, true))
    ensures WireInv(s')
  {
    hide Orderly, Releases;
    OthersAreOutside(s, t);
    ClosingKeepsOrder(s.wire, s.now);
    SameTasksOnWire(s.wire, s.now);
  }

  lemma RetryingKeepsWire(s: System, s': System, t: nat)
    requires Inv(s) && Next(s, s', Retry(t))
    ensures WireInv(s')
  {
    hide Orderly, Releases;
    OthersAreOutside(s, t);
  }

  lemma SameTasksOnWire(wire: seq<Post>, now: real)
    ensures forall p :: p in CloseLast(wire, now) ==> exists q :: q in wire && q.task == p.task
  {
    forall p | p in CloseLast(wire, now) ensures exists q :: q in wire && q.task == p.task {
      var i :| 0 <= i < |CloseLast(wire, now)| && CloseLast(wire, now)[i] == p;
      assert wire[i] in wire && wire[i].task == p.task;
    }
  }

  /** A command that leaves is paced, and what it paces the next by is now. */
  lemma LeavingIsPaced(s: System, s': System, t: nat, attempted: bool, wire: seq<Post>)
    requires OneOwner(s) && Paced(s) && Owns(s, t) && Exits(s, s', t, attempted, wire)
    ensures Paced(s')
  {
    hide Releases, OneOwner;
    OthersAreOutside(s, t);
  }

  /** Leaving between two requests, or without any. */
  lemma LeavingKeepsWire(s: System, s': System, t: nat, attempted: bool)
    requires Inv(s) && Owns(s, t) && Exits(s, s', t, attempted, s.wire) && !s.tasks[t].Posting?
    requires Attempted(s.tasks[t]) ==> attempted
    ensures WireInv(s')
  {
    hide Orderly, Releases, Paced, Owns;
    LastIsPast(s);
    LeavingIsPaced(s, s', t, attempted, s.wire);
    assert NewestPost(s') by {
      hide OneOwner;
      OthersAreOutside(s, t);
    }
  }

  lemma LastIsPast(s: System)
    requires Paced(s)
    ensures s.last.Some? ==> s.last.value <= s.now
  {
  }

  lemma NewestOfLeaving(s: System, s': System, t: nat)
    requires OneOwner(s) && Owns(s, t) && NewestPost(s) && s.tasks[t].Posting?
    requires Leaves(s, s', t, CloseLast(s.wire, s.now))
    ensures NewestPost(s')
  {
    hide Releases, OneOwner, Owns;
    OthersAreOutside(s, t);
    SameTasksOnWire(s.wire, s.now);
  }

  /** Leaving with the answer to the request on the wire, or giving it up. */
  lemma HangingUpKeepsWire(s: System, s': System, t: nat)
    requires Inv(s) && Owns(s, t) && Leaves(s, s', t, CloseLast(s.wire, s.now)) && s.tasks[t].Posting?
    ensures WireInv(s')
  {
    hide Orderly, Releases, Paced, OneOwner;
    ClosingKeepsOrder(s.wire, s.now);
    LeavingIsPaced(s, s', t, true, s'.wire);
    NewestOfLeaving(s, s', t);
  }

  // --- Every run -------------------------------------------------------------------

  /** The states of a run and the steps between them. */
  ghost predicate IsRun(run: seq<System>, steps: seq<Step>) {
    && |run| == |steps| + 1
    && Init(run[0])
    && forall i :: 0 <= i < |steps| ==> Next(run[i], run[i + 1], steps[i])
  }

  lemma {:induction false} EveryStateIsSafe(run: seq<System>, steps: seq<Step>, k: nat)
    requires IsRun(run, steps) && k < |run|
    ensures Inv(run[k])
  {
    if k > 0 {
      EveryStateIsSafe(run, steps, k - 1);
      StepKeepsLock(run[k - 1], run[k], steps[k - 1]);
      StepKeepsWire(run[k - 1], run[k], steps[k - 1]);
    }
  }

  /** At most one command owns the lock, and a free lock leaves nobody waiting. */
  lemma OneOwnerAlways(run: seq<System>, steps: seq<Step>, k: nat, t: nat, u: nat)
    requires IsRun(run, steps) && k < |run|
    ensures Owns(run[k], t) && Owns(run[k], u) ==> t == u
    ensures !run[k].lock.held ==> forall o :: o in run[k].lock.futures ==> run[k].lock.futures[o] != Pending
  {
    EveryStateIsSafe(run, steps, k);
    if !run[k].lock.held {
      assert Live(run[k].lock) == {};
      NoLiveWaiters(run[k]);
    }
  }

  /** Requests never overlap; those of different commands are at least a second apart. */
  lemma {:induction false} RequestsNeverOverlap(run: seq<System>, steps: seq<Step>, k: nat, i: nat, j: nat)
    requires IsRun(run, steps) && k < |run| && i < j < |run[k].wire|
    ensures run[k].wire[i].ended.Some?
    ensures run[k].wire[i].ended.value <= run[k].wire[j].begun
    ensures run[k].wire[j].attempt == 0 ==> run[k].wire[i].ended.value + SPACING <= run[k].wire[j].begun
    decreases j
  {
    EveryStateIsSafe(run, steps, k);
    assert Follows(run[k].wire[j - 1], run[k].wire[j]);
    if i < j - 1 {
      RequestsNeverOverlap(run, steps, k, i, j - 1);
      assert run[k].wire[j - 1].begun <= run[k].wire[j - 1].ended.value;
    }
  }
}
