/** The command lock (`_PriorityLock`): one owner, and waiters granted by priority, then arrival. */
module PriorityLocks {
  import opened Common

  /** What has become of the future a waiter is suspended on. */
  datatype Future = Pending | Granted | Cancelled

  /** A heap entry; the arrival number also names the waiter's future. */
  datatype Entry = Entry(priority: int, order: nat)

  datatype Lock = Lock(held: bool, sequence: nat, waiters: set<Entry>, futures: map<nat, Future>)

  predicate Precedes(a: Entry, b: Entry) {
    a.priority < b.priority || (a.priority == b.priority && a.order < b.order)
  }

  predicate IsLeast(e: Entry, entries: set<Entry>) {
    e in entries && forall x :: x in entries ==> x == e || Precedes(e, x)
  }

  /** Waiters that nobody has granted or cancelled yet. */
  ghost function Live(l: Lock): set<Entry> {
    set e | e in l.waiters && e.order in l.futures && l.futures[e.order] == Pending
  }

  /** `acquire` up to its first suspension: taken at once, or queued under a new number. */
  function Acquired(l: Lock, priority: int): Lock {
    if !l.held then l.(held := true)
    else
      var order := l.sequence + 1;
      l.(sequence := order, waiters := l.waiters + {Entry(priority, order)}, futures := l.futures[order := Pending])
  }

  /** `release`: the live waiter least by (priority, arrival) becomes the owner, and
      only when there is none is the lock free.  Settled waiters before it are dropped. */
  ghost predicate Releases(l: Lock, l': Lock) {
    if Live(l) == {} then l' == l.(held := false, waiters := {})
    else exists e :: IsLeast(e, Live(l)) && l' == GrantedTo(l, e)
  }

  ghost function GrantedTo(l: Lock, e: Entry): Lock {
    l.(waiters := (set w | w in l.waiters && Precedes(e, w)), futures := l.futures[e.order := Granted])
  }

  ghost predicate Grants(l: Lock, l': Lock, e: Entry) {
    e in Live(l) && l' == GrantedTo(l, e)
  }

  /** No live waiter is passed over by a later or less urgent one: it is granted, or one that comes
      before it is. */
  lemma NobodyIsPassedOver(l: Lock, l': Lock, x: Entry)
    requires Releases(l, l') && x in Live(l)
    ensures l'.held == l.held
    ensures exists e :: Grants(l, l', e) && (e == x || Precedes(e, x))
  {
    var e :| IsLeast(e, Live(l)) && l' == GrantedTo(l, e);
    assert Grants(l, l', e);
  }

  lemma {:induction false} LeastExists(entries: set<Entry>) returns (e: Entry)
    requires entries != {}
    ensures IsLeast(e, entries)
  {
    var x := Pick(entries);
    var rest := entries - {x};
    if rest == {} {
      assert entries == {x};
      return x;
    }
    var f := LeastExists(rest);
    e := if Precedes(x, f) then x else f;
    forall y | y in entries ensures y == e || Precedes(e, y) {
      assert y == x || y in rest;
    }
  }

  class PriorityLock {
    var held: bool
    var sequence: nat
    var waiters: set<Entry>
    var futures: map<nat, Future>

    ghost function State(): Lock
      reads this
    {
      Lock(held, sequence, waiters, futures)
    }

    ghost predicate Valid()
      reads this
    {
      forall e :: e in waiters ==> e.order in futures
    }

    constructor ()
      ensures State() == Lock(false, 0, {}, map[]) && Valid()
    {
      held, sequence, waiters, futures := false, 0, {}, map[];
    }

    /** The caller owns the lock when it gets no ticket; otherwise it waits on that future. */
    method Acquire(priority: int) returns (ticket: Option<nat>)
      requires Valid()
      modifies this
      ensures Valid() && State() == Acquired(old(State()), priority)
      ensures ticket == if old(held) then Some(sequence) else None
    {
      if !held {
        held := true;
        return None;
      }
      sequence := sequence + 1;
      waiters := waiters + {Entry(priority, sequence)};
      futures := futures[sequence := Pending];
      return Some(sequence);
    }

    method Release()
      requires Valid()
      modifies this
      ensures Valid() && Releases(old(State()), State())
    {
      ghost var before := State();
      while waiters != {}
        invariant Valid() && held == before.held && sequence == before.sequence && futures == before.futures
        invariant Dropped(before, waiters)
        decreases |waiters|
      {
        ghost var _ := LeastExists(waiters);
        var e :| e in waiters && IsLeast(e, waiters);
        if futures[e.order] == Pending {
          LeastOfTheRest(before, waiters, e);
          waiters := waiters - {e};
          futures := futures[e.order := Granted];
          return;
        }
        DropNext(before, waiters, e);
        waiters := waiters - {e};
      }
      held := false;
    }
  }

  /** The entries taken off the heap so far were settled, and none of the rest precedes them. */
  ghost predicate Dropped(before: Lock, rest: set<Entry>) {
    && rest <= before.waiters
    && (forall w :: w in before.waiters && w !in rest ==> w !in Live(before))
    && (forall w, x :: w in before.waiters && w !in rest && x in rest ==> Precedes(w, x))
  }

  lemma DropNext(before: Lock, rest: set<Entry>, e: Entry)
    requires Dropped(before, rest) && IsLeast(e, rest) && e !in Live(before)
    ensures Dropped(before, rest - {e})
  {
  }

  lemma LeastOfTheRest(before: Lock, rest: set<Entry>, e: Entry)
    requires Dropped(before, rest) && IsLeast(e, rest) && e in Live(before)
    ensures IsLeast(e, Live(before)) && rest - {e} == GrantedTo(before, e).waiters
  {
    forall x | x in Live(before) ensures x == e || Precedes(e, x) {
      assert x in rest;
    }
    forall x ensures x in rest - {e} <==> x in GrantedTo(before, e).waiters {
      if x in before.waiters && x !in rest {
        assert Precedes(x, e);
      }
    }
  }
}
