/**
 kernel/spinlock.c for one processor: the interrupt nesting of push_off/pop_off and the locks
 that the processor holds.  The events are the order in which locks were taken and given back.
 */
module Spinlock {
  import opened Folding

  datatype LockEvent = Took(lock: nat) | Gave(lock: nat)

  /** The locks held after the events. */
  function HeldAfter(es: seq<LockEvent>): (r: set<nat>)
  {
    if es == [] then {}
    else
      var before := HeldAfter(es[..|es| - 1]);
      var e := es[|es| - 1];
      if e.Took? then before + {e.lock} else before - {e.lock}
  }

  /** Every lock was free when taken and higher than all locks held then; at most two were held at once. */
  ghost predicate Ordered(es: seq<LockEvent>) {
    && (forall k :: 0 <= k < |es| && es[k].Took? ==> forall j :: j in HeldAfter(es[..k]) ==> j < es[k].lock)
    && (forall k :: 0 <= k <= |es| ==> |HeldAfter(es[..k])| <= 2)
  }

  /** The locks in the order in which they were taken. */
  function Taken(es: seq<LockEvent>): (r: seq<nat>)
  {
    if es == [] then []
    else
      var e := es[|es| - 1];
      Taken(es[..|es| - 1]) + if e.Took? then [e.lock] else []
  }

  lemma HeldSnoc(es: seq<LockEvent>, e: LockEvent)
    ensures HeldAfter(es + [e]) == if e.Took? then HeldAfter(es) + {e.lock} else HeldAfter(es) - {e.lock}
    ensures Taken(es + [e]) == Taken(es) + if e.Took? then [e.lock] else []
  {
    assert (es + [e])[..|es|] == es;
  }

  lemma OrderedSnoc(es: seq<LockEvent>, e: LockEvent)
    requires Ordered(es) && |HeldAfter(es + [e])| <= 2
    requires e.Took? ==> forall j :: j in HeldAfter(es) ==> j < e.lock
    ensures Ordered(es + [e])
  {
    var fs := es + [e];
    forall k | 0 <= k <= |es| ensures fs[..k] == es[..k] {
    }
    assert es[..|es|] == es && fs[..|fs|] == fs;
  }

  /** The events account for the locks held. */
  ghost predicate Records(es: seq<LockEvent>, locks: set<nat>) {
    forall k: nat :: Open(LOCKS_RECORDED, k) ==> locks == HeldAfter(es)
  }

  /** Never more than one lock was held. */
  ghost predicate OneAtATime(es: seq<LockEvent>) {
    forall k: nat :: Open(ONE_LOCK, k) ==> forall i :: 0 <= i <= |es| ==> |HeldAfter(es[..i])| <= 1
  }

  lemma OneNone()
    ensures OneAtATime([])
  {
  }

  lemma OneSnoc(es: seq<LockEvent>, e: LockEvent)
    requires OneAtATime(es) && |HeldAfter(es + [e])| <= 1
    ensures OneAtATime(es + [e])
  {
    var fs := es + [e];
    forall i | 0 <= i <= |fs| ensures |HeldAfter(fs[..i])| <= 1 {
      if i == |fs| {
        assert fs[..i] == fs;
      } else {
        assert fs[..i] == es[..i];
        assert |HeldAfter(es[..i])| <= 1 by { assert Open(ONE_LOCK, 0); }
      }
    }
  }

  /** Taking a lock when none is held, and giving it back. */
  lemma OneTaken(es: seq<LockEvent>, locks: set<nat>, i: nat)
    requires OneAtATime(es) && Records(es, locks) && locks == {}
    ensures OneAtATime(es + [Took(i)]) && OneAtATime(es + [Took(i)] + [Gave(i)])
  {
    assert Open(LOCKS_RECORDED, 0);
    HeldSnoc(es, Took(i));
    OneSnoc(es, Took(i));
    HeldSnoc(es + [Took(i)], Gave(i));
    OneSnoc(es + [Took(i)], Gave(i));
  }

  class Cpu {
    var intr: bool      // interrupts are on
    var noff: int       // depth of push_off nesting
    var intena: bool    // were interrupts on before the outermost push_off?
    var locks: set<nat> // spinlocks held by this processor
    ghost var events: seq<LockEvent>

    /** Interrupts are off while nested, and the nesting is at least one per lock. */
    ghost predicate Valid()
      reads this
    {
      && noff >= |locks| && (noff > 0 ==> !intr)
      && Records(events, locks)
    }

    constructor ()
      ensures Valid() && intr && noff == 0 && locks == {} && events == []
    {
      intr, noff, intena, locks, events := true, 0, false, {}, [];
    }

    /** Starts a new record of events at a moment when no lock is held. */
    ghost method Restart()
      requires Valid() && locks == {}
      modifies this`events
      ensures Valid() && events == []
    {
      events := [];
    }

    method PushOff()
      requires noff > 0 ==> !intr
      requires noff >= 0
      modifies this`intr, this`noff, this`intena
      ensures !intr && noff == old(noff) + 1
      ensures intena == if old(noff) == 0 then old(intr) else old(intena)
    {
      var was := intr;
      intr := false;
      if noff == 0 { intena := was; }
      noff := noff + 1;
    }

    /** Both panics of pop_off are excluded by the matching push_off. */
    method PopOff()
      requires noff > 0 && !intr
      modifies this`intr, this`noff
      ensures noff == old(noff) - 1
      ensures intr == (noff == 0 && intena)
    {
      noff := noff - 1;
      if noff == 0 && intena { intr := true; }
    }

    /** acquire of a lock that no other processor holds; taking a lock twice is a panic. */
    method Acquire(i: nat)
      requires Valid() && i !in locks
      modifies this
      ensures Valid() && locks == old(locks) + {i} && noff == old(noff) + 1 && !intr
      ensures events == old(events) + [Took(i)]
      ensures intena == if old(noff) == 0 then old(intr) else old(intena)
    {
      PushOff();
      assert Open(LOCKS_RECORDED, 0);
      HeldSnoc(events, Took(i));
      locks := locks + {i};
      events := events + [Took(i)];
    }

    /** release of a held lock; interrupts come back on with the outermost one if they were on. */
    method Release(i: nat)
      requires Valid() && i in locks
      modifies this
      ensures Valid() && locks == old(locks) - {i} && noff == old(noff) - 1 && intena == old(intena)
      ensures events == old(events) + [Gave(i)]
      ensures intr == (noff == 0 && intena)
    {
      assert Open(LOCKS_RECORDED, 0);
      HeldSnoc(events, Gave(i));
      locks := locks - {i};
      events := events + [Gave(i)];
      PopOff();
    }

    /** push_off and pop_off match: the pair changes neither the nesting nor the interrupt flag. */
    method Nested()
      requires noff >= 0 && (noff > 0 ==> !intr)
      modifies this`intr, this`noff, this`intena
      ensures noff == old(noff) && intr == old(intr)
    {
      PushOff();
      PopOff();
    }
  }
}
