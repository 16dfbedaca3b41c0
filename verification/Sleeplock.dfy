/**
 * kernel/sleeplock.c: a lock held across sleeps. Each method is one stretch under the inner
 * spinlock; a process that goes to sleep in acquiresleep() tries again after it is woken.
 */
module Sleeplock {
  class Lock {
    var locked: bool
    var pid: nat
    /** Processes asleep on the lock's address. */
    var waiters: set<nat>
    /** The process whose acquiresleep() returned and which has not released yet. */
    ghost var holders: set<nat>

    /** At most one holder, the one recorded; nobody sleeps while the lock is free. */
    ghost predicate Valid()
      reads this
    {
      && holders == (if locked then {pid} else {})
      && (waiters != {} ==> locked)
    }

    ghost function Now(): Shot
      reads this
    {
      Shot(locked, pid, waiters, holders)
    }

    constructor ()
      ensures Valid() && Now() == Shot(false, 0, {}, {})
    {
      locked, pid, waiters, holders := false, 0, {}, {};
    }

    /** One pass of the loop in acquiresleep(): either the caller has the lock or it sleeps. */
    method Acquire(p: nat) returns (got: bool)
      requires Valid()
      modifies this
      ensures Valid() && (got <==> !old(locked))
      ensures got ==> holders == {p} && locked && pid == p && waiters == old(waiters)
      ensures !got ==> holders == old(holders) && waiters == old(waiters) + {p} && pid == old(pid) && locked
    {
      if locked {
        waiters := waiters + {p};
        return false;
      }
      locked := true;
      pid := p;
      holders := {p};
      return true;
    }

    /** The holder lets go and everyone asleep gets another try. */
    method Release(p: nat)
      requires Valid() && p in holders
      modifies this
      ensures Valid() && !locked && pid == 0 && holders == {} && waiters == {}
    {
      locked := false;
      pid := 0;
      waiters := {};
      holders := {};
    }

    /** True exactly for the process that holds the lock. */
    method Holding(p: nat) returns (r: bool)
      requires Valid()
      ensures r <==> p in holders
    {
      r := locked && pid == p;
    }

    /** kkill() wakes one sleeper early. */
    method Kill(p: nat)
      requires Valid()
      modifies this
      ensures Valid() && waiters == old(waiters) - {p} && holders == old(holders) && locked == old(locked)
      ensures pid == old(pid)
    {
      waiters := waiters - {p};
    }
  }

  datatype Event = Acquire(p: nat) | Release(p: nat) | Kill(p: nat)

  datatype Shot = Shot(locked: bool, pid: nat, waiters: set<nat>, holders: set<nat>)

  /** One holder at most, and a free lock has no sleepers. */
  ghost predicate ShotOk(b: Shot) {
    b.holders == (if b.locked then {b.pid} else {}) && |b.holders| <= 1 && (!b.locked ==> b.waiters == {})
  }

  /** The caller gets a free lock and sleeps on a held one; only the holder can let go. */
  ghost predicate EventOk(a: Shot, e: Event, yes: bool, b: Shot) {
    match e
    case Acquire(p) =>
      yes == !a.locked && if yes then b == Shot(true, p, a.waiters, {p}) else b == a.(waiters := a.waiters + {p})
    case Release(p) => yes == (p in a.holders) && if yes then b == Shot(false, 0, {}, {}) else b == a
    case Kill(p) => yes && b == a.(waiters := a.waiters - {p})
  }

  ghost predicate IsTrail(trail: seq<Shot>, events: seq<Event>, replies: seq<bool>) {
    && |trail| == |events| + 1 && |events| == |replies|
    && (forall i :: 0 <= i < |trail| ==> ShotOk(trail[i]))
    && forall i :: 0 <= i < |events| ==> EventOk(trail[i], events[i], replies[i], trail[i + 1])
  }

  method Step(lk: Lock, e: Event) returns (yes: bool)
    requires lk.Valid()
    modifies lk
    ensures lk.Valid() && EventOk(old(lk.Now()), e, yes, lk.Now())
  {
    match e
    case Acquire(p) =>
      yes := lk.Acquire(p);
    case Release(p) =>
      yes := lk.Holding(p);
      if yes {
        lk.Release(p);
      }
    case Kill(p) =>
      lk.Kill(p);
      yes := true;
  }

  /** Any run: every step does what it should, and at every stop one holder at most and nobody asleep on a free
      lock. */
  method Run(events: seq<Event>) returns (lk: Lock, replies: seq<bool>, ghost trail: seq<Shot>)
    ensures lk.Valid() && IsTrail(trail, events, replies) && trail[|events|] == lk.Now()
    ensures trail[0] == Shot(false, 0, {}, {})
  {
    lk := new Lock();
    replies, trail := [], [lk.Now()];
    for i := 0 to |events|
      invariant lk.Valid() && fresh(lk) && trail != [] && trail[0] == Shot(false, 0, {}, {})
      invariant IsTrail(trail, events[..i], replies) && trail[i] == lk.Now()
    {
      var yes := Step(lk, events[i]);
      replies, trail := replies + [yes], trail + [lk.Now()];
    }
    assert events[..|events|] == events;
  }
}
