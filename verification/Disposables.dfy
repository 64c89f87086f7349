/**
 The collection of unused server objects. Collecting a session core deletes its
 children one by one, and every deletion runs the collection again, in the middle
 of the one under way.
 */
module Disposables {
  import opened Lists

  class Disposable {
    const maxInactivity: int
    const isCore: bool                // a session core; otherwise an identity
    var autoDestruct: bool
    var lastActivity: int
    var active: bool                  // a request is active
    var watching: bool                // a UI call is being watched
    var children: seq<nat>            // the sessions on it, oldest first
    var deleted: bool                 // deleteLater() was called

    constructor (maxInactivity: int, isCore: bool, now: int)
      ensures autoDestruct && lastActivity == now && children == [] && !active && !watching && !deleted
      ensures this.maxInactivity == maxInactivity && this.isCore == isCore
    {
      this.maxInactivity, this.isCore := maxInactivity, isCore;
      autoDestruct, lastActivity, active, watching, children, deleted := true, now, false, false, [], false;
    }

    /** destroy() is refused while a request is active or a dialog is open. */
    predicate Refuses()
      reads this
    {
      isCore && (active || watching)
    }

    predicate Idle(now: int)
      reads this
    {
      autoDestruct && now - lastActivity > maxInactivity
    }
  }

  /** The children of all objects together. */
  ghost function Total(all: seq<Disposable>): nat
    reads all
  {
    if all == [] then 0 else |all[0].children| + Total(all[1..])
  }

  /** Fewer children nowhere more. */
  twostate lemma {:induction false} TotalShrinks(all: seq<Disposable>)
    requires forall o :: o in all ==> |o.children| <= old(|o.children|)
    ensures Total(all) <= old(Total(all))
    ensures (exists o :: o in all && |o.children| < old(|o.children|)) ==> Total(all) < old(Total(all))
  {
    if all != [] {
      TotalShrinks(all[1..]);
      if o :| o in all && |o.children| < old(|o.children|) && o != all[0] {
        assert o in all[1..];
      }
    }
  }

  class Collector {
    var objects: seq<Disposable>      // disposableObjects
    var clock: int

    constructor ()
      ensures objects == []
    {
      objects, clock := [], 0;
    }

    ghost predicate Valid(all: seq<Disposable>)
      reads this, all
    {
      && NoDuplicates(objects)
      && (forall o :: o in objects ==> o in all)
      && (forall o :: o in all ==> o.lastActivity <= clock && (!o.isCore ==> o.children == []))
    }

    /** The monotonic clock. */
    method Now() returns (t: int)
      modifies `clock
      ensures t == clock && clock >= old(clock)
    {
      var passed: nat :| passed >= 0;
      clock := clock + passed;
      t := clock;
    }

    /** Idle past its limit, measured from the state before. */
    twostate predicate Expired(o: Disposable)
      reads this, o
    {
      old(o.autoDestruct) && clock - old(o.lastActivity) > o.maxInactivity
    }

    /** What any stretch of collecting leaves of one object. Only one that refuses to be
        destroyed is marked as used. */
    twostate predicate Kept(o: Disposable)
      reads this, o
    {
      && o.autoDestruct == old(o.autoDestruct)
      && o.active == old(o.active)
      && o.watching == old(o.watching)
      && (o.lastActivity == old(o.lastActivity) || (o.Refuses() && o.lastActivity >= old(clock)))
      && |o.children| <= old(|o.children|)
    }

    twostate predicate Untouched(o: Disposable)
      reads this, o
    {
      o.children == old(o.children) && o.deleted == old(o.deleted)
    }

    /** The object refused to be destroyed, and counts as used just now. */
    twostate predicate Spared(o: Disposable)
      reads this, o
    {
      Untouched(o) && o.lastActivity >= old(clock)
    }

    /** The object is destroyed: without children, and scheduled for deletion. */
    twostate predicate LetGo(o: Disposable)
      reads this, o
    {
      !o.Refuses() && o.children == [] && o.deleted
    }

    /** What is still listed is untouched. What left the list was idle, and was
        destroyed unless it refused to be. */
    twostate predicate Settled(o: Disposable)
      reads this, o
    {
      && (Untouched(o) || LetGo(o))
      && (o in objects ==> Untouched(o))
      && (o in old(objects) && o !in objects ==> Expired(o) && if o.Refuses() then Spared(o) else LetGo(o))
    }

    /** A stretch of collecting; but holds the object whose destruction is under way. */
    twostate predicate Collected(all: seq<Disposable>, but: set<Disposable>)
      reads this, all
    {
      && Valid(all)
      && clock >= old(clock)
      && (forall o :: o in objects ==> o in old(objects))
      && (forall o :: o in all ==> Kept(o) && (o !in but ==> Settled(o)))
    }

    /** SignonDisposable::destroyUnused. The list is copied before the walk, and a
        destroyed object is taken off it only after its children are gone. */
    method DestroyUnused(all: seq<Disposable>) returns (ghost ts: int)
      requires Valid(all)
      modifies this, all
      ensures Collected(all, {})
      ensures old(clock) <= ts <= clock
      ensures forall o :: o in objects ==> !(o.autoDestruct && ts - o.lastActivity > o.maxInactivity)
      ensures forall o :: o in old(objects) && !old(o.autoDestruct) ==> o in objects
      decreases Total(all), 3
    {
      var now := Now();
      ts := now;
      var snapshot := objects;
      Walk(snapshot, all, now);
      forall o | o in objects ensures !o.Idle(ts) {
        var k :| 0 <= k < |snapshot| && snapshot[k] == o;
        assert Past(snapshot[k], now);
      }
    }

    /** Goes through the copy of the list, which shrinks meanwhile. */
    method Walk(snapshot: seq<Disposable>, all: seq<Disposable>, now: int)
      requires Valid(all) && now <= clock && forall k :: 0 <= k < |snapshot| ==> snapshot[k] in all
      modifies this, all
      ensures Collected(all, {})
      ensures forall k :: 0 <= k < |snapshot| ==> Past(snapshot[k], now)
      decreases Total(all), 2, 2
    {
      var i := 0;
      while i < |snapshot|
        invariant 0 <= i <= |snapshot|
        invariant Collected(all, {})
        invariant forall k :: 0 <= k < i ==> Past(snapshot[k], now)
      {
        TotalShrinks(all);
        label before:
        Visit(snapshot[i], all, now);
        forall o | o in all ensures Kept(o) {
          assert Kept@before(o);
        }
        forall o | o in all ensures Settled(o) {
          assert Kept@before(o) && Settled@before(o);
        }
        forall k | 0 <= k < i + 1 ensures Past(snapshot[k], now) {
          assert Kept@before(snapshot[k]);
        }
        i := i + 1;
      }
    }

    predicate Past(o: Disposable, now: int)
      reads this, o
    {
      o !in objects || !o.Idle(now)
    }

    method Visit(o: Disposable, all: seq<Disposable>, now: int)
      requires Valid(all) && o in all && now <= clock
      modifies this, all
      ensures Collected(all, {}) && Past(o, now)
      decreases Total(all), 2, 1
    {
      if o.Idle(now) {
        assert o.Idle(clock);
        Collect(o, all);
      }
    }

    /** One object of the walk: destroyed, then taken off the list. */
    method Collect(o: Disposable, all: seq<Disposable>)
      requires Valid(all) && o in all && o.Idle(clock)
      modifies this, all
      ensures Collected(all, {}) && o !in objects
      ensures if o.Refuses() then Spared(o) else LetGo(o)
      decreases Total(all), 2, 0
    {
      Destroy(o, all);
      RemoveOneMembers(objects, o);
      objects := RemoveOne(objects, o);
    }

    /** The object's destroy(): a core refuses while busy; otherwise it deletes its
        children, and each deletion sends it an event that collects again. */
    method Destroy(o: Disposable, all: seq<Disposable>)
      requires Valid(all) && o in all && o.Idle(clock)
      modifies this, all
      ensures Collected(all, {o})
      ensures if o.Refuses() then Spared(o) else LetGo(o)
      decreases Total(all), 1
    {
      if o.isCore {
        if o.active || o.watching {
          o.lastActivity := Now();
          return;
        }
        DeleteChildren(o, all);
      }
      o.deleted := true;
    }

    method DeleteChildren(o: Disposable, all: seq<Disposable>)
      requires Valid(all) && o in all && o.isCore
      modifies this, all
      ensures Collected(all, {o}) && o.children == []
      decreases Total(all), 0, 1
    {
      while o.children != []
        invariant Collected(all, {o})
        decreases |o.children|
      {
        TotalShrinks(all);
        label before:
        DeleteFirstChild(o, all);
        forall p | p in all ensures Kept(p) && (p != o ==> Settled(p)) {
          assert Kept@before(p) && (p != o ==> Settled@before(p));
        }
      }
    }

    /** Deleting a child sends its core a removal event, which collects. */
    method DeleteFirstChild(o: Disposable, all: seq<Disposable>)
      requires Valid(all) && o in all && o.isCore && o.children != []
      modifies this, all
      ensures Collected(all, {o}) && |o.children| < old(|o.children|)
      decreases Total(all), 0, 0
    {
      o.children := o.children[1..];
      TotalShrinks(all);
      var _ := DestroyUnused(all);
    }
  }
}
