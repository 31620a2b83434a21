/** Slot directories of active tasks: the search for a free one, and that no two tasks ever share one
    (client/app.cpp). */
module Slots {
  import opened Sequences
  import opened Wrappers

  /** What the directory operations for one slot come to. */
  datatype Attempt = Cleaned | NotCleaned | NotADirectory | Made | NotMade

  predicate Usable(a: Attempt) {
    a == Cleaned || a == Made
  }

  ghost predicate Taken(slots: set<int>, lo: int, hi: int) {
    forall k :: lo <= k < hi ==> k in slots
  }

  ghost function ToSet(s: seq<int>): set<int> {
    set x | x in s
  }

  lemma {:induction false} SetIsNoLarger(s: seq<int>)
    ensures |ToSet(s)| <= |s|
  {
    if s != [] {
      SetIsNoLarger(s[..|s| - 1]);
      assert ToSet(s) == ToSet(s[..|s| - 1]) + {s[|s| - 1]};
    }
  }

  lemma {:induction false} TakenWithOneMore(slots: set<int>, lo: int, hi: int)
    requires lo in slots && Taken(slots - {lo}, lo + 1, hi)
    ensures Taken(slots, lo, hi)
  {
    forall k | lo <= k < hi ensures k in slots {
      if k != lo { assert k in slots - {lo}; }
    }
  }

  /** The least number from lo on that is not in slots. By the pigeonhole principle it is among the next
      |slots| + 1. */
  ghost function NextFree(slots: set<int>, lo: int): (j: int)
    ensures lo <= j <= lo + |slots| && j !in slots && Taken(slots, lo, j)
    decreases |slots|
  {
    if lo !in slots then lo
    else
      var j := NextFree(slots - {lo}, lo + 1);
      TakenWithOneMore(slots, lo, j);
      j
  }

  /** Slot j can be had: no task is in it and its directory can be used. */
  ghost predicate Available(slots: seq<int>, attempts: nat -> Attempt, j: nat) {
    j !in slots && Usable(attempts(j))
  }

  /** The last slot that the search looks at: the first free one above the limit. */
  ghost function LastTried(slots: seq<int>, ncpus: nat): (j: nat)
    ensures 100 * ncpus < j <= 100 * ncpus + 1 + |slots| && j !in slots
    ensures Taken(ToSet(slots), 100 * ncpus + 1, j)
  {
    SetIsNoLarger(slots);
    NextFree(ToSet(slots), 100 * ncpus + 1)
  }

  ghost predicate NoneBefore(slots: seq<int>, attempts: nat -> Attempt, j: nat) {
    forall k :: 0 <= k < j ==> !Available(slots, attempts, k)
  }

  /** The least slot up to last that can be had; None, which stands for ERR_NULL, if there is none. */
  ghost predicate Found(slots: seq<int>, last: nat, attempts: nat -> Attempt, slot: Option<nat>) {
    match slot
    case Some(j) => j <= last && Available(slots, attempts, j) && NoneBefore(slots, attempts, j)
    case None => NoneBefore(slots, attempts, last + 1)
  }

  lemma {:induction false} NoneBeforeNext(slots: seq<int>, attempts: nat -> Attempt, j: nat)
    requires NoneBefore(slots, attempts, j) && !Available(slots, attempts, j)
    ensures NoneBefore(slots, attempts, j + 1)
  {
    forall k | 0 <= k < j + 1 ensures !Available(slots, attempts, k) {}
  }

  lemma {:induction false} FoundIsFirst(slots: seq<int>, last: nat, attempts: nat -> Attempt, slot: Option<nat>)
    requires Found(slots, last, attempts, slot)
    ensures slot.Some? ==>
      slot.value !in slots && (attempts(slot.value) == Cleaned || attempts(slot.value) == Made)
    ensures forall k: nat {:trigger attempts(k)} :: k < (if slot.Some? then slot.value else last + 1) ==>
      k in slots || attempts(k) == NotCleaned || attempts(k) == NotADirectory || attempts(k) == NotMade
  {
    forall k: nat {:trigger attempts(k)} | k < (if slot.Some? then slot.value else last + 1)
      ensures k in slots || attempts(k) == NotCleaned || attempts(k) == NotADirectory || attempts(k) == NotMade
    {
      assert !Available(slots, attempts, k);
    }
  }

  class ActiveTask {
    var slot: int

    constructor (slot: int)
      ensures this.slot == slot
    {
      this.slot := slot;
    }
  }

  class ActiveTaskSet {
    var activeTasks: seq<ActiveTask>

    ghost function SlotsOf(): (slots: seq<int>)
      reads this, activeTasks
      ensures |slots| == |activeTasks| && forall i :: 0 <= i < |slots| ==> slots[i] == activeTasks[i].slot
    {
      seq(|activeTasks|, i requires 0 <= i < |activeTasks| reads this, activeTasks => activeTasks[i].slot)
    }

    /** No two tasks are in the same slot. */
    ghost predicate Valid()
      reads this, activeTasks
    {
      Distinct(SlotsOf())
    }

    method IsSlotInUse(slot: int) returns (inUse: bool)
      ensures inUse <==> slot in SlotsOf()
    {
      for i := 0 to |activeTasks|
        invariant slot !in SlotsOf()[..i]
      {
        assert SlotsOf()[..i + 1] == SlotsOf()[..i] + [SlotsOf()[i]];
        if activeTasks[i].slot == slot {
          return true;
        }
      }
      assert SlotsOf()[..|activeTasks|] == SlotsOf();
      return false;
    }

    /** The loop of get_free_slot(), which ends at the latest at the first slot above the limit that is not
        in use. */
    method Search(ncpus: nat, attempts: nat -> Attempt, ghost slots: seq<int>, ghost last: nat)
      returns (slot: Option<nat>)
      requires slots == SlotsOf() && 100 * ncpus < last && last !in slots
      requires forall k {:trigger k in slots} :: 100 * ncpus < k < last ==> k in slots
      ensures Found(slots, last, attempts, slot)
    {
      var j: nat := 0;
      while true
        invariant j <= last && NoneBefore(slots, attempts, j)
        decreases last - j
      {
        var inUse := IsSlotInUse(j);
        if !inUse {
          if Usable(attempts(j)) {
            return Some(j);
          }
          if j > ncpus * 100 {
            assert j == last;
            NoneBeforeNext(slots, attempts, j);
            return None;
          }
        }
        NoneBeforeNext(slots, attempts, j);
        j := j + 1;
      }
    }

    /** get_free_slot(): attempts tells what happens in each slot directory. The search ends for all of
        them, at the latest at LastTried(). */
    method GetFreeSlot(ncpus: nat, attempts: nat -> Attempt) returns (slot: Option<nat>)
      ensures Found(SlotsOf(), LastTried(SlotsOf(), ncpus), attempts, slot)
      // the slot's directory was there and could be cleaned out, or was not there and could be made; and
      // every lower slot is in use or failed in this
      ensures slot.Some? ==>
        slot.value !in SlotsOf() && (attempts(slot.value) == Cleaned || attempts(slot.value) == Made)
      ensures forall k: nat {:trigger attempts(k)} ::
        k < (if slot.Some? then slot.value else LastTried(SlotsOf(), ncpus) + 1) ==>
          k in SlotsOf() || attempts(k) == NotCleaned || attempts(k) == NotADirectory || attempts(k) == NotMade
    {
      ghost var slots := SlotsOf();
      ghost var last := LastTried(slots, ncpus);
      forall k: int {:trigger k in slots} | 100 * ncpus < k < last ensures k in slots { assert k in ToSet(slots); }
      slot := Search(ncpus, attempts, slots, last);
      FoundIsFirst(slots, last, attempts, slot);
    }

    /** A task for which a slot is found joins the set. */
    method StartTask(ncpus: nat, attempts: nat -> Attempt) returns (slot: Option<nat>)
      requires Valid()
      modifies this
      ensures Valid()
      ensures slot.None? ==> SlotsOf() == old(SlotsOf())
      ensures slot.Some? ==> slot.value !in old(SlotsOf()) && SlotsOf() == old(SlotsOf()) + [slot.value]
      ensures slot.Some? ==> attempts(slot.value) == Cleaned || attempts(slot.value) == Made
      ensures slot.Some? ==> slot.value <= 100 * ncpus + 1 + |old(SlotsOf())|
    {
      slot := GetFreeSlot(ncpus, attempts);
      if slot.Some? {
        var atp := new ActiveTask(slot.value);
        ghost var slots := SlotsOf();
        activeTasks := activeTasks + [atp];
        assert SlotsOf() == slots + [slot.value];
      }
    }

    /** A task read from the state file joins the set unless its slot is taken. */
    method ParseTask(atp: ActiveTask) returns (accepted: bool)
      requires Valid()
      modifies this
      ensures Valid() && (accepted <==> atp.slot !in old(SlotsOf()))
      ensures activeTasks == if accepted then old(activeTasks) + [atp] else old(activeTasks)
    {
      var taken := IsSlotInUse(atp.slot);
      accepted := !taken;
      if accepted {
        ghost var slots := SlotsOf();
        activeTasks := activeTasks + [atp];
        assert SlotsOf() == slots + [atp.slot];
      }
    }

    /** A task leaves the set. */
    method RemoveTask(i: nat)
      requires Valid() && i < |activeTasks|
      modifies this
      ensures Valid() && activeTasks == Erase(old(activeTasks), i)
    {
      ghost var slots := SlotsOf();
      activeTasks := Erase(activeTasks, i);
      assert SlotsOf() == Erase(slots, i);
    }
  }
}
