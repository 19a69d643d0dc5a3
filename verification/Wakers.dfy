/** The cells in which a pending future leaves its waker for an interrupt handler. */
module Wakers {
  import opened Options

  /** A waker of a task; clones of it wake the same task. */
  datatype Waker = Waker(task: nat, clone: nat)

  predicate WillWake(w: Waker, other: Waker) {
    w.task == other.task
  }

  /** The cell after `set_waker`: a waker that would wake the same task is kept, else it is replaced. */
  function Refreshed(slot: Option<Waker>, w: Waker): Option<Waker> {
    if slot.Some? && WillWake(slot.value, w) then slot else Some(w)
  }

  class WakerCell {
    var slot: Option<Waker>

    constructor ()
      ensures slot == None
    {
      slot := None;
    }

    method Take() returns (taken: Option<Waker>)
      modifies this
      ensures taken == old(slot) && slot == None
    {
      taken := slot;
      slot := None;
    }

    /** Whatever was in the cell, the next wake wakes the task of `w`; the result says if it was occupied. */
    method SetWaker(w: Waker) returns (wasSet: bool)
      modifies this
      ensures wasSet <==> old(slot).Some?
      ensures slot == Refreshed(old(slot), w)
      ensures old(slot).Some? && old(slot).value.task == w.task ==> slot == old(slot)
      ensures slot.Some? && slot.value.task == w.task
    {
      var taken := Take();
      wasSet := taken.Some?;
      slot := if taken.Some? && WillWake(taken.value, w) then taken else Some(w);
    }

    /** Wakes the waiting task, once: the cell is empty afterwards. */
    method Wake(runnable: set<nat>) returns (woken: set<nat>)
      modifies this
      ensures slot == None
      ensures woken == runnable + if old(slot).Some? then {old(slot).value.task} else {}
    {
      var taken := Take();
      woken := if taken.Some? then runnable + {taken.value.task} else runnable;
    }
  }
}
