/**
 * `Delay` and `after` of ObjcExt.swift: a Depositable that runs a block once, some time
 * after it is started, unless it was removed from its owner first. The `dispatch_after`
 * block is counted in `scheduledFires` and runs when the caller invokes `Fire`.
 */
module Delays {
  import opened Options

  class Delay {
    var finished: bool
    /** The client block to run, by token; `depositableWillRemove` drops it. */
    var trigger: Option<nat>
    var started: bool
    /** `dispatch_after` blocks waiting on the main queue. */
    var scheduledFires: nat
    /** The client blocks this delay ran, in order. */
    var ran: seq<nat>

    /** At most one block is ever scheduled, so the trigger runs at most once. */
    ghost predicate Valid()
      reads this
    {
      scheduledFires <= 1 && |ran| <= 1 &&
      (!started ==> scheduledFires == 0 && !finished && ran == []) &&
      (scheduledFires == 1 ==> !finished && ran == []) &&
      (finished ==> scheduledFires == 0)
    }

    /** `init(seconds:trigger:)` */
    constructor(trigger: nat)
      ensures Valid() && this.trigger == Some(trigger)
      ensures !started && !finished && scheduledFires == 0 && ran == []
    {
      this.trigger := Some(trigger);
      started, finished, scheduledFires, ran := false, false, 0, [];
    }

    /** `shouldRemoveDepositable()`: only once the block has fired. */
    function ShouldRemoveDepositable(): (b: bool)
      reads this
      requires Valid()
      ensures b ==> started && scheduledFires == 0
      ensures b <==> finished
    {
      finished
    }

    /** `depositableWillRemove()`: forget the block, so a later firing runs nothing. */
    method DepositableWillRemove()
      requires Valid()
      modifies this
      ensures Valid() && trigger.None?
      ensures finished == old(finished) && started == old(started) && scheduledFires == old(scheduledFires) && ran == old(ran)
    {
      trigger := None;
    }

    /** `depositableDidAdd()`: nothing. */
    method DepositableDidAdd()
      requires Valid()
      ensures unchanged(this)
    {
    }

    /** `start()`: schedule the block the first time only, and hand back this delay. */
    method Start() returns (self: Delay)
      requires Valid()
      modifies this
      ensures self == this && Valid() && started
      ensures !old(started) ==> scheduledFires == 1
      ensures old(started) ==> scheduledFires == old(scheduledFires)
      ensures finished == old(finished) && trigger == old(trigger) && ran == old(ran)
    {
      if !started {
        started := true;
        scheduledFires := scheduledFires + 1;
      }
      self := this;
    }

    /** The `dispatch_after` block: run the block if it is still there, and in any case become finished. */
    method Fire()
      requires Valid() && scheduledFires > 0
      modifies this
      ensures Valid() && finished && scheduledFires == old(scheduledFires) - 1
      ensures ran == old(ran) + (if old(trigger).Some? then [old(trigger).value] else [])
      ensures trigger == old(trigger) && started == old(started)
    {
      if trigger.Some? {
        ran := ran + [trigger.value];
      }
      finished := true;
      scheduledFires := scheduledFires - 1;
    }
  }

  /** `after(seconds:block:)`: a delay already started, with its block scheduled. */
  method After(block: nat) returns (d: Delay)
    ensures fresh(d) && d.Valid() && d.started && !d.finished
    ensures d.scheduledFires == 1 && d.trigger == Some(block) && d.ran == []
  {
    d := new Delay(block);
    d := d.Start();
  }
}
