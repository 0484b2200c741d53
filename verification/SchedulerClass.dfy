/** The pulse that wakes a node, with its two flags. Each method is the body of one
    critical section. */
module SchedulerClass {
  import opened Scheduler

  class UniquePulse {
    var pulsed: bool
    var asleep: bool

    /** The pulse belongs to this node. */
    ghost predicate Of(node: Node)
      reads this
    {
      node.pulsed == pulsed && node.asleep == asleep
    }

    constructor ()
      ensures !pulsed && !asleep
    {
      pulsed, asleep := false, false;
    }

    /** Whether the waiter is to be notified, once the lock is given up. */
    method Pulse(ghost node: Node) returns (notify: bool)
      requires Of(node)
      modifies this
      ensures Of(SetPulse(node))
      ensures pulsed && !asleep && notify == old(asleep)
    {
      notify := false;
      pulsed := true;
      if asleep {
        asleep := false;
        notify := true;
      }
    }

    /** From the head of `wait` to its return or its first block: a pulse is used up by the
        `wait` that it lets through. */
    method Wait(ghost node: Node, steal: NodeId) returns (leaves: bool)
      requires Of(node) && !asleep
      modifies this
      ensures Of(TestPulse(node.(asleep := true), steal))
      ensures leaves <==> TestPulse(node.(asleep := true), steal).Top() == Loop(Reload)
      ensures leaves == old(pulsed) && !pulsed && asleep == !leaves
    {
      asleep := true;
      leaves := Retest(node.(asleep := true), steal);
    }

    /** The test of the loop around the condition variable, after a wake-up. */
    method Retest(ghost node: Node, steal: NodeId) returns (leaves: bool)
      requires Of(node)
      modifies this
      ensures Of(TestPulse(node, steal))
      ensures leaves <==> TestPulse(node, steal).Top() == Loop(Reload)
      ensures leaves == old(pulsed) && !pulsed && asleep == (!leaves && old(asleep))
    {
      leaves := pulsed;
      if pulsed {
        pulsed, asleep := false, false;
      }
    }
  }
}
