/** The search for the next node to steal from: a loop that goes round the circle until it
    has left the node itself. */
module SchedulerVictim {
  import Bits
  import opened Scheduler

  /** Where the search is after some of its rounds. */
  function Turn(nodes: nat, k: NodeId, rounds: nat): NodeId
    requires nodes > 0
  {
    if rounds == 0 then k else (Turn(nodes, k, rounds - 1) + 1) % nodes
  }

  /** The search has ended with its last round: that one has left the node, the earlier
      ones have not. */
  ghost predicate Ends(nodes: nat, self: NodeId, k: NodeId, rounds: nat)
    requires nodes > 0
  {
    && rounds > 0 && Turn(nodes, k, rounds) != self
    && forall j: nat :: 0 < j < rounds ==> Turn(nodes, k, j) == self
  }

  lemma InRange(a: nat, n: nat)
    requires n > 0
    ensures a % n < n
    ensures a < n ==> a % n == a
    ensures a == n ==> a % n == 0
  {
    if a == n {
      Bits.DivideByMultiple(1, n, 0);
    } else if a < n {
      Bits.SmallModulo(a, n);
    }
  }

  /** The model's next victim is where the loop ends. */
  lemma NextVictimIsFound(c: Config, self: NodeId, k: NodeId)
    requires c.nodes >= 2 && self < c.nodes
    ensures exists rounds :: Ends(c.nodes, self, k, rounds) && Turn(c.nodes, k, rounds) == NextVictim(c, self, k)
  {
    assert Turn(c.nodes, k, 0) == k;
    var k1 := Turn(c.nodes, k, 1);
    if k1 != self {
      assert Ends(c.nodes, self, k, 1);
    } else {
      InRange(self + 1, c.nodes);
      assert Turn(c.nodes, k, 2) == (k1 + 1) % c.nodes;
      assert Ends(c.nodes, self, k, 2);
    }
  }

  lemma AlwaysSelf(k: NodeId, rounds: nat)
    requires rounds > 0
    ensures Turn(1, k, rounds) == 0
  {
  }

  /** The search ends exactly if there are at least two nodes. */
  lemma SearchEndsIff(nodes: nat, self: NodeId, k: NodeId)
    requires self < nodes
    ensures (exists rounds :: Ends(nodes, self, k, rounds)) <==> nodes >= 2
  {
    if nodes >= 2 {
      NextVictimIsFound(Config(nodes, 1), self, k);
    } else {
      forall rounds: nat
        ensures !Ends(nodes, self, k, rounds)
      {
        if rounds > 0 {
          AlwaysSelf(k, rounds);
        }
      }
    }
  }

  /** The loop itself. */
  method FindVictim(nodes: nat, self: NodeId, start: NodeId) returns (k: NodeId)
    requires nodes >= 2 && self < nodes
    ensures exists rounds :: Ends(nodes, self, start, rounds) && k == Turn(nodes, start, rounds)
    ensures k < nodes && k != self
  {
    ghost var rounds: nat := 1;
    assert Turn(nodes, start, 0) == start;
    k := (start + 1) % nodes;
    while k == self
      invariant rounds > 0 && k == Turn(nodes, start, rounds) && k < nodes
      invariant forall j: nat :: 0 < j < rounds ==> Turn(nodes, start, j) == self
      decreases if k == self then 1 else 0
    {
      InRange(k + 1, nodes);
      k := (k + 1) % nodes;
      rounds := rounds + 1;
    }
    assert Ends(nodes, self, start, rounds);
  }
}
