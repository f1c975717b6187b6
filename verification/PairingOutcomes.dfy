/** What the pairing loop of an activation achieves, and that it changes nothing but pointers. */
module PairingOutcomes {
  import opened Records
  import opened Pairing

  /** The node at position k has a stored secondary, which points back at one of the first i nodes that has
      it as secondary. */
  ghost predicate PairedAt(created: seq<NodeId>, nodes: Table, k: nat, i: nat)
    requires k < |created| && i <= |created| && Stored(created, nodes.Keys)
  {
    var s := nodes[created[k]].secondary;
    s != NONE && s in nodes
    && exists j :: 0 <= j < i && nodes[s].primary == created[j] && !nodes[created[j]].dedicated && nodes[created[j]].secondary == s
  }

  ghost predicate PairedSoFar(created: seq<NodeId>, nodes: Table, i: nat)
    requires i <= |created| && Stored(created, nodes.Keys)
  {
    forall k :: 0 <= k < i && !nodes[created[k]].dedicated ==> PairedAt(created, nodes, k, i)
  }

  /** Pointers aside the two records are the same. */
  predicate PointersAside(a: Node, b: Node) {
    a.(secondary := b.secondary, primary := b.primary) == b
  }

  /** What a round makes of one record. */
  lemma StepAt(created: seq<NodeId>, nodes: Table, i: nat, n: NodeId)
    requires i < |created| && Stored(created, nodes.Keys) && n in nodes
    ensures var after := PairStep(created, nodes, i).0;
      && PointersAside(after[n], nodes[n])
      && (n != created[i] || nodes[n].secondary != NONE || nodes[n].dedicated ==> after[n].secondary == nodes[n].secondary)
  {
    hide Chosen;
  }

  /** A round that goes on has given its node a secondary that points back at it. */
  lemma StepGives(created: seq<NodeId>, nodes: Table, i: nat)
    requires i < |created| && Keyed(created, nodes.Keys) && Stored(created, nodes.Keys)
    requires PairStep(created, nodes, i).1.None? && !nodes[created[i]].dedicated
    ensures var after := PairStep(created, nodes, i).0; var s := after[created[i]].secondary;
      s in nodes && s != NONE && after[s].primary == created[i]
  {
    ChosenMeans(created, nodes, i);
    hide Chosen;
  }

  /** It leaves every other back pointer alone. */
  lemma StepElsewhere(created: seq<NodeId>, nodes: Table, i: nat, n: NodeId)
    requires i < |created| && Keyed(created, nodes.Keys) && Stored(created, nodes.Keys) && n in nodes
    ensures var after := PairStep(created, nodes, i).0;
      nodes[created[i]].dedicated || n != after[created[i]].secondary ==> after[n].primary == nodes[n].primary
  {
    ChosenMeans(created, nodes, i);
    hide Chosen;
  }

  lemma {:induction false} PairedStays(created: seq<NodeId>, nodes: Table, k: nat, i: nat)
    requires k < i < |created| && Keyed(created, nodes.Keys) && Stored(created, nodes.Keys)
    requires PairedAt(created, nodes, k, i)
    requires PairStep(created, nodes, i).1.None?
    ensures PairedAt(created, PairStep(created, nodes, i).0, k, i + 1)
  {
    hide PairStep, Keyed;
    var after := PairStep(created, nodes, i).0;
    var s := nodes[created[k]].secondary;
    var j :| 0 <= j < i && nodes[s].primary == created[j] && !nodes[created[j]].dedicated && nodes[created[j]].secondary == s;
    KeysDiffer(created, nodes.Keys, k, i);
    KeysDiffer(created, nodes.Keys, j, i);
    StepAt(created, nodes, i, created[k]);
    StepAt(created, nodes, i, created[j]);
    StepAt(created, nodes, i, created[i]);
    StepElsewhere(created, nodes, i, s);
    if !nodes[created[i]].dedicated {
      StepGives(created, nodes, i);
      if after[created[i]].secondary == s {
        assert after[s].primary == created[i];
      }
    }
    assert after[s].primary == created[j] || after[s].primary == created[i];
  }

  lemma {:induction false} PairStepPairs(created: seq<NodeId>, nodes: Table, i: nat)
    requires i < |created| && Keyed(created, nodes.Keys) && Stored(created, nodes.Keys)
    requires PairedSoFar(created, nodes, i)
    requires PairStep(created, nodes, i).1.None?
    ensures PairedSoFar(created, PairStep(created, nodes, i).0, i + 1)
  {
    hide PairStep, Keyed;
    var after := PairStep(created, nodes, i).0;
    forall k | 0 <= k < i + 1 && !after[created[k]].dedicated ensures PairedAt(created, after, k, i + 1) {
      StepAt(created, nodes, i, created[k]);
      if k < i {
        hide PairedAt;
        PairedStays(created, nodes, k, i);
      } else {
        StepGives(created, nodes, i);
        assert after[after[created[i]].secondary].primary == created[i];
      }
    }
  }

  lemma NoEarlySuccess(created: seq<NodeId>, nodes: Table, i: nat)
    requires i < |created| && Stored(created, nodes.Keys)
    ensures PairStep(created, nodes, i).1 != Some(Paired)
  {
    hide Chosen;
  }

  lemma {:induction false} PairFromPairs(created: seq<NodeId>, nodes: Table, i: nat)
    requires i <= |created| && Keyed(created, nodes.Keys) && Stored(created, nodes.Keys)
    requires PairedSoFar(created, nodes, i)
    ensures PairFrom(created, nodes, i).1.Paired? ==> PairedSoFar(created, PairFrom(created, nodes, i).0, |created|)
    decreases |created| - i
  {
    hide PairStep, Keyed, PairedSoFar;
    if i < |created| {
      NoEarlySuccess(created, nodes, i);
      if PairStep(created, nodes, i).1.None? {
        PairStepPairs(created, nodes, i);
        PairFromPairs(created, PairStep(created, nodes, i).0, i + 1);
      }
    }
  }

  lemma {:induction false} PairFromLeaves(created: seq<NodeId>, nodes: Table, i: nat, n: NodeId)
    requires i <= |created| && Stored(created, nodes.Keys) && n in nodes
    ensures var after := PairFrom(created, nodes, i).0;
      PointersAside(after[n], nodes[n])
      && (nodes[n].secondary != NONE || nodes[n].dedicated ==> after[n].secondary == nodes[n].secondary)
    decreases |created| - i
  {
    hide PairStep;
    if i < |created| {
      StepAt(created, nodes, i, n);
      if PairStep(created, nodes, i).1.None? {
        PairFromLeaves(created, PairStep(created, nodes, i).0, i + 1, n);
      }
    }
  }

  /** If the loop gets through, every node that is not dedicated has a stored secondary, the one it had if it
      had one, and that secondary points at a node that has it; whatever the pointers were before. However it
      ends, nothing but pointers has changed, and no secondary was taken from a node. */
  lemma {:induction false} PairingMeans(created: seq<NodeId>, nodes: Table)
    requires Keyed(created, nodes.Keys) && Stored(created, nodes.Keys)
    ensures var (after, r) := PairFrom(created, nodes, 0);
      && (forall n :: n in nodes ==> after[n].(secondary := nodes[n].secondary, primary := nodes[n].primary) == nodes[n])
      && (forall n :: n in nodes && nodes[n].secondary != NONE ==> after[n].secondary == nodes[n].secondary)
      && (r == Paired ==> forall n :: n in nodes && !nodes[n].dedicated ==>
            && after[n].secondary != NONE && after[n].secondary in nodes
            && var p := after[after[n].secondary].primary;
              p in nodes && !nodes[p].dedicated && after[p].secondary == after[n].secondary)
  {
    hide Keyed, PairFrom;
    assert PairedSoFar(created, nodes, 0);
    PairFromPairs(created, nodes, 0);
    var (after, r) := PairFrom(created, nodes, 0);
    forall n | n in nodes
      ensures after[n].(secondary := nodes[n].secondary, primary := nodes[n].primary) == nodes[n]
      ensures nodes[n].secondary != NONE ==> after[n].secondary == nodes[n].secondary
    {
      PairFromLeaves(created, nodes, 0, n);
    }
    if r == Paired {
      forall n | n in nodes && !nodes[n].dedicated
        ensures after[n].secondary != NONE && after[n].secondary in nodes
        ensures var p := after[after[n].secondary].primary; p in nodes && !nodes[p].dedicated && after[p].secondary == after[n].secondary
      {
        var k := Position(created, nodes.Keys, n);
        assert PairedAt(created, after, k, |created|);
      }
    }
  }

  lemma Position(created: seq<NodeId>, keys: set<NodeId>, n: NodeId) returns (k: nat)
    requires Keyed(created, keys) && n in keys
    ensures k < |created| && created[k] == n
  {
    k :| 0 <= k < |created| && created[k] == n;
  }

  /** Somebody who is not on this host may serve as secondary. */
  ghost predicate SomebodyServes(nodes: Table, host: string) {
    exists id :: id in nodes && nodes[id].status == Online && nodes[id].host != host
                 && (nodes[id].dedicated || nodes[id].primary == NONE)
  }

  /** A round ends the loop exactly if its node is not dedicated and either unpaired with nobody on another
      host to serve it, or paired with a node that has no record. */
  lemma {:induction false} PairingStops(created: seq<NodeId>, nodes: Table, i: nat)
    requires i < |created| && Keyed(created, nodes.Keys) && Stored(created, nodes.Keys)
    ensures var (n, ended) := (nodes[created[i]], PairStep(created, nodes, i).1);
      ended == if n.dedicated then None
               else if n.secondary != NONE then if n.secondary in nodes then None else Some(MissingRecord)
               else if |created| == 2 || SomebodyServes(nodes, n.host) then None
               else Some(NoSecondary)
  {
    ChosenMeans(created, nodes, i);
    hide Chosen;
  }
}
