/** A family of inputs on which the greedy scan misses a pairing that exists. */
module PairingLimits {
  import opened Records
  import opened Pairing
  import opened PairingInvariant
  import opened PairingRing

  function Unpaired(host: string): Node {
    Node(host, Online, false, NONE, NONE, false, Unset, [])
  }

  /** Four unpaired nodes, the last two of them on one host. */
  ghost predicate TwoOnOneHost(created: seq<NodeId>, nodes: Table) {
    && Keyed(created, nodes.Keys) && |created| == 4
    && (forall id :: id in nodes ==> nodes[id] == Unpaired(nodes[id].host))
    && nodes[created[0]].host != nodes[created[1]].host
    && nodes[created[2]].host == nodes[created[3]].host
    && nodes[created[0]].host != nodes[created[2]].host && nodes[created[1]].host != nodes[created[2]].host
  }

  lemma FourFacts(created: seq<NodeId>, nodes: Table)
    requires TwoOnOneHost(created, nodes)
    ensures Stored(created, nodes.Keys) && nodes.Keys == {created[0], created[1], created[2], created[3]}
    ensures forall i, j :: 0 <= i < j < 4 ==> created[i] != created[j]
    ensures forall i :: 0 <= i < 4 ==> created[i] != NONE && nodes[created[i]] == Unpaired(nodes[created[i]].host)
  {
    forall id | id in nodes ensures id in {created[0], created[1], created[2], created[3]} {
      var k :| 0 <= k < 4 && created[k] == id;
    }
  }

  lemma {:induction false} FourthFindsNobody(created: seq<NodeId>, nodes: Table)
    requires TwoOnOneHost(created, nodes)
    ensures var t2 := Pair(Pair(nodes, created[0], created[1]), created[1], created[2]);
      Stored(created, t2.Keys) && PairFrom(created, t2, 2).1 == NoSecondary
  {
    FourFacts(created, nodes);
    var (a, b, c, d) := (created[0], created[1], created[2], created[3]);
    var t2 := Pair(Pair(nodes, a, b), b, c);
    var host := nodes[c].host;
    assert t2[a] == nodes[a].(secondary := b) && t2[b].primary == a && t2[c].primary == b && t2[d] == Unpaired(host);
    assert t2[c].secondary == NONE && t2[c].host == host && !t2[c].dedicated;
    hide Keyed, TwoOnOneHost, Pair, FirstFree, Eligible;
    FirstFreeMeans(created, t2, host, 3);
    EligibleFirst(created, t2, host, 0, 4);
    assert Chosen(created, t2, 2) == Some(a);
    assert PairStep(created, t2, 2) == (Pair(t2, c, a), None);
    FourthStuck(created, nodes, Pair(t2, c, a));
  }

  lemma {:induction false} FourthStuck(created: seq<NodeId>, nodes: Table, t3: Table)
    requires TwoOnOneHost(created, nodes)
    requires t3 == Pair(Pair(Pair(nodes, created[0], created[1]), created[1], created[2]), created[2], created[0])
    ensures Stored(created, t3.Keys) && PairFrom(created, t3, 3).1 == NoSecondary
  {
    FourFacts(created, nodes);
    var (a, b, c, d) := (created[0], created[1], created[2], created[3]);
    assert t3[a].primary == c && t3[b].primary == a && t3[d] == nodes[d];
    assert !t3[a].dedicated && !t3[b].dedicated && !t3[c].dedicated && t3[c].host == nodes[d].host;
    ChosenMeans(created, t3, 3);
    hide Keyed, TwoOnOneHost, Pair, Chosen;
    assert PairStep(created, t3, 3) == (t3, Some(NoSecondary));
  }

  lemma PairFromContinues(created: seq<NodeId>, nodes: Table, i: nat)
    requires i < |created| && Stored(created, nodes.Keys) && PairStep(created, nodes, i).1 == None
    ensures PairFrom(created, nodes, i) == PairFrom(created, PairStep(created, nodes, i).0, i + 1)
  {
  }

  lemma FirstTwoPaired(created: seq<NodeId>, nodes: Table)
    requires TwoOnOneHost(created, nodes)
    ensures var t1 := Pair(nodes, created[0], created[1]);
      Stored(created, nodes.Keys)
      && PairStep(created, nodes, 0) == (t1, None)
      && PairStep(created, t1, 1) == (Pair(t1, created[1], created[2]), None)
  {
    FourFacts(created, nodes);
    var (a, b, c) := (created[0], created[1], created[2]);
    var t1 := Pair(nodes, a, b);
    assert t1[b] == nodes[b].(primary := a) && t1[c] == nodes[c] && t1[a] == nodes[a].(secondary := b);
    assert Reachable(nodes[b], nodes[a].host) && Free(nodes[b]);
    assert Reachable(t1[c], t1[b].host) && Free(t1[c]);
    hide Keyed, TwoOnOneHost, Eligible, Pair;
  }

  lemma {:induction false} GreedyFails(created: seq<NodeId>, nodes: Table)
    requires TwoOnOneHost(created, nodes) && Stored(created, nodes.Keys)
    ensures PairFrom(created, nodes, 0).1 == NoSecondary
  {
    FirstTwoPaired(created, nodes);
    assert |created| == 4 && created[0] in nodes && created[1] in nodes;
    hide TwoOnOneHost, Stored, PairStep, Pair, PairFrom;
    FourthFindsNobody(created, nodes);
    PairFromContinues(created, nodes, 0);
    PairFromContinues(created, Pair(nodes, created[0], created[1]), 1);
  }

  /** t pairs all nodes of `nodes` completely, each pair on two hosts. */
  ghost predicate FullPairing(nodes: Table, t: Table) {
    && t.Keys == nodes.Keys && Inverse(t) && Apart(t)
    && forall id :: id in t ==> t[id].secondary != NONE && t[id].host == nodes[id].host
  }

  /** Serving each other along any involution that changes hosts pairs all nodes. */
  lemma PartnersPair(nodes: Table, partner: map<NodeId, NodeId>)
    requires NONE !in nodes && partner.Keys == nodes.Keys
    requires forall id :: id in nodes ==>
      partner[id] in nodes && partner[partner[id]] == id && nodes[partner[id]].host != nodes[id].host
    ensures FullPairing(nodes, map id | id in nodes :: nodes[id].(secondary := partner[id], primary := partner[id]))
  {
    var t: Table := map id | id in nodes :: nodes[id].(secondary := partner[id], primary := partner[id]);
    forall id | id in t ensures PointsRight(t, id) && ServesRight(t, id) {
      assert t[id].secondary == partner[id] && partner[partner[id]] == id;
    }
  }

  function Across(a: NodeId, b: NodeId, c: NodeId, d: NodeId, id: NodeId): NodeId {
    if id == a then c else if id == b then d else if id == c then a else b
  }

  lemma CrossPairing(created: seq<NodeId>, nodes: Table)
    requires TwoOnOneHost(created, nodes)
    ensures exists t: Table :: FullPairing(nodes, t)
  {
    hide Keyed, TwoOnOneHost, Stored, FullPairing, Across;
    NoneIsNoNode(created, nodes);
    var (a, b, c, d) := (created[0], created[1], created[2], created[3]);
    var partner := map id | id in nodes :: Across(a, b, c, d, id);
    forall id | id in nodes
      ensures partner[id] in nodes && partner[partner[id]] == id && nodes[partner[id]].host != nodes[id].host
    {
      AcrossWorks(created, nodes, id);
    }
    PartnersPair(nodes, partner);
  }

  lemma NoneIsNoNode(created: seq<NodeId>, nodes: Table)
    requires TwoOnOneHost(created, nodes)
    ensures NONE !in nodes && |created| == 4
  {
  }

  lemma AcrossWorks(created: seq<NodeId>, nodes: Table, id: NodeId)
    requires TwoOnOneHost(created, nodes) && id in nodes
    ensures var other := Across(created[0], created[1], created[2], created[3], id);
      other in nodes && Across(created[0], created[1], created[2], created[3], other) == id
      && nodes[other].host != nodes[id].host
  {
    FourFacts(created, nodes);
    assert nodes[created[1]].host != nodes[created[3]].host && nodes[created[0]].host != nodes[created[2]].host;
    hide Keyed, TwoOnOneHost, Stored;
  }

  /** With two nodes on one host the greedy scan always fails on this creation order, although a
      pairing of all four nodes on different hosts exists. */
  lemma {:induction false} GreedyMissesPairing(created: seq<NodeId>, nodes: Table)
    requires TwoOnOneHost(created, nodes) && Stored(created, nodes.Keys)
    ensures PairFrom(created, nodes, 0).1 == NoSecondary
    ensures exists t: Table :: FullPairing(nodes, t)
  {
    hide TwoOnOneHost, Stored, FullPairing, PairFrom;
    GreedyFails(created, nodes);
    CrossPairing(created, nodes);
  }
}
