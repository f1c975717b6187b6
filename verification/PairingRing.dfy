/** What the greedy scan builds of a new cluster: one ring over nodes on distinct hosts. */
module PairingRing {
  import opened Records
  import opened Pairing
  import opened PairingInvariant

  /** Nodes m.. of the creation order can be paired: online, not dedicated, on distinct hosts. */
  ghost predicate Pairable(created: seq<NodeId>, nodes: Table, m: nat)
    requires Stored(created, nodes.Keys)
  {
    && (forall j :: m <= j < |created| ==> nodes[created[j]].status.Online? && !nodes[created[j]].dedicated)
    && (forall j, k :: m <= j < k < |created| ==> nodes[created[j]].host != nodes[created[k]].host)
  }

  /** Nodes 0..m-1 are not dedicated and serve somebody already. */
  ghost predicate Taken(created: seq<NodeId>, nodes: Table, m: nat)
    requires Stored(created, nodes.Keys)
  {
    forall j :: 0 <= j < m && j < |created| ==> !nodes[created[j]].dedicated && nodes[created[j]].primary != NONE
  }

  /** The position after j in the ring of the nodes m.. */
  function After(m: nat, n: nat, j: nat): (r: nat)
    requires m <= j < n
    ensures m <= r < n && (m == 0 ==> r == (j + 1) % n)
  {
    if j + 1 == n then m else j + 1
  }

  /** Node j's two pointers when the ring over nodes m.. is built up to node i: nodes m..i-1 have
      their secondaries, and m waits for the last one to close the ring. */
  ghost predicate RingAt(created: seq<NodeId>, nodes: Table, m: nat, i: nat, j: nat)
    requires Stored(created, nodes.Keys) && m <= j < |created|
  {
    var n := |created|;
    && nodes[created[j]].secondary == (if j < i then created[After(m, n, j)] else NONE)
    && nodes[created[j]].primary ==
         (if j == m then if i == n then created[n - 1] else NONE
          else if j <= i then created[j - 1] else NONE)
  }

  ghost predicate Ring(created: seq<NodeId>, nodes: Table, m: nat, i: nat)
    requires Stored(created, nodes.Keys)
  {
    forall j :: m <= j < |created| ==> RingAt(created, nodes, m, i, j)
  }

  lemma {:induction false} EligibleFirst(created: seq<NodeId>, nodes: Table, host: string, m: nat, k: nat)
    requires Stored(created, nodes.Keys) && m < k <= |created| && Taken(created, nodes, m)
    requires Reachable(nodes[created[m]], host) && Free(nodes[created[m]])
    ensures Eligible(created, nodes, host, k) != [] && Eligible(created, nodes, host, k)[0] == created[m]
  {
    if k == m + 1 {
      NoneEligible(created, nodes, host, m, m);
    } else {
      EligibleFirst(created, nodes, host, m, k - 1);
    }
  }

  lemma {:induction false} NoneEligible(created: seq<NodeId>, nodes: Table, host: string, m: nat, k: nat)
    requires Stored(created, nodes.Keys) && k <= m <= |created| && Taken(created, nodes, m)
    ensures Eligible(created, nodes, host, k) == []
  {
    if k > 0 {
      NoneEligible(created, nodes, host, m, k - 1);
    }
  }

  lemma ChosenInRing(created: seq<NodeId>, nodes: Table, m: nat, i: nat)
    requires Keyed(created, nodes.Keys) && Pairable(created, nodes, m) && Taken(created, nodes, m)
    requires Ring(created, nodes, m, i) && m <= i < |created| && m + 2 <= |created|
    ensures Chosen(created, nodes, i) == Some(created[After(m, |created|, i)])
  {
    assert RingAt(created, nodes, m, i, After(m, |created|, i));
    if |created| != 2 && i + 1 == |created| {
      EligibleFirst(created, nodes, nodes[created[i]].host, m, |created|);
    }
  }

  lemma RingGrows(created: seq<NodeId>, nodes: Table, m: nat, i: nat)
    requires Keyed(created, nodes.Keys) && Stored(created, nodes.Keys)
    requires Ring(created, nodes, m, i) && m <= i < |created| && m + 2 <= |created|
    ensures Ring(created, Pair(nodes, created[i], created[After(m, |created|, i)]), m, i + 1)
  {
    hide Keyed, Ring, Pair, RingAt;
    var s := After(m, |created|, i);
    var built := i + 1;
    forall j | m <= j < |created| ensures RingAt(created, Pair(nodes, created[i], created[s]), m, built, j) {
      RingGrowsAt(created, nodes, m, i, j);
    }
    RingIs(created, Pair(nodes, created[i], created[s]), m, built);
  }

  lemma RingIs(created: seq<NodeId>, nodes: Table, m: nat, i: nat)
    requires Stored(created, nodes.Keys) && forall j :: m <= j < |created| ==> RingAt(created, nodes, m, i, j)
    ensures Ring(created, nodes, m, i)
  {
  }

  lemma RingGrowsAt(created: seq<NodeId>, nodes: Table, m: nat, i: nat, j: nat)
    requires Keyed(created, nodes.Keys) && Ring(created, nodes, m, i) && m <= i < |created| && m + 2 <= |created|
    requires Stored(created, nodes.Keys) && m <= j < |created|
    ensures RingAt(created, Pair(nodes, created[i], created[After(m, |created|, i)]), m, i + 1, j)
  {
    hide Keyed, Ring, Pair;
    var s := After(m, |created|, i);
    RingAtOf(created, nodes, m, i, j);
    if j != i { KeysDiffer(created, nodes.Keys, i, j); }
    if j != s { KeysDiffer(created, nodes.Keys, s, j); }
    PairFields(nodes, created[i], created[s], created[j]);
  }

  lemma RingAtOf(created: seq<NodeId>, nodes: Table, m: nat, i: nat, j: nat)
    requires Stored(created, nodes.Keys) && Ring(created, nodes, m, i) && m <= j < |created|
    ensures RingAt(created, nodes, m, i, j)
  {
  }

  /** Everything but the pointers of nodes m.. is as before. */
  ghost predicate OnlyPointers(created: seq<NodeId>, before: Table, after: Table, m: nat)
    requires Stored(created, before.Keys) && before.Keys == after.Keys
  {
    && (forall j :: 0 <= j < m && j < |created| ==> after[created[j]] == before[created[j]])
    && (forall j :: m <= j < |created| ==>
          SameFace(after[created[j]], before[created[j]]))
  }

  lemma {:induction false} PairLeaves(created: seq<NodeId>, before: Table, nodes: Table, m: nat, i: nat, s: nat)
    requires Keyed(created, nodes.Keys) && before.Keys == nodes.Keys && OnlyPointers(created, before, nodes, m)
    requires m <= i < |created| && m <= s < |created| && i != s
    ensures OnlyPointers(created, before, Pair(nodes, created[i], created[s]), m)
    ensures Pairable(created, nodes, m) ==> Pairable(created, Pair(nodes, created[i], created[s]), m)
    ensures Taken(created, nodes, m) ==> Taken(created, Pair(nodes, created[i], created[s]), m)
  {
    hide Pair;
    var after := Pair(nodes, created[i], created[s]);
    forall j | 0 <= j < |created|
      ensures j < m ==> after[created[j]] == nodes[created[j]]
      ensures SameFace(after[created[j]], nodes[created[j]])
    {
      if j < m {
        KeysDiffer(created, nodes.Keys, i, j);
        KeysDiffer(created, nodes.Keys, s, j);
      }
      PairSpares(nodes, created[i], created[s], created[j]);
    }
    TakenOn(created, nodes, after, m);
  }

  predicate SameFace(a: Node, b: Node) { a.host == b.host && a.status == b.status && a.dedicated == b.dedicated }

  lemma PairSpares(nodes: Table, p: NodeId, s: NodeId, id: NodeId)
    requires p in nodes && s in nodes && id in nodes
    ensures SameFace(Pair(nodes, p, s)[id], nodes[id]) && (id != p && id != s ==> Pair(nodes, p, s)[id] == nodes[id])
  {
  }

  lemma TakenOn(created: seq<NodeId>, nodes: Table, after: Table, m: nat)
    requires Stored(created, nodes.Keys) && Stored(created, after.Keys)
    requires forall j :: 0 <= j < m && j < |created| ==> after[created[j]] == nodes[created[j]]
    ensures Taken(created, nodes, m) ==> Taken(created, after, m)
  {
  }

  // ---------------------------------------------------------------- activation

  lemma {:induction false} PairingCloses(created: seq<NodeId>, before: Table, nodes: Table, i: nat)
    requires Keyed(created, nodes.Keys) && before.Keys == nodes.Keys && OnlyPointers(created, before, nodes, 0)
    requires Pairable(created, nodes, 0) && Ring(created, nodes, 0, i) && i <= |created| && 2 <= |created|
    ensures var r := PairFrom(created, nodes, i);
      r.1 == Paired && OnlyPointers(created, before, r.0, 0) && Ring(created, r.0, 0, |created|)
    decreases |created| - i
  {
    if i < |created| {
      var s := After(0, |created|, i);
      assert RingAt(created, nodes, 0, i, i);
      ChosenInRing(created, nodes, 0, i);
      RingGrows(created, nodes, 0, i);
      PairLeaves(created, before, nodes, 0, i, s);
      assert PairStep(created, nodes, i) == (Pair(nodes, created[i], created[s]), None);
      hide Chosen, PairStep, Ring, OnlyPointers, Pairable, Keyed, Pair;
      PairingCloses(created, before, Pair(nodes, created[i], created[s]), i + 1);
    }
  }

  /** Node j and the node after it in the ring over nodes m.. are a pair. */
  ghost predicate Linked(created: seq<NodeId>, nodes: Table, m: nat, j: nat)
    requires Stored(created, nodes.Keys) && m <= j < |created|
  {
    var next := created[After(m, |created|, j)];
    nodes[created[j]].secondary == next && nodes[next].primary == created[j]
  }

  lemma ClosedRingLinks(created: seq<NodeId>, nodes: Table, m: nat)
    requires Stored(created, nodes.Keys) && Ring(created, nodes, m, |created|) && m + 2 <= |created|
    ensures forall j :: m <= j < |created| ==> Linked(created, nodes, m, j)
  {
    forall j | m <= j < |created| ensures Linked(created, nodes, m, j) {
      assert RingAt(created, nodes, m, |created|, j);
      assert RingAt(created, nodes, m, |created|, After(m, |created|, j));
    }
  }

  /** All n >= 2 nodes online, on distinct hosts, none dedicated, none paired: the pairing loop
      succeeds and node j gets exactly node (j+1) mod n. */
  lemma {:induction false} FreshClusterFormsRing(created: seq<NodeId>, nodes: Table)
    requires Keyed(created, nodes.Keys) && 2 <= |created| && Pairable(created, nodes, 0)
    requires forall id :: id in nodes ==> nodes[id].secondary == NONE && nodes[id].primary == NONE
    ensures var r := PairFrom(created, nodes, 0);
      r.1 == Paired && forall j :: 0 <= j < |created| ==> Linked(created, r.0, 0, j)
  {
    var start := 0;
    forall j | 0 <= j < |created| ensures RingAt(created, nodes, start, start, j) {}
    PairingCloses(created, nodes, nodes, 0);
    hide Pairable, PairFrom;
    ClosedRingLinks(created, PairFrom(created, nodes, 0).0, 0);
  }
}
