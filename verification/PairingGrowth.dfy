/**
 What an expansion makes of new nodes in a complete cluster: a ring of their own if there are two or
 more, and why exactly one can never be taken.
 */
module PairingGrowth {
  import opened Records
  import opened Pairing
  import opened LvstoreRecords
  import opened ClusterOps
  import opened PairingInvariant
  import opened PairingRing

  /** An unpaired new node, ready to be given an lvstore. */
  predicate Fresh(n: Node) {
    n.status.Online? && !n.dedicated && n.secondary == NONE && n.primary == NONE && !n.lvstore
  }

  /** The first m nodes are a completely paired cluster without dedicated secondaries. */
  ghost predicate Complete(created: seq<NodeId>, nodes: Table, m: nat)
    requires Stored(created, nodes.Keys) && m <= |created|
  {
    forall j :: 0 <= j < m ==> !nodes[created[j]].dedicated && nodes[created[j]].secondary != NONE
  }

  /** An injection between finite sets of the same size reaches every element. */
  lemma {:induction false} InjectionIsOnto(s: set<NodeId>, t: set<NodeId>, f: map<NodeId, NodeId>, y: NodeId)
    returns (x: NodeId)
    requires s <= f.Keys && |s| == |t| && y in t
    requires forall a :: a in s ==> f[a] in t
    requires forall a, b :: a in s && b in s && f[a] == f[b] ==> a == b
    ensures x in s && f[x] == y
    decreases |s|
  {
    assert s != {};
    x :| x in s;
    if f[x] != y {
      x := InjectionIsOnto(s - {x}, t - {f[x]}, f, y);
    }
  }

  /** The secondary of one of the first m nodes is one of them: a new node serves nobody. */
  lemma SecondaryIsOld(created: seq<NodeId>, nodes: Table, m: nat, j: nat)
    requires Keyed(created, nodes.Keys) && Inverse(nodes) && j < m <= |created| && Complete(created, nodes, m)
    requires forall j :: m <= j < |created| ==> Fresh(nodes[created[j]])
    ensures exists k :: 0 <= k < m && nodes[created[j]].secondary == created[k] && !nodes[created[k]].dedicated
  {
    assert PointsRight(nodes, created[j]);
    var k :| 0 <= k < |created| && created[k] == nodes[created[j]].secondary;
    assert k < m;
  }

  /** Pigeonhole: in a complete cluster every node already serves somebody. */
  lemma CompleteIsTaken(created: seq<NodeId>, nodes: Table, m: nat)
    requires Keyed(created, nodes.Keys) && Inverse(nodes) && m <= |created| && Complete(created, nodes, m)
    requires forall j :: m <= j < |created| ==> Fresh(nodes[created[j]])
    ensures Taken(created, nodes, m)
  {
    var first := set j | 0 <= j < m :: created[j];
    forall j | 0 <= j < m ensures Mapped(nodes, first, created[j]) {
      SecondaryIsOld(created, nodes, m, j);
    }
    assert NONE !in nodes && first <= nodes.Keys;
    forall j | 0 <= j < m ensures !nodes[created[j]].dedicated && nodes[created[j]].primary != NONE {
      hide Keyed, Stored, Complete, Fresh;
      AllServe(nodes, first, created[j]);
    }
  }

  /** id's secondary is again one of `first`, and not dedicated. */
  ghost predicate Mapped(nodes: Table, first: set<NodeId>, id: NodeId)
    requires id in nodes
  {
    nodes[id].secondary in first && nodes[id].secondary in nodes && !nodes[nodes[id].secondary].dedicated
  }

  lemma AllServe(nodes: Table, first: set<NodeId>, y: NodeId)
    requires Inverse(nodes) && NONE !in nodes && first <= nodes.Keys && y in first
    requires forall id {:trigger Mapped(nodes, first, id)} :: id in first ==> Mapped(nodes, first, id)
    ensures nodes[y].primary != NONE
  {
    hide Inverse, Mapped;
    var f := map id | id in first :: nodes[id].secondary;
    forall id | id in first ensures f[id] in first {
      MappedMeans(nodes, first, id);
    }
    forall a, b | a in first && b in first && f[a] == f[b] ensures a == b {
      MappedDiffer(nodes, first, a, b);
    }
    var p := InjectionIsOnto(first, first, f, y);
    MappedServes(nodes, first, p);
  }

  lemma MappedMeans(nodes: Table, first: set<NodeId>, id: NodeId)
    requires id in nodes && Mapped(nodes, first, id)
    ensures nodes[id].secondary in first
  {
  }

  lemma MappedDiffer(nodes: Table, first: set<NodeId>, a: NodeId, b: NodeId)
    requires Inverse(nodes) && NONE !in nodes && a in nodes && b in nodes && nodes[a].secondary == nodes[b].secondary
    requires Mapped(nodes, first, a) && Mapped(nodes, first, b)
    ensures a == b
  {
    SecondariesDiffer(nodes, a, b);
  }

  lemma MappedServes(nodes: Table, first: set<NodeId>, p: NodeId)
    requires Inverse(nodes) && NONE !in nodes && p in nodes && Mapped(nodes, first, p)
    ensures nodes[nodes[p].secondary].primary == p
  {
    assert PointsRight(nodes, p);
  }

  /** Noting a new node's lvstore changes neither the ring nor what the first m nodes store. */
  lemma {:induction false} WriteLeaves(created: seq<NodeId>, before: Table, nodes: Table, m: nat, i: nat, built: nat, o: Options)
    requires Keyed(created, nodes.Keys) && before.Keys == nodes.Keys && m <= i < |created|
    requires OnlyPointers(created, before, nodes, m) && Pairable(created, nodes, m) && Taken(created, nodes, m)
    requires Stored(created, nodes.Keys) && Ring(created, nodes, m, built) && nodes[created[i]].secondary in created[m..]
    ensures var after := CreateAndNote(nodes, created[i], nodes[created[i]], o);
      after.Keys == nodes.Keys && OnlyPointers(created, before, after, m) && Pairable(created, after, m)
      && Taken(created, after, m) && Ring(created, after, m, built)
  {
    hide CreateAndNote, Keyed;
    var after := CreateAndNote(nodes, created[i], nodes[created[i]], o);
    CreationWritesCopy(nodes, created[i], nodes[created[i]], o);
    assert nodes[created[i] := nodes[created[i]]] == nodes;
    var s :| m <= s < |created| && created[s] == nodes[created[i]].secondary;
    forall j | 0 <= j < |created|
      ensures j < m ==> after[created[j]] == nodes[created[j]]
      ensures SamePair(after[created[j]], nodes[created[j]]) && after[created[j]].status == nodes[created[j]].status
    {
      if j < m {
        KeysDiffer(created, nodes.Keys, i, j);
        KeysDiffer(created, nodes.Keys, s, j);
        CreationTouches(nodes, created[i], nodes[created[i]], o, created[j]);
      }
    }
    forall j | m <= j < |created| ensures RingAt(created, after, m, built, j) {
      assert RingAt(created, nodes, m, built, j);
    }
  }

  /** The state of an expansion that has come to node i of the new nodes m.. */
  ghost predicate Growing(created: seq<NodeId>, snap: Table, nodes: Table, m: nat, i: nat) {
    && Keyed(created, nodes.Keys) && snap.Keys == nodes.Keys
    && OnlyPointers(created, snap, nodes, m) && Pairable(created, nodes, m) && Taken(created, nodes, m)
    && Ring(created, nodes, m, i)
  }

  lemma {:induction false} GrowsByPair(created: seq<NodeId>, snap: Table, nodes: Table, m: nat, i: nat)
    requires Growing(created, snap, nodes, m, i) && m <= i < |created| && m + 2 <= |created|
    ensures Growing(created, snap, Pair(nodes, created[i], created[After(m, |created|, i)]), m, i + 1)
  {
    var s := After(m, |created|, i);
    RingGrows(created, nodes, m, i);
    PairLeaves(created, snap, nodes, m, i, s);
    hide Ring, OnlyPointers, Pairable, Keyed, Taken;
  }

  /** One round of an expansion that meets a new node. */
  lemma {:induction false} ExpansionRound(created: seq<NodeId>, snap: Table, nodes: Table, m: nat, i: nat, o: Options)
    requires Growing(created, snap, nodes, m, i) && m <= i < |created| && m + 2 <= |created|
    requires Stored(created, nodes.Keys) && snap.Keys == nodes.Keys
    requires Fresh(snap[created[i]]) && o.ha && o.creation(created[i]).Completes?
    ensures ExpandStep(created, snap, nodes, i, o).1 == None
    ensures Growing(created, snap, ExpandStep(created, snap, nodes, i, o).0, m, i + 1)
  {
    hide Growing, Chosen, Pair, CreateAndNote, ExpandStep, Fresh;
    var s := created[After(m, |created|, i)];
    GrowingChooses(created, snap, nodes, m, i);
    GrowsByPair(created, snap, nodes, m, i);
    FreshStep(created, snap, nodes, i, s, o);
    PairGives(nodes, created[i], s);
    GrowingNotes(created, snap, Pair(nodes, created[i], s), m, i, i + 1, o);
  }

  lemma {:induction false} GrowingChooses(created: seq<NodeId>, snap: Table, nodes: Table, m: nat, i: nat)
    requires Growing(created, snap, nodes, m, i) && m <= i < |created| && m + 2 <= |created|
    ensures Stored(created, nodes.Keys)
    ensures var s := created[After(m, |created|, i)]; s != created[i] && s in created[m..] && Chosen(created, nodes, i) == Some(s)
  {
    ChosenInRing(created, nodes, m, i);
    hide Chosen, Ring, OnlyPointers, Pairable, Taken;
    assert created[m..][After(m, |created|, i) - m] == created[After(m, |created|, i)];
  }

  lemma {:induction false} GrowingNotes(created: seq<NodeId>, snap: Table, nodes: Table, m: nat, i: nat, built: nat, o: Options)
    requires Growing(created, snap, nodes, m, built) && m <= i < |created| && Stored(created, nodes.Keys)
    requires nodes[created[i]].secondary in created[m..]
    ensures Growing(created, snap, CreateAndNote(nodes, created[i], nodes[created[i]], o), m, built)
  {
    hide CreateAndNote, Keyed, OnlyPointers, Pairable, Taken, Ring;
    WriteLeaves(created, snap, nodes, m, i, built, o);
  }

  lemma FreshStep(created: seq<NodeId>, snap: Table, nodes: Table, i: nat, s: NodeId, o: Options)
    requires i < |created| && Stored(created, nodes.Keys) && nodes.Keys == snap.Keys && s in nodes && created[i] != s
    requires Fresh(snap[created[i]]) && o.ha && o.creation(created[i]).Completes? && Chosen(created, nodes, i) == Some(s)
    ensures var paired := Pair(nodes, created[i], s);
      ExpandStep(created, snap, nodes, i, o) == (CreateAndNote(paired, created[i], paired[created[i]], o), None)
  {
    hide Chosen, CreateAndNote;
  }

  lemma {:induction false} ExpansionCloses(created: seq<NodeId>, snap: Table, nodes: Table, m: nat, i: nat, o: Options)
    requires Growing(created, snap, nodes, m, i) && m <= i <= |created| && m + 2 <= |created|
    requires Stored(created, nodes.Keys) && snap.Keys == nodes.Keys
    requires forall j :: m <= j < |created| ==> Fresh(snap[created[j]])
    requires o.ha && forall id :: o.creation(id).Completes?
    ensures var r := LoopFrom(ExpandLoop, created, snap, nodes, i, o);
      r.1 == Succeeded && Growing(created, snap, r.0, m, |created|)
    decreases |created| - i
  {
    hide Growing, ExpandStep, Fresh;
    if i < |created| {
      ExpansionRound(created, snap, nodes, m, i, o);
      ExpansionCloses(created, snap, ExpandStep(created, snap, nodes, i, o).0, m, i + 1, o);
    }
  }

  /** Nodes that have an lvstore, or are not online, are passed over. */
  lemma {:induction false} ExpansionSkips(created: seq<NodeId>, snap: Table, m: nat, i: nat, o: Options)
    requires Stored(created, snap.Keys) && i <= m <= |created|
    requires forall j :: 0 <= j < m ==> snap[created[j]].lvstore || !snap[created[j]].status.Online?
    ensures LoopFrom(ExpandLoop, created, snap, snap, i, o) == LoopFrom(ExpandLoop, created, snap, snap, m, o)
    decreases m - i
  {
    if i < m {
      ExpansionSkips(created, snap, m, i + 1, o);
      assert ExpandStep(created, snap, snap, i, o) == (snap, None);
    }
  }

  lemma GrowthStarts(created: seq<NodeId>, nodes: Table, m: nat)
    requires Keyed(created, nodes.Keys) && Inverse(nodes) && m <= |created|
    requires Complete(created, nodes, m) && Pairable(created, nodes, m)
    requires forall j :: m <= j < |created| ==> Fresh(nodes[created[j]])
    ensures Growing(created, nodes, nodes, m, m)
  {
    CompleteIsTaken(created, nodes, m);
    hide Keyed, Inverse, Complete, Pairable, Taken;
    forall j | m <= j < |created| ensures RingAt(created, nodes, m, m, j) {
      assert Fresh(nodes[created[j]]);
    }
  }

  lemma GrowthEnds(created: seq<NodeId>, snap: Table, nodes: Table, m: nat)
    requires Growing(created, snap, nodes, m, |created|) && m + 2 <= |created|
    ensures forall j :: 0 <= j < m ==> nodes[created[j]] == snap[created[j]]
    ensures forall j :: m <= j < |created| ==> Linked(created, nodes, m, j)
  {
    assert Stored(created, nodes.Keys);
    hide Pairable, Keyed, Taken, Ring;
    ClosedRingLinks(created, nodes, m);
  }

  /** Two or more new nodes on distinct hosts, added to a complete cluster whose lvstores exist,
      are paired in a ring of their own; no record of the old nodes changes. */
  lemma {:induction false} ExpansionFormsRing(w: World, m: nat, o: Options)
    requires Invariant(w) && Expandable(w.status) && m + 2 <= |w.created|
    requires Complete(w.created, w.nodes, m) && Pairable(w.created, w.nodes, m)
    requires forall j :: 0 <= j < m ==> w.nodes[w.created[j]].lvstore
    requires forall j :: m <= j < |w.created| ==> Fresh(w.nodes[w.created[j]])
    requires o.ha && forall id :: o.creation(id).Completes?
    ensures var (after, outcome) := Expansion(w, o);
      && outcome == Succeeded && after.status == Active
      && (forall j :: 0 <= j < m ==> after.nodes[w.created[j]] == w.nodes[w.created[j]])
      && (forall j :: m <= j < |w.created| ==> Linked(w.created, after.nodes, m, j))
  {
    assert Stored(w.created, w.nodes.Keys);
    GrowthStarts(w.created, w.nodes, m);
    hide Pairable, Keyed, Complete, Inverse, Fresh, Growing, Stored;
    ExpansionSkips(w.created, w.nodes, m, 0, o);
    hide LoopFrom;
    ExpansionCloses(w.created, w.nodes, w.nodes, m, m, o);
    GrowthEnds(w.created, w.nodes, LoopFrom(ExpandLoop, w.created, w.nodes, w.nodes, m, o).0, m);
  }

  // ---------------------------------------------------------------- one new node

  lemma TakenStays(created: seq<NodeId>, a: Table, b: Table, m: nat)
    requires Stored(created, a.Keys) && SamePairs(a, b) && Taken(created, a, m)
    ensures Taken(created, b, m)
  {
  }

  /** Every secondary named in the records is stored. */
  ghost predicate Resolved(nodes: Table) {
    forall id :: id in nodes && nodes[id].secondary != NONE ==> nodes[id].secondary in nodes
  }

  /** A round for an old node writes a copy with current pointers, or nothing. */
  lemma {:induction false} OldRound(created: seq<NodeId>, snap: Table, nodes: Table, i: nat, o: Options)
    requires i < |created| && Stored(created, nodes.Keys) && SamePairs(snap, nodes) && Resolved(snap)
    requires nodes[created[i]].secondary != NONE && !ResultOf(o.creation(created[i])).Raised?
    ensures var step := ExpandStep(created, snap, nodes, i, o);
      SamePairs(snap, step.0) && (step.1.None? || step.1 == Some(FailedRestored))
  {
    hide CreateAndNote, CreateResult, Chosen, Pair, SamePairs, Resolved, ResultOf, Writes;
    var id := created[i];
    CopyIsCurrent(snap, nodes, id);
    OldResult(snap, nodes, id, o);
    CreationWritesCopy(nodes, id, snap[id], o);
    SamePairsTrans(snap, if Writes(id, o) then nodes[id := snap[id]] else nodes, CreateAndNote(nodes, id, snap[id], o));
  }

  lemma CopyIsCurrent(snap: Table, nodes: Table, id: NodeId)
    requires SamePairs(snap, nodes) && id in nodes
    ensures id in snap && snap[id].secondary == nodes[id].secondary && SamePairs(snap, nodes[id := snap[id]])
  {
  }

  lemma OldResult(snap: Table, nodes: Table, id: NodeId, o: Options)
    requires SamePairs(snap, nodes) && Resolved(snap) && id in nodes && !ResultOf(o.creation(id)).Raised?
    ensures !CreateResult(nodes, id, snap[id], o).Raised?
  {
  }

  /** A round for a new node, everybody else being taken. */
  lemma {:induction false} LastRound(created: seq<NodeId>, snap: Table, nodes: Table, o: Options)
    requires Keyed(created, nodes.Keys) && SamePairs(snap, nodes) && 3 <= |created| && o.ha
    requires Stored(created, nodes.Keys) && Stored(created, snap.Keys)
    requires Taken(created, nodes, |created| - 1) && Fresh(snap[created[|created| - 1]])
    ensures ExpandStep(created, snap, nodes, |created| - 1, o) == (nodes, Some(FailedRestored))
  {
    hide Chosen, CreateAndNote, Pair, Taken, Keyed, CreateResult;
    NobodyToChoose(created, nodes);
  }

  lemma NobodyToChoose(created: seq<NodeId>, nodes: Table)
    requires Keyed(created, nodes.Keys) && 3 <= |created| && Stored(created, nodes.Keys) && Taken(created, nodes, |created| - 1)
    ensures Chosen(created, nodes, |created| - 1) == None
  {
    hide Chosen;
    ChosenMeans(created, nodes, |created| - 1);
  }

  /** The old part of the loop changes no pair; the new node then finds nobody. */
  lemma {:induction false} OneNewNodeFails(created: seq<NodeId>, snap: Table, nodes: Table, i: nat, o: Options)
    requires Keyed(created, nodes.Keys) && SamePairs(snap, nodes) && 3 <= |created| && i < |created|
    requires Stored(created, nodes.Keys) && Stored(created, snap.Keys) && snap.Keys == nodes.Keys && Resolved(snap)
    requires Complete(created, snap, |created| - 1) && Taken(created, snap, |created| - 1)
    requires Fresh(snap[created[|created| - 1]])
    requires o.ha && forall id :: !ResultOf(o.creation(id)).Raised?
    ensures var r := LoopFrom(ExpandLoop, created, snap, nodes, i, o);
      r.1 == FailedRestored && SamePairs(snap, r.0)
    decreases |created| - i
  {
    hide ExpandStep, SamePairs, Complete, Taken, Fresh, Keyed, Resolved, ResultOf;
    var last := |created| - 1;
    TakenStays(created, snap, nodes, last);
    if i == last {
      LastRound(created, snap, nodes, o);
    } else {
      var step := ExpandStep(created, snap, nodes, i, o);
      CompleteAt(created, snap, nodes, last, i);
      OldRound(created, snap, nodes, i, o);
      if step.1.None? {
        OneNewNodeFails(created, snap, step.0, i + 1, o);
      }
    }
  }

  lemma CompleteAt(created: seq<NodeId>, snap: Table, nodes: Table, m: nat, i: nat)
    requires Stored(created, snap.Keys) && i < m <= |created| && Complete(created, snap, m) && SamePairs(snap, nodes)
    ensures created[i] in nodes && nodes[created[i]].secondary != NONE
  {
  }

  lemma InverseIsResolved(nodes: Table)
    requires Inverse(nodes)
    ensures Resolved(nodes)
  {
    forall id | id in nodes && nodes[id].secondary != NONE ensures nodes[id].secondary in nodes {
      assert PointsRight(nodes, id);
    }
  }

  /** A complete cluster of at least two nodes cannot take exactly one new node: the expansion
      fails, the old status returns, and no pair changes. */
  lemma {:induction false} CompleteClusterRefusesOne(w: World, o: Options)
    requires Invariant(w) && Expandable(w.status) && 3 <= |w.created|
    requires Complete(w.created, w.nodes, |w.created| - 1) && Fresh(w.nodes[w.created[|w.created| - 1]])
    requires o.ha && forall id :: !ResultOf(o.creation(id)).Raised?
    ensures var (after, outcome) := Expansion(w, o);
      outcome == FailedRestored && after.status == w.status && SamePairs(w.nodes, after.nodes)
  {
    CompleteIsTaken(w.created, w.nodes, |w.created| - 1);
    SamePairsItself(w.nodes);
    InverseIsResolved(w.nodes);
    hide LoopFrom, SamePairs, Complete, Taken, Fresh, Resolved, Inverse;
    OneNewNodeFails(w.created, w.nodes, w.nodes, 0, o);
  }
}
