/**
 What an activation keeps: the two pointers of a pair stay inverse to each other, under whole-record
 overwrites from copies that may be stale, of the node's own record and of its partner's.
 */
module PairingInvariant {
  import opened Records
  import opened Pairing
  import opened LvstoreRecords
  import opened ClusterOps

  /** p's secondary exists, is not p, and, unless it is dedicated, points back at p. */
  ghost predicate PointsRight(nodes: Table, p: NodeId)
    requires p in nodes
  {
    var s := nodes[p].secondary;
    s != NONE ==> s in nodes && s != p && (!nodes[s].dedicated ==> nodes[s].primary == p)
  }

  /** The node that a non-dedicated n serves exists and has n as its secondary. */
  ghost predicate ServesRight(nodes: Table, n: NodeId)
    requires n in nodes
  {
    var p := nodes[n].primary;
    !nodes[n].dedicated && p != NONE ==> p in nodes && nodes[p].secondary == n
  }

  ghost predicate Inverse(nodes: Table) {
    forall id {:trigger PointsRight(nodes, id)} {:trigger ServesRight(nodes, id)} ::
      id in nodes ==> PointsRight(nodes, id) && ServesRight(nodes, id)
  }

  /** The two nodes of every pair are on different hosts. */
  ghost predicate Apart(nodes: Table) {
    forall p :: p in nodes && nodes[p].secondary in nodes ==> nodes[p].host != nodes[nodes[p].secondary].host
  }

  /** Both invariants are about hosts, kinds and pointers alone. */
  lemma PairsDecide(a: Table, b: Table)
    requires SamePairs(a, b)
    ensures Inverse(a) ==> Inverse(b)
    ensures Apart(a) ==> Apart(b)
  {
    if Inverse(a) {
      forall id | id in b ensures PointsRight(b, id) && ServesRight(b, id) {
        assert PointsRight(a, id) && ServesRight(a, id);
      }
    }
  }

  // ---------------------------------------------------------------- what inverse pointers give

  /** secondary_node_id is injective on primaries with a non-dedicated secondary. */
  lemma SecondariesDiffer(nodes: Table, p: NodeId, q: NodeId)
    requires Inverse(nodes) && p in nodes && q in nodes && nodes[p].secondary == nodes[q].secondary != NONE
    requires nodes[p].secondary in nodes && !nodes[nodes[p].secondary].dedicated
    ensures p == q
  {
    assert PointsRight(nodes, p) && PointsRight(nodes, q);
  }

  /** The scan by secondary id finds the node the back pointer names if that node has an lvstore,
      and nothing else. */
  lemma {:induction false} ScanAgrees(created: seq<NodeId>, nodes: Table, s: NodeId, k: nat)
    requires Keyed(created, nodes.Keys) && Stored(created, nodes.Keys)
    requires Inverse(nodes) && s in nodes && !nodes[s].dedicated && k <= |created|
    ensures PrimaryScan(created, nodes, s, k) ==
      if nodes[s].primary in created[..k] && nodes[nodes[s].primary].lvstore then [nodes[s].primary] else []
  {
    hide Inverse, Keyed;
    if k > 0 {
      ScanAgrees(created, nodes, s, k - 1);
      ScanRound(created, nodes, s, k);
    }
  }

  /** Among the first k nodes the last one is found just when the back pointer names it. */
  lemma ScanRound(created: seq<NodeId>, nodes: Table, s: NodeId, k: nat)
    requires Keyed(created, nodes.Keys) && Inverse(nodes) && s in nodes && !nodes[s].dedicated && 0 < k <= |created|
    ensures nodes[created[k - 1]].secondary == s <==> nodes[s].primary == created[k - 1]
    ensures created[..k] == created[..k - 1] + [created[k - 1]] && created[k - 1] !in created[..k - 1]
    ensures created[k - 1] != NONE && Stored(created, nodes.Keys)
  {
    assert ServesRight(nodes, s);
    assert PointsRight(nodes, created[k - 1]);
  }

  // ---------------------------------------------------------------- steps

  /** Whoever the scan chooses for an unpaired node serves nobody yet, or is dedicated: also in the
      two-node case, where the scan does not look. */
  lemma ChosenIsIdle(created: seq<NodeId>, nodes: Table, p: nat)
    requires Keyed(created, nodes.Keys) && Inverse(nodes) && p < |created| && nodes[created[p]].secondary == NONE
    requires Chosen(created, nodes, p).Some?
    ensures var s := Chosen(created, nodes, p).value;
      s in nodes && s != created[p] && (nodes[s].dedicated || nodes[s].primary == NONE)
  {
    ChosenMeans(created, nodes, p);
    var s := Chosen(created, nodes, p).value;
    assert ServesRight(nodes, s);
  }

  lemma PairKeepsInverse(nodes: Table, p: NodeId, s: NodeId)
    requires Inverse(nodes) && p in nodes && s in nodes && p != s && NONE !in nodes
    requires nodes[p].secondary == NONE && (nodes[s].dedicated || nodes[s].primary == NONE)
    ensures Inverse(Pair(nodes, p, s))
    ensures Apart(nodes) && nodes[p].host != nodes[s].host ==> Apart(Pair(nodes, p, s))
  {
    var after := Pair(nodes, p, s);
    forall id | id in after ensures PointsRight(after, id) && ServesRight(after, id) {
      assert PointsRight(nodes, id) && ServesRight(nodes, id);
    }
  }

  lemma {:induction false} PairStepKeeps(created: seq<NodeId>, nodes: Table, i: nat)
    requires Keyed(created, nodes.Keys) && Inverse(nodes) && i < |created|
    ensures Inverse(PairStep(created, nodes, i).0)
    ensures PairStep(created, nodes, i).1 != Some(MissingRecord)
    ensures |created| != 2 && Apart(nodes) ==> Apart(PairStep(created, nodes, i).0)
  {
    var id := created[i];
    assert PointsRight(nodes, id);
    if nodes[id].dedicated {
    } else if nodes[id].secondary != NONE {
      var s := nodes[id].secondary;
      var after := nodes[s := nodes[s].(primary := id)];
      forall n | n in after ensures PointsRight(after, n) && ServesRight(after, n) {
        assert PointsRight(nodes, n) && ServesRight(nodes, n);
      }
    } else if Chosen(created, nodes, i).Some? {
      ChosenMeans(created, nodes, i);
      ChosenIsIdle(created, nodes, i);
      PairKeepsInverse(nodes, id, Chosen(created, nodes, i).value);
    }
  }

  lemma {:induction false} PairFromKeeps(created: seq<NodeId>, nodes: Table, i: nat)
    requires Keyed(created, nodes.Keys) && Inverse(nodes) && i <= |created|
    ensures Inverse(PairFrom(created, nodes, i).0)
    ensures PairFrom(created, nodes, i).1 != MissingRecord
    ensures |created| != 2 && Apart(nodes) ==> Apart(PairFrom(created, nodes, i).0)
    decreases |created| - i
  {
    assert Stored(created, nodes.Keys);
    hide PairStep, Inverse, Apart, Keyed;
    if i < |created| {
      PairStepKeeps(created, nodes, i);
      if PairStep(created, nodes, i).1.None? {
        PairFromKeeps(created, PairStep(created, nodes, i).0, i + 1);
      }
    }
  }

  lemma NotingKeepsPairs(a: Table, b: Table, id: NodeId, r: LvstoreResult)
    requires id in b && SamePairs(a, b)
    ensures SamePairs(a, Noted(b, id, r))
  {
  }

  lemma {:induction false} BuildStepKeepsPairs(created: seq<NodeId>, snap: Table, nodes: Table, id: NodeId, o: Options)
    requires id in nodes && Stored(created, nodes.Keys) && SamePairs(snap, nodes)
    ensures SamePairs(snap, BuildStep(created, snap, nodes, id, o).0)
  {
    hide Recreated, CreateAndNote, CreateResult, Noted, SamePairs, SamePair, Writes;
    PairAt(snap, nodes, id);
    if snap[id].lvstore && !o.forceLvstoreCreate {
      var (t, r) := Recreated(created, nodes, id, snap[id], o);
      RecreationKeepsPairs(created, nodes, id, snap[id], o);
      SamePairsTrans(snap, nodes, t);
      NotingKeepsPairs(snap, t, id, r);
    } else {
      CreationWritesCopy(nodes, id, snap[id], o);
      WriteKeepsPairs(snap, nodes, id, snap[id]);
      SamePairItself(snap[id]);
      BothKeepPairs(snap, nodes, nodes[id := snap[id]], CreateAndNote(nodes, id, snap[id], o), Writes(id, o));
    }
  }

  lemma SamePairItself(n: Node)
    ensures SamePair(n, n)
  {
  }

  lemma BothKeepPairs(snap: Table, a: Table, b: Table, after: Table, second: bool)
    requires SamePairs(snap, a) && SamePairs(snap, b) && SamePairs(if second then b else a, after)
    ensures SamePairs(snap, after)
  {
  }

  lemma PairAt(a: Table, b: Table, id: NodeId)
    requires SamePairs(a, b) && id in b
    ensures id in a && SamePair(a[id], b[id])
  {
  }

  lemma {:induction false} SecondaryStepKeepsPairs(created: seq<NodeId>, snap: Table, nodes: Table, id: NodeId, o: Options)
    requires id in nodes && Stored(created, nodes.Keys) && SamePairs(snap, nodes)
    ensures SamePairs(snap, SecondaryStep(created, snap, nodes, id, o).0)
  {
    hide Rebuilt, Noted;
    var (t, ok) := Rebuilt(created, nodes, id, o);
    RebuiltKeepsPairs(created, nodes, id, o);
    SamePairsTrans(snap, nodes, t);
    NotingKeepsPairs(snap, t, id, if ok then Built else NotBuilt);
  }

  /** The lvstore loops of an activation overwrite whole records from stale copies, and still
      change no pointer. */
  lemma {:induction false} BuildingKeepsPairs(loop: Loop, created: seq<NodeId>, snap: Table, nodes: Table, i: nat, o: Options)
    requires !loop.ExpandLoop? && i <= |created| && Stored(created, nodes.Keys) && SamePairs(snap, nodes)
    ensures SamePairs(snap, LoopFrom(loop, created, snap, nodes, i, o).0)
    decreases |created| - i
  {
    hide BuildStep, SecondaryStep;
    if i < |created| {
      BuildStepKeepsPairs(created, snap, nodes, created[i], o);
      SecondaryStepKeepsPairs(created, snap, nodes, created[i], o);
      var step := LoopStep(loop, created, snap, nodes, i, o);
      if step.1.None? {
        BuildingKeepsPairs(loop, created, snap, step.0, i + 1, o);
      }
    }
  }

  ghost predicate Invariant(w: World) { w.Valid() && Inverse(w.nodes) }

  lemma {:induction false} BothLoopsKeepPairs(created: seq<NodeId>, nodes: Table, o: Options)
    requires Stored(created, nodes.Keys)
    ensures SamePairs(nodes, Building(created, nodes, o).0)
  {
    hide LoopFrom;
    var built := LoopFrom(BuildLoop, created, nodes, nodes, 0, o);
    BuildingKeepsPairs(BuildLoop, created, nodes, nodes, 0, o);
    BuildingKeepsPairs(SecondaryLoop, created, built.0, built.0, 0, o);
  }

  /** The records as the pairing loop of an activation leaves them. */
  function PairedBy(w: World, o: Options): (r: Table)
    requires Stored(w.created, w.nodes.Keys)
    ensures r.Keys == w.nodes.Keys
  {
    if o.ha then PairFrom(w.created, w.nodes, 0).0 else w.nodes
  }

  lemma ActivationStages(w: World, o: Options)
    requires Stored(w.created, w.nodes.Keys)
    ensures var after := Activation(w, o).0.nodes;
      after == w.nodes || after == PairedBy(w, o) || after == Building(w.created, PairedBy(w, o), o).0
  {
    hide PairFrom, Building, Stored;
  }

  lemma {:induction false} ActivationKeeps(w: World, o: Options)
    requires Invariant(w)
    ensures Invariant(Activation(w, o).0)
    ensures |w.created| != 2 && Apart(w.nodes) ==> Apart(Activation(w, o).0.nodes)
  {
    assert Stored(w.created, w.nodes.Keys);
    PairFromKeeps(w.created, w.nodes, 0);
    hide PairFrom, Building, Inverse, Apart, Keyed, SamePairs, Stored, Activation;
    BothLoopsKeepPairs(w.created, PairedBy(w, o), o);
    PairsDecide(PairedBy(w, o), Building(w.created, PairedBy(w, o), o).0);
    ActivationStages(w, o);
  }
}
