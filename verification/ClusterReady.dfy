/**
 What a successful activation or expansion leaves: lvstores on all nodes that take part, noted as ready, and
 the one way in which a failure stays hidden.
 */
module ClusterReady {
  import opened Records
  import opened Pairing
  import opened LvstoreRecords
  import opened LvstoreOutcomes
  import opened ClusterOps
  import opened PairingInvariant
  import PairingOutcomes
  import opened ClusterEnds

  // ---------------------------------------------------------------- activation

  /** No rebuilding on a secondary stops on the way. */
  ghost predicate RebuildsComplete(created: seq<NodeId>, o: Options) {
    forall s :: |created| <= o.rebuilt(s)
  }

  /** What a round that goes on notes of its own lvstore. */
  lemma {:induction false} RoundNotes(created: seq<NodeId>, snap: Table, nodes: Table, k: nat, o: Options)
    requires k < |created| && Stored(created, nodes.Keys) && Stored(created, snap.Keys)
    requires Tracks(created, snap, nodes, k) && NotItself(snap)
    requires nodes.Keys == snap.Keys && BuildStep(created, snap, nodes, created[k], o).1.None?
    requires Leads(snap[created[k]])
    ensures BuildStep(created, snap, nodes, created[k], o).0[created[k]].lvstoreStatus
      == if BuildsWell(snap, created[k], o) then Ready else NotReady
  {
    hide Recreated, CreateAndNote, CreateResult, Noted;
    var (id, copy) := (created[k], snap[created[k]]);
    if copy.secondary in snap { assert TracksOne(snap[copy.secondary], nodes[copy.secondary], copy.secondary in created[..k]); }
    if copy.lvstore && !o.forceLvstoreCreate {
      RecreatedRecords(created, nodes, id, copy, o);
      var (t, r) := Recreated(created, nodes, id, copy, o);
      NotedRecords(t, id, r);
    } else {
      CreatedResult(nodes, id, copy, o);
      CreationNames(nodes, id, copy, o);
    }
  }

  /** And of the others: what was ready stays so. */
  lemma {:induction false} RoundKeepsReady(created: seq<NodeId>, snap: Table, nodes: Table, k: nat, o: Options,
                                           n: NodeId)
    requires k < |created| && Keyed(created, nodes.Keys) && Stored(created, nodes.Keys)
    requires nodes.Keys == snap.Keys && NotItself(snap)
    requires BuildStep(created, snap, nodes, created[k], o).1.None? && RebuildsComplete(created, o)
    requires n in nodes && n != created[k] && nodes[n].lvstoreStatus == Ready
    ensures BuildStep(created, snap, nodes, created[k], o).0[n].lvstoreStatus == Ready
  {
    hide Recreated, CreateAndNote, CreateResult, Noted, Keyed;
    var (id, copy) := (created[k], snap[created[k]]);
    if Leads(copy) {
      if copy.lvstore && !o.forceLvstoreCreate {
        var (t, r) := Recreated(created, nodes, id, copy, o);
        NotedRecords(t, id, r);
        RecreationKeepsReady(created, nodes, id, copy, o, n);
      } else {
        CreationKeepsReady(nodes, id, copy, o, n);
      }
    }
  }

  lemma CreationKeepsReady(nodes: Table, id: NodeId, copy: Node, o: Options, n: NodeId)
    requires id in nodes && n in nodes && n != id && copy.secondary != id
    ensures CreateAndNote(nodes, id, copy, o)[n].lvstoreStatus == nodes[n].lvstoreStatus
  {
    CreatedRecords(nodes, id, copy, o);
    hide CreateAndNote;
  }

  /** The lvstores that were built by the first k rounds are noted as ready. */
  ghost predicate ReadySoFar(created: seq<NodeId>, snap: Table, nodes: Table, k: nat, o: Options)
    requires k <= |created| && Stored(created, nodes.Keys) && Stored(created, snap.Keys)
  {
    forall i :: 0 <= i < k && Leads(snap[created[i]]) && BuildsWell(snap, created[i], o) ==> nodes[created[i]].lvstoreStatus == Ready
  }

  lemma {:induction false} ReadyOn(created: seq<NodeId>, snap: Table, nodes: Table, k: nat, o: Options)
    requires k < |created| && Keyed(created, nodes.Keys) && Stored(created, nodes.Keys) && Stored(created, snap.Keys)
    requires nodes.Keys == snap.Keys && Tracks(created, snap, nodes, k) && NotItself(snap)
    requires RebuildsComplete(created, o)
    requires BuildStep(created, snap, nodes, created[k], o).1.None? && ReadySoFar(created, snap, nodes, k, o)
    ensures ReadySoFar(created, snap, BuildStep(created, snap, nodes, created[k], o).0, k + 1, o)
  {
    hide BuildStep, Keyed, Tracks, NotItself, RebuildsComplete, BuildsWell;
    var after := BuildStep(created, snap, nodes, created[k], o).0;
    forall i | 0 <= i < k + 1 && Leads(snap[created[i]]) && BuildsWell(snap, created[i], o)
      ensures after[created[i]].lvstoreStatus == Ready
    {
      if i < k {
        KeysDiffer(created, nodes.Keys, i, k);
        RoundKeepsReady(created, snap, nodes, k, o, created[i]);
      } else {
        RoundNotes(created, snap, nodes, k, o);
      }
    }
  }

  lemma {:induction false} FirstLoopReady(created: seq<NodeId>, snap: Table, nodes: Table, k: nat, o: Options)
    requires k <= |created| && Keyed(created, nodes.Keys) && Stored(created, nodes.Keys) && Stored(created, snap.Keys)
    requires nodes.Keys == snap.Keys && Tracks(created, snap, nodes, k) && NotItself(snap)
    requires RebuildsComplete(created, o)
    requires ReadySoFar(created, snap, nodes, k, o)
    ensures var (after, r) := LoopFrom(BuildLoop, created, snap, nodes, k, o);
      r.Succeeded? ==> ReadySoFar(created, snap, after, |created|, o)
    decreases |created| - k
  {
    hide BuildStep, Keyed, Tracks, NotItself, RebuildsComplete, ReadySoFar;
    if k < |created| {
      RoundIsTold(created, snap, nodes, k, o);
      var step := BuildStep(created, snap, nodes, created[k], o);
      if step.1.None? {
        ReadyOn(created, snap, nodes, k, o);
        TracksOn(created, snap, nodes, k, o);
        FirstLoopReady(created, snap, step.0, k + 1, o);
      }
    }
  }

  lemma {:induction false} SecondLoopReady(created: seq<NodeId>, snap: Table, nodes: Table, k: nat, o: Options,
                                           n: NodeId)
    requires k <= |created| && Keyed(created, nodes.Keys) && Stored(created, nodes.Keys) && nodes.Keys == snap.Keys
    requires RebuildsComplete(created, o) && n in nodes && !snap[n].dedicated && nodes[n].lvstoreStatus == Ready
    ensures LoopFrom(SecondaryLoop, created, snap, nodes, k, o).0[n].lvstoreStatus == Ready
    decreases |created| - k
  {
    hide Keyed, SecondaryStep, RebuildsComplete;
    if k < |created| {
      SecondStepReady(created, snap, nodes, created[k], o, n);
      var step := SecondaryStep(created, snap, nodes, created[k], o);
      if step.1.None? { SecondLoopReady(created, snap, step.0, k + 1, o, n); }
    }
  }

  lemma {:induction false} SecondStepReady(created: seq<NodeId>, snap: Table, nodes: Table, id: NodeId,
                                           o: Options, n: NodeId)
    requires Keyed(created, nodes.Keys) && Stored(created, nodes.Keys) && nodes.Keys == snap.Keys && id in nodes
    requires RebuildsComplete(created, o) && n in nodes && !snap[n].dedicated && nodes[n].lvstoreStatus == Ready
    ensures SecondaryStep(created, snap, nodes, id, o).0[n].lvstoreStatus == Ready
  {
    hide Keyed, Rebuilt;
    RebuildKeepsReady(created, nodes, id, o, n);
  }

  lemma {:induction false} BuiltAreReady(created: seq<NodeId>, paired: Table, o: Options, id: NodeId)
    requires Keyed(created, paired.Keys) && Stored(created, paired.Keys) && NotItself(paired)
    requires Building(created, paired, o).1.Succeeded? && id in paired && Leads(paired[id])
    ensures var after := Building(created, paired, o).0;
      after[id].lvstore && (BuildsWell(paired, id, o) && RebuildsComplete(created, o) ==> after[id].lvstoreStatus == Ready)
  {
    hide LoopFrom, NotItself, BuildsWell, RebuildsComplete, Tracks, ReadySoFar, SameButReadiness, SamePairs, Keyed;
    TracksAtStart(created, paired);
    FirstLoopIff(created, paired, paired, 0, o);
    var (built, _) := LoopFrom(BuildLoop, created, paired, paired, 0, o);
    SamePairsItself(paired);
    BuildingKeepsPairs(BuildLoop, created, paired, paired, 0, o);
    SameItself(built);
    SecondLoopIff(created, built, built, 0, o);
    SameKind(paired, built, id);
    HasStore(created, paired, built, LoopFrom(SecondaryLoop, created, built, built, 0, o).0, id);
    if BuildsWell(paired, id, o) && RebuildsComplete(created, o) {
      ReadyAtStart(created, paired, o);
      FirstLoopReady(created, paired, paired, 0, o);
      ReadyAt(created, paired, built, o, id);
      SecondLoopReady(created, built, built, 0, o, id);
    }
  }

  lemma ReadyAtStart(created: seq<NodeId>, snap: Table, o: Options)
    requires Stored(created, snap.Keys)
    ensures ReadySoFar(created, snap, snap, 0, o)
  {
  }

  lemma ReadyAt(created: seq<NodeId>, snap: Table, nodes: Table, o: Options, id: NodeId)
    requires Keyed(created, snap.Keys) && Stored(created, nodes.Keys) && Stored(created, snap.Keys)
    requires nodes.Keys == snap.Keys
    requires ReadySoFar(created, snap, nodes, |created|, o) && id in snap && Leads(snap[id]) && BuildsWell(snap, id, o)
    ensures nodes[id].lvstoreStatus == Ready
  {
    hide BuildsWell;
    var i :| 0 <= i < |created| && created[i] == id;
  }

  lemma HasStore(created: seq<NodeId>, paired: Table, built: Table, after: Table, id: NodeId)
    requires Keyed(created, paired.Keys) && Tracks(created, paired, built, |created|) && SameButReadiness(built, after)
    requires id in paired && Leads(paired[id])
    ensures id in after && after[id].lvstore
  {
    AllCreated(created, paired);
    hide Keyed, SamePairs;
    assert TracksOne(paired[id], built[id], id in created[..|created|]);
  }

  /** After an activation that succeeds every node that is online and not dedicated has an lvstore. Where
      building it went well, which is everywhere unless the activation was forced, it is noted as ready, if
      no rebuilding on a secondary stops on the way. */
  lemma {:induction false} ActivatedAreReady(w: World, o: Options, id: NodeId)
    requires Invariant(w) && Stored(w.created, w.nodes.Keys) && Activation(w, o).1 == Succeeded
    requires id in w.nodes && w.nodes[id].status == Online && !w.nodes[id].dedicated
    ensures var paired := if o.ha then PairFrom(w.created, w.nodes, 0).0 else w.nodes;
      var after := Activation(w, o).0.nodes[id];
      && after.lvstore
      && (RebuildsComplete(w.created, o) && (!o.force || BuildsWell(paired, id, o)) ==> after.lvstoreStatus == Ready)
  {
    assert NONE !in w.nodes;
    hide PairFrom, Building, Inverse, Keyed, GoesOn, BuildsWell, PrimariesInTheEnd, Stored, RebuildsComplete, Activation;
    PairFromKeeps(w.created, w.nodes, 0);
    var paired := if o.ha then PairFrom(w.created, w.nodes, 0).0 else w.nodes;
    InverseIsNotItself(paired);
    ActivationSucceedsIff(w, o);
    StillLeads(w, o, id);
    BuildingIsLast(w, o);
    BuiltAreReady(w.created, paired, o, id);
    if !o.force { UnforcedIsWell(paired, id, o); }
  }

  lemma UnforcedIsWell(paired: Table, id: NodeId, o: Options)
    requires id in paired && GoesOn(paired, id, o) && !o.force && Leads(paired[id])
    ensures BuildsWell(paired, id, o)
  {
  }

  lemma StillLeads(w: World, o: Options, id: NodeId)
    requires Stored(w.created, w.nodes.Keys) && id in w.nodes && Leads(w.nodes[id])
    ensures var paired := if o.ha then PairFrom(w.created, w.nodes, 0).0 else w.nodes; Leads(paired[id])
  {
    PairingOutcomes.PairFromLeaves(w.created, w.nodes, 0, id);
    hide PairFrom;
  }

  lemma BuildingIsLast(w: World, o: Options)
    requires Stored(w.created, w.nodes.Keys) && Activation(w, o).1 == Succeeded
    ensures var paired := if o.ha then PairFrom(w.created, w.nodes, 0).0 else w.nodes;
      var built := Building(w.created, paired, o);
      built.1.Succeeded? && Activation(w, o).0.nodes == built.0
  {
    hide PairFrom, Building;
  }

  // ---------------------------------------------------------------- a hidden failure

  /** recreate_lvstore reports success although rebuilding the primaries of the node it serves stopped: the one
      whose stack failed stays in creation. */
  lemma {:induction false} StoppedRebuildIsHidden(created: seq<NodeId>, nodes: Table, id: NodeId, copy: Node,
                                                  o: Options)
    requires id in nodes && Keyed(created, nodes.Keys) && Stored(created, nodes.Keys)
    requires copy.secondary in nodes && copy.secondary !in {id, NONE} && copy.primary in nodes && copy.primary != NONE
    requires o.recovery(id) == Recovers && !(nodes[copy.secondary].status == Unreachable && o.lvols(id))
    requires var own := copy.(journals := o.journals(id), lvstoreStatus := InCreation);
      var done := nodes[copy.secondary := PartnerAfter(nodes[copy.secondary], Recovers)][id := own];
      o.rebuilt(copy.primary) < |PrimaryScan(created, done, copy.primary, |created|)|
    ensures var (after, r) := Recreated(created, nodes, id, copy, o);
      r == Built && exists p :: p in after && after[p].secondary == copy.primary && after[p].lvstore && after[p].lvstoreStatus == InCreation
  {
    hide Recreated, Rebuilt, PrimaryScan, Keyed;
    RecreatedRecords(created, nodes, id, copy, o);
    var own := copy.(journals := o.journals(id), lvstoreStatus := InCreation);
    var done := nodes[copy.secondary := PartnerAfter(nodes[copy.secondary], Recovers)][id := own];
    assert done.Keys == nodes.Keys;
    var (list, s) := (PrimaryScan(created, done, copy.primary, |created|), copy.primary);
    var k := o.rebuilt(s);
    ScanFinds(created, done, s, k);
    RebuiltRecords(created, done, s, o, list[k]);
    var after := Rebuilt(created, done, s, o).0;
    assert after[list[k]].lvstoreStatus == InCreation;
  }

  lemma ScanFinds(created: seq<NodeId>, nodes: Table, s: NodeId, k: nat)
    requires Keyed(created, nodes.Keys) && Stored(created, nodes.Keys)
    requires k < |PrimaryScan(created, nodes, s, |created|)|
    ensures var p := PrimaryScan(created, nodes, s, |created|)[k]; p in nodes && nodes[p].secondary == s && nodes[p].lvstore
  {
    ScanMeans(created, nodes, s, |created|);
    ServedAre(created, nodes, s);
    hide PrimaryScan, Keyed;
    assert PrimaryScan(created, nodes, s, |created|)[k] in PrimaryScan(created, nodes, s, |created|);
  }
}
