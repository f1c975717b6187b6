/**
 How an activation or an expansion ends, told from the records before it and how each lvstore goes: the
 outcome, the status of the cluster, and what is noted of the lvstores.
 */
module ClusterEnds {
  import opened Records
  import opened Pairing
  import opened LvstoreRecords
  import opened ClusterOps
  import opened PairingInvariant
  import opened PairingOutcomes
  import opened LvstoreOutcomes

  // ---------------------------------------------------------------- outcome and status

  lemma StepsEndBadly(loop: Loop, created: seq<NodeId>, snap: Table, nodes: Table, i: nat, o: Options)
    requires i < |created| && Stored(created, nodes.Keys) && nodes.Keys == snap.Keys
    ensures LoopStep(loop, created, snap, nodes, i, o).1 in {None, Some(FailedRestored), Some(Crashed)}
  {
    hide Chosen, Recreated, CreateAndNote, CreateResult, Rebuilt, Noted;
  }

  lemma {:induction false} LoopEnds(loop: Loop, created: seq<NodeId>, snap: Table, nodes: Table, i: nat, o: Options)
    requires i <= |created| && Stored(created, nodes.Keys) && nodes.Keys == snap.Keys
    ensures LoopFrom(loop, created, snap, nodes, i, o).1 != Refused
    decreases |created| - i
  {
    hide LoopStep;
    if i < |created| {
      StepsEndBadly(loop, created, snap, nodes, i, o);
      var step := LoopStep(loop, created, snap, nodes, i, o);
      if step.1.None? { LoopEnds(loop, created, snap, step.0, i + 1, o); }
    }
  }

  /** An activation is refused exactly if the cluster is active and it is not forced, and then does nothing.
      Otherwise the cluster ends active if it succeeds, in activation if an exception is not caught, and after
      any failure that is handled as it was, except that an activation that was left half way counts as none. */
  lemma {:induction false} ActivationEnds(w: World, o: Options)
    requires Stored(w.created, w.nodes.Keys)
    ensures var (after, r) := Activation(w, o);
      && (r == Refused <==> w.status == Active && !o.force)
      && match r
        case Refused => after == w
        case Succeeded => after.status == Active
        case Crashed => after.status == InActivation
        case FailedRestored => after.status == if w.status == InActivation then Unready else w.status
    ensures var ((after, r), paired) := (Activation(w, o), PairFrom(w.created, w.nodes, 0));
      r != Refused ==>
        if !o.enoughDevices then r == FailedRestored && after.nodes == w.nodes
        else if o.ha && paired.1 != Paired then
          after.nodes == paired.0 && r == if paired.1 == NoSecondary then FailedRestored else Crashed
        else (after.nodes, r) == Building(w.created, if o.ha then paired.0 else w.nodes, o)
  {
    hide LoopFrom, PairFrom;
    var paired := PairedBy(w, o);
    LoopEnds(BuildLoop, w.created, paired, paired, 0, o);
    var built := LoopFrom(BuildLoop, w.created, paired, paired, 0, o).0;
    LoopEnds(SecondaryLoop, w.created, built, built, 0, o);
  }

  /** An expansion is refused exactly outside four statuses, and then does nothing. Otherwise the cluster ends
      active, in expansion, or as it was. */
  lemma {:induction false} ExpansionEnds(w: World, o: Options)
    requires Stored(w.created, w.nodes.Keys)
    ensures var (after, r) := Expansion(w, o);
      && (r == Refused <==> w.status !in {Active, InExpansion, ClusterReadOnly, Degraded})
      && match r
        case Refused => after == w
        case Succeeded => after.status == Active
        case Crashed => after.status == InExpansion
        case FailedRestored => after.status == w.status
  {
    hide LoopFrom;
    LoopEnds(ExpandLoop, w.created, w.nodes, w.nodes, 0, o);
  }

  // ---------------------------------------------------------------- the lvstore of one node

  /** The node takes part in the first lvstore loop of an activation. */
  predicate Leads(n: Node) { n.status == Online && !n.dedicated }

  /** Creating the lvstore of this node goes through: without a secondary if its own stack is complete, with
      one if that has a record and everything goes well. */
  predicate CreatesWell(nodes: Table, n: Node, c: Creation) {
    if n.secondary == NONE then c in {PartnerRaises, PartnerStackFails, Completes} else n.secondary in nodes && c == Completes
  }

  /** The lvstore of this node is built: if it has one and need not be made anew it recovers, and is not held
      back by a secondary that is unreachable while there are lvols. */
  predicate BuildsWell(nodes: Table, id: NodeId, o: Options)
    requires id in nodes
  {
    var n := nodes[id];
    if n.lvstore && !o.forceLvstoreCreate then
      o.recovery(id) == Recovers
      && (n.secondary == NONE || (n.secondary in nodes && !(nodes[n.secondary].status == Unreachable && o.lvols(id))))
    else CreatesWell(nodes, n, o.creation(id))
  }

  /** It is not, and the call says so instead of raising: a stack fails, or the node is held back. */
  predicate BuildsBadly(nodes: Table, id: NodeId, o: Options)
    requires id in nodes
  {
    var n := nodes[id];
    if n.lvstore && !o.forceLvstoreCreate then
      o.recovery(id) == StackFails
      || (o.recovery(id) == Recovers && n.secondary != NONE && n.secondary in nodes
          && nodes[n.secondary].status == Unreachable && o.lvols(id))
    else o.creation(id) == OwnStackFails || (o.creation(id) == PartnerStackFails && n.secondary != NONE && n.secondary in nodes)
  }

  // ---------------------------------------------------------------- what a round leaves of other records

  lemma {:induction false} RebuiltTouches(created: seq<NodeId>, nodes: Table, s: NodeId, o: Options, n: NodeId)
    requires Stored(created, nodes.Keys) && n in nodes
    ensures var after := Rebuilt(created, nodes, s, o).0;
      after[n].status == nodes[n].status && after[n].lvstore == nodes[n].lvstore
  {
    ScanIsStored(created, nodes, s, |created|);
    assert SameFlags(nodes, nodes);
    RebuildMeans(nodes, nodes, PrimaryScan(created, nodes, s, |created|), 0, o.rebuilt(s));
  }

  /** A recreation changes the status of its own node only, to suspended or, if it raises, to offline, and
      takes away no lvstore. */
  lemma {:induction false} RecreationTouches(created: seq<NodeId>, nodes: Table, id: NodeId, copy: Node,
                                             o: Options, n: NodeId)
    requires id in nodes && n in nodes && Stored(created, nodes.Keys) && copy.secondary != id
    ensures var (after, r) := Recreated(created, nodes, id, copy, o);
      if n == id then after[n].lvstore == copy.lvstore && (r != Raised ==> after[n].status in {copy.status, Suspended})
      else after[n].status == nodes[n].status && after[n].lvstore == nodes[n].lvstore
  {
    hide Recreated, Rebuilt;
    RecreatedRecords(created, nodes, id, copy, o);
    var own := copy.(journals := o.journals(id), lvstoreStatus := InCreation);
    if copy.secondary in nodes {
      var done := nodes[copy.secondary := PartnerAfter(nodes[copy.secondary], o.recovery(id))][id := own];
      RebuiltTouches(created, done, copy.primary, o, n);
    }
  }

  /** A recreation that does not fail leaves every other lvstore that was ready so, unless the rebuilding of
      the primaries of another node stops on the way. */
  lemma {:induction false} RecreationKeepsReady(created: seq<NodeId>, nodes: Table, id: NodeId, copy: Node,
                                                o: Options, n: NodeId)
    requires id in nodes && n in nodes && n != id && Keyed(created, nodes.Keys) && Stored(created, nodes.Keys)
    requires copy.secondary != id
    requires Recreated(created, nodes, id, copy, o).1 != Raised && nodes[n].lvstoreStatus == Ready
    requires |created| <= o.rebuilt(copy.primary)
    ensures Recreated(created, nodes, id, copy, o).0[n].lvstoreStatus == Ready
  {
    hide Recreated, Rebuilt, Keyed;
    RecreatedRecords(created, nodes, id, copy, o);
    var own := copy.(journals := o.journals(id), lvstoreStatus := InCreation);
    if copy.secondary in nodes {
      var done := nodes[copy.secondary := PartnerAfter(nodes[copy.secondary], o.recovery(id))][id := own];
      assert done.Keys == nodes.Keys;
      RebuildKeepsReady(created, done, copy.primary, o, n);
    }
  }

  lemma {:induction false} RebuildKeepsReady(created: seq<NodeId>, nodes: Table, s: NodeId, o: Options, n: NodeId)
    requires Keyed(created, nodes.Keys) && Stored(created, nodes.Keys) && n in nodes && |created| <= o.rebuilt(s)
    ensures nodes[n].lvstoreStatus == Ready ==> Rebuilt(created, nodes, s, o).0[n].lvstoreStatus == Ready
  {
    hide Rebuilt, Keyed, PrimaryScan;
    RebuiltRecords(created, nodes, s, o, n);
    ScanIsShort(created, nodes, s, |created|);
    if nodes[n].secondary == s && nodes[n].lvstore { FoundByScan(created, nodes, s, n); }
  }

  lemma FoundByScan(created: seq<NodeId>, nodes: Table, s: NodeId, n: NodeId)
    requires Keyed(created, nodes.Keys) && Stored(created, nodes.Keys) && n in nodes
    requires nodes[n].secondary == s && nodes[n].lvstore
    ensures exists k :: 0 <= k < |PrimaryScan(created, nodes, s, |created|)| && PrimaryScan(created, nodes, s, |created|)[k] == n
  {
    ScanMeans(created, nodes, s, |created|);
    ServedAre(created, nodes, s);
    hide PrimaryScan, Keyed;
    assert n in PrimaryScan(created, nodes, s, |created|);
  }

  // ---------------------------------------------------------------- the first lvstore loop

  /** How a record stands to the copy read before the loop: a node that takes part may have been suspended,
      and has an lvstore once its round is over; nobody else's status or lvstore has changed. */
  predicate TracksOne(copy: Node, now: Node, visited: bool) {
    && now.status in {copy.status, if Leads(copy) then Suspended else copy.status}
    && (now.lvstore <==> copy.lvstore || (visited && Leads(copy)))
  }

  ghost predicate Tracks(created: seq<NodeId>, snap: Table, nodes: Table, k: nat)
    requires k <= |created|
  {
    nodes.Keys == snap.Keys && forall n :: n in snap ==> TracksOne(snap[n], nodes[n], n in created[..k])
  }

  /** No node is its own secondary. */
  ghost predicate NotItself(nodes: Table) { forall id :: id in nodes ==> nodes[id].secondary != id }

  /** The outcome of one round is told from the records before the loop. */
  lemma {:induction false} RoundIsTold(created: seq<NodeId>, snap: Table, nodes: Table, k: nat, o: Options)
    requires k < |created| && Stored(created, nodes.Keys) && Stored(created, snap.Keys)
    requires Tracks(created, snap, nodes, k) && NotItself(snap)
    ensures var id := created[k];
      BuildStep(created, snap, nodes, id, o).1 ==
      if !Leads(snap[id]) || BuildsWell(snap, id, o) then None
      else if BuildsBadly(snap, id, o) then if o.force then None else Some(FailedRestored)
      else Some(if snap[id].lvstore && !o.forceLvstoreCreate then FailedRestored else Crashed)
  {
    hide Recreated, CreateAndNote, CreateResult, Noted, BuildsWell, BuildsBadly;
    var id := created[k];
    if Leads(snap[id]) {
      if snap[id].lvstore && !o.forceLvstoreCreate {
        RecreationIsTold(created, snap, nodes, k, o);
      } else {
        CreationIsTold(snap, nodes, id, o);
      }
    }
  }

  lemma CreationIsTold(snap: Table, nodes: Table, id: NodeId, o: Options)
    requires id in snap && nodes.Keys == snap.Keys && !(snap[id].lvstore && !o.forceLvstoreCreate)
    ensures CreateResult(nodes, id, snap[id], o)
      == if BuildsWell(snap, id, o) then Built else if BuildsBadly(snap, id, o) then NotBuilt else Raised
  {
    CreatedResult(nodes, id, snap[id], o);
    hide CreateResult;
  }

  lemma RecreationIsTold(created: seq<NodeId>, snap: Table, nodes: Table, k: nat, o: Options)
    requires k < |created| && Stored(created, nodes.Keys) && Stored(created, snap.Keys)
    requires Tracks(created, snap, nodes, k) && NotItself(snap)
    requires Leads(snap[created[k]]) && snap[created[k]].lvstore && !o.forceLvstoreCreate
    ensures Recreated(created, nodes, created[k], snap[created[k]], o).1
      == if BuildsWell(snap, created[k], o) then Built else if BuildsBadly(snap, created[k], o) then NotBuilt else Raised
  {
    hide Recreated, Rebuilt;
    var (id, s) := (created[k], snap[created[k]].secondary);
    RecreatedRecords(created, nodes, id, snap[id], o);
    if s in snap { assert TracksOne(snap[s], nodes[s], s in created[..k]); }
  }

  /** What a round that does not end the loop makes of one record. */
  lemma {:induction false} RoundTouches(created: seq<NodeId>, snap: Table, nodes: Table, id: NodeId, o: Options,
                                        n: NodeId)
    requires id in nodes && n in nodes && nodes.Keys == snap.Keys && Stored(created, nodes.Keys)
    requires snap[id].secondary != id
    requires BuildStep(created, snap, nodes, id, o).1.None?
    ensures var after := BuildStep(created, snap, nodes, id, o).0;
      if n != id || !Leads(snap[id]) then after[n].status == nodes[n].status && after[n].lvstore == nodes[n].lvstore
      else after[n].lvstore && after[n].status in {snap[n].status, Suspended}
  {
    hide Recreated, CreateAndNote, CreateResult, Noted;
    var copy := snap[id];
    if Leads(copy) {
      if copy.lvstore && !o.forceLvstoreCreate {
        var (t, r) := Recreated(created, nodes, id, copy, o);
        RecreationTouches(created, nodes, id, copy, o, n);
        NotedRecords(t, id, r);
      } else {
        CreationTouches(nodes, id, copy, o, n);
        CreationNames(nodes, id, copy, o);
      }
    }
  }

  lemma CreationNames(nodes: Table, id: NodeId, copy: Node, o: Options)
    requires id in nodes && copy.secondary != id && CreateResult(nodes, id, copy, o) != Raised
    ensures var after := CreateAndNote(nodes, id, copy, o)[id];
      after.lvstore && after.status == copy.status
      && after.lvstoreStatus == (if CreateResult(nodes, id, copy, o) == Built then Ready else NotReady)
  {
    CreatedRecords(nodes, id, copy, o);
    CreatedResult(nodes, id, copy, o);
    hide CreateAndNote, CreateResult;
  }

  lemma {:induction false} TracksOn(created: seq<NodeId>, snap: Table, nodes: Table, k: nat, o: Options)
    requires k < |created| && Stored(created, nodes.Keys) && Stored(created, snap.Keys)
    requires Tracks(created, snap, nodes, k) && NotItself(snap)
    requires BuildStep(created, snap, nodes, created[k], o).1.None?
    ensures Tracks(created, snap, BuildStep(created, snap, nodes, created[k], o).0, k + 1)
  {
    hide BuildStep;
    var after := BuildStep(created, snap, nodes, created[k], o).0;
    assert created[..k + 1] == created[..k] + [created[k]];
    forall n | n in snap ensures TracksOne(snap[n], after[n], n in created[..k + 1]) {
      assert TracksOne(snap[n], nodes[n], n in created[..k]);
      RoundTouches(created, snap, nodes, created[k], o, n);
    }
  }

  /** The round of a node does not end the loop. */
  predicate GoesOn(snap: Table, id: NodeId, o: Options)
    requires id in snap
  {
    !Leads(snap[id]) || BuildsWell(snap, id, o) || (o.force && BuildsBadly(snap, id, o))
  }

  /** The first lvstore loop gets through exactly if every node's round does. */
  lemma {:induction false} FirstLoopIff(created: seq<NodeId>, snap: Table, nodes: Table, k: nat, o: Options)
    requires nodes.Keys == snap.Keys
    requires k <= |created| && Stored(created, nodes.Keys) && Stored(created, snap.Keys)
    requires Tracks(created, snap, nodes, k) && NotItself(snap)
    ensures var (after, r) := LoopFrom(BuildLoop, created, snap, nodes, k, o);
      && (r.Succeeded? <==> forall i :: k <= i < |created| ==> GoesOn(snap, created[i], o))
      && (r.Succeeded? ==> Tracks(created, snap, after, |created|))
    decreases |created| - k
  {
    hide BuildStep, BuildsWell, BuildsBadly, Tracks, NotItself;
    if k < |created| {
      RoundIsTold(created, snap, nodes, k, o);
      var step := BuildStep(created, snap, nodes, created[k], o);
      if step.1.None? {
        TracksOn(created, snap, nodes, k, o);
        FirstLoopIff(created, snap, step.0, k + 1, o);
      }
    }
  }

  /** Where it ends otherwise: at the first node whose round does not go on, with a crash if its lvstore was
      being made and an exception came out, and else with the old status restored. */
  lemma {:induction false} FirstLoopStops(created: seq<NodeId>, snap: Table, nodes: Table, k: nat, o: Options, i: nat)
    requires nodes.Keys == snap.Keys
    requires k <= i < |created| && Stored(created, nodes.Keys) && Stored(created, snap.Keys)
    requires Tracks(created, snap, nodes, k) && NotItself(snap)
    requires (forall j :: k <= j < i ==> GoesOn(snap, created[j], o)) && !GoesOn(snap, created[i], o)
    ensures LoopFrom(BuildLoop, created, snap, nodes, k, o).1 ==
      if BuildsBadly(snap, created[i], o) || (snap[created[i]].lvstore && !o.forceLvstoreCreate) then FailedRestored else Crashed
    decreases i - k
  {
    hide BuildStep, BuildsWell, BuildsBadly, Tracks, NotItself;
    RoundIsTold(created, snap, nodes, k, o);
    var step := BuildStep(created, snap, nodes, created[k], o);
    if k < i {
      assert GoesOn(snap, created[k], o);
      TracksOn(created, snap, nodes, k, o);
      FirstLoopStops(created, snap, step.0, k + 1, o, i);
    }
  }

  // ---------------------------------------------------------------- the second lvstore loop

  /** The primaries a node serves that have an lvstore. */
  ghost function PrimariesWithStore(nodes: Table, s: NodeId): set<NodeId> {
    set p | p in nodes && nodes[p].secondary == s && nodes[p].lvstore
  }

  /** Rebuilding on this node, if it is an online dedicated secondary, goes through, or need not. */
  ghost predicate ServesOn(nodes: Table, id: NodeId, o: Options)
    requires id in nodes
  {
    nodes[id].status == Online && nodes[id].dedicated && !o.force ==> |PrimariesWithStore(nodes, id)| <= o.rebuilt(id)
  }

  ghost predicate SameButReadiness(a: Table, b: Table) {
    SamePairs(a, b) && SameFlags(a, b)
  }

  lemma SamePrimaries(a: Table, b: Table, s: NodeId)
    requires SameButReadiness(a, b)
    ensures PrimariesWithStore(a, s) == PrimariesWithStore(b, s)
  {
  }

  lemma {:induction false} SecondRound(created: seq<NodeId>, snap: Table, nodes: Table, id: NodeId, o: Options)
    requires Keyed(created, nodes.Keys) && Stored(created, nodes.Keys) && id in nodes && SameButReadiness(snap, nodes)
    ensures var (after, ended) := SecondaryStep(created, snap, nodes, id, o);
      && ended == (if ServesOn(snap, id, o) then None else Some(FailedRestored))
      && SameButReadiness(snap, after)
  {
    hide Rebuilt, Keyed, PrimariesWithStore, Noted, PrimaryScan;
    SamePrimaries(snap, nodes, id);
    RebuiltRecords(created, nodes, id, o, id);
    ServedIsSet(nodes, id);
    var (t, ok) := Rebuilt(created, nodes, id, o);
    RebuiltIsSame(created, nodes, id, o);
    SameTrans(snap, nodes, t);
    NotingIsSame(snap, t, id, if ok then Built else NotBuilt);
  }

  lemma ServedIsSet(nodes: Table, s: NodeId)
    ensures PrimariesWithStore(nodes, s) == set p | p in nodes && nodes[p].secondary == s && nodes[p].lvstore
  {
  }

  lemma RebuiltIsSame(created: seq<NodeId>, nodes: Table, s: NodeId, o: Options)
    requires Stored(created, nodes.Keys)
    ensures SameButReadiness(nodes, Rebuilt(created, nodes, s, o).0)
  {
    RebuiltKeepsPairs(created, nodes, s, o);
    hide Rebuilt;
    forall n | n in nodes { RebuiltTouches(created, nodes, s, o, n); }
  }

  lemma SameTrans(a: Table, b: Table, c: Table)
    requires SameButReadiness(a, b) && SameButReadiness(b, c)
    ensures SameButReadiness(a, c)
  {
  }

  lemma NotingIsSame(a: Table, b: Table, id: NodeId, r: LvstoreResult)
    requires id in b && SameButReadiness(a, b)
    ensures SameButReadiness(a, Noted(b, id, r))
  {
  }

  lemma {:induction false} SecondLoopIff(created: seq<NodeId>, snap: Table, nodes: Table, k: nat, o: Options)
    requires k <= |created| && Keyed(created, nodes.Keys) && Stored(created, nodes.Keys) && Stored(created, snap.Keys)
    requires SameButReadiness(snap, nodes)
    ensures var (after, r) := LoopFrom(SecondaryLoop, created, snap, nodes, k, o);
      && r == (if forall i :: k <= i < |created| ==> ServesOn(snap, created[i], o) then Succeeded else FailedRestored)
      && SameButReadiness(snap, after)
    decreases |created| - k
  {
    hide SecondaryStep, Keyed, ServesOn, SameButReadiness;
    KeysAgree(snap, nodes);
    if k < |created| {
      SecondRound(created, snap, nodes, created[k], o);
      var step := SecondaryStep(created, snap, nodes, created[k], o);
      if step.1.None? { SecondLoopIff(created, snap, step.0, k + 1, o); }
    }
  }

  lemma KeysAgree(a: Table, b: Table)
    requires SameButReadiness(a, b)
    ensures a.Keys == b.Keys
  {
  }

  // ---------------------------------------------------------------- when an activation succeeds

  /** The primaries that a node serves once every lvstore of the first loop is made. */
  ghost function PrimariesInTheEnd(nodes: Table, s: NodeId): set<NodeId> {
    set p | p in nodes && nodes[p].secondary == s && (nodes[p].lvstore || (nodes[p].status == Online && !nodes[p].dedicated))
  }

  lemma {:induction false} AfterFirstLoop(created: seq<NodeId>, paired: Table, built: Table, o: Options)
    requires Keyed(created, paired.Keys) && Tracks(created, paired, built, |created|) && SamePairs(paired, built)
    ensures forall id :: id in paired ==>
      (ServesOn(built, id, o) <==>
        (paired[id].status == Online && paired[id].dedicated && !o.force ==> |PrimariesInTheEnd(paired, id)| <= o.rebuilt(id)))
  {
    forall id | id in paired ensures PrimariesWithStore(built, id) == PrimariesInTheEnd(paired, id) {
      BuiltPrimaries(created, paired, built, id);
    }
    hide PrimariesWithStore, PrimariesInTheEnd, SamePairs;
    forall id | id in paired
      ensures built[id].status == Online && built[id].dedicated <==> paired[id].status == Online && paired[id].dedicated
    {
      SameKind(paired, built, id);
      assert TracksOne(paired[id], built[id], id in created[..|created|]);
    }
  }

  lemma SameKind(a: Table, b: Table, id: NodeId)
    requires SamePairs(a, b) && id in a
    ensures id in b && a[id].dedicated == b[id].dedicated && a[id].secondary == b[id].secondary
  {
  }

  lemma AllCreated(created: seq<NodeId>, nodes: Table)
    requires Keyed(created, nodes.Keys)
    ensures forall id :: id in created[..|created|] <==> id in nodes
  {
    assert created[..|created|] == created;
  }

  lemma BuiltPrimaries(created: seq<NodeId>, paired: Table, built: Table, id: NodeId)
    requires Keyed(created, paired.Keys) && Tracks(created, paired, built, |created|) && SamePairs(paired, built)
    ensures PrimariesWithStore(built, id) == PrimariesInTheEnd(paired, id)
  {
    AllCreated(created, paired);
    hide SamePairs, Keyed;
    forall p | p in paired
      ensures built[p].secondary == paired[p].secondary
      ensures built[p].lvstore <==> paired[p].lvstore || Leads(paired[p])
    {
      SameKind(paired, built, p);
      assert TracksOne(paired[p], built[p], p in created[..|created|]);
    }
  }

  /** Both lvstore loops get through exactly if the first does for every node and, unless the activation is
      forced, no dedicated secondary stops while its primaries are rebuilt. */
  lemma {:induction false} BuildingIff(created: seq<NodeId>, paired: Table, o: Options)
    requires Keyed(created, paired.Keys) && Stored(created, paired.Keys) && NotItself(paired)
    ensures Building(created, paired, o).1.Succeeded? <==>
      && (forall id :: id in paired ==> GoesOn(paired, id, o))
      && (forall id :: id in paired && paired[id].status == Online && paired[id].dedicated && !o.force ==>
            |PrimariesInTheEnd(paired, id)| <= o.rebuilt(id))
  {
    hide LoopFrom, NotItself, GoesOn, PrimariesInTheEnd, SamePairs, SameFlags, ServesOn;
    TracksAtStart(created, paired);
    FirstLoopIff(created, paired, paired, 0, o);
    var built := LoopFrom(BuildLoop, created, paired, paired, 0, o);
    CreatedOnly(created, paired);
    if built.1.Succeeded? {
      SamePairsItself(paired);
      BuildingKeepsPairs(BuildLoop, created, paired, paired, 0, o);
      AfterFirstLoop(created, paired, built.0, o);
      SameItself(built.0);
      SecondLoopIff(created, built.0, built.0, 0, o);
    }
  }

  lemma TracksAtStart(created: seq<NodeId>, snap: Table)
    ensures Tracks(created, snap, snap, 0)
  {
  }

  lemma SameItself(a: Table)
    ensures SameButReadiness(a, a)
  {
  }

  lemma CreatedOnly(created: seq<NodeId>, nodes: Table)
    requires Keyed(created, nodes.Keys)
    ensures forall id :: id in nodes <==> exists i :: 0 <= i < |created| && created[i] == id
  {
  }

  lemma InverseIsNotItself(nodes: Table)
    requires Inverse(nodes) && NONE !in nodes
    ensures NotItself(nodes)
  {
    forall id | id in nodes ensures nodes[id].secondary != id {
      assert PointsRight(nodes, id);
    }
  }

  lemma SucceedsIfBuilt(w: World, o: Options)
    requires Stored(w.created, w.nodes.Keys)
    ensures var paired := if o.ha then PairFrom(w.created, w.nodes, 0).0 else w.nodes;
      Activation(w, o).1 == Succeeded <==>
      && !(w.status == Active && !o.force) && o.enoughDevices
      && (o.ha ==> PairFrom(w.created, w.nodes, 0).1 == Paired) && Building(w.created, paired, o).1.Succeeded?
  {
    ActivationEnds(w, o);
    hide Activation, PairFrom, Building;
  }

  /** An activation succeeds exactly if it is not refused, there are devices enough, the pairing gets through
      where there is one, every node that is online and not dedicated has its lvstore built, or reported as
      failed to an activation that is forced, and unless it is forced no rebuilding on a dedicated secondary
      stops. All of it is told from the records as the pairing leaves them. */
  lemma {:induction false} ActivationSucceedsIff(w: World, o: Options)
    requires Invariant(w)
    ensures Stored(w.created, w.nodes.Keys)
    ensures var paired := if o.ha then PairFrom(w.created, w.nodes, 0).0 else w.nodes;
      Activation(w, o).1 == Succeeded <==>
      && !(w.status == Active && !o.force) && o.enoughDevices
      && (o.ha ==> PairFrom(w.created, w.nodes, 0).1 == Paired)
      && (forall id :: id in paired ==> GoesOn(paired, id, o))
      && (forall id :: id in paired && paired[id].status == Online && paired[id].dedicated && !o.force ==>
            |PrimariesInTheEnd(paired, id)| <= o.rebuilt(id))
  {
    assert Stored(w.created, w.nodes.Keys) && NONE !in w.nodes;
    hide PairFrom, Building, Activation, Inverse, Keyed, GoesOn, PrimariesInTheEnd, Stored, NotItself;
    SucceedsIfBuilt(w, o);
    PairFromKeeps(w.created, w.nodes, 0);
    var paired := if o.ha then PairFrom(w.created, w.nodes, 0).0 else w.nodes;
    InverseIsNotItself(paired);
    BuildingIff(w.created, paired, o);
  }
}
