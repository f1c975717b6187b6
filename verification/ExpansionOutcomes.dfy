/** What a successful expansion has done for every node it took in, and when it succeeds without pairing. */
module ExpansionOutcomes {
  import opened Records
  import opened Pairing
  import opened LvstoreRecords
  import opened LvstoreOutcomes
  import opened ClusterOps
  import opened ClusterEnds

  /** The node takes part in an expansion. */
  predicate IsNew(n: Node) { n.status == Online && !n.lvstore }

  /** What a round that goes on leaves of another node: its lvstore, how that went, its secondary and its
      status. */
  ghost predicate SameBesides(a: Node, b: Node) {
    a.lvstore == b.lvstore && a.lvstoreStatus == b.lvstoreStatus && a.secondary == b.secondary && a.status == b.status
  }

  lemma CreationElsewhere(nodes: Table, id: NodeId, copy: Node, o: Options, n: NodeId)
    requires id in nodes && n in nodes && n != id && copy.secondary != id
    ensures SameBesides(CreateAndNote(nodes, id, copy, o)[n], nodes[n])
  {
    CreatedRecords(nodes, id, copy, o);
    hide CreateAndNote;
  }

  lemma CreationHere(nodes: Table, id: NodeId, copy: Node, o: Options)
    requires id in nodes && copy.secondary != id
    ensures CreateResult(nodes, id, copy, o) == Built <==> CreatesWell(nodes, copy, o.creation(id))
    ensures CreateResult(nodes, id, copy, o) == Built ==>
      var after := CreateAndNote(nodes, id, copy, o)[id];
      after.lvstore && after.lvstoreStatus == Ready && after.secondary == copy.secondary && after.status == copy.status
  {
    CreatedRecords(nodes, id, copy, o);
    CreatedResult(nodes, id, copy, o);
    hide CreateAndNote, CreateResult;
  }

  lemma {:induction false} RoundElsewhere(created: seq<NodeId>, snap: Table, nodes: Table, i: nat, o: Options,
                                          n: NodeId)
    requires i < |created| && Keyed(created, nodes.Keys) && Stored(created, nodes.Keys)
    requires nodes.Keys == snap.Keys && NotItself(snap)
    requires n in nodes && n != created[i]
    ensures SameBesides(ExpandStep(created, snap, nodes, i, o).0[n], nodes[n])
  {
    ChosenMeans(created, nodes, i);
    SameAsItself(nodes[n]);
    hide Chosen, CreateAndNote, CreateResult, Keyed, Pair, SameBesides;
    var id := created[i];
    if IsNew(snap[id]) {
      if o.ha && snap[id].secondary == NONE {
        if Chosen(created, nodes, i).Some? {
          var s := Chosen(created, nodes, i).value;
          PairElsewhere(nodes, id, s, n);
          var paired := Pair(nodes, id, s);
          CreationElsewhere(paired, id, paired[id], o, n);
          SameThrough(CreateAndNote(paired, id, paired[id], o)[n], paired[n], nodes[n]);
        }
      } else {
        CreationElsewhere(nodes, id, snap[id], o, n);
      }
    }
  }

  lemma SameAsItself(a: Node)
    ensures SameBesides(a, a)
  {
  }

  lemma SameThrough(a: Node, b: Node, c: Node)
    requires SameBesides(a, b) && SameBesides(b, c)
    ensures SameBesides(a, c)
  {
  }

  lemma PairElsewhere(nodes: Table, id: NodeId, s: NodeId, n: NodeId)
    requires id in nodes && s in nodes && n in nodes && n != id && s != id
    ensures SameBesides(Pair(nodes, id, s)[n], nodes[n]) && Pair(nodes, id, s)[id].secondary == s
  {
  }

  /** What it has done for its own node. */
  ghost predicate TakenIn(keys: set<NodeId>, before: Node, after: Node, c: Creation, ha: bool) {
    && after.lvstore && after.lvstoreStatus == Ready
    && (before.secondary != NONE ==> after.secondary == before.secondary)
    && (ha ==> after.secondary != NONE)
    && (if after.secondary == NONE then c in {PartnerRaises, PartnerStackFails, Completes} else after.secondary in keys && c == Completes)
  }

  lemma {:induction false} RoundHere(created: seq<NodeId>, snap: Table, nodes: Table, i: nat, o: Options)
    requires i < |created| && Keyed(created, nodes.Keys) && Stored(created, nodes.Keys)
    requires nodes.Keys == snap.Keys && NotItself(snap)
    requires IsNew(snap[created[i]]) && ExpandStep(created, snap, nodes, i, o).1.None?
    ensures TakenIn(nodes.Keys, snap[created[i]], ExpandStep(created, snap, nodes, i, o).0[created[i]], o.creation(created[i]), o.ha)
  {
    ChosenMeans(created, nodes, i);
    NotNone(created, nodes.Keys);
    hide Chosen, CreateAndNote, CreateResult, Keyed;
    var id := created[i];
    if o.ha && snap[id].secondary == NONE {
      var s := Chosen(created, nodes, i).value;
      var paired := Pair(nodes, id, s);
      PairGives(nodes, id, s);
      CreationHere(paired, id, paired[id], o);
    } else {
      CreationHere(nodes, id, snap[id], o);
    }
  }

  lemma NotNone(created: seq<NodeId>, keys: set<NodeId>)
    requires Keyed(created, keys)
    ensures NONE !in keys
  {
  }

  /** The nodes of the first k rounds are taken in. */
  ghost predicate TakenSoFar(created: seq<NodeId>, snap: Table, nodes: Table, k: nat, o: Options)
    requires k <= |created| && Stored(created, nodes.Keys) && Stored(created, snap.Keys)
  {
    forall i :: 0 <= i < k && IsNew(snap[created[i]]) ==>
      TakenIn(nodes.Keys, snap[created[i]], nodes[created[i]], o.creation(created[i]), o.ha)
  }

  lemma {:induction false} TakenOn(created: seq<NodeId>, snap: Table, nodes: Table, k: nat, o: Options)
    requires k < |created| && Keyed(created, nodes.Keys) && Stored(created, nodes.Keys) && Stored(created, snap.Keys)
    requires nodes.Keys == snap.Keys && NotItself(snap) && TakenSoFar(created, snap, nodes, k, o)
    requires ExpandStep(created, snap, nodes, k, o).1.None?
    ensures TakenSoFar(created, snap, ExpandStep(created, snap, nodes, k, o).0, k + 1, o)
  {
    hide ExpandStep, Keyed, NotItself, IsNew;
    var after := ExpandStep(created, snap, nodes, k, o).0;
    forall i | 0 <= i < k + 1 && IsNew(snap[created[i]])
      ensures TakenIn(after.Keys, snap[created[i]], after[created[i]], o.creation(created[i]), o.ha)
    {
      if i < k {
        KeysDiffer(created, nodes.Keys, i, k);
        RoundElsewhere(created, snap, nodes, k, o, created[i]);
      } else {
        RoundHere(created, snap, nodes, k, o);
      }
    }
  }

  lemma StepIsNoSuccess(created: seq<NodeId>, snap: Table, nodes: Table, i: nat, o: Options)
    requires i < |created| && Stored(created, nodes.Keys) && nodes.Keys == snap.Keys
    ensures ExpandStep(created, snap, nodes, i, o).1 != Some(Succeeded)
  {
    hide Chosen, CreateAndNote, CreateResult;
  }

  lemma {:induction false} LoopTakesIn(created: seq<NodeId>, snap: Table, nodes: Table, k: nat, o: Options)
    requires k <= |created| && Keyed(created, nodes.Keys) && Stored(created, nodes.Keys) && Stored(created, snap.Keys)
    requires nodes.Keys == snap.Keys && NotItself(snap) && TakenSoFar(created, snap, nodes, k, o)
    ensures var (after, r) := LoopFrom(ExpandLoop, created, snap, nodes, k, o);
      r == Succeeded ==> TakenSoFar(created, snap, after, |created|, o)
    decreases |created| - k
  {
    hide ExpandStep, Keyed, NotItself, TakenSoFar;
    if k < |created| {
      StepIsNoSuccess(created, snap, nodes, k, o);
      var step := ExpandStep(created, snap, nodes, k, o);
      if step.1.None? {
        TakenOn(created, snap, nodes, k, o);
        LoopTakesIn(created, snap, step.0, k + 1, o);
      }
    }
  }

  /** After an expansion that succeeds every node that was online without an lvstore has one, noted as ready;
      its creation went well on both sides; and in a cluster with high availability it has a secondary, the one
      it had if it had one. */
  lemma {:induction false} ExpandedAreReady(w: World, o: Options, id: NodeId)
    requires w.Valid() && Stored(w.created, w.nodes.Keys) && NotItself(w.nodes) && Expansion(w, o).1 == Succeeded
    requires id in w.nodes && w.nodes[id].status == Online && !w.nodes[id].lvstore
    ensures var after := Expansion(w, o).0.nodes[id];
      && after.lvstore && after.lvstoreStatus == Ready
      && (w.nodes[id].secondary != NONE ==> after.secondary == w.nodes[id].secondary)
      && (o.ha ==> after.secondary != NONE)
      && (if after.secondary == NONE then o.creation(id) in {PartnerRaises, PartnerStackFails, Completes}
          else after.secondary in w.nodes && o.creation(id) == Completes)
  {
    hide LoopFrom, NotItself;
    NothingYet(w, o);
    LoopTakesIn(w.created, w.nodes, w.nodes, 0, o);
    var i :| 0 <= i < |w.created| && w.created[i] == id;
    assert IsNew(w.nodes[w.created[i]]);
  }

  lemma NothingYet(w: World, o: Options)
    requires Stored(w.created, w.nodes.Keys)
    ensures TakenSoFar(w.created, w.nodes, w.nodes, 0, o)
  {
  }

  // ---------------------------------------------------------------- without pairing

  /** The round of a node that needs no pairing goes on. */
  predicate Joins(snap: Table, id: NodeId, o: Options)
    requires id in snap
  {
    IsNew(snap[id]) ==> CreatesWell(snap, snap[id], o.creation(id))
  }

  lemma {:induction false} RoundIffWell(created: seq<NodeId>, snap: Table, nodes: Table, i: nat, o: Options)
    requires i < |created| && Stored(created, nodes.Keys) && nodes.Keys == snap.Keys && NotItself(snap)
    requires o.ha && IsNew(snap[created[i]]) ==> snap[created[i]].secondary != NONE
    ensures ExpandStep(created, snap, nodes, i, o).1.None? <==> Joins(snap, created[i], o)
  {
    hide Chosen, CreateAndNote, CreateResult;
    CreationHere(nodes, created[i], snap[created[i]], o);
  }

  lemma {:induction false} LoopIffWell(created: seq<NodeId>, snap: Table, nodes: Table, k: nat, o: Options)
    requires k <= |created| && Stored(created, nodes.Keys) && Stored(created, snap.Keys)
    requires nodes.Keys == snap.Keys && NotItself(snap)
    requires forall i :: 0 <= i < |created| && o.ha && IsNew(snap[created[i]]) ==> snap[created[i]].secondary != NONE
    ensures LoopFrom(ExpandLoop, created, snap, nodes, k, o).1 == Succeeded <==>
      forall i :: k <= i < |created| ==> Joins(snap, created[i], o)
    decreases |created| - k
  {
    hide ExpandStep, NotItself, Joins;
    if k < |created| {
      RoundIffWell(created, snap, nodes, k, o);
      StepIsNoSuccess(created, snap, nodes, k, o);
      var step := ExpandStep(created, snap, nodes, k, o);
      if step.1.None? { LoopIffWell(created, snap, step.0, k + 1, o); }
    }
  }

  /** Where nobody needs to be paired an expansion succeeds exactly if it is not refused and the lvstore of
      every online node that has none is created. */
  lemma {:induction false} ExpansionSucceedsIff(w: World, o: Options)
    requires w.Valid() && Stored(w.created, w.nodes.Keys) && NotItself(w.nodes)
    requires forall id :: id in w.nodes && o.ha && IsNew(w.nodes[id]) ==> w.nodes[id].secondary != NONE
    ensures Expansion(w, o).1 == Succeeded <==>
      && w.status in {Active, InExpansion, ClusterReadOnly, Degraded}
      && forall id :: id in w.nodes && w.nodes[id].status == Online && !w.nodes[id].lvstore ==>
           CreatesWell(w.nodes, w.nodes[id], o.creation(id))
  {
    hide LoopFrom, NotItself, CreatesWell, Keyed;
    LoopIffWell(w.created, w.nodes, w.nodes, 0, o);
    CreatedOnly(w.created, w.nodes);
    forall id | id in w.nodes
      ensures Joins(w.nodes, id, o) <==>
        (w.nodes[id].status == Online && !w.nodes[id].lvstore ==> CreatesWell(w.nodes, w.nodes[id], o.creation(id)))
    {
    }
  }
}
