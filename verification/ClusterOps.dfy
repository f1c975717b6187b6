/**
 cluster_activate and cluster_expand on the records of one cluster: the lvstore loops of an
 activation, the loop of an expansion, and the status the cluster ends in.
 */
module ClusterOps {
  import opened Records
  import opened Pairing
  import opened LvstoreRecords

  datatype Outcome = Succeeded | Refused | FailedRestored | Crashed

  // ---------------------------------------------------------------- one round of each loop

  /** A call that failed ends an activation unless it is forced. */
  function AfterBuild(r: LvstoreResult, force: bool, onRaise: Outcome): Option<Outcome> {
    match r
    case Built => None
    case NotBuilt => if force then None else Some(FailedRestored)
    case Raised => Some(onRaise)
  }

  /** One round of the second loop of cluster_activate. `snap` holds the copies read before it; only
      what recreate_lvstore raises is caught. */
  function BuildStep(created: seq<NodeId>, snap: Table, nodes: Table, id: NodeId, o: Options): (r: (Table, Option<Outcome>))
    requires id in nodes && nodes.Keys == snap.Keys && Stored(created, nodes.Keys)
    ensures r.0.Keys == nodes.Keys
  {
    if snap[id].dedicated || !snap[id].status.Online? then (nodes, None)
    else if snap[id].lvstore && !o.forceLvstoreCreate then
      var (t, r) := Recreated(created, nodes, id, snap[id], o);
      (Noted(t, id, r), AfterBuild(r, o.force, FailedRestored))
    else (CreateAndNote(nodes, id, snap[id], o), AfterBuild(CreateResult(nodes, id, snap[id], o), o.force, Crashed))
  }

  /** One round of the third loop of cluster_activate, over the dedicated secondaries. */
  function SecondaryStep(created: seq<NodeId>, snap: Table, nodes: Table, id: NodeId, o: Options): (r: (Table, Option<Outcome>))
    requires id in nodes && nodes.Keys == snap.Keys && Stored(created, nodes.Keys)
    ensures r.0.Keys == nodes.Keys
  {
    if !snap[id].status.Online? || !snap[id].dedicated then (nodes, None)
    else
      var (t, ok) := Rebuilt(created, nodes, id, o);
      var r := if ok then Built else NotBuilt;
      (Noted(t, id, r), AfterBuild(r, o.force, Crashed))
  }

  /** One round of cluster_expand. A node that needs no pairing is not read again: its lvstore is
      written through the copy in `snap`. */
  function ExpandStep(created: seq<NodeId>, snap: Table, nodes: Table, i: nat, o: Options): (r: (Table, Option<Outcome>))
    requires i < |created| && Stored(created, nodes.Keys) && nodes.Keys == snap.Keys
    ensures r.0.Keys == nodes.Keys
  {
    var id := created[i];
    if !snap[id].status.Online? || snap[id].lvstore then (nodes, None)
    else if o.ha && snap[id].secondary == NONE then
      match Chosen(created, nodes, i)
      case None => (nodes, Some(FailedRestored))
      case Some(s) =>
        if s !in nodes then (nodes, Some(Crashed))
        else
          var paired := Pair(nodes, id, s);
          (CreateAndNote(paired, id, paired[id], o), AfterBuild(CreateResult(paired, id, paired[id], o), false, Crashed))
    else (CreateAndNote(nodes, id, snap[id], o), AfterBuild(CreateResult(nodes, id, snap[id], o), false, Crashed))
  }

  ghost predicate SameHosts(a: Table, b: Table) {
    a.Keys == b.Keys && forall id :: id in a ==> a[id].host == b[id].host
  }

  /** What a round of an expansion does to hosts, kinds and pointers: a pair, a write of the copy
      read before the loop, or nothing. */
  function PointerStep(created: seq<NodeId>, snap: Table, nodes: Table, i: nat, o: Options): (r: Table)
    requires i < |created| && Stored(created, nodes.Keys) && nodes.Keys == snap.Keys
    ensures r.Keys == nodes.Keys
  {
    var id := created[i];
    if !snap[id].status.Online? || snap[id].lvstore then nodes
    else if o.ha && snap[id].secondary == NONE then
      match Chosen(created, nodes, i)
      case None => nodes
      case Some(s) => if s !in nodes then nodes else Pair(nodes, id, s)
    else if Writes(id, o) then nodes[id := snap[id]] else nodes
  }

  lemma {:induction false} ExpandStepIs(created: seq<NodeId>, snap: Table, nodes: Table, i: nat, o: Options)
    requires i < |created| && Stored(created, nodes.Keys) && nodes.Keys == snap.Keys
    ensures var (simple, after) := (PointerStep(created, snap, nodes, i, o), ExpandStep(created, snap, nodes, i, o).0);
      SamePairs(simple, after) && SameStatuses(simple, after)
  {
    hide Chosen, CreateAndNote, CreateResult, Pair, SamePairs, SameStatuses;
    var id := created[i];
    CreationWritesCopy(nodes, id, snap[id], o);
    SamePairsItself(nodes);
    match Chosen(created, nodes, i)
    case None =>
    case Some(s) =>
      if s in nodes {
        var paired := Pair(nodes, id, s);
        CreationWritesCopy(paired, id, paired[id], o);
        assert paired[id := paired[id]] == paired;
      }
  }

  lemma {:induction false} ExpandStepHosts(created: seq<NodeId>, snap: Table, nodes: Table, i: nat, o: Options)
    requires i < |created| && Stored(created, nodes.Keys) && SameHosts(snap, nodes)
    ensures SameHosts(snap, ExpandStep(created, snap, nodes, i, o).0)
  {
    hide Chosen, ExpandStep, PointerStep;
    ExpandStepIs(created, snap, nodes, i, o);
    PointerStepHosts(created, snap, nodes, i, o);
  }

  lemma PointerStepHosts(created: seq<NodeId>, snap: Table, nodes: Table, i: nat, o: Options)
    requires i < |created| && Stored(created, nodes.Keys) && SameHosts(snap, nodes)
    ensures SameHosts(snap, PointerStep(created, snap, nodes, i, o))
  {
    hide Chosen;
  }

  datatype Loop = BuildLoop | SecondaryLoop | ExpandLoop

  function LoopStep(loop: Loop, created: seq<NodeId>, snap: Table, nodes: Table, i: nat, o: Options): (r: (Table, Option<Outcome>))
    requires i < |created| && Stored(created, nodes.Keys) && nodes.Keys == snap.Keys
    ensures r.0.Keys == nodes.Keys
  {
    match loop
    case BuildLoop => BuildStep(created, snap, nodes, created[i], o)
    case SecondaryLoop => SecondaryStep(created, snap, nodes, created[i], o)
    case ExpandLoop => ExpandStep(created, snap, nodes, i, o)
  }

  /** A loop over all nodes from position i on, until a round ends it. */
  function LoopFrom(loop: Loop, created: seq<NodeId>, snap: Table, nodes: Table, i: nat, o: Options): (r: (Table, Outcome))
    requires i <= |created| && Stored(created, nodes.Keys) && nodes.Keys == snap.Keys
    ensures r.0.Keys == nodes.Keys
    decreases |created| - i
  {
    if i == |created| then (nodes, Succeeded)
    else
      var step := LoopStep(loop, created, snap, nodes, i, o);
      match step.1
      case Some(result) => (step.0, result)
      case None => LoopFrom(loop, created, snap, step.0, i + 1, o)
  }

  // ---------------------------------------------------------------- the two operations

  /** The database of one cluster as a value. */
  datatype World = World(created: seq<NodeId>, nodes: Table, status: ClusterStatus) {
    ghost predicate Valid() { Keyed(created, nodes.Keys) }
  }

  /** The lvstore loops of an activation once pairing has succeeded. */
  function Building(created: seq<NodeId>, nodes: Table, o: Options): (r: (Table, Outcome))
    requires Stored(created, nodes.Keys)
    ensures r.0.Keys == nodes.Keys
  {
    var built := LoopFrom(BuildLoop, created, nodes, nodes, 0, o);
    if !built.1.Succeeded? then built else LoopFrom(SecondaryLoop, created, built.0, built.0, 0, o)
  }

  function Activation(w: World, o: Options): (r: (World, Outcome))
    requires Stored(w.created, w.nodes.Keys)
    ensures r.0.created == w.created && r.0.nodes.Keys == w.nodes.Keys
  {
    if w.status.Active? && !o.force then (w, Refused)
    else
      var previous := if w.status.InActivation? then Unready else w.status;
      if !o.enoughDevices then (w.(status := previous), FailedRestored)
      else
        var paired := if o.ha then PairFrom(w.created, w.nodes, 0) else (w.nodes, Paired);
        match paired.1
        case NoSecondary => (World(w.created, paired.0, previous), FailedRestored)
        case MissingRecord => (World(w.created, paired.0, InActivation), Crashed)
        case Paired =>
          var built := Building(w.created, paired.0, o);
          match built.1
          case Succeeded => (World(w.created, built.0, Active), Succeeded)
          case Crashed => (World(w.created, built.0, InActivation), Crashed)
          case ended => (World(w.created, built.0, previous), ended)
  }

  predicate Expandable(s: ClusterStatus) {
    s.Active? || s.InExpansion? || s.ClusterReadOnly? || s.Degraded?
  }

  function Expansion(w: World, o: Options): (r: (World, Outcome))
    requires Stored(w.created, w.nodes.Keys)
    ensures r.0.created == w.created && r.0.nodes.Keys == w.nodes.Keys
  {
    if !Expandable(w.status) then (w, Refused)
    else
      var grown := LoopFrom(ExpandLoop, w.created, w.nodes, w.nodes, 0, o);
      match grown.1
      case Succeeded => (World(w.created, grown.0, Active), Succeeded)
      case Crashed => (World(w.created, grown.0, InExpansion), Crashed)
      case ended => (World(w.created, grown.0, w.status), ended)
  }
}
