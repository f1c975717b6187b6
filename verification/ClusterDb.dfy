/**
 The imperative form: cluster_activate, cluster_expand and the scans they use, as methods that
 overwrite records of one database object. Each is tied to its specification in Pairing.
 */
module ClusterDb {
  import opened Records
  import opened Pairing
  import opened LvstoreRecords
  import opened ClusterOps
  import opened ClusterEnds

  lemma ScanStarts(created: seq<NodeId>, nodes: Table, host: string)
    requires Stored(created, nodes.Keys)
    ensures Eligible(created, nodes, host, 0) == [] && FirstFree(created, nodes, host, |created|) == None
  {
  }

  /** What one node adds to the answer of the scan. */
  lemma ScanRound(created: seq<NodeId>, nodes: Table, host: string, i: nat)
    requires i < |created| && Stored(created, nodes.Keys)
    ensures var n := nodes[created[i]];
      && Eligible(created, nodes, host, i + 1)
         == Eligible(created, nodes, host, i) + (if Reachable(n, host) && (n.dedicated || Free(n)) then [created[i]] else [])
      && FirstFree(created, nodes, host, i)
         == if Reachable(n, host) && Free(n) then Some(created[i]) else FirstFree(created, nodes, host, i + 1)
  {
  }

  lemma KeysDistinct(created: seq<NodeId>, keys: set<NodeId>, p: nat, i: nat)
    requires Keyed(created, keys) && p < |created| && i < |created| && created[i] == created[p]
    ensures i == p
  {
  }

  lemma TwoDiffer(created: seq<NodeId>, keys: set<NodeId>, p: nat)
    requires Keyed(created, keys) && p < |created|
    ensures created[p] in created && (|created| == 2 ==> created[1 - p] != created[p])
  {
  }

  class Database {
    var created: seq<NodeId>
    var nodes: Table
    var status: ClusterStatus

    ghost predicate Valid() reads this { Keyed(created, nodes.Keys) }

    function View(): World reads this { World(created, nodes, status) }

    constructor (w: World)
      requires w.Valid()
      ensures Valid() && View() == w
    {
      created, nodes, status := w.created, w.nodes, w.status;
    }

    /** get_secondary_nodes for the copy `current` of the record of created[p]. */
    method GetSecondaryNodes(ghost p: nat, id: NodeId, current: Node) returns (found: seq<NodeId>)
      requires Valid() && p < |created| && created[p] == id && current.host == nodes[id].host
      ensures found == Candidates(created, nodes, p)
    {
      TwoDiffer(created, nodes.Keys, p);
      hide Keyed, FirstFree, Eligible;
      if |created| == 2 {
        found := TheOther(id);
      } else {
        found := Scan(p, id, current.host);
      }
    }

    /** With two nodes the other one is taken, whatever its state. */
    method TheOther(id: NodeId) returns (found: seq<NodeId>)
      requires Valid() && |created| == 2 && id in created
      ensures found == [created[if created[0] == id then 1 else 0]]
    {
      for i := 0 to 2
        invariant forall k :: 0 <= k < i ==> created[k] == id
      {
        if created[i] != id {
          return [created[i]];
        }
      }
      assert false;
    }

    /** The scan over all nodes, which ends early at the first free node behind the current one. */
    method Scan(ghost p: nat, id: NodeId, host: string) returns (found: seq<NodeId>)
      requires Valid() && p < |created| && created[p] == id && host == nodes[id].host
      ensures found == match FirstFree(created, nodes, host, p + 1)
        case Some(s) => [s]
        case None => Eligible(created, nodes, host, |created|)
    {
      hide FirstFree, Eligible;
      found := [];
      var nodeFound := false;
      ScanStarts(created, nodes, host);
      for i := 0 to |created|
        invariant nodeFound <==> p < i
        invariant found == Eligible(created, nodes, host, i)
        invariant nodeFound ==> FirstFree(created, nodes, host, p + 1) == FirstFree(created, nodes, host, i)
      {
        ScanRound(created, nodes, host, i);
        var node := nodes[created[i]];
        if created[i] == id {
          KeysDistinct(created, nodes.Keys, p, i);
          nodeFound := true;
        } else if node.status.Online? && node.host != host {
          if node.dedicated {
            found := found + [created[i]];
          } else if node.primary == NONE {
            found := found + [created[i]];
            if nodeFound {
              return [created[i]];
            }
          }
        }
      }
    }

    /** Reads two records afresh and writes each back whole. */
    method WritePair(id: NodeId, s: NodeId)
      requires Valid() && id in nodes && s in nodes
      modifies this`nodes
      ensures nodes == Pair(old(nodes), id, s)
    {
      var snode := nodes[id];
      nodes := nodes[id := snode.(secondary := s)];
      var secNode := nodes[s];
      nodes := nodes[s := secNode.(primary := id)];
    }

    /** One round of the pairing loop, deciding on the copy `snode` read before the loop. */
    method PairOne(i: nat, snode: Node) returns (r: Option<PairingResult>)
      requires Valid() && i < |created|
      requires var now := nodes[created[i]];
        snode.dedicated == now.dedicated && snode.secondary == now.secondary && snode.host == now.host
      modifies this`nodes
      ensures (nodes, r) == PairStep(created, old(nodes), i)
    {
      var id := created[i];
      if snode.dedicated {
        return None;
      }
      if snode.secondary != NONE {
        if snode.secondary !in nodes {
          return Some(MissingRecord);
        }
        var secNode := nodes[snode.secondary];
        nodes := nodes[snode.secondary := secNode.(primary := id)];
        return None;
      }
      var secondaries := GetSecondaryNodes(i, id, snode);
      if |secondaries| == 0 {
        return Some(NoSecondary);
      }
      ChosenMeans(created, nodes, i);
      WritePair(id, secondaries[0]);
      return None;
    }

    /** The pairing loop of cluster_activate; the copies it decides on go stale but never matter. */
    method PairNodes() returns (r: PairingResult)
      requires Valid()
      modifies this`nodes
      ensures (nodes, r) == PairFrom(created, old(nodes), 0)
      ensures Valid()
    {
      var snodes := nodes;
      for i := 0 to |created|
        invariant nodes.Keys == snodes.Keys
        invariant AgreeFrom(created, snodes, nodes, i)
        invariant PairFrom(created, snodes, 0) == PairFrom(created, nodes, i)
      {
        PairStepAgrees(created, snodes, nodes, i);
        var ended := PairOne(i, snodes[created[i]]);
        if ended.Some? {
          return ended.value;
        }
      }
      return Paired;
    }

    /** create_lvstore for the copy `snode` of the caller. */
    method CreateLvstore(id: NodeId, snode: Node, o: Options) returns (r: LvstoreResult)
      requires Valid() && id in nodes
      modifies this`nodes
      ensures nodes == Created(old(nodes), id, snode, o) && r == CreateResult(old(nodes), id, snode, o)
    {
      if o.creation(id).RaisesFirst? {
        return Raised;
      }
      var own := snode.(journals := o.journals(id));
      if o.creation(id).RaisesUnnamed? {
        nodes := nodes[id := own];
        return Raised;
      }
      own := own.(lvstore := true, lvstoreStatus := InCreation);
      nodes := nodes[id := own];
      if o.creation(id).OwnStackFails? {
        return NotBuilt;
      }
      if snode.secondary != NONE {
        r := CreateOnPartner(id, own, o);
        return;
      }
      return Built;
    }

    /** The part of create_lvstore that builds on the secondary. */
    method CreateOnPartner(id: NodeId, own: Node, o: Options) returns (r: LvstoreResult)
      requires Valid() && id in nodes
      modifies this`nodes
      ensures r == if own.secondary !in old(nodes) || o.creation(id).PartnerRaises? then Raised
                   else if o.creation(id).PartnerStackFails? then NotBuilt else Built
      ensures nodes == if r.Raised? then old(nodes) else PartnerWritten(old(nodes), id, own, own.secondary, o.creation(id), o)
    {
      if own.secondary !in nodes || o.creation(id).PartnerRaises? {
        return Raised;
      }
      var secNode := nodes[own.secondary].(journals := o.journals(own.secondary));
      nodes := nodes[own.secondary := secNode];
      if o.creation(id).PartnerStackFails? {
        return NotBuilt;
      }
      if o.hublvol(id) {
        nodes := nodes[id := own];
      }
      nodes := nodes[own.secondary := secNode];
      return Built;
    }

    /** Reads the record again and notes how its lvstore went. */
    method Note(id: NodeId, r: LvstoreResult)
      requires Valid() && id in nodes
      modifies this`nodes
      ensures nodes == Noted(old(nodes), id, r)
    {
      if !r.Raised? {
        var snode := nodes[id];
        nodes := nodes[id := snode.(lvstoreStatus := if r.Built? then Ready else NotReady)];
      }
    }

    /** recreate_lvstore_on_sec, over the records the scan gave at its start. */
    method RecreateLvstoreOnSec(id: NodeId, o: Options) returns (ok: bool)
      requires Valid()
      modifies this`nodes
      ensures (nodes, ok) == Rebuilt(created, old(nodes), id, o)
    {
      var scanned := nodes;
      ScanIsStored(created, nodes, id, |created|);
      var primaries := PrimariesOf(id);
      for i := 0 to |primaries|
        invariant nodes.Keys == scanned.Keys
        invariant RebuildFrom(scanned, scanned, primaries, 0, o.rebuilt(id)) == RebuildFrom(nodes, scanned, primaries, i, o.rebuilt(id))
      {
        var primary := scanned[primaries[i]];
        nodes := nodes[primaries[i] := primary.(lvstoreStatus := InCreation)];
        if i == o.rebuilt(id) {
          return false;
        }
        var again := nodes[primaries[i]];
        nodes := nodes[primaries[i] := again.(lvstoreStatus := Ready)];
      }
      return true;
    }

    /** recreate_lvstore for the copy `snode` of the caller: the records it writes. */
    method RecreateLvstore(id: NodeId, snode: Node, o: Options) returns (r: LvstoreResult)
      requires Valid() && id in nodes
      modifies this`nodes
      ensures (nodes, r) == Recreated(created, old(nodes), id, snode, o)
    {
      nodes := nodes[id := snode.(lvstoreStatus := InCreation)];
      if o.recovery(id).JournalsRaise? {
        return Raised;
      }
      var own := nodes[id].(journals := o.journals(id));
      nodes := nodes[id := own];
      if o.recovery(id).StackFails? {
        return NotBuilt;
      }
      if own.secondary == NONE {
        if o.recovery(id).RecoveryFails? {
          nodes := nodes[id := nodes[id].(status := Offline)];
          return Raised;
        }
        return Built;
      }
      if own.secondary !in nodes {
        return Raised;
      }
      r := RecreateWithPartner(id, own, o);
    }

    method RecreateWithPartner(id: NodeId, own: Node, o: Options) returns (r: LvstoreResult)
      requires Valid() && id in nodes && own.secondary in nodes
      modifies this`nodes
      ensures (nodes, r) == WithPartner(created, old(nodes), id, own, o)
    {
      hide Rebuilt;
      var s := own.secondary;
      var secNode := nodes[s];
      var held := secNode.status.Unreachable? && o.lvols(id);
      if held {
        nodes := nodes[id := nodes[id].(status := Suspended)];
      }
      if secNode.status.Online? {
        nodes := nodes[s := secNode.(lvstoreStatus := InCreation)];
      }
      if o.recovery(id).RecoveryFails? {
        nodes := nodes[id := nodes[id].(status := Offline)];
        return Raised;
      }
      if o.hublvol(id) {
        nodes := nodes[id := own];
      }
      if held {
        return NotBuilt;
      }
      if secNode.status.Online? {
        var again := nodes[s];
        nodes := nodes[s := again.(lvstoreStatus := Ready)];
      }
      if own.primary != NONE && own.primary in nodes {
        var _ := RecreateLvstoreOnSec(own.primary, o);
      }
      return Built;
    }

    /** One round of the first lvstore loop of cluster_activate. */
    method BuildOne(ghost snap: Table, id: NodeId, snode: Node, o: Options) returns (r: Option<Outcome>)
      requires Valid() && id in nodes && snap.Keys == nodes.Keys && snap[id] == snode
      modifies this`nodes
      ensures (nodes, r) == BuildStep(created, snap, old(nodes), id, o)
    {
      hide Recreated, Created, CreateResult;
      if snode.dedicated || !snode.status.Online? {
        return None;
      }
      var ret;
      if snode.lvstore && !o.forceLvstoreCreate {
        ret := RecreateLvstore(id, snode, o);
        if ret.Raised? {
          return Some(FailedRestored);
        }
      } else {
        ret := CreateLvstore(id, snode, o);
        if ret.Raised? {
          return Some(Crashed);
        }
      }
      Note(id, ret);
      return if ret.NotBuilt? && !o.force then Some(FailedRestored) else None;
    }

    method BuildLvstores(o: Options) returns (r: Outcome)
      requires Valid()
      modifies this`nodes
      ensures (nodes, r) == LoopFrom(BuildLoop, created, old(nodes), old(nodes), 0, o)
      ensures Valid()
    {
      hide BuildStep;
      var snodes := nodes;
      for i := 0 to |created|
        invariant nodes.Keys == snodes.Keys
        invariant LoopFrom(BuildLoop, created, snodes, snodes, 0, o) == LoopFrom(BuildLoop, created, snodes, nodes, i, o)
      {
        var ended := BuildOne(snodes, created[i], snodes[created[i]], o);
        if ended.Some? {
          return ended.value;
        }
      }
      return Succeeded;
    }

    /** One round of the second lvstore loop of cluster_activate. */
    method RebuildOne(ghost snap: Table, id: NodeId, snode: Node, o: Options) returns (r: Option<Outcome>)
      requires Valid() && id in nodes && snap.Keys == nodes.Keys && snap[id] == snode
      modifies this`nodes
      ensures (nodes, r) == SecondaryStep(created, snap, old(nodes), id, o)
    {
      hide Rebuilt;
      if !snode.status.Online? || !snode.dedicated {
        return None;
      }
      var ret := RecreateLvstoreOnSec(id, o);
      Note(id, if ret then Built else NotBuilt);
      return if !ret && !o.force then Some(FailedRestored) else None;
    }

    /** Second lvstore loop of cluster_activate, over the dedicated secondaries. */
    method RebuildSecondaries(o: Options) returns (r: Outcome)
      requires Valid()
      modifies this`nodes
      ensures (nodes, r) == LoopFrom(SecondaryLoop, created, old(nodes), old(nodes), 0, o)
      ensures Valid()
    {
      hide SecondaryStep;
      var snodes := nodes;
      for i := 0 to |created|
        invariant nodes.Keys == snodes.Keys
        invariant LoopFrom(SecondaryLoop, created, snodes, snodes, 0, o) == LoopFrom(SecondaryLoop, created, snodes, nodes, i, o)
      {
        var ended := RebuildOne(snodes, created[i], snodes[created[i]], o);
        if ended.Some? {
          return ended.value;
        }
      }
      return Succeeded;
    }

    method BuildAll(o: Options) returns (r: Outcome)
      requires Valid()
      modifies this`nodes
      ensures (nodes, r) == Building(created, old(nodes), o)
      ensures Valid()
    {
      r := BuildLvstores(o);
      if r.Succeeded? {
        r := RebuildSecondaries(o);
      }
    }

    method ClusterActivate(o: Options) returns (r: Outcome)
      requires Valid()
      modifies this
      ensures (View(), r) == Activation(old(View()), o)
      ensures r == Refused <==> old(status) == Active && !o.force
      ensures status == match r
        case Refused => old(status)
        case Succeeded => Active
        case Crashed => InActivation
        case FailedRestored => if old(status) == InActivation then Unready else old(status)
      ensures Valid()
    {
      ActivationEnds(View(), o);
      hide PairFrom, Building, Keyed;
      if status == Active && !o.force {
        return Refused;
      }
      var oldStatus := status;
      if oldStatus == InActivation {
        oldStatus := Unready;
      } else {
        status := InActivation;
      }
      if !o.enoughDevices {
        status := oldStatus;
        return FailedRestored;
      }
      if o.ha {
        var paired := PairNodes();
        if paired.NoSecondary? {
          status := oldStatus;
          return FailedRestored;
        } else if paired.MissingRecord? {
          return Crashed;
        }
      }
      r := BuildAll(o);
      if r.Succeeded? {
        status := Active;
      } else if !r.Crashed? {
        status := oldStatus;
      }
    }

    /** One round of cluster_expand for the copy `snode` read before the loop. */
    method ExpandOne(i: nat, ghost snap: Table, snode: Node, o: Options) returns (r: Option<Outcome>)
      requires Valid() && i < |created| && snap.Keys == nodes.Keys && snap[created[i]] == snode
      requires snode.host == nodes[created[i]].host
      modifies this`nodes
      ensures (nodes, r) == ExpandStep(created, snap, old(nodes), i, o)
    {
      hide Created, CreateResult;
      var id, copy := created[i], snode;
      if !snode.status.Online? || snode.lvstore {
        return None;
      }
      if o.ha && snode.secondary == NONE {
        var secondaries := GetSecondaryNodes(i, id, snode);
        if |secondaries| == 0 {
          return Some(FailedRestored);
        }
        ChosenMeans(created, nodes, i);
        WritePair(id, secondaries[0]);
        copy := nodes[id];
      }
      var ret := CreateLvstore(id, copy, o);
      Note(id, ret);
      return AfterBuild(ret, false, Crashed);
    }

    /** The loop of cluster_expand. */
    method ExpandNodes(o: Options) returns (r: Outcome)
      requires Valid()
      modifies this`nodes
      ensures (nodes, r) == LoopFrom(ExpandLoop, created, old(nodes), old(nodes), 0, o)
      ensures Valid()
    {
      var snodes := nodes;
      for i := 0 to |created|
        invariant SameHosts(snodes, nodes)
        invariant LoopFrom(ExpandLoop, created, snodes, snodes, 0, o) == LoopFrom(ExpandLoop, created, snodes, nodes, i, o)
      {
        ExpandStepHosts(created, snodes, nodes, i, o);
        var ended := ExpandOne(i, snodes, snodes[created[i]], o);
        if ended.Some? {
          return ended.value;
        }
      }
      return Succeeded;
    }

    method ClusterExpand(o: Options) returns (r: Outcome)
      requires Valid()
      modifies this
      ensures (View(), r) == Expansion(old(View()), o)
      ensures r == Refused <==> old(status) !in {Active, InExpansion, ClusterReadOnly, Degraded}
      ensures status == match r
        case Succeeded => Active
        case Crashed => InExpansion
        case _ => old(status)
      ensures Valid()
    {
      ExpansionEnds(View(), o);
      if !Expandable(status) {
        return Refused;
      }
      var oldStatus := status;
      status := InExpansion;
      r := ExpandNodes(o);
      if r.Succeeded? {
        status := Active;
      } else if !r.Crashed? {
        status := oldStatus;
      }
    }

    /** get_primary_storage_nodes_by_secondary_node_id, in creation order. */
    method PrimariesOf(secondary: NodeId) returns (found: seq<NodeId>)
      requires Valid()
      ensures found == PrimaryScan(created, nodes, secondary, |created|)
    {
      found := [];
      for i := 0 to |created|
        invariant found == PrimaryScan(created, nodes, secondary, i)
      {
        var node := nodes[created[i]];
        if node.secondary == secondary && node.lvstore {
          found := found + [created[i]];
        }
      }
    }
  }
}
