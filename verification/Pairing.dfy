/**
 The pairing of primaries with secondaries: the candidate scan and the pairing loop of an
 activation. The database is a map of whole records; a read is a copy
 and a write replaces the whole record, so a stale copy written back can lose an update.
 */
module Pairing {
  import opened Records

  type NodeId = string

  datatype LvstoreStatus = Unset | InCreation | Ready | NotReady

  /** One storage node record. `primary` is the back pointer lvstore_stack_secondary_1, `journals`
      the remote journals. */
  datatype Node = Node(
    host: string,
    status: NodeStatus,
    dedicated: bool,
    secondary: NodeId,
    primary: NodeId,
    lvstore: bool,
    lvstoreStatus: LvstoreStatus,
    journals: seq<string>)

  type Table = map<NodeId, Node>

  const NONE: NodeId := ""

  /** Every id of the creation order has a record. */
  predicate Stored(created: seq<NodeId>, keys: set<NodeId>) {
    forall k :: 0 <= k < |created| ==> created[k] in keys
  }

  /** The ids in creation order are exactly the keys, each once; no record has the empty id. */
  ghost predicate Keyed(created: seq<NodeId>, keys: set<NodeId>) {
    && Stored(created, keys)
    && NONE !in keys
    && (forall id :: id in keys ==> id in created)
    && (forall i, j :: 0 <= i < j < |created| ==> created[i] != created[j])
  }

  /** Equal hosts, kinds and pointers. */
  predicate SamePair(a: Node, b: Node) {
    a.host == b.host && a.dedicated == b.dedicated && a.secondary == b.secondary && a.primary == b.primary
  }

  ghost predicate SamePairs(a: Table, b: Table) {
    a.Keys == b.Keys && forall id :: id in a ==> SamePair(a[id], b[id])
  }

  ghost predicate SameStatuses(a: Table, b: Table) {
    a.Keys == b.Keys && forall id :: id in a ==> a[id].status == b[id].status
  }

  // ---------------------------------------------------------------- candidate scan

  /** Online and on another host: the part of the scan's test that both kinds of node share. */
  predicate Reachable(n: Node, host: string) {
    n.status.Online? && n.host != host
  }

  predicate Free(n: Node) {
    !n.dedicated && n.primary == NONE
  }

  /** The first node from position i on that may serve as secondary and serves nobody yet. */
  function FirstFree(created: seq<NodeId>, nodes: Table, host: string, i: nat): Option<NodeId>
    requires i <= |created| && Stored(created, nodes.Keys)
    decreases |created| - i
  {
    if i == |created| then None
    else if Reachable(nodes[created[i]], host) && Free(nodes[created[i]]) then Some(created[i])
    else FirstFree(created, nodes, host, i + 1)
  }

  /** All nodes among the first k that may serve, dedicated ones included, in creation order. */
  function Eligible(created: seq<NodeId>, nodes: Table, host: string, k: nat): seq<NodeId>
    requires k <= |created| && Stored(created, nodes.Keys)
  {
    if k == 0 then []
    else
      var n := nodes[created[k - 1]];
      Eligible(created, nodes, host, k - 1)
      + if Reachable(n, host) && (n.dedicated || Free(n)) then [created[k - 1]] else []
  }

  /** The answer of get_secondary_nodes for the node at position p. */
  function Candidates(created: seq<NodeId>, nodes: Table, p: nat): seq<NodeId>
    requires p < |created| && Stored(created, nodes.Keys)
  {
    if |created| == 2 then [created[1 - p]]
    else match FirstFree(created, nodes, nodes[created[p]].host, p + 1)
      case Some(id) => [id]
      case None => Eligible(created, nodes, nodes[created[p]].host, |created|)
  }

  /** What the callers use: the first candidate. */
  function Chosen(created: seq<NodeId>, nodes: Table, p: nat): Option<NodeId>
    requires p < |created| && Stored(created, nodes.Keys)
  {
    var c := Candidates(created, nodes, p);
    if c == [] then None else Some(c[0])
  }

  lemma {:induction false} EligibleMeans(created: seq<NodeId>, nodes: Table, host: string, k: nat, id: NodeId)
    requires k <= |created| && Stored(created, nodes.Keys)
    ensures id in Eligible(created, nodes, host, k) <==>
      id in created[..k] && Reachable(nodes[id], host) && (nodes[id].dedicated || Free(nodes[id]))
  {
    if k > 0 {
      EligibleMeans(created, nodes, host, k - 1, id);
      assert created[..k] == created[..k - 1] + [created[k - 1]];
    }
  }

  lemma {:induction false} FirstFreeMeans(created: seq<NodeId>, nodes: Table, host: string, i: nat)
    requires i <= |created| && Stored(created, nodes.Keys)
    ensures match FirstFree(created, nodes, host, i)
      case Some(id) =>
        (exists k :: i <= k < |created| && created[k] == id
                     && Reachable(nodes[id], host) && Free(nodes[id])
                     && forall m :: i <= m < k ==> !(Reachable(nodes[created[m]], host) && Free(nodes[created[m]])))
      case None => forall m :: i <= m < |created| ==> !(Reachable(nodes[created[m]], host) && Free(nodes[created[m]]))
    decreases |created| - i
  {
    if i < |created| && !(Reachable(nodes[created[i]], host) && Free(nodes[created[i]])) {
      FirstFreeMeans(created, nodes, host, i + 1);
    }
  }

  /** Whom the scan may choose: another node, and outside the two-node case one that is online,
      on another host, and either dedicated or not yet serving anybody. */
  lemma ChosenMeans(created: seq<NodeId>, nodes: Table, p: nat)
    requires Keyed(created, nodes.Keys) && p < |created|
    ensures match Chosen(created, nodes, p)
      case Some(s) => s in nodes && s != created[p]
        && (|created| != 2 ==>
              Reachable(nodes[s], nodes[created[p]].host) && (nodes[s].dedicated || Free(nodes[s])))
      case None => |created| != 2 && forall id :: id in nodes ==>
        !(Reachable(nodes[id], nodes[created[p]].host) && (nodes[id].dedicated || Free(nodes[id])))
  {
    var host := nodes[created[p]].host;
    FirstFreeMeans(created, nodes, host, p + 1);
    forall id | id in nodes
      ensures id in Eligible(created, nodes, host, |created|) <==>
        Reachable(nodes[id], host) && (nodes[id].dedicated || Free(nodes[id]))
    {
      EligibleMeans(created, nodes, host, |created|, id);
    }
    var c := Candidates(created, nodes, p);
    if c != [] && |created| != 2 && FirstFree(created, nodes, host, p + 1).None? {
      EligibleMeans(created, nodes, host, |created|, c[0]);
    }
  }

  /** get_primary_storage_nodes_by_secondary_node_id over the first k nodes. */
  function PrimaryScan(created: seq<NodeId>, nodes: Table, secondary: NodeId, k: nat): seq<NodeId>
    requires k <= |created| && Stored(created, nodes.Keys)
  {
    if k == 0 then []
    else
      PrimaryScan(created, nodes, secondary, k - 1)
      + if nodes[created[k - 1]].secondary == secondary && nodes[created[k - 1]].lvstore then [created[k - 1]] else []
  }

  // ---------------------------------------------------------------- pairing loop

  /** The two whole-record writes that make s the secondary of p. */
  function Pair(nodes: Table, p: NodeId, s: NodeId): (r: Table)
    requires p in nodes && s in nodes
    ensures r.Keys == nodes.Keys
  {
    var once := nodes[p := nodes[p].(secondary := s)];
    once[s := once[s].(primary := p)]
  }

  lemma PairFields(nodes: Table, p: NodeId, s: NodeId, id: NodeId)
    requires p in nodes && s in nodes && id in nodes
    ensures var n := Pair(nodes, p, s)[id];
      n.secondary == (if id == p then s else nodes[id].secondary) && n.primary == (if id == s then p else nodes[id].primary)
  {
  }

  lemma PairGives(nodes: Table, p: NodeId, s: NodeId)
    requires p in nodes && s in nodes && p != s
    ensures Pair(nodes, p, s)[p].secondary == s
  {
  }

  datatype PairingResult = Paired | NoSecondary | MissingRecord

  /** One round of the pairing loop: the records after it, and the result if the loop ends here. */
  function PairStep(created: seq<NodeId>, nodes: Table, i: nat): (r: (Table, Option<PairingResult>))
    requires i < |created| && Stored(created, nodes.Keys)
    ensures r.0.Keys == nodes.Keys
  {
    var id := created[i];
    if nodes[id].dedicated then (nodes, None)
    else if nodes[id].secondary != NONE then
      var s := nodes[id].secondary;
      if s !in nodes then (nodes, Some(MissingRecord))
      else (nodes[s := nodes[s].(primary := id)], None)
    else match Chosen(created, nodes, i)
      case None => (nodes, Some(NoSecondary))
      case Some(s) => if s !in nodes then (nodes, Some(MissingRecord)) else (Pair(nodes, id, s), None)
  }

  /** The pairing loop of cluster_activate from position i on. */
  function PairFrom(created: seq<NodeId>, nodes: Table, i: nat): (r: (Table, PairingResult))
    requires i <= |created| && Stored(created, nodes.Keys)
    ensures r.0.Keys == nodes.Keys
    decreases |created| - i
  {
    if i == |created| then (nodes, Paired)
    else
      var step := PairStep(created, nodes, i);
      match step.1
      case Some(result) => (step.0, result)
      case None => PairFrom(created, step.0, i + 1)
  }

  /** What a loop's copies, read before it, still tell the truth about at round i: hosts and kinds
      of all nodes, and the secondaries of the nodes not yet reached. */
  ghost predicate AgreeFrom(created: seq<NodeId>, snap: Table, nodes: Table, i: nat) {
    && nodes.Keys == snap.Keys
    && (forall id :: id in nodes ==> nodes[id].host == snap[id].host && nodes[id].dedicated == snap[id].dedicated)
    && (forall k :: i <= k < |created| && created[k] in nodes ==> nodes[created[k]].secondary == snap[created[k]].secondary)
  }

  lemma {:induction false} PairStepAgrees(created: seq<NodeId>, snap: Table, nodes: Table, i: nat)
    requires Keyed(created, nodes.Keys) && Stored(created, nodes.Keys) && i < |created| && AgreeFrom(created, snap, nodes, i)
    ensures AgreeFrom(created, snap, PairStep(created, nodes, i).0, i + 1)
  {
    hide Keyed, Chosen, PairStep;
    var after := PairStep(created, nodes, i).0;
    PairStepLeaves(created, nodes, i);
    forall k | i + 1 <= k < |created| ensures after[created[k]].secondary == snap[created[k]].secondary {
      KeysDiffer(created, nodes.Keys, i, k);
    }
  }

  lemma KeysDiffer(created: seq<NodeId>, keys: set<NodeId>, i: nat, k: nat)
    requires Keyed(created, keys) && i < |created| && k < |created| && i != k
    ensures created[i] != created[k]
  {
  }

  /** A round gives a secondary to its own node only, and leaves hosts and kinds alone. */
  lemma {:induction false} PairStepLeaves(created: seq<NodeId>, nodes: Table, i: nat)
    requires i < |created| && Stored(created, nodes.Keys)
    ensures var after := PairStep(created, nodes, i).0;
      forall id :: id in nodes ==>
        after[id].host == nodes[id].host && after[id].dedicated == nodes[id].dedicated
        && (id != created[i] ==> after[id].secondary == nodes[id].secondary)
  {
    hide Chosen;
  }
}
