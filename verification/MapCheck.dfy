/** parse_distr_cluster_map on a node's own full map: what passing it means. */
module MapCheck {
  import opened Records
  import opened ClusterMap
  import opened MapLaws

  ghost predicate HasDevice(n: Node, id: Id) { exists j :: 0 <= j < |n.devices| && n.devices[j].id == id }

  /** Device ids are unique in the cluster. */
  ghost predicate UniqueDevices(nodes: seq<Node>) {
    && (forall i, j, k :: 0 <= i < |nodes| && 0 <= j < k < |nodes[i].devices| ==>
          nodes[i].devices[j].id != nodes[i].devices[k].id)
    && (forall i, j, id :: 0 <= i < j < |nodes| && HasDevice(nodes[i], id) ==> !HasDevice(nodes[j], id))
  }

  /** No entry of a map overwrites another: node ids are unique, and so are the storage IDs of the
      mapped devices of one node. */
  ghost predicate OnePerSlot(nodes: seq<Node>) {
    UniqueNodes(nodes) && forall i :: 0 <= i < |nodes| ==> UniqueOrders(nodes[i].devices)
  }

  lemma FindNodeIs(nodes: seq<Node>, i: nat)
    requires UniqueNodes(nodes) && i < |nodes|
    ensures FindNode(nodes, nodes[i].id) == Some(nodes[i])
  {
    FirstIs(nodes, (n: Node) => n.id, i);
  }

  lemma FindInIs(devices: seq<Device>, j: nat)
    requires j < |devices| && forall k :: 0 <= k < j ==> devices[k].id != devices[j].id
    ensures FindIn(devices, devices[j].id) == Some(devices[j])
  {
    FirstIs(devices, (d: Device) => d.id, j);
  }

  lemma {:induction false} FindDeviceIs(nodes: seq<Node>, i: nat, j: nat)
    requires UniqueDevices(nodes) && i < |nodes| && j < |nodes[i].devices|
    ensures FindDevice(nodes, nodes[i].devices[j].id) == Some(nodes[i].devices[j])
  {
    if i == 0 {
      FindInIs(nodes[0].devices, j);
    } else {
      var id := nodes[i].devices[j].id;
      assert HasDevice(nodes[i], id);
      if FindIn(nodes[0].devices, id).Some? {
        var d := FindIn(nodes[0].devices, id).value;
        var k :| 0 <= k < |nodes[0].devices| && nodes[0].devices[k] == d;
        assert HasDevice(nodes[0], id);
      }
      TailIsUnique(nodes);
      FindDeviceIs(nodes[1..], i - 1, j);
    }
  }

  lemma TailIsUnique(nodes: seq<Node>)
    requires nodes != [] && UniqueDevices(nodes)
    ensures UniqueDevices(nodes[1..])
  {
    var tail := nodes[1..];
    forall i, j, id | 0 <= i < j < |tail| && HasDevice(tail[i], id) ensures !HasDevice(tail[j], id) {
      var a, b := i + 1, j + 1;
      assert tail[i] == nodes[a] && tail[j] == nodes[b];
    }
    forall i, j, k | 0 <= i < |tail| && 0 <= j < k < |tail[i].devices|
      ensures tail[i].devices[j].id != tail[i].devices[k].id
    {
      var a := i + 1;
      assert tail[i] == nodes[a];
    }
  }

  /** A line of the printed map. */
  ghost predicate IsEntry(line: Line, m: Nodes) {
    match line
    case NodeLine(id, s) => id in m && s == m[id].status
    case DeviceLine(o, s, dev) => exists id :: id in m && o in m[id].devices && m[id].devices[o].status == s && m[id].devices[o].id == dev
    case Other => true
  }

  /** The lines are the map: nothing else, and every node and device of it. */
  ghost predicate Prints(lines: seq<Line>, m: Nodes) {
    && (forall k :: 0 <= k < |lines| ==> IsEntry(lines[k], m))
    && (forall id :: id in m ==> NodeLine(id, m[id].status) in lines)
    && (forall id, o :: id in m && o in m[id].devices ==>
          DeviceLine(o, m[id].devices[o].status, m[id].devices[o].id) in lines)
  }

  /** The check wants an online device to be shown online; anything else is shown as it is. */
  lemma JudgeDevice(nodes: seq<Node>, i: nat, j: nat, me: Id, remotes: seq<Remote>)
    requires UniqueDevices(nodes) && i < |nodes| && j < |nodes[i].devices|
    ensures var d := nodes[i].devices[j]; var e := EntryOf(d, nodes[i].id, me, remotes);
      Judge(nodes, DeviceLine(d.order, e.status, e.id)).Ok? <==> (d.status.DevOnline? ==> Reached(d, nodes[i].id, me, remotes))
  {
    FindDeviceIs(nodes, i, j);
  }

  /** Every online device of the map is reached by name: local, or among the remote devices. */
  ghost predicate ReachesOnline(nodes: seq<Node>, me: Id, remotes: seq<Remote>) {
    forall i, j :: 0 <= i < |nodes| && !nodes[i].dedicated && 0 <= j < |nodes[i].devices| && nodes[i].devices[j].status.DevOnline? ==>
      Reached(nodes[i].devices[j], nodes[i].id, me, remotes)
  }

  lemma EntryOfMap(nodes: seq<Node>, me: Id, remotes: seq<Remote>, id: Id) returns (i: nat)
    requires UniqueNodes(nodes) && id in MapOf(nodes, me, remotes)
    ensures i < |nodes| && !nodes[i].dedicated && nodes[i].id == id
    ensures MapOf(nodes, me, remotes)[id] == NodeEntryOf(nodes[i], me, remotes)
  {
    KeysOfMap(nodes, me, remotes, id);
    i :| 0 <= i < |nodes| && !nodes[i].dedicated && nodes[i].id == id;
    MapAt(nodes, me, remotes, i);
  }

  lemma LinePasses(nodes: seq<Node>, me: Id, remotes: seq<Remote>, line: Line)
    requires OnePerSlot(nodes) && UniqueDevices(nodes) && ReachesOnline(nodes, me, remotes)
    requires IsEntry(line, MapOf(nodes, me, remotes))
    ensures Judge(nodes, line).Ok?
  {
    hide MapOf, DevMap, FindDevice, UniqueDevices, EntryOf, Judge, Reached, UniqueOrders;
    JudgeOther(nodes);
    var m := MapOf(nodes, me, remotes);
    if line.NodeLine? {
      var i := EntryOfMap(nodes, me, remotes, line.node);
      JudgeNode(nodes, i);
    } else if line.DeviceLine? {
      var o := line.order;
      var id :| id in m && o in m[id].devices && m[id].devices[o].status == line.devStatus && m[id].devices[o].id == line.device;
      var i := EntryOfMap(nodes, me, remotes, id);
      var n := nodes[i];
      KeysOfDevices(n.devices, n.id, me, remotes, o);
      var j :| 0 <= j < |n.devices| && Mapped(n.devices[j].status) && n.devices[j].order == o;
      DeviceAt(n.devices, n.id, me, remotes, j);
      JudgeDevice(nodes, i, j, me, remotes);
    }
  }

  lemma JudgeOther(nodes: seq<Node>)
    ensures Judge(nodes, Other).Ok?
  {
  }

  lemma JudgeNode(nodes: seq<Node>, i: nat)
    requires UniqueNodes(nodes) && i < |nodes|
    ensures Judge(nodes, NodeLine(nodes[i].id, ShownNode(nodes[i].status))).Ok?
  {
    FindNodeIs(nodes, i);
  }

  /** The check of a node's own full map, against the database it was made from, passes exactly when
      the node reaches every online device of the map. */
  lemma OwnMapPassesIff(nodes: seq<Node>, me: Id, remotes: seq<Remote>, lines: seq<Line>)
    requires OnePerSlot(nodes) && UniqueDevices(nodes) && Prints(lines, MapOf(nodes, me, remotes))
    ensures (forall k :: 0 <= k < |lines| ==> Judge(nodes, lines[k]).Ok?) <==> ReachesOnline(nodes, me, remotes)
  {
    hide MapOf, DevMap, FindDevice, UniqueDevices, Judge, Reached, UniqueOrders, Reach;
    if ReachesOnline(nodes, me, remotes) {
      forall k | 0 <= k < |lines| ensures Judge(nodes, lines[k]).Ok? {
        LinePasses(nodes, me, remotes, lines[k]);
      }
    }
    if forall k :: 0 <= k < |lines| ==> Judge(nodes, lines[k]).Ok? {
      forall i, j | 0 <= i < |nodes| && !nodes[i].dedicated && 0 <= j < |nodes[i].devices| && nodes[i].devices[j].status.DevOnline?
        ensures Reached(nodes[i].devices[j], nodes[i].id, me, remotes)
      {
        var n := nodes[i];
        MapAt(nodes, me, remotes, i);
        DeviceAt(n.devices, n.id, me, remotes, j);
        var e := EntryOf(n.devices[j], n.id, me, remotes);
        assert DeviceLine(n.devices[j].order, e.status, e.id) in lines;
        JudgeDevice(nodes, i, j, me, remotes);
      }
    }
  }
}
