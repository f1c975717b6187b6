/**
 The cluster map as a derived view: events against the full computation, weights against items, and
 what a check of a node's own map tells.
 */
module MapLaws {
  import opened Records
  import opened ClusterMap

  // ---------------------------------------------------------------- the map at a key

  ghost predicate UniqueNodes(nodes: seq<Node>) {
    forall i, j :: 0 <= i < j < |nodes| ==> nodes[i].id != nodes[j].id
  }

  /** Mapped devices of one node have different storage IDs. */
  ghost predicate UniqueOrders(devices: seq<Device>) {
    forall i, j :: 0 <= i < j < |devices| && Mapped(devices[i].status) && Mapped(devices[j].status) ==>
      devices[i].order != devices[j].order
  }

  ghost predicate HasOrder(n: Node, order: int) {
    exists j :: 0 <= j < |n.devices| && Mapped(n.devices[j].status) && n.devices[j].order == order
  }

  /** Storage IDs of mapped devices are unique in the cluster. */
  ghost predicate Proper(nodes: seq<Node>) {
    && UniqueNodes(nodes)
    && (forall i :: 0 <= i < |nodes| ==> UniqueOrders(nodes[i].devices))
    && (forall i, j, o :: 0 <= i < |nodes| && 0 <= j < |nodes| && i != j && HasOrder(nodes[i], o) ==> !HasOrder(nodes[j], o))
  }

  lemma {:induction false} KeysOfMap(nodes: seq<Node>, me: Id, remotes: seq<Remote>, id: Id)
    ensures id in MapOf(nodes, me, remotes) <==> exists i :: 0 <= i < |nodes| && !nodes[i].dedicated && nodes[i].id == id
  {
    if nodes != [] {
      var front := nodes[..|nodes| - 1];
      KeysOfMap(front, me, remotes, id);
      if i :| 0 <= i < |front| && !front[i].dedicated && front[i].id == id {
        assert nodes[i].id == id;
      }
    }
  }

  function NodeEntryOf(n: Node, me: Id, remotes: seq<Remote>): NodeEntry {
    NodeEntry(ShownNode(n.status), DevMap(n.devices, n.id, me, remotes))
  }

  lemma {:induction false} MapAt(nodes: seq<Node>, me: Id, remotes: seq<Remote>, i: nat)
    requires UniqueNodes(nodes) && i < |nodes| && !nodes[i].dedicated
    ensures nodes[i].id in MapOf(nodes, me, remotes)
    ensures MapOf(nodes, me, remotes)[nodes[i].id] == NodeEntryOf(nodes[i], me, remotes)
  {
    if i < |nodes| - 1 { MapAt(nodes[..|nodes| - 1], me, remotes, i); }
  }

  /** Writing one record changes the map at its key only. */
  lemma {:induction false} MapAfterWrite(nodes: seq<Node>, me: Id, remotes: seq<Remote>, i: nat, n: Node)
    requires UniqueNodes(nodes) && i < |nodes| && n.id == nodes[i].id && n.dedicated == nodes[i].dedicated
    ensures MapOf(nodes[i := n], me, remotes) ==
      if n.dedicated then MapOf(nodes, me, remotes) else MapOf(nodes, me, remotes)[n.id := NodeEntryOf(n, me, remotes)]
  {
    hide DevMap, ShownNode;
    var last := |nodes| - 1;
    if i == last {
      assert nodes[i := n][..last] == nodes[..last];
    } else {
      MapAfterWrite(nodes[..last], me, remotes, i, n);
      assert nodes[i := n][..last] == nodes[..last][i := n];
    }
  }

  lemma {:induction false} KeysOfDevices(devices: seq<Device>, owner: Id, me: Id, remotes: seq<Remote>, o: int)
    ensures o in DevMap(devices, owner, me, remotes)
      <==> exists j :: 0 <= j < |devices| && Mapped(devices[j].status) && devices[j].order == o
  {
    if devices != [] {
      var front := devices[..|devices| - 1];
      KeysOfDevices(front, owner, me, remotes, o);
      if j :| 0 <= j < |front| && Mapped(front[j].status) && front[j].order == o {
        assert devices[j].order == o;
      }
    }
  }

  lemma {:induction false} DeviceAt(devices: seq<Device>, owner: Id, me: Id, remotes: seq<Remote>, j: nat)
    requires UniqueOrders(devices) && j < |devices| && Mapped(devices[j].status)
    ensures devices[j].order in DevMap(devices, owner, me, remotes)
    ensures DevMap(devices, owner, me, remotes)[devices[j].order] == EntryOf(devices[j], owner, me, remotes)
  {
    if j < |devices| - 1 { DeviceAt(devices[..|devices| - 1], owner, me, remotes, j); }
  }

  lemma {:induction false} DevicesAfterWrite(devices: seq<Device>, owner: Id, me: Id, remotes: seq<Remote>, j: nat, d: Device)
    requires UniqueOrders(devices) && j < |devices| && Mapped(devices[j].status) && Mapped(d.status) && d.order == devices[j].order
    ensures DevMap(devices[j := d], owner, me, remotes)
      == DevMap(devices, owner, me, remotes)[d.order := EntryOf(d, owner, me, remotes)]
  {
    var last := |devices| - 1;
    if j == last {
      assert devices[j := d][..last] == devices[..last];
    } else {
      DevicesAfterWrite(devices[..last], owner, me, remotes, j, d);
      assert devices[j := d][..last] == devices[..last][j := d];
    }
  }

  // ---------------------------------------------------------------- delivery

  /** A receiver gets an event once; everybody else's map is left alone. */
  lemma {:induction false} NodeEventArrives(maps: Maps, nodes: seq<Node>, id: Id, s: NodeStatus, r: nat, k: nat)
    requires UniqueNodes(nodes) && r < |nodes| && k <= |nodes| && nodes[r].id in maps && Receives(nodes, nodes[r])
    ensures nodes[r].id in NodeSent(maps, nodes, id, s, k)
    ensures NodeSent(maps, nodes, id, s, k)[nodes[r].id]
      == if r < k then Take(maps[nodes[r].id], NodeEvent(id, ShownNode(s))) else maps[nodes[r].id]
  {
    hide Take, Receives;
    if k > 0 { NodeEventArrives(maps, nodes, id, s, r, k - 1); }
  }

  lemma {:induction false} DevEventArrives(maps: Maps, nodes: seq<Node>, d: Device, s: DeviceStatus, owner: Id, r: nat, k: nat)
    requires UniqueNodes(nodes) && r < |nodes| && k <= |nodes| && nodes[r].id in maps && Receives(nodes, nodes[r])
    ensures nodes[r].id in DevSent(maps, nodes, d, s, owner, k)
    ensures DevSent(maps, nodes, d, s, owner, k)[nodes[r].id]
      == if r < k then Take(maps[nodes[r].id], DevEvent(d.order, Reported(d, s, owner, nodes[r]))) else maps[nodes[r].id]
  {
    hide Take, Receives, Reported;
    if k > 0 { DevEventArrives(maps, nodes, d, s, owner, r, k - 1); }
  }

  // ---------------------------------------------------------------- how a map held may differ

  /** The same entry, or, unless exactness is asked for, one that reports an online device unavailable. */
  ghost predicate Near(exact: bool, held: Entry, full: Entry) {
    && held.(status := full.status) == full
    && (held.status == full.status || (!exact && held.status.Unavailable? && full.status.DevOnline?))
  }

  ghost predicate NodeNear(exact: bool, held: NodeEntry, full: NodeEntry) {
    && held.status == full.status && held.devices.Keys == full.devices.Keys
    && forall o :: o in full.devices ==> Near(exact, held.devices[o], full.devices[o])
  }

  ghost predicate MapNear(exact: bool, held: Nodes, full: Nodes) {
    held.Keys == full.Keys && forall id :: id in full ==> NodeNear(exact, held[id], full[id])
  }

  lemma NearIsEqual(held: Nodes, full: Nodes)
    requires MapNear(true, held, full)
    ensures held == full
  {
    forall id | id in full ensures held[id] == full[id] {
      assert NodeNear(true, held[id], full[id]);
      forall o | o in full[id].devices ensures held[id].devices[o] == full[id].devices[o] {
        assert Near(true, held[id].devices[o], full[id].devices[o]);
      }
    }
  }

  lemma NearItself(exact: bool, m: Nodes)
    ensures MapNear(exact, m, m)
  {
  }

  /** Whether node `me` reaches a device by name, and whether an online status is reported to it. */
  ghost predicate Reached(d: Device, owner: Id, me: Id, remotes: seq<Remote>) { Reach(d, owner, me, remotes) != "" }

  ghost predicate Attached(d: Device, owner: Id, me: Id, remotes: seq<Remote>) {
    owner == me || (FindRemote(remotes, d.id).Some? && FindRemote(remotes, d.id).value.status.DevOnline?)
  }

  /** An event agrees with the full map on a device exactly when the device is not online, or is both
      reached by name and attached by an online record, or neither. */
  lemma EventAgreesIff(d: Device, owner: Id, n: Node)
    ensures Reported(d, d.status, owner, n) == EntryOf(d, owner, n.id, n.remotes).status
      <==> !d.status.DevOnline? || (Reached(d, owner, n.id, n.remotes) <==> Attached(d, owner, n.id, n.remotes))
  {
  }

  /** Every mapped device that is attached is reached by name and, if exactness is asked for, the
      other way round. */
  ghost predicate Connected(exact: bool, nodes: seq<Node>, me: Id, remotes: seq<Remote>) {
    forall i, j :: 0 <= i < |nodes| && !nodes[i].dedicated && 0 <= j < |nodes[i].devices| && Mapped(nodes[i].devices[j].status) ==>
      ConnectedOne(exact, nodes[i].devices[j], nodes[i].id, me, remotes)
  }

  ghost predicate ConnectedOne(exact: bool, d: Device, owner: Id, me: Id, remotes: seq<Remote>) {
    && (Attached(d, owner, me, remotes) ==> Reached(d, owner, me, remotes))
    && (exact && Reached(d, owner, me, remotes) ==> Attached(d, owner, me, remotes))
  }

  // ---------------------------------------------------------------- one event

  lemma {:induction false} NotMapped(nodes: seq<Node>, me: Id, remotes: seq<Remote>, i: nat)
    requires UniqueNodes(nodes) && i < |nodes| && nodes[i].dedicated
    ensures nodes[i].id !in MapOf(nodes, me, remotes)
  {
    KeysOfMap(nodes, me, remotes, nodes[i].id);
  }

  /** A node event makes of the map held what recomputing it makes of the full one. */
  lemma NodeStep(exact: bool, held: Nodes, nodes: seq<Node>, i: nat, s: NodeStatus, me: Id, remotes: seq<Remote>)
    requires UniqueNodes(nodes) && i < |nodes| && MapNear(exact, held, MapOf(nodes, me, remotes))
    ensures MapNear(exact, Take(held, NodeEvent(nodes[i].id, ShownNode(s))),
                    MapOf(nodes[i := nodes[i].(status := s)], me, remotes))
  {
    hide MapOf, NodeNear, DevMap, ShownNode;
    var n := nodes[i].(status := s);
    MapAfterWrite(nodes, me, remotes, i, n);
    if n.dedicated {
      NotMapped(nodes, me, remotes, i);
    } else {
      MapAt(nodes, me, remotes, i);
      NodeStepHere(exact, held[n.id], nodes[i], s, me, remotes);
    }
  }

  lemma NodeStepHere(exact: bool, held: NodeEntry, n: Node, s: NodeStatus, me: Id, remotes: seq<Remote>)
    requires NodeNear(exact, held, NodeEntryOf(n, me, remotes))
    ensures NodeNear(exact, held.(status := ShownNode(s)), NodeEntryOf(n.(status := s), me, remotes))
  {
    hide DevMap, Near;
  }

  /** What is reported for a device is near what the full map would show of it. */
  lemma ReportIsNear(exact: bool, held: Entry, d: Device, s: DeviceStatus, owner: Id, n: Node)
    requires Near(exact, held, EntryOf(d, owner, n.id, n.remotes)) && ConnectedOne(exact, d, owner, n.id, n.remotes)
    ensures var after := d.(status := s);
      Near(exact, held.(status := Reported(after, s, owner, n)), EntryOf(after, owner, n.id, n.remotes))
  {
    EventAgreesIff(d.(status := s), owner, n);
  }

  lemma DeviceStepHere(exact: bool, held: NodeEntry, n: Node, j: nat, s: DeviceStatus, r: Node)
    requires j < |n.devices| && UniqueOrders(n.devices) && Mapped(n.devices[j].status) && Mapped(s)
    requires NodeNear(exact, held, NodeEntryOf(n, r.id, r.remotes)) && ConnectedOne(exact, n.devices[j], n.id, r.id, r.remotes)
    ensures var d := n.devices[j].(status := s);
      NodeNear(exact, TakeDevice(held, d.order, Reported(d, s, n.id, r)),
               NodeEntryOf(n.(devices := n.devices[j := d]), r.id, r.remotes))
  {
    hide DevMap, EntryOf, Reported, Near, ConnectedOne, UniqueOrders;
    var d := n.devices[j].(status := s);
    DevicesAfterWrite(n.devices, n.id, r.id, r.remotes, j, d);
    DeviceAt(n.devices, n.id, r.id, r.remotes, j);
    ReportIsNear(exact, held.devices[d.order], n.devices[j], s, n.id, r);
  }

  /** Nodes without that storage ID ignore a device event. */
  lemma DeviceStepElsewhere(exact: bool, held: NodeEntry, n: Node, order: int, s: DeviceStatus, me: Id, remotes: seq<Remote>)
    requires !HasOrder(n, order) && NodeNear(exact, held, NodeEntryOf(n, me, remotes))
    ensures TakeDevice(held, order, s) == held
  {
    hide Near;
    KeysOfDevices(n.devices, n.id, me, remotes, order);
  }

  lemma {:induction false} DeviceStep(exact: bool, held: Nodes, nodes: seq<Node>, i: nat, j: nat, s: DeviceStatus, r: Node)
    requires Proper(nodes) && i < |nodes| && j < |nodes[i].devices|
    requires Mapped(nodes[i].devices[j].status) && Mapped(s)
    requires MapNear(exact, held, MapOf(nodes, r.id, r.remotes))
    requires !nodes[i].dedicated ==> ConnectedOne(exact, nodes[i].devices[j], nodes[i].id, r.id, r.remotes)
    ensures var d := nodes[i].devices[j].(status := s);
      MapNear(exact, Take(held, DevEvent(d.order, Reported(d, s, nodes[i].id, r))),
              MapOf(WithDevice(nodes, i, j, s), r.id, r.remotes))
  {
    hide MapOf, NodeNear, Reported, ConnectedOne, UniqueOrders, TakeDevice, NodeEntryOf, Mapped;
    var (me, remotes) := (r.id, r.remotes);
    var d := nodes[i].devices[j].(status := s);
    var n := nodes[i].(devices := nodes[i].devices[j := d]);
    var status := Reported(d, s, n.id, r);
    MapAfterWrite(nodes, me, remotes, i, n);
    assert HasOrder(nodes[i], d.order);
    var full, after := MapOf(nodes, me, remotes), MapOf(WithDevice(nodes, i, j, s), me, remotes);
    forall id | id in full && id != n.id ensures TakeDevice(held[id], d.order, status) == held[id] {
      KeysOfMap(nodes, me, remotes, id);
      var k :| 0 <= k < |nodes| && !nodes[k].dedicated && nodes[k].id == id;
      MapAt(nodes, me, remotes, k);
      DeviceStepElsewhere(exact, held[id], nodes[k], d.order, status, me, remotes);
    }
    if n.dedicated {
      NotMapped(nodes, me, remotes, i);
    } else {
      MapAt(nodes, me, remotes, i);
      DeviceStepHere(exact, held[n.id], nodes[i], j, s, r);
    }
  }

  // ---------------------------------------------------------------- runs

  datatype Op = SetNode(i: nat, nodeStatus: NodeStatus) | SetDevice(i: nat, j: nat, devStatus: DeviceStatus, renewed: map<Id, seq<Remote>>)

  /** A device change that is not to or from NEW or JM, and in which the remote records come out as
      they were. */
  ghost predicate Allowed(nodes: seq<Node>, op: Op) {
    match op
    case SetNode(i, _) => i < |nodes|
    case SetDevice(i, j, s, renewed) =>
      && i < |nodes| && j < |nodes[i].devices| && Mapped(nodes[i].devices[j].status) && Mapped(s)
      && Renewed(nodes, i, renewed) == nodes
  }

  /** What Fleet.SetNodeStatus and Fleet.SetDeviceState do. */
  ghost function NodesAfter(nodes: seq<Node>, op: Op): seq<Node>
    requires Allowed(nodes, op)
  {
    match op
    case SetNode(i, s) => nodes[i := nodes[i].(status := s)]
    case SetDevice(i, j, s, renewed) =>
      if s.ReadOnly? && nodes[i].devices[j].status.Unavailable? then nodes
      else if s.DevOnline? then Renewed(WithDevice(nodes, i, j, s), i, renewed) else WithDevice(nodes, i, j, s)
  }

  ghost function MapsAfter(maps: Maps, nodes: seq<Node>, op: Op): Maps
    requires Allowed(nodes, op)
  {
    var after := NodesAfter(nodes, op);
    match op
    case SetNode(i, s) => if nodes[i].status == s then maps else NodeSent(maps, after, after[i].id, s, |after|)
    case SetDevice(i, j, s, renewed) =>
      if s.ReadOnly? && nodes[i].devices[j].status.Unavailable? then maps
      else DevSent(maps, after, after[i].devices[j], s, after[i].id, |after|)
  }

  method Perform(f: Fleet, op: Op)
    requires Allowed(f.nodes, op)
    modifies f
    ensures f.nodes == NodesAfter(old(f.nodes), op) && f.maps == MapsAfter(old(f.maps), old(f.nodes), op)
  {
    match op {
      case SetNode(i, s) => f.SetNodeStatus(i, s);
      case SetDevice(i, j, s, renewed) => var _ := f.SetDeviceState(i, j, s, renewed);
    }
  }

  /** Statuses aside, operations change nothing. */
  ghost predicate SameNode(a: Node, b: Node) {
    && a.id == b.id && a.host == b.host && a.dedicated == b.dedicated && a.remotes == b.remotes
    && |a.devices| == |b.devices|
    && forall j :: 0 <= j < |a.devices| ==> SameDevice(a.devices[j], b.devices[j])
  }

  ghost predicate SameDevice(a: Device, b: Device) {
    a.(status := b.status) == b && Mapped(a.status) == Mapped(b.status)
  }

  ghost predicate SameNodes(a: seq<Node>, b: seq<Node>) {
    |a| == |b| && forall i :: 0 <= i < |a| ==> SameNode(a[i], b[i])
  }

  lemma {:induction false} AfterIsSame(nodes: seq<Node>, op: Op)
    requires Allowed(nodes, op)
    ensures SameNodes(nodes, NodesAfter(nodes, op))
  {
    if op.SetDevice? { RenewingChangesNothing(nodes, op.i, op.j, op.devStatus, op.renewed); }
  }

  lemma RenewingChangesNothing(nodes: seq<Node>, i: nat, j: nat, s: DeviceStatus, renewed: map<Id, seq<Remote>>)
    requires i < |nodes| && j < |nodes[i].devices| && Renewed(nodes, i, renewed) == nodes
    ensures Renewed(WithDevice(nodes, i, j, s), i, renewed) == WithDevice(nodes, i, j, s)
  {
    var after := WithDevice(nodes, i, j, s);
    forall k | 0 <= k < |nodes| ensures RenewedAt(after, i, renewed, k) == after[k] {
      assert RenewedAt(nodes, i, renewed, k) == Renewed(nodes, i, renewed)[k];
    }
  }

  lemma ProperStays(a: seq<Node>, b: seq<Node>)
    requires Proper(a) && SameNodes(a, b)
    ensures Proper(b)
  {
    forall i, o | 0 <= i < |a| ensures HasOrder(a[i], o) <==> HasOrder(b[i], o) {
      assert SameNode(a[i], b[i]);
    }
    forall i | 0 <= i < |a| ensures UniqueOrders(b[i].devices) {
      assert SameNode(a[i], b[i]);
      forall j | 0 <= j < |a[i].devices| ensures SameDevice(a[i].devices[j], b[i].devices[j]) {}
    }
  }

  lemma ConnectedStays(exact: bool, a: seq<Node>, b: seq<Node>, me: Id, remotes: seq<Remote>)
    requires Connected(exact, a, me, remotes) && SameNodes(a, b)
    ensures Connected(exact, b, me, remotes)
  {
    forall i, j | 0 <= i < |b| && !b[i].dedicated && 0 <= j < |b[i].devices| && Mapped(b[i].devices[j].status)
      ensures ConnectedOne(exact, b[i].devices[j], b[i].id, me, remotes)
    {
      assert SameNode(a[i], b[i]);
      assert SameDevice(a[i].devices[j], b[i].devices[j]);
      assert ConnectedOne(exact, a[i].devices[j], a[i].id, me, remotes);
    }
  }

  /** What receiver r holds follows the database through one operation. */
  lemma {:induction false} OneStep(exact: bool, maps: Maps, nodes: seq<Node>, op: Op, r: nat)
    requires Allowed(nodes, op) && Proper(nodes) && r < |nodes|
    requires var after := NodesAfter(nodes, op); Receives(after, after[r])
    requires Connected(exact, nodes, nodes[r].id, nodes[r].remotes)
    requires nodes[r].id in maps && MapNear(exact, maps[nodes[r].id], MapOf(nodes, nodes[r].id, nodes[r].remotes))
    ensures var after, sent := NodesAfter(nodes, op), MapsAfter(maps, nodes, op);
      nodes[r].id in sent && MapNear(exact, sent[nodes[r].id], MapOf(after, nodes[r].id, nodes[r].remotes))
  {
    hide MapOf, MapNear, Take, Proper, Receives, Connected, Reported, NodeSent, DevSent;
    var after := NodesAfter(nodes, op);
    AfterIsSame(nodes, op);
    ProperStays(nodes, after);
    assert SameNode(nodes[r], after[r]);
    ProperIsUnique(after);
    ProperIsUnique(nodes);
    match op {
      case SetNode(i, s) =>
        if nodes[i].status == s {
          assert after == nodes;
        } else {
          NodeEventArrives(maps, after, after[i].id, s, r, |after|);
          NodeStep(exact, maps[nodes[r].id], nodes, i, s, nodes[r].id, nodes[r].remotes);
        }
      case SetDevice(i, j, s, renewed) =>
        if !(s.ReadOnly? && nodes[i].devices[j].status.Unavailable?) {
          RenewingChangesNothing(nodes, i, j, s, renewed);
          var d := after[i].devices[j];
          DevEventArrives(maps, after, d, s, after[i].id, r, |after|);
          if !nodes[i].dedicated { ConnectedAt(exact, nodes, i, j, nodes[r].id, nodes[r].remotes); }
          DeviceStep(exact, maps[nodes[r].id], nodes, i, j, s, nodes[r]);
          SameReport(d, s, after[i].id, nodes[r], after[r]);
        }
    }
  }

  lemma ProperIsUnique(nodes: seq<Node>)
    requires Proper(nodes)
    ensures UniqueNodes(nodes)
  {
  }

  lemma ConnectedAt(exact: bool, nodes: seq<Node>, i: nat, j: nat, me: Id, remotes: seq<Remote>)
    requires Connected(exact, nodes, me, remotes) && i < |nodes| && j < |nodes[i].devices|
    requires !nodes[i].dedicated && Mapped(nodes[i].devices[j].status)
    ensures ConnectedOne(exact, nodes[i].devices[j], nodes[i].id, me, remotes)
  {
  }

  lemma SameReport(d: Device, s: DeviceStatus, owner: Id, a: Node, b: Node)
    requires a.id == b.id && a.remotes == b.remotes
    ensures Reported(d, s, owner, a) == Reported(d, s, owner, b)
  {
  }

  /** Every operation of a run is allowed, and receiver r is sent events after each of them. */
  ghost predicate Follows(nodes: seq<Node>, ops: seq<Op>, r: nat)
    requires r < |nodes|
    decreases |ops|
  {
    ops == [] ||
    (Allowed(nodes, ops[0]) &&
     (AfterIsSame(nodes, ops[0]);
      var after := NodesAfter(nodes, ops[0]); Receives(after, after[r]) && Follows(after, ops[1..], r)))
  }

  ghost function FinalNodes(nodes: seq<Node>, ops: seq<Op>, r: nat): seq<Node>
    requires r < |nodes| && Follows(nodes, ops, r)
    decreases |ops|
  {
    if ops == [] then nodes else FinalNodes(NodesAfter(nodes, ops[0]), ops[1..], r)
  }

  ghost function FinalMaps(maps: Maps, nodes: seq<Node>, ops: seq<Op>, r: nat): Maps
    requires r < |nodes| && Follows(nodes, ops, r)
    decreases |ops|
  {
    if ops == [] then maps else FinalMaps(MapsAfter(maps, nodes, ops[0]), NodesAfter(nodes, ops[0]), ops[1..], r)
  }

  lemma {:induction false} RunIsNear(exact: bool, maps: Maps, nodes: seq<Node>, ops: seq<Op>, r: nat)
    requires Proper(nodes) && r < |nodes| && Follows(nodes, ops, r)
    requires Connected(exact, nodes, nodes[r].id, nodes[r].remotes)
    requires nodes[r].id in maps && MapNear(exact, maps[nodes[r].id], MapOf(nodes, nodes[r].id, nodes[r].remotes))
    ensures var held := FinalMaps(maps, nodes, ops, r);
      nodes[r].id in held
      && MapNear(exact, held[nodes[r].id], MapOf(FinalNodes(nodes, ops, r), nodes[r].id, nodes[r].remotes))
    decreases |ops|
  {
    hide MapOf, MapNear, Proper, Receives, Connected, MapsAfter, NodesAfter;
    if ops != [] {
      var after := NodesAfter(nodes, ops[0]);
      AfterIsSame(nodes, ops[0]);
      OneStep(exact, maps, nodes, ops[0], r);
      ProperStays(nodes, after);
      assert SameNode(nodes[r], after[r]);
      ConnectedStays(exact, nodes, after, nodes[r].id, nodes[r].remotes);
      RunIsNear(exact, MapsAfter(maps, nodes, ops[0]), after, ops[1..], r);
    }
  }

  /** Folding events over a map that was sent in full is recomputing it, for a receiver that reaches
      exactly the devices whose records it holds online. */
  lemma {:induction false} FoldingIsRecomputing(maps: Maps, nodes: seq<Node>, ops: seq<Op>, r: nat)
    requires Proper(nodes) && r < |nodes| && Follows(nodes, ops, r)
    requires Connected(true, nodes, nodes[r].id, nodes[r].remotes)
    requires nodes[r].id in maps && maps[nodes[r].id] == MapOf(nodes, nodes[r].id, nodes[r].remotes)
    ensures var held := FinalMaps(maps, nodes, ops, r);
      nodes[r].id in held && held[nodes[r].id] == MapOf(FinalNodes(nodes, ops, r), nodes[r].id, nodes[r].remotes)
  {
    NearItself(true, maps[nodes[r].id]);
    RunIsNear(true, maps, nodes, ops, r);
    NearIsEqual(FinalMaps(maps, nodes, ops, r)[nodes[r].id], MapOf(FinalNodes(nodes, ops, r), nodes[r].id, nodes[r].remotes));
  }

  /** Without that condition, but with names for what is attached, the map held never shows a device
      online that the full map would not, and differs in no other way. */
  lemma {:induction false} FoldingNeverOverstates(maps: Maps, nodes: seq<Node>, ops: seq<Op>, r: nat)
    requires Proper(nodes) && r < |nodes| && Follows(nodes, ops, r)
    requires Connected(false, nodes, nodes[r].id, nodes[r].remotes)
    requires nodes[r].id in maps && maps[nodes[r].id] == MapOf(nodes, nodes[r].id, nodes[r].remotes)
    ensures var held := FinalMaps(maps, nodes, ops, r);
      nodes[r].id in held
      && MapNear(false, held[nodes[r].id], MapOf(FinalNodes(nodes, ops, r), nodes[r].id, nodes[r].remotes))
  {
    NearItself(false, maps[nodes[r].id]);
    RunIsNear(false, maps, nodes, ops, r);
  }

  // ---------------------------------------------------------------- weights

  /** The weight of the items that carry an id. */
  function Counted(slots: seq<Slot>): nat {
    if slots == [] then 0
    else Counted(slots[1..]) + if slots[0].item.id != -1 then slots[0].item.weight else 0
  }

  function ItemAt(slots: seq<Slot>, order: int): (r: Option<Item>) {
    if slots == [] then None else if slots[0].order == order then Some(slots[0].item) else ItemAt(slots[1..], order)
  }

  function WeightOf(item: Option<Item>): nat { if item.Some? && item.value.id != -1 then item.value.weight else 0 }

  lemma {:induction false} PutCounts(slots: seq<Slot>, order: int, item: Item)
    ensures Counted(Put(slots, order, item)) + WeightOf(ItemAt(slots, order)) == Counted(slots) + WeightOf(Some(item))
  {
    if slots != [] && slots[0].order != order {
      PutCounts(slots[1..], order, item);
      var after := Put(slots, order, item);
      assert after[1..] == Put(slots[1..], order, item);
    } else {
      var after := Put(slots, order, item);
      assert after[1..] == if slots == [] then [] else slots[1..];
    }
  }

  lemma {:induction false} PutAt(slots: seq<Slot>, order: int, item: Item, o: int)
    ensures ItemAt(Put(slots, order, item), o) == if o == order then Some(item) else ItemAt(slots, o)
  {
    if slots != [] && slots[0].order != order {
      PutAt(slots[1..], order, item, o);
      var after := Put(slots, order, item);
      assert after[1..] == Put(slots[1..], order, item);
    } else {
      var after := Put(slots, order, item);
      assert after[1..] == if slots == [] then [] else slots[1..];
    }
  }

  /** A live device keeps its item if it has a storage ID that no later mapped device shares. */
  ghost predicate Keeps(devices: seq<Device>, i: nat)
    requires i < |devices|
  {
    Live(devices[i]) ==>
      devices[i].order != -1
      && forall j :: i < j < |devices| && Mapped(devices[j].status) ==> devices[j].order != devices[i].order
  }

  ghost predicate NoneLost(devices: seq<Device>) { forall i :: 0 <= i < |devices| ==> Keeps(devices, i) }

  lemma NoneLostMore(devices: seq<Device>)
    requires devices != []
    ensures var front, d := devices[..|devices| - 1], devices[|devices| - 1];
      NoneLost(devices) <==>
        (NoneLost(front) && (Live(d) ==> d.order != -1)
         && (Mapped(d.status) ==> forall i :: 0 <= i < |front| && Live(front[i]) ==> front[i].order != d.order))
  {
    var front, d := devices[..|devices| - 1], devices[|devices| - 1];
    if NoneLost(devices) {
      forall i | 0 <= i < |front| ensures Keeps(front, i) {
        assert Keeps(devices, i);
      }
      assert Keeps(devices, |devices| - 1);
      forall i | 0 <= i < |front| && Live(front[i]) && Mapped(d.status) ensures front[i].order != d.order {
        assert Keeps(devices, i);
      }
    }
    if NoneLost(front) && (Live(d) ==> d.order != -1)
       && (Mapped(d.status) ==> forall i :: 0 <= i < |front| && Live(front[i]) ==> front[i].order != d.order) {
      forall i | 0 <= i < |devices| ensures Keeps(devices, i) {
        if i < |front| { assert Keeps(front, i); }
      }
    }
  }

  /** While nothing is lost, a storage ID has a counted item just when a live device has it. */
  lemma {:induction false} ItemIsLive(devices: seq<Device>, o: int)
    requires NoneLost(devices)
    ensures WeightOf(ItemAt(SlotsOf(devices), o)) > 0 <==> exists i :: 0 <= i < |devices| && Live(devices[i]) && devices[i].order == o
  {
    if devices != [] {
      var front, d := devices[..|devices| - 1], devices[|devices| - 1];
      NoneLostMore(devices);
      ItemIsLive(front, o);
      PutAt(SlotsOf(front), d.order, Item(Weight(d), if Live(d) then d.order else -1), o);
      if i :| 0 <= i < |front| && Live(front[i]) && front[i].order == o {
        assert Live(devices[i]) && devices[i].order == o;
      }
    }
  }

  /** A node's weight is the weight of its items that carry an id exactly when no live device shares
      its storage ID with a later one and none is without one; otherwise it is more. */
  lemma {:induction false} WeightIsCounted(devices: seq<Device>)
    ensures NodeWeight(devices) >= Counted(SlotsOf(devices))
    ensures NodeWeight(devices) == Counted(SlotsOf(devices)) <==> NoneLost(devices)
  {
    if devices != [] {
      var front, d := devices[..|devices| - 1], devices[|devices| - 1];
      var item := Item(Weight(d), if Live(d) then d.order else -1);
      WeightIsCounted(front);
      NoneLostMore(devices);
      PutCounts(SlotsOf(front), d.order, item);
      if NoneLost(front) {
        ItemIsLive(front, d.order);
      }
    }
  }
}
