/**
 The cluster map a node receives: its full computation, the status events that keep it up to date,
 and the check of a map against the database.
 */
module ClusterMap {
  import opened Records

  type Id = string

  datatype Device = Device(id: Id, order: int, status: DeviceStatus, alceml: string, physical: int, gib: nat)

  /** A device of another node as this node attached it. */
  datatype Remote = Remote(id: Id, bdev: string, status: DeviceStatus)

  datatype Node = Node(id: Id, host: string, status: NodeStatus, dedicated: bool, devices: seq<Device>, remotes: seq<Remote>)

  // ---------------------------------------------------------------- the map

  datatype Entry = Entry(id: Id, name: string, status: DeviceStatus, physical: int)

  datatype NodeEntry = NodeEntry(status: NodeStatus, devices: map<int, Entry>)

  datatype Item = Item(weight: nat, id: int)

  /** A slot of the weight dictionary, whose values are sent in insertion order. */
  datatype Slot = Slot(order: int, item: Item)

  datatype Prob = Prob(weight: nat, items: seq<Item>)

  type Nodes = map<Id, NodeEntry>

  /** Neither journals nor new devices are mapped. */
  predicate Mapped(s: DeviceStatus) { !s.Journal? && !s.New? }

  function ShownNode(s: NodeStatus): NodeStatus { if s.Schedulable? then Unreachable else s }

  function FindRemote(remotes: seq<Remote>, id: Id): (r: Option<Remote>) {
    First(remotes, (d: Remote) => d.id, id)
  }

  /** The name under which node `me` with these remote records reaches device d of node `owner`;
      empty if it does not. */
  function Reach(d: Device, owner: Id, me: Id, remotes: seq<Remote>): string {
    if owner == me then d.alceml
    else match FindRemote(remotes, d.id) case None => "" case Some(r) => r.bdev
  }

  function EntryOf(d: Device, owner: Id, me: Id, remotes: seq<Remote>): Entry {
    var name := Reach(d, owner, me, remotes);
    if name != "" then Entry(d.id, name, d.status, d.physical)
    else Entry(d.id, "remote_" + d.alceml + "n1", if d.status.DevOnline? then Unavailable else d.status, d.physical)
  }

  function DevMap(devices: seq<Device>, owner: Id, me: Id, remotes: seq<Remote>): map<int, Entry> {
    if devices == [] then map[]
    else
      var before, d := DevMap(devices[..|devices| - 1], owner, me, remotes), devices[|devices| - 1];
      if Mapped(d.status) then before[d.order := EntryOf(d, owner, me, remotes)] else before
  }

  /** map_cluster. */
  function MapOf(nodes: seq<Node>, me: Id, remotes: seq<Remote>): Nodes {
    if nodes == [] then map[]
    else
      var before, n := MapOf(nodes[..|nodes| - 1], me, remotes), nodes[|nodes| - 1];
      if n.dedicated then before else before[n.id := NodeEntry(ShownNode(n.status), DevMap(n.devices, n.id, me, remotes))]
  }

  function Weight(d: Device): (r: nat)
    ensures r > 0
  {
    if d.gib == 0 then 1 else d.gib
  }

  predicate Live(d: Device) { Mapped(d.status) && !d.status.Failed? && !d.status.FailedAndMigrated? }

  /** A dictionary store: in place for a known key, at the end for a new one. */
  function Put(slots: seq<Slot>, order: int, item: Item): seq<Slot> {
    if slots == [] then [Slot(order, item)]
    else if slots[0].order == order then [Slot(order, item)] + slots[1..]
    else [slots[0]] + Put(slots[1..], order, item)
  }

  function SlotsOf(devices: seq<Device>): seq<Slot> {
    if devices == [] then []
    else
      var before, d := SlotsOf(devices[..|devices| - 1]), devices[|devices| - 1];
      if !Mapped(d.status) then before else Put(before, d.order, Item(Weight(d), if Live(d) then d.order else -1))
  }

  function NodeWeight(devices: seq<Device>): nat {
    if devices == [] then 0
    else NodeWeight(devices[..|devices| - 1]) + if Live(devices[|devices| - 1]) then Weight(devices[|devices| - 1]) else 0
  }

  function Values(slots: seq<Slot>): (r: seq<Item>)
    ensures |r| == |slots| && forall i :: 0 <= i < |r| ==> r[i] == slots[i].item
  {
    seq(|slots|, i requires 0 <= i < |slots| => slots[i].item)
  }

  function ProbsOf(nodes: seq<Node>): seq<Prob> {
    if nodes == [] then []
    else
      var before, n := ProbsOf(nodes[..|nodes| - 1]), nodes[|nodes| - 1];
      if n.dedicated then before else before + [Prob(NodeWeight(n.devices), Values(SlotsOf(n.devices)))]
  }

  method LookRemote(remotes: seq<Remote>, id: Id) returns (r: Option<Remote>)
    ensures r == FindRemote(remotes, id)
  {
    for i := 0 to |remotes|
      invariant FindRemote(remotes, id) == FindRemote(remotes[i..], id)
    {
      if remotes[i].id == id { return Some(remotes[i]); }
    }
    return None;
  }

  method MapDevices(n: Node, t: Node) returns (devMap: map<int, Entry>, slots: seq<Slot>, weight: nat)
    ensures devMap == DevMap(n.devices, n.id, t.id, t.remotes) && slots == SlotsOf(n.devices) && weight == NodeWeight(n.devices)
  {
    devMap, slots, weight := map[], [], 0;
    for j := 0 to |n.devices|
      invariant devMap == DevMap(n.devices[..j], n.id, t.id, t.remotes)
      invariant slots == SlotsOf(n.devices[..j]) && weight == NodeWeight(n.devices[..j])
    {
      assert n.devices[..j + 1][..j] == n.devices[..j];
      var d := n.devices[j];
      if !Mapped(d.status) { continue; }
      var name, status := "", d.status;
      if n.id == t.id {
        name := d.alceml;
      } else {
        var r := LookRemote(t.remotes, d.id);
        if r.Some? { name := r.value.bdev; }
      }
      if name == "" {
        name := "remote_" + d.alceml + "n1";
        if status.DevOnline? { status := Unavailable; }
      }
      devMap := devMap[d.order := Entry(d.id, name, status, d.physical)];
      if d.status.Failed? || d.status.FailedAndMigrated? {
        slots := Put(slots, d.order, Item(Weight(d), -1));
      } else {
        slots := Put(slots, d.order, Item(Weight(d), d.order));
        weight := weight + Weight(d);
      }
    }
    assert n.devices[..|n.devices|] == n.devices;
  }

  /** get_distr_cluster_map; node ids are the keys of the database. */
  method GetDistrClusterMap(nodes: seq<Node>, t: Node) returns (m: Nodes, probs: seq<Prob>)
    ensures m == MapOf(nodes, t.id, t.remotes) && probs == ProbsOf(nodes)
    ensures forall id :: id in m ==>
      exists i :: 0 <= i < |nodes| && nodes[i].id == id && !nodes[i].dedicated
                  && m[id].status == if nodes[i].status == Schedulable then Unreachable else nodes[i].status
  {
    m, probs := map[], [];
    for i := 0 to |nodes|
      invariant m == MapOf(nodes[..i], t.id, t.remotes) && probs == ProbsOf(nodes[..i])
      invariant forall id :: id in m ==>
        exists j :: 0 <= j < i && nodes[j].id == id && !nodes[j].dedicated
                    && m[id].status == if nodes[j].status == Schedulable then Unreachable else nodes[j].status
    {
      assert nodes[..i + 1][..i] == nodes[..i];
      var n := nodes[i];
      if n.dedicated { continue; }
      var devMap, slots, weight := MapDevices(n, t);
      var status := n.status;
      if status.Schedulable? { status := Unreachable; }
      m := m[n.id := NodeEntry(status, devMap)];
      probs := probs + [Prob(weight, Values(slots))];
    }
    assert nodes[..|nodes|] == nodes;
  }

  // ---------------------------------------------------------------- events

  datatype Event = NodeEvent(id: Id, nodeStatus: NodeStatus) | DevEvent(order: int, devStatus: DeviceStatus)

  /** What a receiver makes of an event: unknown nodes and storage IDs are ignored. */
  function Take(m: Nodes, e: Event): Nodes {
    match e
    case NodeEvent(id, s) => if id in m then m[id := m[id].(status := s)] else m
    case DevEvent(order, s) => map id | id in m :: TakeDevice(m[id], order, s)
  }

  function TakeDevice(n: NodeEntry, order: int, s: DeviceStatus): NodeEntry {
    if order in n.devices then n.(devices := n.devices[order := n.devices[order].(status := s)]) else n
  }

  predicate Listens(s: NodeStatus) { s.Online? || s.Suspended? || s.Down? }

  /** Events go to listening nodes, but to none that shares its host with a schedulable node. */
  ghost predicate Receives(nodes: seq<Node>, n: Node) {
    Listens(n.status) && forall i :: 0 <= i < |nodes| && nodes[i].status.Schedulable? ==> nodes[i].host != n.host
  }

  /** The status of device d, which belongs to node `owner`, as reported to node n. */
  function Reported(d: Device, s: DeviceStatus, owner: Id, n: Node): DeviceStatus {
    if s.DevOnline? && n.id != owner then
      match FindRemote(n.remotes, d.id)
      case None => Unavailable
      case Some(r) => if r.status.DevOnline? then s else Unavailable
    else s
  }

  /** The maps as the nodes hold them. */
  type Maps = map<Id, Nodes>

  ghost function SendTo(maps: Maps, nodes: seq<Node>, n: Node, e: Event): Maps {
    if Receives(nodes, n) && n.id in maps then maps[n.id := Take(maps[n.id], e)] else maps
  }

  ghost function NodeSent(maps: Maps, nodes: seq<Node>, id: Id, s: NodeStatus, k: nat): Maps
    requires k <= |nodes|
  {
    if k == 0 then maps else SendTo(NodeSent(maps, nodes, id, s, k - 1), nodes, nodes[k - 1], NodeEvent(id, ShownNode(s)))
  }

  ghost function DevSent(maps: Maps, nodes: seq<Node>, d: Device, s: DeviceStatus, owner: Id, k: nat): Maps
    requires k <= |nodes|
  {
    if k == 0 then maps
    else SendTo(DevSent(maps, nodes, d, s, owner, k - 1), nodes, nodes[k - 1],
                DevEvent(d.order, Reported(d, s, owner, nodes[k - 1])))
  }

  /** The database and what its nodes were sent. */
  class Fleet {
    var nodes: seq<Node>
    var maps: Maps

    constructor (nodes: seq<Node>)
      ensures this.nodes == nodes && maps == map[]
    {
      this.nodes, maps := nodes, map[];
    }

    method SendClusterMapToNode(k: nat)
      requires k < |nodes|
      modifies this`maps
      ensures maps == old(maps)[nodes[k].id := MapOf(nodes, nodes[k].id, nodes[k].remotes)]
    {
      var m, _ := GetDistrClusterMap(nodes, nodes[k]);
      maps := maps[nodes[k].id := m];
    }

    method SkippedHosts() returns (hosts: set<string>)
      ensures forall h :: h in hosts <==> exists i :: 0 <= i < |nodes| && nodes[i].status.Schedulable? && nodes[i].host == h
    {
      hosts := {};
      for i := 0 to |nodes|
        invariant forall h :: h in hosts <==> exists j :: 0 <= j < i && nodes[j].status.Schedulable? && nodes[j].host == h
      {
        if nodes[i].status.Schedulable? { hosts := hosts + {nodes[i].host}; }
      }
    }

    method Send(k: nat, e: Event)
      requires k < |nodes| && Receives(nodes, nodes[k])
      modifies this`maps
      ensures maps == SendTo(old(maps), nodes, nodes[k], e)
    {
      var n := nodes[k];
      if n.id in maps { maps := maps[n.id := Take(maps[n.id], e)]; }
    }

    method SendNodeStatusEvent(id: Id, s: NodeStatus)
      modifies this`maps
      ensures maps == NodeSent(old(maps), nodes, id, s, |nodes|)
    {
      var status := s;
      if status.Schedulable? { status := Unreachable; }
      var skipped := SkippedHosts();
      for k := 0 to |nodes|
        invariant maps == NodeSent(old(maps), nodes, id, s, k)
      {
        if !Listens(nodes[k].status) { continue; }
        if nodes[k].host in skipped { continue; }
        Send(k, NodeEvent(id, status));
      }
    }

    method SendDevStatusEvent(d: Device, s: DeviceStatus, owner: Id)
      modifies this`maps
      ensures maps == if s.New? then old(maps) else DevSent(old(maps), nodes, d, s, owner, |nodes|)
    {
      if s.New? { return; }
      var skipped := SkippedHosts();
      for k := 0 to |nodes|
        invariant maps == DevSent(old(maps), nodes, d, s, owner, k)
      {
        var n := nodes[k];
        if !Listens(n.status) { continue; }
        if n.host in skipped { continue; }
        var status := s;
        if s.DevOnline? && n.id != owner {
          var r := LookRemote(n.remotes, d.id);
          if r.None? || !r.value.status.DevOnline? { status := Unavailable; }
        }
        Send(k, DevEvent(d.order, status));
      }
    }

    /** set_node_status: write the record, then tell the others; nothing if the status is the same. */
    method SetNodeStatus(i: nat, s: NodeStatus)
      requires i < |nodes|
      modifies this
      ensures nodes == old(nodes)[i := old(nodes)[i].(status := s)]
      ensures maps == if old(nodes)[i].status == s then old(maps) else NodeSent(old(maps), nodes, nodes[i].id, s, |nodes|)
    {
      if nodes[i].status != s {
        nodes := nodes[i := nodes[i].(status := s)];
        SendNodeStatusEvent(nodes[i].id, s);
      }
    }

    /** device_set_state: a read-only mark on an unavailable device is refused. If the device comes
        online, the other online nodes first renew their remote records, with `renewed` as the
        outcome. The event is sent even if the status stays the same. */
    method SetDeviceState(i: nat, j: nat, s: DeviceStatus, renewed: map<Id, seq<Remote>>) returns (ok: bool)
      requires i < |nodes| && j < |nodes[i].devices|
      modifies this
      ensures ok == !(s.ReadOnly? && old(nodes)[i].devices[j].status.Unavailable?)
      ensures !ok ==> nodes == old(nodes) && maps == old(maps)
      ensures ok ==> nodes == if s.DevOnline? then Renewed(WithDevice(old(nodes), i, j, s), i, renewed) else WithDevice(old(nodes), i, j, s)
      ensures ok ==> maps == if s.New? then old(maps)
                             else DevSent(old(maps), nodes, nodes[i].devices[j], s, nodes[i].id, |nodes|)
    {
      if s.ReadOnly? && nodes[i].devices[j].status.Unavailable? { return false; }
      nodes := WithDevice(nodes, i, j, s);
      if s.DevOnline? { Renew(i, renewed); }
      SendDevStatusEvent(nodes[i].devices[j], s, nodes[i].id);
      ok := true;
    }

    /** Every other online node connects again and writes its record. */
    method Renew(i: nat, renewed: map<Id, seq<Remote>>)
      requires i < |nodes|
      modifies this`nodes
      ensures nodes == Renewed(old(nodes), i, renewed)
    {
      for k := 0 to |nodes|
        invariant |nodes| == |old(nodes)|
        invariant forall n :: 0 <= n < |nodes| ==> nodes[n] == if n < k then RenewedAt(old(nodes), i, renewed, n) else old(nodes)[n]
      {
        if k != i && nodes[k].status.Online? && nodes[k].id in renewed {
          nodes := nodes[k := nodes[k].(remotes := renewed[nodes[k].id])];
        }
      }
    }
  }

  function RenewedAt(nodes: seq<Node>, i: nat, renewed: map<Id, seq<Remote>>, k: nat): Node
    requires k < |nodes|
  {
    if k != i && nodes[k].status.Online? && nodes[k].id in renewed then nodes[k].(remotes := renewed[nodes[k].id]) else nodes[k]
  }

  function Renewed(nodes: seq<Node>, i: nat, renewed: map<Id, seq<Remote>>): (r: seq<Node>)
    ensures |r| == |nodes| && forall k :: 0 <= k < |nodes| ==> r[k] == RenewedAt(nodes, i, renewed, k)
  {
    seq(|nodes|, k requires 0 <= k < |nodes| => RenewedAt(nodes, i, renewed, k))
  }

  function WithDevice(nodes: seq<Node>, i: nat, j: nat, s: DeviceStatus): seq<Node>
    requires i < |nodes| && j < |nodes[i].devices|
  {
    nodes[i := nodes[i].(devices := nodes[i].devices[j := nodes[i].devices[j].(status := s)])]
  }

  // ---------------------------------------------------------------- the check

  /** A line of the map as a node prints it. */
  datatype Line = NodeLine(node: Id, nodeStatus: NodeStatus) | DeviceLine(order: int, devStatus: DeviceStatus, device: Id) | Other

  datatype Verdict = Ok | Wrong | NotFound

  datatype Row = Row(line: Line, verdict: Verdict)

  function FindNode(nodes: seq<Node>, id: Id): (r: Option<Node>) {
    First(nodes, (n: Node) => n.id, id)
  }

  function FindIn(devices: seq<Device>, id: Id): (r: Option<Device>) {
    First(devices, (d: Device) => d.id, id)
  }

  /** get_storage_device_by_id. */
  function FindDevice(nodes: seq<Node>, id: Id): (r: Option<Device>)
    ensures r.Some? ==> r.value.id == id
  {
    if nodes == [] then None
    else if FindIn(nodes[0].devices, id).Some? then FindIn(nodes[0].devices, id) else FindDevice(nodes[1..], id)
  }

  function Judge(nodes: seq<Node>, line: Line): Verdict {
    match line
    case NodeLine(id, s) =>
      (match FindNode(nodes, id) case None => NotFound case Some(n) => if ShownNode(n.status) == s then Ok else Wrong)
    case DeviceLine(_, s, id) =>
      (match FindDevice(nodes, id) case None => NotFound case Some(d) => if d.status == s then Ok else Wrong)
    case Other => Ok
  }

  /** parse_distr_cluster_map on lines whose fields have been read. */
  method ParseDistrClusterMap(nodes: seq<Node>, lines: seq<Line>) returns (rows: seq<Row>, passed: bool)
    ensures passed <==> forall i :: 0 <= i < |lines| ==> Judge(nodes, lines[i]).Ok?
    ensures forall r :: r in rows <==> r.line in lines && !r.line.Other? && r.verdict == Judge(nodes, r.line)
  {
    rows, passed := [], true;
    for i := 0 to |lines|
      invariant passed <==> forall j :: 0 <= j < i ==> Judge(nodes, lines[j]).Ok?
      invariant forall r :: r in rows <==> r.line in lines[..i] && !r.line.Other? && r.verdict == Judge(nodes, r.line)
    {
      assert lines[..i + 1] == lines[..i] + [lines[i]];
      if lines[i].Other? { continue; }
      var verdict := Judge(nodes, lines[i]);
      if !verdict.Ok? { passed := false; }
      rows := rows + [Row(lines[i], verdict)];
    }
    assert lines[..|lines|] == lines;
  }
}
