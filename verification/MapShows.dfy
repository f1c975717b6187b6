/**
 What a cluster map shows, told from the records: the status of a node, the entry and the weight item of
 a device, what an event changes in the map of each node, and which lines a check accepts.
 */
module MapShows {
  import opened Records
  import opened ClusterMap
  import opened MapLaws
  import opened MapCheck

  // ---------------------------------------------------------------- the full map

  /** Exactly the nodes that are no dedicated secondaries are mapped, with the status of the record, a
      schedulable node as an unreachable one. */
  lemma {:induction false} NodeShown(nodes: seq<Node>, me: Id, remotes: seq<Remote>, i: nat)
    requires UniqueNodes(nodes) && i < |nodes|
    ensures nodes[i].id in MapOf(nodes, me, remotes) <==> !nodes[i].dedicated
    ensures !nodes[i].dedicated ==>
      MapOf(nodes, me, remotes)[nodes[i].id].status == if nodes[i].status.Schedulable? then Unreachable else nodes[i].status
  {
    hide MapOf;
    if nodes[i].dedicated {
      NotMapped(nodes, me, remotes, i);
    } else {
      MapAt(nodes, me, remotes, i);
    }
  }

  /** k is the place of the first remote record of a device, or past the end if there is none. */
  ghost predicate FirstRecord(remotes: seq<Remote>, id: Id, k: nat) {
    k <= |remotes| && (k < |remotes| ==> remotes[k].id == id) && forall l :: 0 <= l < k ==> remotes[l].id != id
  }

  lemma {:induction false} FindRemoteAt(remotes: seq<Remote>, id: Id, k: nat)
    requires FirstRecord(remotes, id, k)
    ensures FindRemote(remotes, id) == if k < |remotes| then Some(remotes[k]) else None
  {
    if k < |remotes| { FirstIs(remotes, (d: Remote) => d.id, k); }
  }

  /** The entry of a device, if it is neither a journal nor new: its own bdev on its node, elsewhere the
      bdev it is attached as. If there is none the name is made up and an online device is shown
      unavailable. */
  lemma {:induction false} DeviceShown(nodes: seq<Node>, me: Id, remotes: seq<Remote>, i: nat, j: nat, k: nat)
    requires OnePerSlot(nodes) && i < |nodes| && !nodes[i].dedicated && j < |nodes[i].devices|
    requires var d := nodes[i].devices[j]; !d.status.Journal? && !d.status.New? && FirstRecord(remotes, d.id, k)
    ensures nodes[i].id in MapOf(nodes, me, remotes)
    ensures var (d, m) := (nodes[i].devices[j], MapOf(nodes, me, remotes)[nodes[i].id].devices);
      var bdev := if nodes[i].id == me then d.alceml else if k < |remotes| then remotes[k].bdev else "";
      && d.order in m && m[d.order].id == d.id && m[d.order].physical == d.physical
      && m[d.order].name == (if bdev != "" then bdev else "remote_" + d.alceml + "n1")
      && m[d.order].status == if bdev == "" && d.status.DevOnline? then Unavailable else d.status
  {
    hide MapOf, DevMap, FindRemote;
    MapAt(nodes, me, remotes, i);
    DeviceAt(nodes[i].devices, nodes[i].id, me, remotes, j);
    FindRemoteAt(remotes, nodes[i].devices[j].id, k);
  }

  /** Nothing else is shown of a node. */
  lemma {:induction false} OnlyDevicesShown(nodes: seq<Node>, me: Id, remotes: seq<Remote>, i: nat, o: int)
    requires UniqueNodes(nodes) && i < |nodes| && !nodes[i].dedicated
    ensures nodes[i].id in MapOf(nodes, me, remotes)
    ensures o in MapOf(nodes, me, remotes)[nodes[i].id].devices <==>
      exists j :: 0 <= j < |nodes[i].devices| && nodes[i].devices[j].order == o
                  && !nodes[i].devices[j].status.Journal? && !nodes[i].devices[j].status.New?
  {
    hide MapOf, DevMap;
    MapAt(nodes, me, remotes, i);
    KeysOfDevices(nodes[i].devices, nodes[i].id, me, remotes, o);
  }

  // ---------------------------------------------------------------- weights

  /** The weight item stored under a device's storage ID: its size, at least one, and the ID, or none if
      it has failed. */
  lemma {:induction false} ItemShown(devices: seq<Device>, j: nat)
    requires UniqueOrders(devices) && j < |devices| && !devices[j].status.Journal? && !devices[j].status.New?
    ensures var d := devices[j];
      ItemAt(SlotsOf(devices), d.order)
      == Some(Item(if d.gib == 0 then 1 else d.gib, if d.status.Failed? || d.status.FailedAndMigrated? then -1 else d.order))
  {
    var front, d := devices[..|devices| - 1], devices[|devices| - 1];
    if Mapped(d.status) { PutAt(SlotsOf(front), d.order, Item(Weight(d), if Live(d) then d.order else -1), devices[j].order); }
    if j < |front| { ItemShown(front, j); }
  }

  /** No storage ID has two items. */
  ghost predicate OneEach(slots: seq<Slot>) { forall a, b :: 0 <= a < b < |slots| ==> slots[a].order != slots[b].order }

  /** There is no other item, and none is there twice. */
  lemma {:induction false} OnlyItemsShown(devices: seq<Device>, o: int)
    ensures ItemAt(SlotsOf(devices), o).Some? <==>
      exists j :: 0 <= j < |devices| && devices[j].order == o && !devices[j].status.Journal? && !devices[j].status.New?
    ensures OneEach(SlotsOf(devices))
  {
    if devices != [] {
      var front, d := devices[..|devices| - 1], devices[|devices| - 1];
      OnlyItemsShown(front, o);
      if Mapped(d.status) {
        PutAt(SlotsOf(front), d.order, Item(Weight(d), if Live(d) then d.order else -1), o);
        PutOnce(SlotsOf(front), d.order, Item(Weight(d), if Live(d) then d.order else -1));
      }
      if j :| 0 <= j < |front| && front[j].order == o && !front[j].status.Journal? && !front[j].status.New? {
        assert devices[j].order == o;
      }
    }
  }

  lemma {:induction false} PutOnce(slots: seq<Slot>, order: int, item: Item)
    requires OneEach(slots)
    ensures OneEach(Put(slots, order, item))
  {
    if slots != [] && slots[0].order != order {
      PutOnce(slots[1..], order, item);
      var rest := Put(slots[1..], order, item);
      PutAt(slots[1..], order, item, slots[0].order);
      NoItem(slots[1..], slots[0].order);
      NoItem(rest, slots[0].order);
      assert Put(slots, order, item) == [slots[0]] + rest;
    }
  }

  lemma {:induction false} NoItem(slots: seq<Slot>, o: int)
    ensures ItemAt(slots, o).None? <==> forall a :: 0 <= a < |slots| ==> slots[a].order != o
  {
    if slots != [] {
      NoItem(slots[1..], o);
      forall a | 0 < a < |slots| ensures slots[a] == slots[1..][a - 1] {
      }
    }
  }

  /** The weights come in the order of the nodes, without the dedicated secondaries. */
  lemma {:induction false} WeightsShown(nodes: seq<Node>, i: nat)
    requires i < |nodes| && !nodes[i].dedicated
    ensures var at := |set k | 0 <= k < i && !nodes[k].dedicated|;
      && at < |ProbsOf(nodes)| == |set k | 0 <= k < |nodes| && !nodes[k].dedicated|
      && ProbsOf(nodes)[at] == Prob(NodeWeight(nodes[i].devices), Values(SlotsOf(nodes[i].devices)))
  {
    var front, last := nodes[..|nodes| - 1], |nodes| - 1;
    ProbsCounted(nodes);
    ProbsCounted(front);
    if i < last {
      WeightsShown(front, i);
      assert (set k | 0 <= k < i && !nodes[k].dedicated) == (set k | 0 <= k < i && !front[k].dedicated);
    } else {
      assert (set k | 0 <= k < i && !nodes[k].dedicated) == (set k | 0 <= k < |front| && !front[k].dedicated);
    }
  }

  lemma {:induction false} ProbsCounted(nodes: seq<Node>)
    ensures |ProbsOf(nodes)| == |set k | 0 <= k < |nodes| && !nodes[k].dedicated|
  {
    if nodes != [] {
      ProbsCounted(nodes[..|nodes| - 1]);
      OneMoreMapped(nodes);
    }
  }

  lemma OneMoreMapped(nodes: seq<Node>)
    requires nodes != []
    ensures var front, last := nodes[..|nodes| - 1], |nodes| - 1;
      |set k | 0 <= k < |nodes| && !nodes[k].dedicated|
      == |set k | 0 <= k < |front| && !front[k].dedicated| + if nodes[last].dedicated then 0 else 1
  {
    var front, last := nodes[..|nodes| - 1], |nodes| - 1;
    assert (set k | 0 <= k < |nodes| && !nodes[k].dedicated)
      == (set k | 0 <= k < |front| && !front[k].dedicated) + if nodes[last].dedicated then {} else {last};
  }

  // ---------------------------------------------------------------- events

  /** A node that is online, suspended or down, and does not share its host with a schedulable one. */
  lemma HearsIf(nodes: seq<Node>, n: Node)
    ensures Receives(nodes, n) <==>
      (n.status == Online || n.status == Suspended || n.status == Down)
      && forall i :: 0 <= i < |nodes| && nodes[i].host == n.host ==> nodes[i].status != Schedulable
  {
  }

  lemma {:induction false} NodeEventPasses(maps: Maps, nodes: seq<Node>, id: Id, s: NodeStatus, r: nat, k: nat)
    requires UniqueNodes(nodes) && r < |nodes| && k <= |nodes| && nodes[r].id in maps && !Receives(nodes, nodes[r])
    ensures nodes[r].id in NodeSent(maps, nodes, id, s, k) && NodeSent(maps, nodes, id, s, k)[nodes[r].id] == maps[nodes[r].id]
  {
    hide Take, Receives;
    if k > 0 { NodeEventPasses(maps, nodes, id, s, r, k - 1); }
  }

  lemma {:induction false} DevEventPasses(maps: Maps, nodes: seq<Node>, d: Device, s: DeviceStatus, owner: Id,
                                          r: nat, k: nat)
    requires UniqueNodes(nodes) && r < |nodes| && k <= |nodes| && nodes[r].id in maps && !Receives(nodes, nodes[r])
    ensures nodes[r].id in DevSent(maps, nodes, d, s, owner, k)
    ensures DevSent(maps, nodes, d, s, owner, k)[nodes[r].id] == maps[nodes[r].id]
  {
    hide Take, Receives, Reported;
    if k > 0 { DevEventPasses(maps, nodes, d, s, owner, r, k - 1); }
  }

  /** What a status event makes of the map node r holds: if r hears events and the map has the node, the
      new status is shown, unreachable for schedulable, and nothing else changes; otherwise nothing does. */
  lemma {:induction false} NodeEventShown(maps: Maps, nodes: seq<Node>, id: Id, s: NodeStatus, r: nat)
    requires UniqueNodes(nodes) && r < |nodes| && nodes[r].id in maps
    ensures var (me, sent) := (nodes[r].id, NodeSent(maps, nodes, id, s, |nodes|));
      var hears := (nodes[r].status == Online || nodes[r].status == Suspended || nodes[r].status == Down)
                   && forall i :: 0 <= i < |nodes| && nodes[i].host == nodes[r].host ==> nodes[i].status != Schedulable;
      && me in sent
      && sent[me] == if hears && id in maps[me]
                     then maps[me][id := maps[me][id].(status := if s.Schedulable? then Unreachable else s)] else maps[me]
  {
    hide NodeSent, Receives;
    HearsIf(nodes, nodes[r]);
    if Receives(nodes, nodes[r]) {
      NodeEventArrives(maps, nodes, id, s, r, |nodes|);
    } else {
      NodeEventPasses(maps, nodes, id, s, r, |nodes|);
    }
  }

  /** set_node_status: the new status is in the record, and in the map of everybody who hears events with
      the records as they then are; nobody is told that a status stays the same. */
  lemma {:induction false} StatusIsShown(maps: Maps, nodes: seq<Node>, i: nat, s: NodeStatus, r: nat)
    requires UniqueNodes(nodes) && i < |nodes| && r < |nodes|
    requires nodes[r].id in maps && nodes[i].id in maps[nodes[r].id]
    ensures var (me, id, after) := (nodes[r].id, nodes[i].id, NodesAfter(nodes, SetNode(i, s)));
      var sent := MapsAfter(maps, nodes, SetNode(i, s));
      var hears := (after[r].status == Online || after[r].status == Suspended || after[r].status == Down)
                   && forall l :: 0 <= l < |nodes| && nodes[l].host == nodes[r].host ==> after[l].status != Schedulable;
      && after[i].status == s && me in sent && id in sent[me]
      && sent[me][id].status == if nodes[i].status == s || !hears then maps[me][id].status
                                else if s == Schedulable then Unreachable else s
  {
    hide NodeSent;
    var after := nodes[i := nodes[i].(status := s)];
    NodeEventShown(maps, after, nodes[i].id, s, r);
  }

  /** What a device event makes of it: under the storage ID the new status is shown, but online as
      unavailable unless the device is r's own or its record there is online. */
  lemma {:induction false} DeviceEventShown(maps: Maps, nodes: seq<Node>, d: Device, s: DeviceStatus, owner: Id,
                                            r: nat, k: nat)
    requires UniqueNodes(nodes) && r < |nodes| && nodes[r].id in maps && FirstRecord(nodes[r].remotes, d.id, k)
    ensures var (me, sent) := (nodes[r].id, DevSent(maps, nodes, d, s, owner, |nodes|));
      var hears := (nodes[r].status == Online || nodes[r].status == Suspended || nodes[r].status == Down)
                   && forall i :: 0 <= i < |nodes| && nodes[i].host == nodes[r].host ==> nodes[i].status != Schedulable;
      var attached := me == owner || (k < |nodes[r].remotes| && nodes[r].remotes[k].status == DevOnline);
      && me in sent && sent[me].Keys == maps[me].Keys
      && forall id :: id in maps[me] ==>
           Shows(sent[me][id], maps[me][id], d.order, hears, if s.DevOnline? && !attached then Unavailable else s)
  {
    hide DevSent, Receives, FindRemote;
    HearsIf(nodes, nodes[r]);
    FindRemoteAt(nodes[r].remotes, d.id, k);
    if Receives(nodes, nodes[r]) {
      DevEventArrives(maps, nodes, d, s, owner, r, |nodes|);
    } else {
      DevEventPasses(maps, nodes, d, s, owner, r, |nodes|);
    }
  }

  /** `now` differs from `was` in the status under one storage ID at most. */
  ghost predicate Shows(now: NodeEntry, was: NodeEntry, order: int, changed: bool, s: DeviceStatus) {
    && now.status == was.status && now.devices.Keys == was.devices.Keys
    && forall o :: o in was.devices ==>
         now.devices[o] == if changed && o == order then was.devices[o].(status := s) else was.devices[o]
  }

  /** A renewal touches nothing but the remote records of the other online nodes. */
  lemma RenewalTouches(nodes: seq<Node>, i: nat, renewed: map<Id, seq<Remote>>, k: nat)
    requires k < |nodes|
    ensures var after := Renewed(nodes, i, renewed)[k];
      && after.(remotes := nodes[k].remotes) == nodes[k]
      && (k == i || nodes[k].status != Online ==> after == nodes[k])
  {
  }

  /** When a device comes online, an online node whose renewed records have it online is told that it is
      online, and one whose records do not is told that it is unavailable: the records are renewed first. */
  lemma {:induction false} ComingOnlineShown(maps: Maps, nodes: seq<Node>, i: nat, j: nat, renewed: map<Id,
                                             seq<Remote>>,
                                             r: nat, k: nat, id: Id)
    requires UniqueNodes(nodes) && i < |nodes| && j < |nodes[i].devices| && r < |nodes| && r != i
    requires nodes[r].status == Online && nodes[r].id in maps && nodes[r].id in renewed
    requires forall l :: 0 <= l < |nodes| && nodes[l].host == nodes[r].host ==> nodes[l].status != Schedulable
    requires var d := nodes[i].devices[j];
      FirstRecord(renewed[nodes[r].id], d.id, k) && id in maps[nodes[r].id] && d.order in maps[nodes[r].id][id].devices
    ensures var after := Renewed(WithDevice(nodes, i, j, DevOnline), i, renewed);
      var (d, me) := (after[i].devices[j], nodes[r].id);
      var sent := DevSent(maps, after, d, DevOnline, after[i].id, |after|);
      var attached := k < |renewed[me]| && renewed[me][k].status == DevOnline;
      && me in sent && id in sent[me] && d.order in sent[me][id].devices
      && sent[me][id].devices[d.order].status == if attached then DevOnline else Unavailable
  {
    hide DevSent, FindRemote;
    var after := Renewed(WithDevice(nodes, i, j, DevOnline), i, renewed);
    var d := after[i].devices[j];
    assert after[r] == nodes[r].(remotes := renewed[nodes[r].id]);
    forall l | 0 <= l < |nodes|
      ensures after[l].id == nodes[l].id && after[l].host == nodes[l].host && after[l].status == nodes[l].status {
    }
    DeviceEventShown(maps, after, d, DevOnline, after[i].id, r, k);
    var sent := DevSent(maps, after, d, DevOnline, after[i].id, |after|);
    assert Shows(sent[nodes[r].id][id], maps[nodes[r].id][id], d.order, true,
                 if k < |renewed[nodes[r].id]| && renewed[nodes[r].id][k].status == DevOnline then DevOnline else Unavailable);
  }

  // ---------------------------------------------------------------- the check

  /** A node line passes exactly if it has the status the record says, unreachable for schedulable. */
  lemma {:induction false} NodeLinePassesIff(nodes: seq<Node>, i: nat, s: NodeStatus)
    requires UniqueNodes(nodes) && i < |nodes|
    ensures Judge(nodes, NodeLine(nodes[i].id, s))
      == if s == (if nodes[i].status.Schedulable? then Unreachable else nodes[i].status) then Ok else Wrong
  {
    FindNodeIs(nodes, i);
  }

  /** A device line passes exactly if it has the status of the record, wherever it stands in the map. */
  lemma {:induction false} DeviceLinePassesIff(nodes: seq<Node>, i: nat, j: nat, o: int, s: DeviceStatus)
    requires UniqueDevices(nodes) && i < |nodes| && j < |nodes[i].devices|
    ensures Judge(nodes, DeviceLine(o, s, nodes[i].devices[j].id)) == if s == nodes[i].devices[j].status then Ok else Wrong
  {
    hide FindDevice, UniqueDevices;
    FindDeviceIs(nodes, i, j);
  }

  /** Ids that are in no record are reported as not found. */
  lemma {:induction false} StrangersAreNotFound(nodes: seq<Node>, id: Id)
    ensures (forall i :: 0 <= i < |nodes| ==> nodes[i].id != id) ==> forall s :: Judge(nodes, NodeLine(id, s)) == NotFound
    ensures (forall i :: 0 <= i < |nodes| ==> !HasDevice(nodes[i], id)) ==> forall o, s :: Judge(nodes, DeviceLine(o, s, id)) == NotFound
  {
    hide FindDevice;
    if forall i :: 0 <= i < |nodes| ==> nodes[i].id != id {
      assert FindNode(nodes, id).None?;
    }
    NoSuchDevice(nodes, id);
  }

  lemma {:induction false} NoSuchDevice(nodes: seq<Node>, id: Id)
    ensures (forall i :: 0 <= i < |nodes| ==> !HasDevice(nodes[i], id)) ==> FindDevice(nodes, id).None?
  {
    if nodes != [] && forall i :: 0 <= i < |nodes| ==> !HasDevice(nodes[i], id) {
      forall i | 0 <= i < |nodes[1..]| ensures !HasDevice(nodes[1..][i], id) {
        assert nodes[1..][i] == nodes[i + 1];
      }
      NoSuchDevice(nodes[1..], id);
    }
  }
}
