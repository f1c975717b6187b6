/** Storage IDs (cluster_device_order): how devices get them, and that no two share one. */
module StorageIds {
  import opened Records

  datatype Device = Device(id: string, order: int, status: DeviceStatus, partition: bool)

  /** A cluster: the stored devices of each node. */
  type Store = seq<seq<Device>>

  function Max(a: int, b: int): int { if a >= b then a else b }

  function MaxOf(devices: seq<Device>): (r: int)
    ensures r >= 0 && forall i :: 0 <= i < |devices| ==> devices[i].order <= r
  {
    if devices == [] then 0 else Max(MaxOf(devices[..|devices| - 1]), devices[|devices| - 1].order)
  }

  function MaxOfAll(store: Store): (r: int)
    ensures r >= 0 && forall i, j :: 0 <= i < |store| && 0 <= j < |store[i]| ==> store[i][j].order <= r
  {
    if store == [] then 0
    else
      assert forall i :: 0 <= i < |store| - 1 ==> store[i] == store[..|store| - 1][i];
      Max(MaxOfAll(store[..|store| - 1]), MaxOf(store[|store| - 1]))
  }

  /** One past the largest; a cluster without devices starts at 0, one whose devices have no ID at 1. */
  function NextOrder(store: Store): (r: int)
    ensures r >= 0 && forall i, j :: 0 <= i < |store| && 0 <= j < |store[i]| ==> store[i][j].order < r
  {
    if forall i :: 0 <= i < |store| ==> store[i] == [] then 0 else MaxOfAll(store) + 1
  }

  /** Whether a device that comes without a storage ID is given one. */
  datatype Placed = Placed(device: Device, numbered: bool)

  predicate Takes(p: Placed) { p.numbered && p.device.order < 0 }

  function Taken(plan: seq<Placed>): nat {
    if plan == [] then 0 else Taken(plan[..|plan| - 1]) + if Takes(plan[|plan| - 1]) then 1 else 0
  }

  function Number(plan: seq<Placed>, start: int): (r: seq<Device>)
    ensures |r| == |plan|
  {
    if plan == [] then []
    else
      var front, p := plan[..|plan| - 1], plan[|plan| - 1];
      Number(front, start) + [if Takes(p) then p.device.(order := start + Taken(front)) else p.device]
  }

  /** Without partitions: the journal device is taken out, everything else is kept. */
  function PlanWhole(devices: seq<Device>): seq<Placed> {
    if devices == [] then []
    else
      var before, d := PlanWhole(devices[..|devices| - 1]), devices[|devices| - 1];
      if d.status.Journal? then before else before + [Placed(d, d.status.DevOnline?)]
  }

  /** The partitions found on a whole device, past the first, which is for the journal; they copy the
      record of the device. */
  function Partitions(d: Device, names: seq<string>): (r: seq<Placed>)
    ensures |r| == |names| && forall i :: 0 <= i < |r| ==>
      r[i] == Placed(Device(names[i], d.order, d.status, true), d.status.DevOnline?)
  {
    seq(|names|, i requires 0 <= i < |names| => Placed(Device(names[i], d.order, d.status, true), d.status.DevOnline?))
  }

  predicate IsWhole(d: Device) { (d.status.DevOnline? || d.status.New?) && !d.partition }

  /** With partitions: what is neither online nor new, or is a partition already, is kept as it is. */
  function PlanOne(d: Device, parts: map<string, seq<string>>): seq<Placed> {
    if !IsWhole(d) then [Placed(d, false)] else Partitions(d, FoundOn(d, parts))
  }

  function FoundOn(d: Device, parts: map<string, seq<string>>): seq<string> {
    if d.id in parts then parts[d.id] else []
  }

  function PlanPartitions(devices: seq<Device>, parts: map<string, seq<string>>): seq<Placed> {
    if devices == [] then []
    else PlanPartitions(devices[..|devices| - 1], parts) + PlanOne(devices[|devices| - 1], parts)
  }

  /** The inner loop: the maximum so far, raised by the devices of one node. */
  method Raise(max: int, devices: seq<Device>) returns (r: int)
    requires max >= 0
    ensures r == Max(max, MaxOf(devices))
  {
    r := max;
    for j := 0 to |devices|
      invariant r == Max(max, MaxOf(devices[..j]))
    {
      assert devices[..j + 1][..j] == devices[..j];
      r := Max(r, devices[j].order);
    }
    assert devices[..|devices|] == devices;
  }

  class Cluster {
    var store: Store

    constructor (store: Store)
      ensures this.store == store
    {
      this.store := store;
    }

    method GetNextClusterDeviceOrder() returns (r: int)
      ensures r == NextOrder(store)
    {
      var max, found := 0, false;
      for i := 0 to |store|
        invariant max == MaxOfAll(store[..i]) && (found <==> exists k :: 0 <= k < i && store[k] != [])
      {
        assert store[..i + 1][..i] == store[..i];
        max := Raise(max, store[i]);
        found := found || store[i] != [];
      }
      assert store[..|store|] == store;
      r := if found then max + 1 else 0;
    }

    /** _prepare_cluster_devices_jm_on_dev on a list of devices of node i; None if the stack of one
        of them cannot be created, and then nothing is stored. */
    method PrepareJmOnDev(i: nat, devices: seq<Device>, fails: set<string>) returns (ok: bool)
      requires i < |store|
      modifies this
      ensures ok <==> forall j :: 0 <= j < |devices| && devices[j].id in fails ==>
        devices[j].status !in {Journal, DevOnline, New, ReadOnly}
      ensures store == if ok && devices != [] then old(store)[i := Number(PlanWhole(devices), NextOrder(old(store)))] else old(store)
    {
      if devices == [] { return true; }
      var order := GetNextClusterDeviceOrder();
      ghost var start := order;
      var out: seq<Device> := [];
      for j := 0 to |devices|
        invariant out == Number(PlanWhole(devices[..j]), start) && order == start + Taken(PlanWhole(devices[..j]))
        invariant forall k :: 0 <= k < j ==> !Fails(devices[k], fails)
      {
        assert devices[..j + 1][..j] == devices[..j];
        var d := devices[j];
        if Fails(d, fails) { return false; }
        if d.status.Journal? { continue; }
        ghost var plan := PlanWhole(devices[..j]);
        assert (plan + [Placed(d, d.status.DevOnline?)])[..|plan|] == plan;
        if d.status.DevOnline? && d.order < 0 {
          out := out + [d.(order := order)];
          order := order + 1;
        } else {
          out := out + [d];
        }
      }
      assert devices[..|devices|] == devices;
      store := store[i := out];
      ok := true;
    }

    /** _prepare_cluster_devices_partitions: `parts` says which partitions, past the journal's, are
        found on a whole device in the end, if there are as many as asked for, and `journal` whether
        the journal's stack, if one is due, is created. */
    method PreparePartitions(i: nat, devices: seq<Device>, parts: map<string, seq<string>>, fails: set<string>, journal: bool)
      returns (ok: bool)
      requires i < |store|
      modifies this
      ensures ok <==> journal && forall j :: 0 <= j < |devices| && devices[j].status in {DevOnline, New} ==>
        if devices[j].partition then devices[j].id !in fails
        else devices[j].id in parts && forall k :: 0 <= k < |parts[devices[j].id]| ==> parts[devices[j].id][k] !in fails
      ensures store == if ok then old(store)[i := Number(PlanPartitions(devices, parts), NextOrder(old(store)))] else old(store)
    {
      hide Number, Taken, FailsParts, PlanPartitions, NextOrder;
      forall j | 0 <= j < |devices| { FailsPartsIff(devices[j], parts, fails); }
      var start := GetNextClusterDeviceOrder();
      var order := start;
      var out: seq<Device> := [];
      NothingPlanned(parts, start);
      for j := 0 to |devices|
        invariant store == old(store) && out == Number(PlanPartitions(devices[..j], parts), start)
        invariant order == start + Taken(PlanPartitions(devices[..j], parts))
        invariant forall k :: 0 <= k < j ==> !FailsParts(devices[k], parts, fails)
      {
        PlanMore(devices, j, parts);
        var d := devices[j];
        if FailsParts(d, parts, fails) { return false; }
        out, order := PlaceOne(d, parts, fails, PlanPartitions(devices[..j], parts), start, out, order);
      }
      assert devices[..|devices|] == devices;
      if !journal { return false; }
      store := store[i := out];
      ok := true;
    }

    /** add_device of the device controller: a new ID whatever the device had. */
    method AddDevice(i: nat, j: nat)
      requires i < |store| && j < |store[i]|
      modifies this
      ensures store == Added(old(store), i, j)
    {
      var order := GetNextClusterDeviceOrder();
      store := store[i := store[i][j := store[i][j].(order := order, status := DevOnline)]];
    }
  }

  function Added(store: Store, i: nat, j: nat): Store
    requires i < |store| && j < |store[i]|
  {
    store[i := store[i][j := store[i][j].(order := NextOrder(store), status := DevOnline)]]
  }

  /** The inner loop over the partitions found on one device. */
  method NumberPartitions(d: Device, names: seq<string>, ghost plan: seq<Placed>, ghost start: int, out: seq<Device>, order: int)
    returns (out': seq<Device>, order': int)
    requires out == Number(plan, start) && order == start + Taken(plan)
    ensures out' == Number(plan + Partitions(d, names), start) && order' == start + Taken(plan + Partitions(d, names))
  {
    out', order' := out, order;
    assert plan + Partitions(d, names)[..0] == plan;
    for k := 0 to |names|
      invariant out' == Number(plan + Partitions(d, names)[..k], start)
      invariant order' == start + Taken(plan + Partitions(d, names)[..k])
    {
      ghost var before := plan + Partitions(d, names)[..k];
      var p := Device(names[k], d.order, d.status, true);
      NumberMore(before, Placed(p, d.status.DevOnline?), start);
      assert plan + Partitions(d, names)[..k + 1] == before + [Placed(p, d.status.DevOnline?)];
      if p.status.DevOnline? && p.order < 0 {
        out', order' := out' + [p.(order := order')], order' + 1;
      } else {
        out' := out' + [p];
      }
    }
    assert Partitions(d, names)[..|names|] == Partitions(d, names);
  }

  lemma NothingPlanned(parts: map<string, seq<string>>, start: int)
    ensures Number(PlanPartitions([], parts), start) == [] && Taken(PlanPartitions([], parts)) == 0
  {
  }

  lemma PlanMore(devices: seq<Device>, j: nat, parts: map<string, seq<string>>)
    requires j < |devices|
    ensures PlanPartitions(devices[..j + 1], parts) == PlanPartitions(devices[..j], parts) + PlanOne(devices[j], parts)
  {
    assert devices[..j + 1][..j] == devices[..j];
  }

  method PlaceOne(d: Device, parts: map<string, seq<string>>, ghost fails: set<string>, ghost plan: seq<Placed>, ghost start: int, out: seq<Device>, order: int)
    returns (out': seq<Device>, order': int)
    requires out == Number(plan, start) && order == start + Taken(plan)
    requires !FailsParts(d, parts, fails)
    ensures out' == Number(plan + PlanOne(d, parts), start) && order' == start + Taken(plan + PlanOne(d, parts))
  {
    if !IsWhole(d) {
      NumberMore(plan, Placed(d, false), start);
      out', order' := out + [d], order;
    } else {
      out', order' := NumberPartitions(d, parts[d.id], plan, start, out, order);
    }
  }

  lemma NumberMore(plan: seq<Placed>, p: Placed, start: int)
    ensures Number(plan + [p], start)
      == Number(plan, start) + [if Takes(p) then p.device.(order := start + Taken(plan)) else p.device]
    ensures Taken(plan + [p]) == Taken(plan) + if Takes(p) then 1 else 0
  {
    assert (plan + [p])[..|plan|] == plan;
  }

  /** The stack is created for a journal, and for online, new and read-only devices. */
  predicate Fails(d: Device, fails: set<string>) {
    d.id in fails && (d.status.Journal? || d.status.DevOnline? || d.status.New? || d.status.ReadOnly?)
  }

  /** The partitions are not found, or the stack of one of them, or of the partition the device is,
      cannot be created. */
  predicate FailsParts(d: Device, parts: map<string, seq<string>>, fails: set<string>) {
    (d.status.DevOnline? || d.status.New?) &&
    (if d.partition then d.id in fails
     else d.id !in parts || exists k :: 0 <= k < |parts[d.id]| && parts[d.id][k] in fails)
  }

  lemma FailsPartsIff(d: Device, parts: map<string, seq<string>>, fails: set<string>)
    ensures FailsParts(d, parts, fails) <==>
      d.status in {DevOnline, New} &&
      !(if d.partition then d.id !in fails
        else d.id in parts && forall k :: 0 <= k < |parts[d.id]| ==> parts[d.id][k] !in fails)
  {
  }
}
