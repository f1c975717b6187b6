/** Over any sequence of device preparations, storage IDs stay unique in the cluster. */
module StorageIdLaws {
  import opened Records
  import opened StorageIds
  import CM = ClusterMap
  import ML = MapLaws

  ghost predicate HasId(devices: seq<Device>, o: int) { exists j :: 0 <= j < |devices| && devices[j].order == o }

  ghost predicate UniqueIn(devices: seq<Device>) {
    forall j, k :: 0 <= j < k < |devices| && devices[j].order >= 0 ==> devices[j].order != devices[k].order
  }

  /** No two devices of the cluster share a storage ID; negative ones are not IDs. */
  ghost predicate Unique(store: Store) {
    && (forall i :: 0 <= i < |store| ==> UniqueIn(store[i]))
    && (forall i, k, o :: 0 <= i < |store| && 0 <= k < |store| && i != k && o >= 0 && HasId(store[i], o) ==> !HasId(store[k], o))
  }

  // ---------------------------------------------------------------- numbering

  /** The IDs a plan comes with. */
  ghost predicate PlanUnique(plan: seq<Placed>, start: int) {
    && (forall j :: 0 <= j < |plan| ==> plan[j].device.order < start)
    && (forall j, k :: 0 <= j < k < |plan| && plan[j].device.order >= 0 ==> plan[j].device.order != plan[k].device.order)
  }

  /** Each device keeps the ID it came with or gets the next new one. */
  lemma {:induction false} NumberAt(plan: seq<Placed>, start: int, j: nat)
    requires j < |plan|
    ensures Number(plan, start)[j].order == if Takes(plan[j]) then start + Taken(plan[..j]) else plan[j].device.order
    ensures Taken(plan[..j]) + (if Takes(plan[j]) then 1 else 0) <= Taken(plan)
  {
    if j < |plan| - 1 {
      NumberAt(plan[..|plan| - 1], start, j);
      assert plan[..|plan| - 1][..j] == plan[..j];
    }
  }

  lemma {:induction false} NumberUnique(plan: seq<Placed>, start: int)
    requires PlanUnique(plan, start) && start >= 0
    ensures UniqueIn(Number(plan, start))
  {
    var out := Number(plan, start);
    forall j, k | 0 <= j < k < |out| && out[j].order >= 0 ensures out[j].order != out[k].order {
      NumberAt(plan, start, j);
      NumberAt(plan, start, k);
      assert plan[..k][..j] == plan[..j];
      NumberAt(plan[..k], start, j);
    }
  }

  // ---------------------------------------------------------------- plans

  /** The devices handed in are new to the cluster, or stored on this node with the ID they have. */
  ghost predicate Handed(store: Store, i: nat, devices: seq<Device>)
    requires i < |store|
  {
    UniqueIn(devices) && forall j :: 0 <= j < |devices| && devices[j].order >= 0 ==> HasId(store[i], devices[j].order)
  }

  /** Every device of a plan is one of those handed in, in order. */
  ghost predicate From(plan: seq<Placed>, devices: seq<Device>, at: seq<nat>) {
    && |at| == |plan|
    && (forall j :: 0 <= j < |at| ==> at[j] < |devices| && plan[j].device.order == devices[at[j]].order)
    && (forall j, k :: 0 <= j < k < |at| && plan[j].device.order >= 0 ==> at[j] < at[k])
  }

  lemma {:induction false} PlanWholeFrom(devices: seq<Device>) returns (at: seq<nat>)
    ensures From(PlanWhole(devices), devices, at)
  {
    at := [];
    if devices != [] {
      at := PlanWholeFrom(devices[..|devices| - 1]);
      if !devices[|devices| - 1].status.Journal? { at := at + [|devices| - 1]; }
    }
  }

  /** No device to be partitioned brings an ID for several partitions, which would all copy it. */
  ghost predicate NoShare(devices: seq<Device>, parts: map<string, seq<string>>) {
    forall j :: 0 <= j < |devices| ==> !Shares(devices[j], parts)
  }

  predicate Shares(d: Device, parts: map<string, seq<string>>) {
    IsWhole(d) && d.order >= 0 && |FoundOn(d, parts)| > 1
  }

  lemma {:induction false} PlanPartitionsFrom(devices: seq<Device>, parts: map<string,
                                              seq<string>>) returns (at: seq<nat>)
    requires NoShare(devices, parts)
    ensures From(PlanPartitions(devices, parts), devices, at)
  {
    hide PlanOne, Shares;
    at := [];
    if devices != [] {
      var last := |devices| - 1;
      at := PlanPartitionsFrom(devices[..last], parts);
      var one := PlanOne(devices[last], parts);
      PlanOneMeans(devices[last], parts);
      FromMore(PlanPartitions(devices[..last], parts), one, devices, at, last);
      at := at + seq(|one|, _ => last);
    }
  }

  /** One device is planned as it is, or as partitions with its ID; as several only if it has none. */
  lemma PlanOneMeans(d: Device, parts: map<string, seq<string>>)
    requires !Shares(d, parts)
    ensures forall j :: 0 <= j < |PlanOne(d, parts)| ==> PlanOne(d, parts)[j].device.order == d.order
    ensures d.order >= 0 ==> |PlanOne(d, parts)| <= 1
  {
  }

  lemma FromMore(plan: seq<Placed>, one: seq<Placed>, devices: seq<Device>, at: seq<nat>, last: nat)
    requires last < |devices| && From(plan, devices[..last], at)
    requires forall j :: 0 <= j < |one| ==> one[j].device.order == devices[last].order
    requires devices[last].order >= 0 ==> |one| <= 1
    ensures From(plan + one, devices, at + seq(|one|, _ => last))
  {
  }

  lemma {:induction false} PlanIsUnique(store: Store, i: nat, devices: seq<Device>, plan: seq<Placed>, at: seq<nat>)
    requires i < |store| && Handed(store, i, devices) && From(plan, devices, at)
    ensures PlanUnique(plan, NextOrder(store))
    ensures forall j :: 0 <= j < |plan| && plan[j].device.order >= 0 ==> HasId(store[i], plan[j].device.order)
  {
    forall j | 0 <= j < |plan|
      ensures plan[j].device.order < NextOrder(store)
      ensures plan[j].device.order >= 0 ==> HasId(store[i], plan[j].device.order)
    {
      var o := plan[j].device.order;
      assert o == devices[at[j]].order;
      if o >= 0 { assert HasId(store[i], o); }
    }
  }

  /** What is stored for node i afterwards clashes with no device of the cluster. */
  lemma {:induction false} NumberedFits(store: Store, i: nat, plan: seq<Placed>)
    requires i < |store| && Unique(store) && PlanUnique(plan, NextOrder(store))
    requires forall j :: 0 <= j < |plan| && plan[j].device.order >= 0 ==> HasId(store[i], plan[j].device.order)
    ensures Unique(store[i := Number(plan, NextOrder(store))])
  {
    var start := NextOrder(store);
    var out := Number(plan, start);
    NumberUnique(plan, start);
    var after := store[i := out];
    forall a, k, o | 0 <= a < |after| && 0 <= k < |after| && a != k && o >= 0 && HasId(after[a], o) ensures !HasId(after[k], o) {
      if a == i {
        NumberedElsewhere(store, i, plan, k, o);
      } else if k == i && HasId(out, o) {
        NumberedElsewhere(store, i, plan, a, o);
      }
    }
  }

  lemma {:induction false} NumberedElsewhere(store: Store, i: nat, plan: seq<Placed>, k: nat, o: int)
    requires i < |store| && k < |store| && k != i && Unique(store)
    requires forall j :: 0 <= j < |plan| && plan[j].device.order >= 0 ==> HasId(store[i], plan[j].device.order)
    requires o >= 0 && HasId(Number(plan, NextOrder(store)), o)
    ensures !HasId(store[k], o)
  {
    var start := NextOrder(store);
    var j :| 0 <= j < |Number(plan, start)| && Number(plan, start)[j].order == o;
    NumberAt(plan, start, j);
  }

  // ---------------------------------------------------------------- runs

  datatype Op =
    | Whole(i: nat, devices: seq<Device>, fails: set<string>)
    | Parts(i: nat, devices: seq<Device>, parts: map<string, seq<string>>, fails: set<string>, journal: bool)
    | Add(i: nat, j: nat)

  ghost predicate Allowed(store: Store, op: Op) {
    match op
    case Whole(i, devices, _) => i < |store| && Handed(store, i, devices)
    case Parts(i, devices, parts, _, _) => i < |store| && Handed(store, i, devices) && NoShare(devices, parts)
    case Add(i, j) => i < |store| && j < |store[i]|
  }

  ghost function After(store: Store, op: Op): Store
    requires Allowed(store, op)
  {
    match op
    case Whole(i, devices, fails) =>
      if devices != [] && forall j :: 0 <= j < |devices| ==> !Fails(devices[j], fails)
      then store[i := Number(PlanWhole(devices), NextOrder(store))] else store
    case Parts(i, devices, parts, fails, journal) =>
      if journal && forall j :: 0 <= j < |devices| ==> !FailsParts(devices[j], parts, fails)
      then store[i := Number(PlanPartitions(devices, parts), NextOrder(store))] else store
    case Add(i, j) => Added(store, i, j)
  }

  method Perform(c: Cluster, op: Op)
    requires Allowed(c.store, op)
    modifies c
    ensures c.store == After(old(c.store), op)
  {
    match op {
      case Whole(i, devices, fails) => var _ := c.PrepareJmOnDev(i, devices, fails);
      case Parts(i, devices, parts, fails, journal) => var _ := c.PreparePartitions(i, devices, parts, fails, journal);
      case Add(i, j) => c.AddDevice(i, j);
    }
  }

  lemma AddKeepsUnique(store: Store, i: nat, j: nat)
    requires Unique(store) && i < |store| && j < |store[i]|
    ensures Unique(Added(store, i, j))
  {
    var after, next := Added(store, i, j), NextOrder(store);
    assert UniqueIn(after[i]);
    forall a, k, o | 0 <= a < |after| && 0 <= k < |after| && a != k && o >= 0 && HasId(after[a], o) ensures !HasId(after[k], o) {
      if o != next {
        IdsAfterAdd(store, i, j, a, o);
        IdsAfterAdd(store, i, j, k, o);
      }
    }
  }

  /** Other IDs than the new one are where they were. */
  lemma IdsAfterAdd(store: Store, i: nat, j: nat, a: nat, o: int)
    requires i < |store| && j < |store[i]| && a < |store| && o != NextOrder(store)
    ensures HasId(Added(store, i, j)[a], o) ==> HasId(store[a], o)
  {
  }

  lemma {:induction false} StepKeepsUnique(store: Store, op: Op)
    requires Unique(store) && Allowed(store, op)
    ensures Unique(After(store, op))
  {
    match op {
      case Whole(i, devices, fails) =>
        var at := PlanWholeFrom(devices);
        PlanIsUnique(store, i, devices, PlanWhole(devices), at);
        NumberedFits(store, i, PlanWhole(devices));
      case Parts(i, devices, parts, fails, journal) =>
        var at := PlanPartitionsFrom(devices, parts);
        PlanIsUnique(store, i, devices, PlanPartitions(devices, parts), at);
        NumberedFits(store, i, PlanPartitions(devices, parts));
      case Add(i, j) => AddKeepsUnique(store, i, j);
    }
  }

  ghost predicate Runs(store: Store, ops: seq<Op>)
    decreases |ops|
  {
    ops == [] || (Allowed(store, ops[0]) && Runs(After(store, ops[0]), ops[1..]))
  }

  ghost function Final(store: Store, ops: seq<Op>): Store
    requires Runs(store, ops)
    decreases |ops|
  {
    if ops == [] then store else Final(After(store, ops[0]), ops[1..])
  }

  /** Storage IDs stay unique over every sequence of preparations, failing ones included. */
  lemma {:induction false} IdsStayUnique(store: Store, ops: seq<Op>)
    requires Unique(store) && Runs(store, ops)
    ensures Unique(Final(store, ops))
    decreases |ops|
  {
    if ops != [] {
      StepKeepsUnique(store, ops[0]);
      IdsStayUnique(After(store, ops[0]), ops[1..]);
    }
  }

  // ---------------------------------------------------------------- who has an ID

  /** After a preparation without partitions every online device has an ID. */
  lemma {:induction false} OnlineHasId(devices: seq<Device>, start: int, j: nat)
    requires start >= 0 && j < |PlanWhole(devices)|
    ensures Number(PlanWhole(devices), start)[j].status.DevOnline? ==> Number(PlanWhole(devices), start)[j].order >= 0
  {
    if j < |PlanWhole(devices[..|devices| - 1])| {
      OnlineHasId(devices[..|devices| - 1], start, j);
    }
  }

  lemma {:induction false} NumberedPartition(devices: seq<Device>, parts: map<string, seq<string>>, start: int,
                                             k: nat) returns (j: nat)
    requires start >= 0 && k < |PlanPartitions(devices, parts)|
    ensures j < |devices|
    ensures var (p, d) := (PlanPartitions(devices, parts)[k], Number(PlanPartitions(devices, parts), start)[k]);
      && (p == Placed(devices[j], false) || (p.device.order == devices[j].order && p.numbered == p.device.status.DevOnline?))
      && d.status == p.device.status && (d.order >= 0 || d.order == p.device.order)
      && (d.order >= 0 <==> Takes(p) || p.device.order >= 0)
      && (p.device.status.DevOnline? && !p.numbered ==> p.device == devices[j] && devices[j].partition)
  {
    var plan := PlanPartitions(devices, parts);
    NumberAt(plan, start, k);
    NumberKeepsStatus(plan, start, k);
    var before := PlanPartitions(devices[..|devices| - 1], parts);
    if k < |before| {
      j := NumberedPartition(devices[..|devices| - 1], parts, start, k);
    } else {
      j := |devices| - 1;
    }
  }

  lemma {:induction false} NumberKeepsStatus(plan: seq<Placed>, start: int, k: nat)
    requires k < |plan|
    ensures Number(plan, start)[k].status == plan[k].device.status
  {
    if k < |plan| - 1 { NumberKeepsStatus(plan[..|plan| - 1], start, k); }
  }

  /** Where a device that is not to be partitioned ends up. */
  lemma {:induction false} KeptInPlan(devices: seq<Device>, parts: map<string, seq<string>>, j: nat) returns (k: nat)
    requires j < |devices| && !IsWhole(devices[j])
    ensures k < |PlanPartitions(devices, parts)| && PlanPartitions(devices, parts)[k] == Placed(devices[j], false)
  {
    if j < |devices| - 1 {
      k := KeptInPlan(devices[..|devices| - 1], parts, j);
    } else {
      k := |PlanPartitions(devices[..|devices| - 1], parts)|;
    }
  }

  ghost predicate OnlineNumbered(devices: seq<Device>) {
    forall j :: 0 <= j < |devices| && devices[j].status.DevOnline? ==> devices[j].order >= 0
  }

  ghost predicate OnlinePartitionsNumbered(devices: seq<Device>) {
    forall j :: 0 <= j < |devices| && devices[j].partition && devices[j].status.DevOnline? ==> devices[j].order >= 0
  }

  /** With partitions, every online device ends with an ID exactly if every online partition that was
      handed in came with one: those found now are numbered, those known before are not. */
  lemma {:induction false} PartitionsNumberedIff(devices: seq<Device>, parts: map<string, seq<string>>, start: int)
    requires start >= 0
    ensures OnlineNumbered(Number(PlanPartitions(devices, parts), start)) <==> OnlinePartitionsNumbered(devices)
  {
    hide PlanPartitions, Number, IsWhole;
    var out := Number(PlanPartitions(devices, parts), start);
    if OnlinePartitionsNumbered(devices) {
      forall k | 0 <= k < |out| && out[k].status.DevOnline? ensures out[k].order >= 0 {
        var j := NumberedPartition(devices, parts, start, k);
      }
    }
    if OnlineNumbered(out) {
      forall j | 0 <= j < |devices| && devices[j].partition && devices[j].status.DevOnline? ensures devices[j].order >= 0 {
        PartitionIsNotWhole(devices[j]);
        var k := KeptInPlan(devices, parts, j);
        NumberAt(PlanPartitions(devices, parts), start, k);
        NumberKeepsStatus(PlanPartitions(devices, parts), start, k);
      }
    }
  }

  lemma PartitionIsNotWhole(d: Device)
    requires d.partition
    ensures !IsWhole(d)
  {
  }

  /** The partitions of a device that brings an ID for several stand side by side. */
  lemma {:induction false} SharedInPlan(devices: seq<Device>, parts: map<string, seq<string>>, j: nat) returns (k: nat)
    requires j < |devices| && Shares(devices[j], parts)
    ensures k + 1 < |PlanPartitions(devices, parts)|
    ensures var plan := PlanPartitions(devices, parts);
      plan[k].device.order == plan[k + 1].device.order == devices[j].order
  {
    if j < |devices| - 1 {
      k := SharedInPlan(devices[..|devices| - 1], parts, j);
    } else {
      k := |PlanPartitions(devices[..|devices| - 1], parts)|;
      assert PlanOne(devices[j], parts) == Partitions(devices[j], FoundOn(devices[j], parts));
      assert Partitions(devices[j], FoundOn(devices[j], parts))[0].device.order == devices[j].order;
      assert Partitions(devices[j], FoundOn(devices[j], parts))[1].device.order == devices[j].order;
    }
  }

  lemma NotUniqueAt(store: Store, i: nat, out: seq<Device>, k: nat)
    requires i < |store| && k + 1 < |out| && out[k].order >= 0 && out[k].order == out[k + 1].order
    ensures !Unique(store[i := out])
  {
    assert store[i := out][i] == out;
    assert !UniqueIn(out);
  }

  /** A preparation with partitions keeps storage IDs unique if and only if no device brings an ID for
      several partitions. */
  lemma {:induction false} PartitionsUniqueIff(store: Store, i: nat, devices: seq<Device>, parts: map<string,
                                               seq<string>>)
    requires i < |store| && Unique(store) && Handed(store, i, devices)
    ensures Unique(store[i := Number(PlanPartitions(devices, parts), NextOrder(store))]) <==> NoShare(devices, parts)
  {
    hide Number, Unique, NextOrder, PlanPartitions, Handed, Shares, HasId;
    var plan := PlanPartitions(devices, parts);
    if NoShare(devices, parts) {
      var at := PlanPartitionsFrom(devices, parts);
      PlanIsUnique(store, i, devices, plan, at);
      NumberedFits(store, i, plan);
    } else {
      var j :| 0 <= j < |devices| && Shares(devices[j], parts);
      SharesMeans(devices[j], parts);
      var k := SharedInPlan(devices, parts, j);
      NumberAt(plan, NextOrder(store), k);
      NumberAt(plan, NextOrder(store), k + 1);
      NotUniqueAt(store, i, Number(plan, NextOrder(store)), k);
    }
  }

  lemma SharesMeans(d: Device, parts: map<string, seq<string>>)
    requires Shares(d, parts)
    ensures d.order >= 0
  {
  }

  // ---------------------------------------------------------------- what is stored

  /** The next ID is 0 in a cluster without devices, and otherwise one past the largest, which counts as 0
      if no device has one. */
  lemma {:induction false} NextOrderIs(store: Store)
    ensures (forall i :: 0 <= i < |store| ==> store[i] == []) ==> NextOrder(store) == 0
    ensures (exists i :: 0 <= i < |store| && store[i] != []) ==>
      && NextOrder(store) >= 1 && (forall i, j :: 0 <= i < |store| && 0 <= j < |store[i]| ==> store[i][j].order < NextOrder(store))
      && (NextOrder(store) > 1 ==> exists i, j :: 0 <= i < |store| && 0 <= j < |store[i]| && store[i][j].order == NextOrder(store) - 1)
  {
    LargestIsThere(store);
  }

  lemma {:induction false} LargestIsThere(store: Store)
    ensures MaxOfAll(store) > 0 ==> exists i, j :: 0 <= i < |store| && 0 <= j < |store[i]| && store[i][j].order == MaxOfAll(store)
  {
    if store != [] {
      var front, last := store[..|store| - 1], |store| - 1;
      LargestIsThere(front);
      LargestIn(store[last]);
      if MaxOfAll(store) > 0 {
        if MaxOf(store[last]) == MaxOfAll(store) {
          var j :| 0 <= j < |store[last]| && store[last][j].order == MaxOf(store[last]);
          assert store[last][j].order == MaxOfAll(store);
        } else {
          var i, j :| 0 <= i < |front| && 0 <= j < |front[i]| && front[i][j].order == MaxOfAll(front);
          assert store[i][j].order == MaxOfAll(store);
        }
      }
    }
  }

  lemma {:induction false} LargestIn(devices: seq<Device>)
    ensures MaxOf(devices) > 0 ==> exists j :: 0 <= j < |devices| && devices[j].order == MaxOf(devices)
  {
    if devices != [] {
      var front, last := devices[..|devices| - 1], |devices| - 1;
      LargestIn(front);
      if MaxOf(devices) > 0 && devices[last].order < MaxOf(devices) {
        var j :| 0 <= j < |front| && front[j].order == MaxOf(front);
        assert devices[j].order == MaxOf(devices);
      }
    }
  }

  /** A device that is added gets an ID above all others, whatever it had, and is online; nothing else
      changes. */
  lemma {:induction false} AddedDevice(store: Store, i: nat, j: nat)
    requires i < |store| && j < |store[i]|
    ensures var after := Added(store, i, j);
      && after[i][j].(order := store[i][j].order, status := store[i][j].status) == store[i][j]
      && after[i][j].status == DevOnline
      && (forall a, b :: 0 <= a < |store| && 0 <= b < |store[a]| ==> store[a][b].order < after[i][j].order)
      && (after[i][j].order > 1 ==> exists a, b :: 0 <= a < |store| && 0 <= b < |store[a]| && store[a][b].order == after[i][j].order - 1)
      && |after| == |store| && (forall a :: 0 <= a < |store| ==> |after[a]| == |store[a]|)
      && (forall a, b :: 0 <= a < |store| && 0 <= b < |store[a]| && (a != i || b != j) ==> after[a][b] == store[a][b])
  {
    hide NextOrder;
    NextOrderIs(store);
  }

  /** Which of the first n devices stay in the list, and which of them are given an ID. */
  ghost function Staying(devices: seq<Device>, n: nat): set<nat>
    requires n <= |devices|
  {
    set i: nat | i < n && devices[i].status != Journal
  }

  ghost function Numbered(devices: seq<Device>, n: nat): set<nat>
    requires n <= |devices|
  {
    set i: nat | i < n && devices[i].status == DevOnline && devices[i].order < 0
  }

  lemma {:induction false} WholeCounts(devices: seq<Device>)
    ensures |PlanWhole(devices)| == |Staying(devices, |devices|)|
    ensures Taken(PlanWhole(devices)) == |Numbered(devices, |devices|)|
  {
    if devices != [] {
      var front, d := devices[..|devices| - 1], devices[|devices| - 1];
      WholeCounts(front);
      StayingGrows(devices);
      NumberedGrows(devices);
      if d.status != Journal { NumberMore(PlanWhole(front), Placed(d, d.status.DevOnline?), 0); }
    }
  }

  lemma StayingGrows(devices: seq<Device>)
    requires devices != []
    ensures var front, last := devices[..|devices| - 1], |devices| - 1;
      |Staying(devices, |devices|)| == |Staying(front, last)| + if devices[last].status != Journal then 1 else 0
  {
    var front, last := devices[..|devices| - 1], |devices| - 1;
    assert Staying(devices, |devices|) == Staying(front, last) + if devices[last].status != Journal then {last as nat} else {};
  }

  lemma NumberedGrows(devices: seq<Device>)
    requires devices != []
    ensures var front, last := devices[..|devices| - 1], |devices| - 1;
      |Numbered(devices, |devices|)|
      == |Numbered(front, last)| + if devices[last].status == DevOnline && devices[last].order < 0 then 1 else 0
  {
    var front, last := devices[..|devices| - 1], |devices| - 1;
    assert Numbered(devices, |devices|)
      == Numbered(front, last) + if devices[last].status == DevOnline && devices[last].order < 0 then {last as nat} else {};
  }

  /** Without partitions every device that is no journal is stored, in order and as it is, except that online
      ones without an ID get the next new ones; journals are not. */
  lemma {:induction false} WholeIsStored(devices: seq<Device>, start: int, j: nat)
    requires j < |devices| && devices[j].status != Journal
    ensures var (out, d, at) := (Number(PlanWhole(devices), start), devices[j], |Staying(devices, j)|);
      && at < |out| == |Staying(devices, |devices|)|
      && out[at] == d.(order := if d.status == DevOnline && d.order < 0 then start + |Numbered(devices, j)| else d.order)
  {
    hide Staying, Numbered, Taken, Number;
    var front, last := devices[..|devices| - 1], devices[|devices| - 1];
    WholeCounts(devices);
    WholeCounts(front);
    if last.status != Journal { NumberMore(PlanWhole(front), Placed(last, last.status.DevOnline?), start); }
    SamePrefix(devices, j);
    if j < |front| {
      WholeIsStored(front, start, j);
    }
  }

  lemma SamePrefix(devices: seq<Device>, j: nat)
    requires j < |devices|
    ensures var front := devices[..|devices| - 1]; Staying(devices, j) == Staying(front, j) && Numbered(devices, j) == Numbered(front, j)
  {
  }

  /** With partitions, what is not to be partitioned is stored as it is, and of the others the partitions
      found on them, each with the ID the device brought or, if that is none and it is online, a new one. */
  lemma {:induction false} PartsAreStored(devices: seq<Device>, parts: map<string, seq<string>>, start: int,
                                          j: nat, k: nat)
    requires j < |devices|
    ensures var (out, d, at) := (Number(PlanPartitions(devices, parts), start), devices[j], |PlanPartitions(devices[..j], parts)|);
      if d.status in {DevOnline, New} && !d.partition then
        d.id in parts && k < |parts[d.id]| ==>
          && at + k < |out|
          && out[at + k].(order := d.order) == Device(parts[d.id][k], d.order, d.status, true)
          && (if d.status == DevOnline && d.order < 0 then out[at + k].order >= start else out[at + k].order == d.order)
      else at < |out| && out[at] == d
    ensures var (before, after) := (|PlanPartitions(devices[..j], parts)|, |PlanPartitions(devices[..j + 1], parts)|);
      after == before + if !(devices[j].status in {DevOnline, New}) || devices[j].partition then 1
                        else if devices[j].id in parts then |parts[devices[j].id]| else 0
  {
    hide PlanPartitions, Number, Taken;
    var d := devices[j];
    PlanMore(devices, j, parts);
    if !IsWhole(d) {
      PlacedAt(devices, parts, start, j, 0);
    } else if d.id in parts && k < |parts[d.id]| {
      PlacedAt(devices, parts, start, j, k);
      assert PlanOne(d, parts)[k] == Partitions(d, parts[d.id])[k];
    }
  }

  lemma {:induction false} PlacedAt(devices: seq<Device>, parts: map<string, seq<string>>, start: int, j: nat, k: nat)
    requires j < |devices| && k < |PlanOne(devices[j], parts)|
    ensures var at := |PlanPartitions(devices[..j], parts)| + k;
      var (plan, out) := (PlanPartitions(devices, parts), Number(PlanPartitions(devices, parts), start));
      && at < |plan| == |out| && plan[at] == PlanOne(devices[j], parts)[k]
      && out[at] == Numbering(plan[at], start, Taken(plan[..at]))
  {
    hide PlanPartitions, PlanOne, Number, Taken;
    PlanMore(devices, j, parts);
    PlanGrows(devices, parts, j + 1);
    NumberIs(PlanPartitions(devices, parts), start, |PlanPartitions(devices[..j], parts)| + k);
  }

  /** A planned device with its ID, n others having been given one before. */
  function Numbering(p: Placed, start: int, n: nat): Device {
    if Takes(p) then p.device.(order := start + n) else p.device
  }

  lemma {:induction false} NumberIs(plan: seq<Placed>, start: int, j: nat)
    requires j < |plan|
    ensures Number(plan, start)[j] == Numbering(plan[j], start, Taken(plan[..j]))
  {
    if j < |plan| - 1 {
      NumberIs(plan[..|plan| - 1], start, j);
      assert plan[..|plan| - 1][..j] == plan[..j];
    }
  }

  lemma {:induction false} PlanGrows(devices: seq<Device>, parts: map<string, seq<string>>, n: nat)
    requires n <= |devices|
    ensures PlanPartitions(devices[..n], parts) <= PlanPartitions(devices, parts)
    decreases |devices| - n
  {
    assert devices[..|devices|] == devices;
    if n < |devices| {
      PlanMore(devices, n, parts);
      PlanGrows(devices, parts, n + 1);
    }
  }

  // ---------------------------------------------------------------- what it means for the map

  /** Where storage IDs are unique and every mapped device has one, a node's weight in the cluster
      map is exactly the weight of its items. */
  lemma {:induction false} UniqueIdsWeighExactly(devices: seq<Device>, mapped: seq<CM.Device>)
    requires UniqueIn(devices) && |mapped| == |devices|
    requires forall j :: 0 <= j < |devices| ==> mapped[j].order == devices[j].order
    requires forall j :: 0 <= j < |devices| && CM.Mapped(mapped[j].status) ==> mapped[j].order >= 0
    ensures ML.UniqueOrders(mapped)
    ensures CM.NodeWeight(mapped) == ML.Counted(CM.SlotsOf(mapped))
  {
    ML.WeightIsCounted(mapped);
  }
}
