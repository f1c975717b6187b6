/**
 What restart's matching loses and finds, and which statuses a device can never come back from.
 */
module DeviceLaws {
  import opened Records
  import opened Devices

  // ---------------------------------------------------------------- reconciliation

  ghost predicate DistinctSerials(devices: seq<Device>) {
    forall i, j :: 0 <= i < j < |devices| ==> devices[i].serial != devices[j].serial
  }

  lemma {:induction false} DiscoveredIs(found: seq<Device>, i: nat)
    requires DistinctSerials(found) && i < |found|
    ensures Discovered(found, found[i].serial) == Some(found[i])
  {
    if i < |found| - 1 { DiscoveredIs(found[..|found| - 1], i); }
  }

  /** Active and removed together are the devices of the record, each settled, each once. */
  lemma {:induction false} ChosenSplits(devices: seq<Device>, found: seq<Device>)
    ensures multiset(Chosen(devices, found, true)) + multiset(Chosen(devices, found, false))
      == multiset(SettleAll(devices, found))
  {
    hide Settle, IsActive, Chosen;
    if devices == [] {
      NothingChosen(found);
    } else {
      var front, d := devices[..|devices| - 1], devices[|devices| - 1];
      ChosenSplits(front, found);
      assert devices[..|devices|] == devices;
      ChosenMore(devices, |devices| - 1, found);
      assert SettleAll(devices, found) == SettleAll(front, found) + [Settle(d, found)];
    }
  }

  /** Which of the two: removed is what is gone, before or now. */
  lemma {:induction false} ChosenMeans(devices: seq<Device>, found: seq<Device>, active: bool, i: nat)
    requires i < |Chosen(devices, found, active)|
    ensures Gone(Chosen(devices, found, active)[i].status) <==> !active
  {
    if i < |Chosen(devices[..|devices| - 1], found, active)| {
      ChosenMeans(devices[..|devices| - 1], found, active, i);
    }
  }

  /** No device of the record is lost, none changes its identity, and what is gone stays as it is. */
  lemma NothingLost(devices: seq<Device>, jm: Option<Journal>, found: seq<Device>, i: nat)
    requires i < |devices|
    ensures var after := Reconciled(devices, jm, found);
      && i < |after| && after[i].id == devices[i].id && after[i].serial == devices[i].serial
      && (Gone(devices[i].status) ==> after[i] == devices[i])
      && (!Gone(devices[i].status) ==>
            after[i].status == if Known(found, devices[i].serial) then devices[i].status else Removed)
  {
    if Discovered(found, devices[i].serial).Some? {
      var f := Discovered(found, devices[i].serial).value;
      var k :| 0 <= k < |found| && found[k] == f;
    }
  }

  ghost predicate IsUnknown(devices: seq<Device>, jmSerial: string, serial: string) {
    serial != jmSerial && !Known(devices, serial)
  }

  lemma {:induction false} UnknownMeans(devices: seq<Device>, jmSerial: string, found: seq<Device>, serial: string)
    ensures Known(Unknown(devices, jmSerial, found), serial) <==> IsUnknown(devices, jmSerial, serial) && Known(found, serial)
  {
    hide IsUnknown;
    if found != [] {
      var front, f := found[..|found| - 1], found[|found| - 1];
      UnknownMeans(devices, jmSerial, front, serial);
      assert found == front + [f];
      KnownMore(front, f, serial);
      UnknownIs(devices, jmSerial, f.serial);
      var before := Unknown(devices, jmSerial, front);
      KnownMore(before, f.(status := New), serial);
    }
  }

  lemma UnknownIs(devices: seq<Device>, jmSerial: string, serial: string)
    ensures IsUnknown(devices, jmSerial, serial) <==> serial != jmSerial && !Known(devices, serial)
  {
  }

  lemma KnownMore(devices: seq<Device>, d: Device, serial: string)
    ensures Known(devices + [d], serial) <==> Known(devices, serial) || d.serial == serial
  {
    assert (devices + [d])[|devices|] == d;
    if Known(devices, serial) {
      var i :| 0 <= i < |devices| && devices[i].serial == serial;
      assert (devices + [d])[i].serial == serial;
    }
  }

  /** Every discovered serial number that is not accounted for is appended, once, as a new device;
      nothing else is. */
  lemma {:induction false} UnknownOnce(devices: seq<Device>, jmSerial: string, found: seq<Device>)
    requires DistinctSerials(found)
    ensures DistinctSerials(Unknown(devices, jmSerial, found))
    ensures forall s :: Known(Unknown(devices, jmSerial, found), s) <==> IsUnknown(devices, jmSerial, s) && Known(found, s)
    ensures forall i :: 0 <= i < |Unknown(devices, jmSerial, found)| ==> Unknown(devices, jmSerial, found)[i].status.New?
  {
    forall s ensures Known(Unknown(devices, jmSerial, found), s) <==> IsUnknown(devices, jmSerial, s) && Known(found, s) {
      UnknownMeans(devices, jmSerial, found, s);
    }
    if found != [] {
      var front, f := found[..|found| - 1], found[|found| - 1];
      UnknownOnce(devices, jmSerial, front);
      assert !Known(front, f.serial);
    }
  }

  lemma {:induction false} UnknownFrom(devices: seq<Device>, jmSerial: string, found: seq<Device>, i: nat) returns (k: nat)
    requires i < |Unknown(devices, jmSerial, found)|
    ensures k < |found| && Unknown(devices, jmSerial, found)[i] == found[k].(status := New)
  {
    if i < |Unknown(devices, jmSerial, found[..|found| - 1])| {
      k := UnknownFrom(devices, jmSerial, found[..|found| - 1], i);
    } else {
      k := |found| - 1;
    }
  }

  lemma {:induction false} NothingUnknown(devices: seq<Device>, jmSerial: string, found: seq<Device>)
    requires forall k :: 0 <= k < |found| ==> found[k].serial == jmSerial || Known(devices, found[k].serial)
    ensures Unknown(devices, jmSerial, found) == []
  {
    if found != [] { NothingUnknown(devices, jmSerial, found[..|found| - 1]); }
  }

  lemma SettleTwice(d: Device, found: seq<Device>)
    ensures Settle(Settle(d, found), found) == Settle(d, found)
  {
  }

  lemma SettleNew(found: seq<Device>, k: nat)
    requires DistinctSerials(found) && k < |found|
    ensures Settle(found[k].(status := New), found) == found[k].(status := New)
  {
    DiscoveredIs(found, k);
  }

  lemma KnownAfter(devices: seq<Device>, jm: Option<Journal>, found: seq<Device>, serial: string)
    ensures Known(Reconciled(devices, jm, found), serial)
      <==> Known(devices, serial) || Known(Unknown(devices, JournalSerial(jm), found), serial)
  {
    var after := Reconciled(devices, jm, found);
    if Known(devices, serial) {
      var i :| 0 <= i < |devices| && devices[i].serial == serial;
      NothingLost(devices, jm, found, i);
      assert after[i].serial == serial;
    }
    var added := Unknown(devices, JournalSerial(jm), found);
    if i :| 0 <= i < |added| && added[i].serial == serial {
      assert after[|devices| + i].serial == serial;
    }
    if i :| 0 <= i < |after| && after[i].serial == serial {
      if i < |devices| {
        NothingLost(devices, jm, found, i);
        assert devices[i].serial == serial;
      } else {
        assert added[i - |devices|].serial == serial;
      }
    }
  }

  /** A second pass over the same discovered devices changes nothing. */
  lemma ReconcileTwice(devices: seq<Device>, jm: Option<Journal>, found: seq<Device>)
    requires DistinctSerials(found)
    ensures var once := Reconciled(devices, jm, found); var jm' := JournalAfter(jm, found);
      Reconciled(once, jm', found) == once && JournalAfter(jm', found) == jm'
  {
    hide Settle, Unknown;
    var once, jm' := Reconciled(devices, jm, found), JournalAfter(jm, found);
    var serial := JournalSerial(jm);
    var added := Unknown(devices, serial, found);
    assert JournalSerial(jm') == serial;
    forall i | 0 <= i < |once| ensures Settle(once[i], found) == once[i] {
      if i < |devices| {
        SettleTwice(devices[i], found);
      } else {
        var k := UnknownFrom(devices, serial, found, i - |devices|);
        SettleNew(found, k);
      }
    }
    assert SettleAll(once, found) == once;
    forall k | 0 <= k < |found| ensures found[k].serial == serial || Known(once, found[k].serial) {
      KnownAfter(devices, jm, found, found[k].serial);
      UnknownMeans(devices, serial, found, found[k].serial);
      assert Known(found, found[k].serial);
    }
    NothingUnknown(once, serial, found);
    assert once + [] == once;
  }

  // ---------------------------------------------------------------- suspension and resumption

  /** Suspension and resumption restore every device status exactly when no device was unavailable
      before. */
  lemma SuspendResumeDevices(devices: seq<Device>)
    ensures TurnAll(Resuming, TurnAll(Suspending, devices)) == devices
      <==> forall i :: 0 <= i < |devices| ==> !devices[i].status.Unavailable?
  {
    var after := TurnAll(Resuming, TurnAll(Suspending, devices));
    forall i | 0 <= i < |devices| ensures after[i] == devices[i] <==> !devices[i].status.Unavailable? {
    }
    if after == devices {
      forall i | 0 <= i < |devices| ensures !devices[i].status.Unavailable? {
        assert after[i] == devices[i];
      }
    }
  }

  /** They restore the journal exactly when it was online: one that was removed comes back online. */
  lemma SuspendResumeJournal(jm: Option<Journal>)
    ensures WithStatus(WithdrawJournal(jm), DevOnline) == jm <==> jm.None? || jm.value.status.DevOnline?
  {
  }

  method SuspendThenResume(n: Node)
    requires n.status.Online?
    modifies n
    ensures n.status.Online?
    ensures n.devices == old(n.devices) <==> forall i :: 0 <= i < |old(n.devices)| ==> !old(n.devices)[i].status.Unavailable?
    ensures n.jm == old(n.jm) <==> old(n.jm).None? || old(n.jm).value.status.DevOnline?
  {
    SuspendResumeDevices(n.devices);
    SuspendResumeJournal(n.jm);
    var _ := n.Suspend(true, false);
    var _ := n.Resume(true);
  }

  // ---------------------------------------------------------------- the life of a device

  /** One call on the node, refused or not; `runs` says whether it gets past its guards. */
  datatype Call =
    | Turned(change: Change, runs: bool)
    | Restarted(jm: Option<Journal>, found: seq<Device>, reach: Reach, runs: bool)

  function After(devices: seq<Device>, c: Call): seq<Device> {
    match c
    case Turned(change, runs) => if runs && !change.ComingBack? then TurnAll(change, devices) else devices
    case Restarted(jm, found, reach, runs) => if runs then RestartDevices(devices, jm, found, reach) else devices
  }

  /** Ids of discovered devices are new each time. */
  ghost predicate NewIds(devices: seq<Device>, c: Call) {
    c.Restarted? ==> forall i, k :: 0 <= i < |devices| && 0 <= k < |c.found| ==> devices[i].id != c.found[k].id
  }

  ghost predicate Runs(devices: seq<Device>, calls: seq<Call>)
    decreases |calls|
  {
    calls == [] || (NewIds(devices, calls[0]) && Runs(After(devices, calls[0]), calls[1..]))
  }

  function Final(devices: seq<Device>, calls: seq<Call>): seq<Device>
    decreases |calls|
  {
    if calls == [] then devices else Final(After(devices, calls[0]), calls[1..])
  }

  ghost predicate Present(devices: seq<Device>, id: string) { exists i :: 0 <= i < |devices| && devices[i].id == id }

  /** Every device with this id has one of these statuses. */
  ghost predicate Within(devices: seq<Device>, id: string, statuses: set<DeviceStatus>) {
    forall i :: 0 <= i < |devices| && devices[i].id == id ==> devices[i].status in statuses
  }

  /** Statuses that no operation leads out of. */
  ghost predicate Stable(statuses: set<DeviceStatus>) {
    forall s :: s in statuses ==>
      !Alive(s) && (s.Journal? || s.FailedAndMigrated? || Failed in statuses) && (Gone(s) || Removed in statuses)
  }

  /** What stays in the list whatever happens. */
  ghost predicate Lasting(statuses: set<DeviceStatus>) { forall s :: s in statuses ==> Gone(s) }

  lemma TurnWithin(c: Change, devices: seq<Device>, id: string, statuses: set<DeviceStatus>)
    requires Stable(statuses) && Within(devices, id, statuses)
    ensures Within(TurnAll(c, devices), id, statuses)
    ensures Present(devices, id) ==> Present(TurnAll(c, devices), id)
  {
    if i :| 0 <= i < |devices| && devices[i].id == id {
      assert TurnAll(c, devices)[i].id == id;
    }
  }

  lemma {:induction false} KeptWithin(devices: seq<Device>, id: string, statuses: set<DeviceStatus>)
    requires Within(devices, id, statuses)
    ensures Within(Kept(devices), id, statuses)
    ensures Lasting(statuses) && Present(devices, id) ==> Present(Kept(devices), id)
  {
    if devices != [] {
      var front, d := devices[..|devices| - 1], devices[|devices| - 1];
      KeptWithin(front, id, statuses);
      if Lasting(statuses) && d.id == id {
        assert Kept(devices)[|Kept(front)|] == d;
      } else if Lasting(statuses) && Present(devices, id) {
        var i :| 0 <= i < |devices| && devices[i].id == id;
        assert front[i].id == id;
        var k :| 0 <= k < |Kept(front)| && Kept(front)[k].id == id;
        assert Kept(devices)[k].id == id;
      }
    }
  }

  lemma ReconciledWithin(devices: seq<Device>, jm: Option<Journal>, found: seq<Device>, id: string, statuses: set<DeviceStatus>)
    requires Stable(statuses) && Within(devices, id, statuses)
    requires New in statuses || forall k :: 0 <= k < |found| ==> found[k].id != id
    ensures Within(Reconciled(devices, jm, found), id, statuses)
    ensures Present(devices, id) ==> Present(Reconciled(devices, jm, found), id)
  {
    var after := Reconciled(devices, jm, found);
    forall i | 0 <= i < |after| && after[i].id == id ensures after[i].status in statuses {
      if i < |devices| {
        NothingLost(devices, jm, found, i);
      } else {
        var k := UnknownFrom(devices, JournalSerial(jm), found, i - |devices|);
      }
    }
    if i :| 0 <= i < |devices| && devices[i].id == id {
      NothingLost(devices, jm, found, i);
      assert after[i].id == id;
    }
  }

  lemma {:induction false} CallWithin(devices: seq<Device>, c: Call, id: string, statuses: set<DeviceStatus>)
    requires NewIds(devices, c) && Stable(statuses) && Within(devices, id, statuses)
    requires New in statuses || (Lasting(statuses) && Present(devices, id))
    ensures Within(After(devices, c), id, statuses)
    ensures Lasting(statuses) && Present(devices, id) ==> Present(After(devices, c), id)
  {
    hide Within, Stable, Lasting, TurnAll, Kept, Reconciled;
    if c.Turned? {
      TurnWithin(c.change, devices, id, statuses);
    } else {
      ReconciledWithin(devices, c.jm, c.found, id, statuses);
      var matched := Reconciled(devices, c.jm, c.found);
      KeptWithin(matched, id, statuses);
      TurnWithin(ComingBack, Kept(matched), id, statuses);
    }
  }

  lemma {:induction false} RunWithin(devices: seq<Device>, calls: seq<Call>, id: string, statuses: set<DeviceStatus>)
    requires Runs(devices, calls) && Stable(statuses) && Within(devices, id, statuses)
    requires New in statuses || (Lasting(statuses) && Present(devices, id))
    ensures Within(Final(devices, calls), id, statuses)
    ensures Lasting(statuses) && Present(devices, id) ==> Present(Final(devices, calls), id)
    decreases |calls|
  {
    hide Within, Stable, Lasting, After;
    if calls != [] {
      CallWithin(devices, calls[0], id, statuses);
      RunWithin(After(devices, calls[0]), calls[1..], id, statuses);
    }
  }

  /** Over every run of the five operations, forced or not and however far a restart gets, no device
      comes into use: one that is not online, unavailable, read-only or unable to allocate to begin
      with, or is not there yet, never is. */
  lemma {:induction false} NeverRevived(devices: seq<Device>, calls: seq<Call>, id: string)
    requires Runs(devices, calls)
    requires forall i :: 0 <= i < |devices| && devices[i].id == id ==> !Alive(devices[i].status)
    ensures forall i :: 0 <= i < |Final(devices, calls)| && Final(devices, calls)[i].id == id ==>
      !Alive(Final(devices, calls)[i].status)
  {
    RunWithin(devices, calls, id, {DeviceStatus.Journal, New, Removed, Failed, FailedAndMigrated});
  }

  /** What a device that is gone can still become. */
  function Fate(s: DeviceStatus): set<DeviceStatus> { if s.Removed? then {Removed, Failed} else {s} }

  /** A device that is gone stays in the record: failed and migrated ones as they are, removed ones
      at most becoming failed. */
  lemma {:induction false} GoneStaysGone(devices: seq<Device>, calls: seq<Call>, id: string, s: DeviceStatus)
    requires Runs(devices, calls) && Gone(s) && Present(devices, id) && Within(devices, id, {s})
    ensures Present(Final(devices, calls), id) && Within(Final(devices, calls), id, Fate(s))
  {
    RunWithin(devices, calls, id, Fate(s));
  }

  /** What a call of the class does to the devices is a call of the run. */
  method Perform(n: Node, c: Change, clear: bool, force: bool) returns (ghost call: Call)
    requires !c.ComingBack?
    modifies n
    ensures call.Turned? && n.devices == After(old(n.devices), call)
  {
    var ok;
    match c {
      case Suspending => call := Turned(c, force || (n.status.Online? && clear)); ok := n.Suspend(clear, force);
      case Resuming => call := Turned(c, n.status.Suspended?); ok := n.Resume(clear);
      case ShuttingDown => call := Turned(c, force || (n.status.Suspended? && clear)); ok := n.Shutdown(clear, force, true);
      case Removing(busy) => call := Turned(c, clear && !n.status.Online?); ok := n.Remove(clear, busy);
    }
  }

  method PerformRestart(n: Node, clear: bool, force: bool, found: seq<Device>, reach: Reach) returns (ghost call: Call)
    modifies n
    ensures n.devices == After(old(n.devices), call)
  {
    call := Restarted(n.jm, found, reach,
                      !n.status.NodeRemoved? && clear && (force || n.status.Offline?) && !reach.Nowhere? && found != []
                      && !Raises(n.jm, found));
    var _ := n.Restart(clear, force, found, reach);
  }
}
