/**
 How each operation leaves the devices and the journal of a node, told from the record: which statuses
 change, to what, and which devices a restart brings back into use.
 */
module DeviceOutcomes {
  import opened Records
  import opened Devices
  import opened DeviceLaws

  // ---------------------------------------------------------------- statuses

  /** A suspension takes exactly the online devices out of use, a shutdown all that are in use or
      unavailable anyway. */
  lemma WithdrawalLeaves(devices: seq<Device>, i: nat)
    requires i < |devices|
    ensures var s := devices[i].status;
      && TurnAll(Suspending, devices)[i] == devices[i].(status := if s == DevOnline then Unavailable else s)
      && TurnAll(ShuttingDown, devices)[i]
         == devices[i].(status := if s in {DevOnline, ReadOnly, CannotAllocate} then Unavailable else s)
  {
  }

  /** A resumption brings back exactly the unavailable ones, read-only and full ones staying as they are. */
  lemma ResumptionLeaves(devices: seq<Device>, i: nat)
    requires i < |devices|
    ensures var s := devices[i].status;
      TurnAll(Resuming, devices)[i] == devices[i].(status := if s == Unavailable then DevOnline else s)
  {
  }

  /** A removal fails every device but journals, migrated ones, and those with a task of their own. */
  lemma RemovalLeaves(devices: seq<Device>, busy: set<string>, i: nat)
    requires i < |devices|
    ensures var (s, after) := (devices[i].status, TurnAll(Removing(busy), devices)[i]);
      && after.(status := s) == devices[i]
      && (s != Failed ==> (after.status != s <==> s != DeviceStatus.Journal && s != FailedAndMigrated && devices[i].id !in busy))
      && (after.status != s ==> after.status == Failed)
  {
  }

  /** A journal that was not removed is withdrawn by suspension, shutdown and restart; its place stays. */
  lemma WithdrawnJournal(jm: Option<Journal>)
    ensures match jm
      case None => WithdrawJournal(jm) == None
      case Some(j) => WithdrawJournal(jm) == Some(if j.status == Removed then j else j.(status := Unavailable))
  {
  }

  // ---------------------------------------------------------------- restart

  /** The list without journals: everything else is still there, and nothing is added. */
  lemma {:induction false} KeptMeans(devices: seq<Device>, d: Device)
    ensures d in Kept(devices) <==> d in devices && d.status != DeviceStatus.Journal
  {
    if devices != [] {
      KeptMeans(devices[..|devices| - 1], d);
      assert devices == devices[..|devices| - 1] + [devices[|devices| - 1]];
    }
  }

  /** Where a restart finds a device: the last discovered one with its serial number, or past the end. */
  ghost predicate LastFound(found: seq<Device>, serial: string, k: nat) {
    k <= |found| && (k < |found| ==> found[k].serial == serial)
    && forall l :: 0 <= l < |found| && (k == |found| || l > k) ==> found[l].serial != serial
  }

  lemma {:induction false} DiscoveredAt(found: seq<Device>, serial: string, k: nat)
    requires LastFound(found, serial, k)
    ensures Discovered(found, serial) == if k < |found| then Some(found[k]) else None
  {
    if found != [] && found[|found| - 1].serial != serial {
      DiscoveredAt(found[..|found| - 1], serial, if k == |found| then k - 1 else k);
    }
  }

  /** Whether the restart gets past the point at which devices come back into use. */
  predicate ComesBack(reach: Reach) { reach.LvstoreRaises? || reach.LvstoreFails? || reach.Finished? }

  /** What a restart that gets past the matching makes of a device of the record: gone devices stay, missing
      ones are removed, found ones move to where they are found, and if it gets far enough everything in
      use is online. Only what is marked as a journal is dropped. */
  lemma {:induction false} RestartedDevice(devices: seq<Device>, jm: Option<Journal>, found: seq<Device>,
                                           reach: Reach, i: nat, k: nat)
    requires i < |devices| && LastFound(found, devices[i].serial, k) && reach != Nowhere && reach != Matched
    ensures var (d, s) := (devices[i], devices[i].status);
      var settled :=
        if s in {Failed, FailedAndMigrated, Removed} then d
        else if k == |found| then d.(status := Removed)
        else if d.partition || found[k].partition then d
        else d.(place := found[k].place);
      var back := if ComesBack(reach) && settled.status in {Unavailable, CannotAllocate, ReadOnly}
                  then settled.(status := DevOnline) else settled;
      settled.status != DeviceStatus.Journal ==> back in RestartDevices(devices, jm, found, reach)
  {
    hide Unknown, Discovered, Kept, TurnAll, Turn, LastFound;
    var d := devices[i];
    DiscoveredAt(found, d.serial, k);
    LastFoundIs(found, d.serial, k);
    var matched := Reconciled(devices, jm, found);
    assert matched[i] == Settle(d, found);
    KeptMeans(matched, matched[i]);
    if matched[i].status != DeviceStatus.Journal {
      TurnedIn(Kept(matched), matched[i]);
    }
  }

  lemma LastFoundIs(found: seq<Device>, serial: string, k: nat)
    requires LastFound(found, serial, k)
    ensures k <= |found|
  {
  }

  lemma TurnedIn(devices: seq<Device>, d: Device)
    requires d in devices
    ensures (if d.status in {Unavailable, CannotAllocate, ReadOnly} then d.(status := DevOnline) else d) in TurnAll(ComingBack, devices)
  {
    var i :| 0 <= i < |devices| && devices[i] == d;
    assert TurnAll(ComingBack, devices)[i] == Turn(ComingBack, d);
  }

  /** And a device discovered for the first time is there as new, once the matching is past. */
  lemma {:induction false} RestartedNew(devices: seq<Device>, jm: Option<Journal>, found: seq<Device>,
                                        reach: Reach, k: nat)
    requires k < |found| && reach != Nowhere && reach != Matched
    requires found[k].serial != (if jm.Some? && jm.value.serial.Some? then jm.value.serial.value else "")
    requires forall i :: 0 <= i < |devices| ==> devices[i].serial != found[k].serial
    ensures found[k].(status := New) in RestartDevices(devices, jm, found, reach)
  {
    hide Unknown, Kept, TurnAll;
    var f := found[k].(status := New);
    UnknownHas(devices, JournalSerial(jm), found, k);
    KeptMeans(Reconciled(devices, jm, found), f);
    TurnedIn(Kept(Reconciled(devices, jm, found)), f);
  }

  lemma {:induction false} UnknownHas(devices: seq<Device>, jmSerial: string, found: seq<Device>, k: nat)
    requires k < |found| && found[k].serial != jmSerial && forall i :: 0 <= i < |devices| ==> devices[i].serial != found[k].serial
    ensures found[k].(status := New) in Unknown(devices, jmSerial, found)
  {
    if k < |found| - 1 { UnknownHas(devices, jmSerial, found[..|found| - 1], k); }
  }

  /** Past the point of coming back no device is unavailable, read-only or full, and none is a journal. */
  lemma {:induction false} NobodyLeftBehind(devices: seq<Device>, jm: Option<Journal>, found: seq<Device>,
                                            reach: Reach, d: Device)
    requires ComesBack(reach) && d in RestartDevices(devices, jm, found, reach)
    ensures d.status !in {Unavailable, CannotAllocate, ReadOnly, DeviceStatus.Journal}
  {
    hide Reconciled, Kept;
    var kept := Kept(Reconciled(devices, jm, found));
    var i :| 0 <= i < |kept| && TurnAll(ComingBack, kept)[i] == d;
    KeptMeans(Reconciled(devices, jm, found), kept[i]);
  }

  /** The journal after a restart: where it was found last, under its own serial number; one that was not
      removed is unavailable from the connections on, and online again at the end. */
  lemma {:induction false} RestartedJournal(jm: Option<Journal>, found: seq<Device>, reach: Reach, k: nat)
    requires reach != Nowhere
    requires jm.Some? ==> LastFound(found, if jm.value.serial.Some? then jm.value.serial.value else "", k)
    ensures match jm
      case None => RestartJournal(jm, found, reach) == None
      case Some(j) =>
        var settled := if k < |found| then j.(bdev := found[k].place.bdev) else j;
        RestartJournal(jm, found, reach)
        == Some(if j.status == Removed || reach == Matched || reach == JournalFails then settled
                else settled.(status := if reach == Finished then DevOnline else Unavailable))
  {
    hide Discovered, LastFound;
    if jm.Some? {
      DiscoveredAt(found, JournalSerial(jm), k);
      LastFoundIs(found, JournalSerial(jm), k);
    }
  }

  /** A finished restart: the node is online, nothing is left out of use that could be in use, and every
      device in use that is discovered is online. */
  method FinishRestart(n: Node, force: bool, found: seq<Device>) returns (ok: bool)
    requires n.status == Offline && found != []
    requires n.jm.Some? || forall k :: 0 <= k < |found| ==> found[k].serial != ""
    modifies n
    ensures ok && n.status == Online
    ensures forall d :: d in n.devices ==> d.status !in {Unavailable, CannotAllocate, ReadOnly, DeviceStatus.Journal}
    ensures forall i :: 0 <= i < |old(n.devices)| && Known(found, old(n.devices)[i].serial)
                        && old(n.devices)[i].status in {DevOnline, Unavailable, CannotAllocate, ReadOnly} ==>
      exists d :: d in n.devices && d.id == old(n.devices)[i].id && d.status == DevOnline
  {
    hide RestartDevices, Discovered;
    ok := n.Restart(true, force, found, Finished);
    forall d | d in n.devices ensures d.status !in {Unavailable, CannotAllocate, ReadOnly, DeviceStatus.Journal} {
      NobodyLeftBehind(old(n.devices), old(n.jm), found, Finished, d);
    }
    forall i | 0 <= i < |old(n.devices)| && Known(found, old(n.devices)[i].serial)
               && old(n.devices)[i].status in {DevOnline, Unavailable, CannotAllocate, ReadOnly}
      ensures exists d :: d in n.devices && d.id == old(n.devices)[i].id && d.status == DevOnline
    {
      var k := WhereFound(found, old(n.devices)[i].serial);
      RestartedDevice(old(n.devices), old(n.jm), found, Finished, i, k);
    }
  }

  lemma {:induction false} WhereFound(found: seq<Device>, serial: string) returns (k: nat)
    requires Known(found, serial)
    ensures k < |found| && LastFound(found, serial, k)
  {
    if found[|found| - 1].serial == serial {
      k := |found| - 1;
    } else {
      assert forall i :: 0 <= i < |found| && found[i].serial == serial ==> i < |found| - 1 && found[..|found| - 1][i] == found[i];
      k := WhereFound(found[..|found| - 1], serial);
    }
  }
}
