/**
 The devices of one node: how a restart matches the records with what is discovered, and what each
 administrative operation does to their statuses.
 */
module Devices {
  import opened Records

  /** Where the node finds a device: name, bdev, controller and PCIe address. */
  datatype Place = Place(name: string, bdev: string, controller: string, pcie: string)

  datatype Device = Device(id: string, serial: string, status: DeviceStatus, partition: bool, place: Place)

  /** The journal device; its serial number may not be recorded. */
  datatype Journal = Journal(serial: Option<string>, bdev: string, status: DeviceStatus)

  /** Failed, migrated away or removed: no longer in use. */
  predicate Gone(s: DeviceStatus) { s.FailedAndMigrated? || s.Failed? || s.Removed? }

  /** In use, or out of use for the time being. */
  predicate Alive(s: DeviceStatus) { s.Unavailable? || s.DevOnline? || s.CannotAllocate? || s.ReadOnly? }

  // ---------------------------------------------------------------- reconciliation

  /** A dictionary by serial number keeps the last device of each. */
  function Discovered(found: seq<Device>, serial: string): (r: Option<Device>)
    ensures r.Some? ==> r.value in found && r.value.serial == serial
    ensures r.None? ==> forall i :: 0 <= i < |found| ==> found[i].serial != serial
  {
    if found == [] then None
    else if found[|found| - 1].serial == serial then Some(found[|found| - 1])
    else Discovered(found[..|found| - 1], serial)
  }

  /** What becomes of a device of the record. */
  function Settle(d: Device, found: seq<Device>): Device {
    if Gone(d.status) then d
    else match Discovered(found, d.serial)
      case None => d.(status := Removed)
      case Some(f) => if !d.partition && !f.partition then d.(place := f.place) else d
  }

  function SettleAll(devices: seq<Device>, found: seq<Device>): (r: seq<Device>)
    ensures |r| == |devices| && forall i :: 0 <= i < |r| ==> r[i] == Settle(devices[i], found)
  {
    seq(|devices|, i requires 0 <= i < |devices| => Settle(devices[i], found))
  }

  predicate IsActive(d: Device, found: seq<Device>) { !Gone(d.status) && Discovered(found, d.serial).Some? }

  function Chosen(devices: seq<Device>, found: seq<Device>, active: bool): seq<Device> {
    if devices == [] then []
    else
      var d := devices[|devices| - 1];
      Chosen(devices[..|devices| - 1], found, active) + if IsActive(d, found) == active then [Settle(d, found)] else []
  }

  predicate Known(devices: seq<Device>, serial: string) { exists i :: 0 <= i < |devices| && devices[i].serial == serial }

  function JournalSerial(jm: Option<Journal>): string {
    if jm.Some? && jm.value.serial.Some? then jm.value.serial.value else ""
  }

  /** Discovered devices that neither the record nor the journal accounts for. */
  function Unknown(devices: seq<Device>, jmSerial: string, found: seq<Device>): seq<Device> {
    if found == [] then []
    else
      var before, f := Unknown(devices, jmSerial, found[..|found| - 1]), found[|found| - 1];
      if f.serial == jmSerial || Known(devices, f.serial) then before else before + [f.(status := New)]
  }

  function JournalAfter(jm: Option<Journal>, found: seq<Device>): Option<Journal> {
    match jm
    case None => None
    case Some(j) =>
      (match Discovered(found, JournalSerial(jm)) case None => jm case Some(f) => Some(j.(bdev := f.place.bdev)))
  }

  function Reconciled(devices: seq<Device>, jm: Option<Journal>, found: seq<Device>): seq<Device> {
    SettleAll(devices, found) + Unknown(devices, JournalSerial(jm), found)
  }

  /** A discovered device without a serial number is taken for the journal; if there is none, the
      assignment to it raises. */
  predicate Raises(jm: Option<Journal>, found: seq<Device>) {
    jm.None? && exists i :: 0 <= i < |found| && found[i].serial == ""
  }

  // ---------------------------------------------------------------- statuses

  datatype Change = Suspending | Resuming | ShuttingDown | ComingBack | Removing(busy: set<string>)

  /** What an operation makes of the status of a device. */
  function Turn(c: Change, d: Device): Device {
    match c
    case Suspending => if d.status.DevOnline? then d.(status := Unavailable) else d
    case Resuming => if d.status.Unavailable? then d.(status := DevOnline) else d
    case ShuttingDown => if Alive(d.status) then d.(status := Unavailable) else d
    case ComingBack => if Alive(d.status) then d.(status := DevOnline) else d
    case Removing(busy) =>
      if d.status.Journal? || d.status.FailedAndMigrated? || d.id in busy then d else d.(status := Failed)
  }

  function TurnAll(c: Change, devices: seq<Device>): (r: seq<Device>)
    ensures |r| == |devices| && forall i :: 0 <= i < |r| ==> r[i] == Turn(c, devices[i])
  {
    seq(|devices|, i requires 0 <= i < |devices| => Turn(c, devices[i]))
  }

  /** Everything but what is marked as a journal. */
  function Kept(devices: seq<Device>): seq<Device> {
    if devices == [] then []
    else Kept(devices[..|devices| - 1]) + if devices[|devices| - 1].status.Journal? then [] else [devices[|devices| - 1]]
  }

  function WithStatus(jm: Option<Journal>, s: DeviceStatus): Option<Journal> {
    match jm case None => None case Some(j) => Some(j.(status := s))
  }

  function WithdrawJournal(jm: Option<Journal>): Option<Journal> {
    if jm.Some? && !jm.value.status.Removed? then WithStatus(jm, Unavailable) else jm
  }

  /** How far a restart gets: not to its devices, to their matching, to the journal's stack, which
      fails, to the connections to other nodes, or to the lvstore, whose recreation raises (with the
      node's process killed or not), fails or succeeds. */
  datatype Reach = Nowhere | Matched | JournalFails | Prepared | LvstoreRaises(killed: bool) | LvstoreFails | Finished

  lemma NothingChosen(found: seq<Device>)
    ensures Chosen([], found, true) == Chosen([], found, false) == []
  {
  }

  lemma ChosenMore(devices: seq<Device>, i: nat, found: seq<Device>)
    requires i < |devices|
    ensures forall active :: (Chosen(devices[..i + 1], found, active)
      == Chosen(devices[..i], found, active) + if IsActive(devices[i], found) == active then [Settle(devices[i], found)] else [])
  {
    assert devices[..i + 1][..i] == devices[..i];
  }

  /** One round of the first loop: a gone device is left alone, a missing one marked removed. */
  method SettleOne(device: Device, found: seq<Device>) returns (d: Device, active: bool)
    ensures d == Settle(device, found) && d.serial == device.serial && active == IsActive(device, found)
  {
    d, active := device, false;
    if Gone(d.status) { return; }
    var f := Discovered(found, d.serial);
    if f.None? {
      d := d.(status := Removed);
      return;
    }
    if !d.partition && !f.value.partition { d := d.(place := f.value.place); }
    active := true;
  }

  /** The second loop: the journal's place, and what is new. */
  method FindUnknown(found: seq<Device>, known: seq<string>, ghost was: seq<Device>, jm: Option<Journal>)
    returns (added: seq<Device>, journal: Option<Journal>, raised: bool)
    requires |known| == |was| && forall j :: 0 <= j < |was| ==> known[j] == was[j].serial
    ensures raised <==> Raises(jm, found)
    ensures !raised ==> added == Unknown(was, JournalSerial(jm), found) && journal == JournalAfter(jm, found)
  {
    added, journal := [], jm;
    var serial := JournalSerial(jm);
    for i := 0 to |found|
      invariant added == Unknown(was, serial, found[..i]) && journal == JournalAfter(jm, found[..i])
      invariant !Raises(jm, found[..i])
    {
      assert found[..i + 1][..i] == found[..i];
      var f := found[i];
      if f.serial == serial {
        if journal.None? { return added, journal, true; }
        journal := Some(journal.value.(bdev := f.place.bdev));
      } else if f.serial !in known {
        added := added + [f.(status := New)];
      }
    }
    assert found[..|found|] == found;
    raised := false;
  }

  class Node {
    var status: NodeStatus
    var devices: seq<Device>
    var jm: Option<Journal>

    constructor (status: NodeStatus, devices: seq<Device>, jm: Option<Journal>)
      ensures this.status == status && this.devices == devices && this.jm == jm
    {
      this.status, this.devices, this.jm := status, devices, jm;
    }

    /** The matching of records and discovered devices in restart_storage_node. It works on a copy of
        the record; if it raises, nothing has been written. */
    method Reconcile(found: seq<Device>) returns (active: seq<Device>, removed: seq<Device>, added: seq<Device>, raised: bool)
      modifies this`devices, this`jm
      ensures raised <==> Raises(old(jm), found)
      ensures raised ==> devices == old(devices) && jm == old(jm)
      ensures active == Chosen(old(devices), found, true) && removed == Chosen(old(devices), found, false)
      ensures !raised ==> added == Unknown(old(devices), JournalSerial(old(jm)), found)
      ensures !raised ==> devices == Reconciled(old(devices), old(jm), found) && jm == JournalAfter(old(jm), found)
    {
      hide Chosen, Settle, IsActive;
      NothingChosen(found);
      var known: seq<string> := [];
      var own := devices;
      active, removed, added := [], [], [];
      for i := 0 to |devices|
        invariant devices == old(devices) && jm == old(jm) && |own| == |devices| && |known| == i
        invariant forall j :: 0 <= j < |devices| ==> own[j] == if j < i then Settle(devices[j], found) else devices[j]
        invariant forall j :: 0 <= j < i ==> known[j] == devices[j].serial
        invariant active == Chosen(devices[..i], found, true) && removed == Chosen(devices[..i], found, false)
      {
        ChosenMore(devices, i, found);
        var d, isActive := SettleOne(own[i], found);
        known := known + [d.serial];
        own := own[i := d];
        if isActive { active := active + [d]; } else { removed := removed + [d]; }
      }
      assert devices[..|devices|] == devices && own == SettleAll(devices, found);
      var journal;
      added, journal, raised := FindUnknown(found, known, devices, jm);
      if !raised { devices, jm := own + added, journal; }
    }

    /** The loops over the devices in suspension, shutdown and so on. */
    method SetEach(c: Change)
      modifies this`devices
      ensures devices == TurnAll(c, old(devices))
    {
      for i := 0 to |devices|
        invariant |devices| == |old(devices)|
        invariant forall j :: 0 <= j < |devices| ==> devices[j] == if j < i then Turn(c, old(devices)[j]) else old(devices)[j]
      {
        var d := devices[i];
        match c {
          case Suspending => if d.status.DevOnline? { d := d.(status := Unavailable); }
          case Resuming => if d.status.Unavailable? { d := d.(status := DevOnline); }
          case ShuttingDown => if Alive(d.status) { d := d.(status := Unavailable); }
          case ComingBack => if Alive(d.status) { d := d.(status := DevOnline); }
          case Removing(busy) =>
            if d.status.Journal? || d.status.FailedAndMigrated? { continue; }
            if d.id !in busy { d := d.(status := Failed); }
        }
        devices := devices[i := d];
      }
    }

    /** suspend_storage_node, as far as its devices go; `clear` says that no task and no shortage of
        online nodes stands against it. */
    method Suspend(clear: bool, force: bool) returns (ok: bool)
      modifies this
      ensures ok == (force || (old(status).Online? && clear))
      ensures devices == if ok then TurnAll(Suspending, old(devices)) else old(devices)
      ensures jm == if ok then WithdrawJournal(old(jm)) else old(jm)
      ensures status == if ok then Suspended else old(status)
    {
      if (!status.Online? || !clear) && !force { return false; }
      SetEach(Suspending);
      if jm.Some? && !jm.value.status.Removed? { jm := WithStatus(jm, Unavailable); }
      status := Suspended;
      ok := true;
    }

    /** resume_storage_node: devices and journal come first; `reaches` says that the remote devices
        could be connected and the secondary is found and not unreachable. */
    method Resume(reaches: bool) returns (ok: bool)
      modifies this
      ensures ok == (old(status).Suspended? && reaches)
      ensures devices == if old(status).Suspended? then TurnAll(Resuming, old(devices)) else old(devices)
      ensures jm == if old(status).Suspended? then WithStatus(old(jm), DevOnline) else old(jm)
      ensures status == if ok then Online else old(status)
    {
      if !status.Suspended? { return false; }
      SetEach(Resuming);
      jm := WithStatus(jm, DevOnline);
      if !reaches { return false; }
      status := Online;
      ok := true;
    }

    method Shutdown(clear: bool, force: bool, killed: bool) returns (ok: bool)
      modifies this
      ensures var runs := force || (old(status).Suspended? && clear);
        && ok == (runs && killed)
        && devices == (if runs then TurnAll(ShuttingDown, old(devices)) else old(devices))
        && jm == (if runs then WithdrawJournal(old(jm)) else old(jm))
        && status == if !runs then old(status) else if killed then Offline else InShutdown
    {
      if (!status.Suspended? || !clear) && !force { return false; }
      status := InShutdown;
      if jm.Some? && !jm.value.status.Removed? { jm := WithStatus(jm, Unavailable); }
      SetEach(ShuttingDown);
      if !killed { return false; }
      status := Offline;
      ok := true;
    }

    method DropJournals()
      modifies this`devices
      ensures devices == Kept(old(devices))
    {
      var kept: seq<Device> := [];
      for i := 0 to |devices|
        invariant devices == old(devices) && kept == Kept(devices[..i])
      {
        assert devices[..i + 1][..i] == devices[..i];
        if !devices[i].status.Journal? { kept := kept + [devices[i]]; }
      }
      assert devices[..|devices|] == devices;
      devices := kept;
    }

    /** restart_storage_node on the same host; `clear` says that neither tasks nor the cluster's status
        stand against it. */
    method Restart(clear: bool, force: bool, found: seq<Device>, reach: Reach) returns (ok: bool)
      modifies this
      ensures var starts := !old(status).NodeRemoved? && clear && (force || old(status).Offline?);
        var runs := starts && !reach.Nowhere? && found != [] && !Raises(old(jm), found);
        && ok == (runs && reach.Finished?)
        && devices == (if runs then RestartDevices(old(devices), old(jm), found, reach) else old(devices))
        && jm == (if runs then RestartJournal(old(jm), found, reach) else old(jm))
        && status == (if !starts then old(status)
                      else if !runs then Restarting
                      else match reach
                        case Finished => Online
                        case LvstoreFails => Suspended
                        case LvstoreRaises(killed) => if killed then Offline else Restarting
                        case _ => Restarting)
    {
      hide Reconciled, Raises, TurnAll, Kept;
      if (!status.Offline? && !force) || status.NodeRemoved? || !clear { return false; }
      status := Restarting;
      if reach.Nowhere? || found == [] { return false; }
      var active, removed, added, raised := Reconcile(found);
      if raised || reach.Matched? { return false; }
      DropJournals();
      if reach.JournalFails? { return false; }
      jm := WithdrawJournal(jm);
      if reach.Prepared? { return false; }
      SetEach(ComingBack);
      if reach.LvstoreRaises? {
        if reach.killed { status := Offline; }
        return false;
      }
      if reach.LvstoreFails? {
        status := Suspended;
        return false;
      }
      if jm.Some? && (jm.value.status.Unavailable? || jm.value.status.DevOnline?) { jm := WithStatus(jm, DevOnline); }
      status := Online;
      ok := true;
    }

    /** remove_storage_node: a device with a restart task of its own is not failed. `clear` says that
        no tasks, volumes or snapshots stand against it, or that they are forced out of the way. */
    method Remove(clear: bool, busy: set<string>) returns (ok: bool)
      modifies this
      ensures ok == (clear && !old(status).Online?)
      ensures devices == if ok then TurnAll(Removing(busy), old(devices)) else old(devices)
      ensures status == if ok then NodeRemoved else old(status)
      ensures jm == if ok && old(jm).Some? && (old(jm).value.status.DevOnline? || old(jm).value.status.Unavailable?)
                    then WithStatus(old(jm), Removed) else old(jm)
    {
      if status.Online? || !clear { return false; }
      if jm.Some? && (jm.value.status.DevOnline? || jm.value.status.Unavailable?) { jm := WithStatus(jm, Removed); }
      status := NodeRemoved;
      SetEach(Removing(busy));
      ok := true;
    }
  }

  /** A removed journal stays so; any other is online if the restart gets to the end. That its stack
      fails is not noted. */
  function RestartJournal(jm: Option<Journal>, found: seq<Device>, reach: Reach): Option<Journal> {
    var matched := JournalAfter(jm, found);
    match reach
    case Nowhere => jm
    case Matched => matched
    case JournalFails => matched
    case Finished => if matched.None? || matched.value.status.Removed? then matched else WithStatus(matched, DevOnline)
    case _ => WithdrawJournal(matched)
  }

  function RestartDevices(devices: seq<Device>, jm: Option<Journal>, found: seq<Device>, reach: Reach): seq<Device> {
    match reach
    case Nowhere => devices
    case Matched => Reconciled(devices, jm, found)
    case JournalFails => Kept(Reconciled(devices, jm, found))
    case Prepared => Kept(Reconciled(devices, jm, found))
    case _ => TurnAll(ComingBack, Kept(Reconciled(devices, jm, found)))
  }
}
