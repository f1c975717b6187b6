/**
 The journals of one lvstore seen from two nodes: what _connect_to_remote_jm_devs attaches, and the
 names get_node_jm_names puts together on the primary and on its secondary.
 */
module JournalNames {
  import opened Records
  import opened Journals

  // ---------------------------------------------------------------- lookups

  predicate Owns(n: Node, id: Id) { n.jm.Some? && n.jm.value.id == id }

  /** The first node with this journal (get_jm_device_by_id and the scan in the connect loop). */
  function Owner(nodes: seq<Node>, id: Id): (r: Option<Node>)
    ensures r.Some? ==> Owns(r.value, id)
  {
    if nodes == [] then None else if Owns(nodes[0], id) then Some(nodes[0]) else Owner(nodes[1..], id)
  }

  function Find(nodes: seq<Node>, id: Id): (r: Option<Node>) {
    First(nodes, (n: Node) => n.id, id)
  }

  method GetJmDeviceOwner(nodes: seq<Node>, id: Id) returns (r: Option<Node>)
    ensures r == Owner(nodes, id)
  {
    for i := 0 to |nodes|
      invariant Owner(nodes, id) == Owner(nodes[i..], id)
    {
      if Owns(nodes[i], id) { return Some(nodes[i]); }
    }
    return None;
  }

  // ---------------------------------------------------------------- gathering

  function IdsOf(devs: seq<Jm>): (r: seq<Id>)
    ensures |r| == |devs| && forall i :: 0 <= i < |r| ==> r[i] == devs[i].id
  {
    seq(|devs|, i requires 0 <= i < |devs| => devs[i].id)
  }

  /** Appends the devices of the ids that are known; with `onlyNew` only those not listed yet. */
  function Add(nodes: seq<Node>, devs: seq<Jm>, ids: seq<Id>, onlyNew: bool): seq<Jm> {
    if ids == [] then devs
    else
      var before, id := Add(nodes, devs, ids[..|ids| - 1], onlyNew), ids[|ids| - 1];
      match Owner(nodes, id)
      case None => before
      case Some(n) => if onlyNew && id in IdsOf(before) then before else before + [n.jm.value]
  }

  /** The node this one is the secondary of can be found, and so can each of its journals. */
  predicate Resolves(nodes: seq<Node>, back: Id) {
    back == "" || (Find(nodes, back).Some? && forall i :: 0 <= i < |Find(nodes, back).value.jmIds| ==>
                     Owner(nodes, Find(nodes, back).value.jmIds[i]).Some?)
  }

  function Gather(nodes: seq<Node>, n: Node, ids: seq<Id>): seq<Jm>
    requires Resolves(nodes, n.back)
  {
    var own := Add(nodes, Add(nodes, [], ids, false), n.jmIds, true);
    if n.back == "" then own
    else
      var org := Find(nodes, n.back).value;
      Add(nodes, if org.jm.Some? && org.jm.value.status.DevOnline? then own + [org.jm.value] else own, org.jmIds, true)
  }

  // ---------------------------------------------------------------- connecting

  /** A journal node n can attach: of another online node, online, and the connection succeeds. */
  predicate Attachable(nodes: seq<Node>, me: Id, id: Id, fails: set<Id>) {
    match Owner(nodes, id)
    case None => false
    case Some(o) => o.id != me && o.jm.value.status.DevOnline? && o.status.Online? && id !in fails
  }

  predicate Attached(remotes: seq<Remote>, id: Id) {
    exists i :: 0 <= i < |remotes| && remotes[i].id == id
  }

  function Connect(nodes: seq<Node>, me: Id, devs: seq<Jm>, fails: set<Id>): seq<Remote> {
    if devs == [] then []
    else
      var before, d := Connect(nodes, me, devs[..|devs| - 1], fails), devs[|devs| - 1];
      if d.bdev == "" || Attached(before, d.id) || !Attachable(nodes, me, d.id, fails) then before
      else before + [Remote(d.id, Owner(nodes, d.id).value.jm.value.bdev)]
  }

  method AddEach(nodes: seq<Node>, devs: seq<Jm>, ids: seq<Id>, onlyNew: bool, mustExist: bool)
    returns (r: seq<Jm>, crashed: bool)
    ensures crashed <==> mustExist && exists i :: 0 <= i < |ids| && Owner(nodes, ids[i]).None?
    ensures !crashed ==> r == Add(nodes, devs, ids, onlyNew)
  {
    r := devs;
    for i := 0 to |ids|
      invariant r == Add(nodes, devs, ids[..i], onlyNew)
      invariant mustExist ==> forall j :: 0 <= j < i ==> Owner(nodes, ids[j]).Some?
    {
      assert ids[..i + 1][..i] == ids[..i];
      var owner := GetJmDeviceOwner(nodes, ids[i]);
      if owner.None? {
        if mustExist { return r, true; }
        continue;
      }
      if !onlyNew || ids[i] !in IdsOf(r) { r := r + [owner.value.jm.value]; }
    }
    assert ids[..|ids|] == ids;
    crashed := false;
  }

  method ConnectEach(nodes: seq<Node>, me: Id, devs: seq<Jm>, fails: set<Id>) returns (r: seq<Remote>)
    ensures r == Connect(nodes, me, devs, fails)
  {
    r := [];
    for i := 0 to |devs|
      invariant r == Connect(nodes, me, devs[..i], fails)
    {
      assert devs[..i + 1][..i] == devs[..i];
      var d := devs[i];
      if d.bdev == "" { continue; }
      var owner := GetJmDeviceOwner(nodes, d.id);
      if owner.None? || Attached(r, d.id) || owner.value.id == me { continue; }
      if !owner.value.jm.value.status.DevOnline? || !owner.value.status.Online? { continue; }
      if d.id !in fails { r := r + [Remote(d.id, owner.value.jm.value.bdev)]; }
    }
    assert devs[..|devs|] == devs;
  }

  /** _connect_to_remote_jm_devs; None when a lookup it does not guard raises. */
  method ConnectToRemoteJmDevs(nodes: seq<Node>, n: Node, ids: seq<Id>, fails: set<Id>) returns (r: Option<seq<Remote>>)
    ensures r == if Resolves(nodes, n.back) then Some(Connect(nodes, n.id, Gather(nodes, n, ids), fails)) else None
  {
    var devs, crashed := AddEach(nodes, [], ids, false, false);
    devs, crashed := AddEach(nodes, devs, n.jmIds, true, false);
    if n.back != "" {
      var org := Find(nodes, n.back);
      if org.None? { return None; }
      if org.value.jm.Some? && org.value.jm.value.status.DevOnline? { devs := devs + [org.value.jm.value]; }
      devs, crashed := AddEach(nodes, devs, org.value.jmIds, true, true);
      if crashed { return None; }
    }
    var remotes := ConnectEach(nodes, n.id, devs, fails);
    return Some(remotes);
  }

  // ---------------------------------------------------------------- names

  /** A name on some node: its own journal bdev, or one attached as remote_<bdev>n1. */
  datatype Name = Local(bdev: string) | Attach(bdev: string) | NoJournal

  datatype Names = Crashed | Named(names: seq<Name>)

  function FirstRemote(remotes: seq<Remote>, id: Id): (r: seq<Name>)
    ensures |r| <= 1
  {
    if remotes == [] then []
    else if remotes[0].id == id then [Attach(remotes[0].bdev)] else FirstRemote(remotes[1..], id)
  }

  /** How journal `id` is called on the node that looks; nothing if it is not attached. */
  function NameAt(current: Node, viewer: Option<Node>, id: Id): seq<Name>
    requires viewer.Some? ==> viewer.value.jm.Some?
  {
    match viewer
    case None => FirstRemote(current.remotes, id)
    case Some(v) => if v.jm.value.id == id then [Local(v.jm.value.bdev)] else FirstRemote(v.remotes, id)
  }

  function NamesAt(current: Node, viewer: Option<Node>, ids: seq<Id>): seq<Name>
    requires viewer.Some? ==> viewer.value.jm.Some?
  {
    if ids == [] then []
    else
      var before, id := NamesAt(current, viewer, ids[..|ids| - 1]), ids[|ids| - 1];
      if id == "" then before else before + NameAt(current, viewer, id)
  }

  function OwnName(current: Node, viewer: Option<Node>): Name {
    if current.jm.None? then NoJournal
    else if viewer.Some? then Attach(current.jm.value.bdev) else Local(current.jm.value.bdev)
  }

  predicate Looks(current: Node, viewer: Option<Node>) {
    current.ha && viewer.Some? && viewer.value.jm.None? && exists i :: 0 <= i < |current.jmIds| && current.jmIds[i] != ""
  }

  function JmNames(current: Node, viewer: Option<Node>): Names {
    if Looks(current, viewer) then Crashed
    else if !current.ha || (viewer.Some? && viewer.value.jm.None?) then Named(Cut([OwnName(current, viewer)], HA_JM_COUNT))
    else Named(Cut([OwnName(current, viewer)] + NamesAt(current, viewer, current.jmIds), HA_JM_COUNT))
  }

  method FindRemote(remotes: seq<Remote>, id: Id) returns (r: seq<Name>)
    ensures r == FirstRemote(remotes, id)
  {
    for i := 0 to |remotes|
      invariant FirstRemote(remotes, id) == FirstRemote(remotes[i..], id)
    {
      if remotes[i].id == id { return [Attach(remotes[i].bdev)]; }
    }
    return [];
  }

  method GetNodeJmNames(current: Node, viewer: Option<Node>) returns (r: Names)
    ensures r == JmNames(current, viewer)
  {
    var names := [OwnName(current, viewer)];
    if current.ha {
      for i := 0 to |current.jmIds|
        invariant viewer.Some? && viewer.value.jm.None? ==> forall j :: 0 <= j < i ==> current.jmIds[j] == ""
        invariant viewer.Some? && viewer.value.jm.None? ==> names == [OwnName(current, viewer)]
        invariant (viewer.Some? ==> viewer.value.jm.Some?) ==>
          names == [OwnName(current, viewer)] + NamesAt(current, viewer, current.jmIds[..i])
      {
        var id := current.jmIds[i];
        assert current.jmIds[..i + 1][..i] == current.jmIds[..i];
        if id == "" { continue; }
        if viewer.Some? {
          if viewer.value.jm.None? { return Crashed; }
          if viewer.value.jm.value.id == id {
            names := names + [Local(viewer.value.jm.value.bdev)];
            continue;
          }
          var found := FindRemote(viewer.value.remotes, id);
          names := names + found;
        } else {
          var found := FindRemote(current.remotes, id);
          names := names + found;
        }
      }
      assert current.jmIds[..|current.jmIds|] == current.jmIds;
    }
    r := Named(Cut(names, HA_JM_COUNT));
  }
}
