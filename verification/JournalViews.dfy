/** The primary's and the secondary's journal lists: when they denote the same journals. */
module JournalViews {
  import opened Records
  import opened Journals
  import opened JournalNames

  /** Node ids, journal ids and journal bdevs are unique, and every journal has a bdev. */
  ghost predicate Proper(nodes: seq<Node>) {
    && (forall i, j :: 0 <= i < j < |nodes| ==> nodes[i].id != nodes[j].id)
    && (forall i :: 0 <= i < |nodes| && nodes[i].jm.Some? ==> nodes[i].jm.value.bdev != "")
    && (forall i, j :: 0 <= i < j < |nodes| && nodes[i].jm.Some? && nodes[j].jm.Some? ==>
          nodes[i].jm.value.id != nodes[j].jm.value.id && nodes[i].jm.value.bdev != nodes[j].jm.value.bdev)
  }

  lemma {:induction false} OwnerIs(nodes: seq<Node>, i: nat, id: Id)
    requires Proper(nodes) && i < |nodes| && Owns(nodes[i], id)
    ensures Owner(nodes, id) == Some(nodes[i])
  {
    if i > 0 { OwnerIs(nodes[1..], i - 1, id); }
  }

  lemma FindIs(nodes: seq<Node>, i: nat)
    requires Proper(nodes) && i < |nodes|
    ensures Find(nodes, nodes[i].id) == Some(nodes[i])
  {
    FirstIs(nodes, (n: Node) => n.id, i);
  }

  lemma {:induction false} OwnerIsListed(nodes: seq<Node>, id: Id) returns (i: nat)
    requires Owner(nodes, id).Some?
    ensures i < |nodes| && Owner(nodes, id) == Some(nodes[i])
  {
    if Owns(nodes[0], id) {
      i := 0;
    } else {
      i := OwnerIsListed(nodes[1..], id);
      i := i + 1;
    }
  }

  // ---------------------------------------------------------------- gathering and connecting

  predicate Lists(devs: seq<Jm>, id: Id) { exists i :: 0 <= i < |devs| && devs[i].id == id }

  lemma ListsMore(devs: seq<Jm>, d: Jm, id: Id)
    ensures Lists(devs + [d], id) <==> Lists(devs, id) || d.id == id
  {
    if Lists(devs, id) {
      var i :| 0 <= i < |devs| && devs[i].id == id;
      assert (devs + [d])[i].id == id;
    }
    assert (devs + [d])[|devs|] == d;
  }

  lemma {:induction false} AddLists(nodes: seq<Node>, devs: seq<Jm>, ids: seq<Id>, onlyNew: bool, id: Id)
    ensures Lists(Add(nodes, devs, ids, onlyNew), id) <==> Lists(devs, id) || (id in ids && Owner(nodes, id).Some?)
  {
    if ids != [] {
      var front, last := ids[..|ids| - 1], ids[|ids| - 1];
      assert ids == front + [last];
      AddLists(nodes, devs, front, onlyNew, id);
      var before := Add(nodes, devs, front, onlyNew);
      var owner := Owner(nodes, last);
      if owner.Some? {
        ListsMore(before, owner.value.jm.value, id);
        if onlyNew && last in IdsOf(before) {
          var k :| 0 <= k < |before| && IdsOf(before)[k] == last;
          assert before[k].id == last;
        }
      }
    }
  }

  ghost predicate AllNamed(devs: seq<Jm>) { forall i :: 0 <= i < |devs| ==> devs[i].bdev != "" }

  lemma {:induction false} AddNamed(nodes: seq<Node>, devs: seq<Jm>, ids: seq<Id>, onlyNew: bool)
    requires Proper(nodes) && AllNamed(devs)
    ensures AllNamed(Add(nodes, devs, ids, onlyNew))
  {
    if ids != [] {
      AddNamed(nodes, devs, ids[..|ids| - 1], onlyNew);
      if Owner(nodes, ids[|ids| - 1]).Some? {
        var i := OwnerIsListed(nodes, ids[|ids| - 1]);
      }
    }
  }

  /** All journals asked for, and those of the node this one is the secondary of, are gathered. */
  lemma GatherLists(nodes: seq<Node>, n: Node, ids: seq<Id>, id: Id)
    requires Proper(nodes) && Resolves(nodes, n.back) && Owner(nodes, id).Some?
    requires id in ids || (n.back != "" && id in Find(nodes, n.back).value.jmIds)
    ensures Lists(Gather(nodes, n, ids), id) && AllNamed(Gather(nodes, n, ids))
  {
    hide Owner, Find, Lists, Proper;
    var first := Add(nodes, [], ids, false);
    var own := Add(nodes, first, n.jmIds, true);
    AddLists(nodes, [], ids, false, id);
    AddLists(nodes, first, n.jmIds, true, id);
    AddNamed(nodes, [], ids, false);
    AddNamed(nodes, first, n.jmIds, true);
    if n.back != "" {
      var org := Find(nodes, n.back).value;
      if org.jm.Some? && org.jm.value.status.DevOnline? {
        ListsMore(own, org.jm.value, id);
        OrgNamed(nodes, n.back);
        AddLists(nodes, own + [org.jm.value], org.jmIds, true, id);
        AddNamed(nodes, own + [org.jm.value], org.jmIds, true);
      } else {
        AddLists(nodes, own, org.jmIds, true, id);
        AddNamed(nodes, own, org.jmIds, true);
      }
    }
  }

  lemma OrgNamed(nodes: seq<Node>, back: Id)
    requires Proper(nodes) && Find(nodes, back).Some? && Find(nodes, back).value.jm.Some?
    ensures Find(nodes, back).value.jm.value.bdev != ""
  {
    var org := Find(nodes, back).value;
    var i :| 0 <= i < |nodes| && nodes[i] == org;
  }

  lemma AttachedMore(remotes: seq<Remote>, r: Remote, id: Id)
    ensures Attached(remotes + [r], id) <==> Attached(remotes, id) || r.id == id
  {
    if Attached(remotes, id) {
      var i :| 0 <= i < |remotes| && remotes[i].id == id;
      assert (remotes + [r])[i].id == id;
    }
    assert (remotes + [r])[|remotes|] == r;
  }

  /** Attached is what is gathered and can be attached, each under the name of its owner's bdev. */
  lemma {:induction false} ConnectAttaches(nodes: seq<Node>, me: Id, devs: seq<Jm>, fails: set<Id>, id: Id)
    requires AllNamed(devs)
    ensures var remotes := Connect(nodes, me, devs, fails);
      && (Attached(remotes, id) <==> Lists(devs, id) && Attachable(nodes, me, id, fails))
      && (forall i :: 0 <= i < |remotes| ==>
            Owner(nodes, remotes[i].id).Some? && remotes[i].bdev == Owner(nodes, remotes[i].id).value.jm.value.bdev)
  {
    hide Owner, Attached, Lists;
    if devs == [] {
      NothingListed(id);
    } else {
      var front, d := devs[..|devs| - 1], devs[|devs| - 1];
      assert devs == front + [d];
      ConnectAttaches(nodes, me, front, fails, id);
      ListsMore(front, d, id);
      var before := Connect(nodes, me, front, fails);
      if Attachable(nodes, me, d.id, fails) && !Attached(before, d.id) {
        AttachedMore(before, Remote(d.id, Owner(nodes, d.id).value.jm.value.bdev), id);
      }
    }
  }

  lemma NothingListed(id: Id)
    ensures !Lists([], id) && !Attached([], id)
  {
  }

  lemma {:induction false} FirstRemoteIs(remotes: seq<Remote>, id: Id, bdev: string)
    requires forall i :: 0 <= i < |remotes| && remotes[i].id == id ==> remotes[i].bdev == bdev
    ensures FirstRemote(remotes, id) == if Attached(remotes, id) then [Attach(bdev)] else []
  {
    if remotes != [] && remotes[0].id != id {
      FirstRemoteIs(remotes[1..], id, bdev);
      if Attached(remotes, id) {
        var i :| 0 <= i < |remotes| && remotes[i].id == id;
        assert remotes[1..][i - 1].id == id;
      }
    }
  }

  /** The remote journals a node ends up with, for one journal it asked for. */
  lemma RemoteOf(nodes: seq<Node>, n: Node, ids: seq<Id>, fails: set<Id>, id: Id)
    requires Proper(nodes) && Resolves(nodes, n.back) && Owner(nodes, id).Some?
    requires id in ids || (n.back != "" && id in Find(nodes, n.back).value.jmIds)
    ensures FirstRemote(Connect(nodes, n.id, Gather(nodes, n, ids), fails), id)
      == if Attachable(nodes, n.id, id, fails) then [Attach(Owner(nodes, id).value.jm.value.bdev)] else []
  {
    hide Owner, Find, Proper, Gather, Connect, Attached, Lists, FirstRemote;
    GatherLists(nodes, n, ids, id);
    ConnectAttaches(nodes, n.id, Gather(nodes, n, ids), fails, id);
    FirstRemoteIs(Connect(nodes, n.id, Gather(nodes, n, ids), fails), id, Owner(nodes, id).value.jm.value.bdev);
  }

  // ---------------------------------------------------------------- what names denote

  function ByBdev(nodes: seq<Node>, bdev: string): Option<Id> {
    if nodes == [] then None
    else if nodes[0].jm.Some? && nodes[0].jm.value.bdev == bdev then Some(nodes[0].jm.value.id)
    else ByBdev(nodes[1..], bdev)
  }

  /** The journal behind a name used on node `at`. */
  function Denotes(nodes: seq<Node>, at: Node, name: Name): Option<Id> {
    match name
    case Local(bdev) => if at.jm.Some? && at.jm.value.bdev == bdev then Some(at.jm.value.id) else None
    case Attach(bdev) => ByBdev(nodes, bdev)
    case NoJournal => None
  }

  function DenotesAll(nodes: seq<Node>, at: Node, names: seq<Name>): (r: seq<Option<Id>>)
    ensures |r| == |names| && forall i :: 0 <= i < |names| ==> r[i] == Denotes(nodes, at, names[i])
  {
    seq(|names|, i requires 0 <= i < |names| => Denotes(nodes, at, names[i]))
  }

  lemma {:induction false} ByBdevIs(nodes: seq<Node>, i: nat)
    requires Proper(nodes) && i < |nodes| && nodes[i].jm.Some?
    ensures ByBdev(nodes, nodes[i].jm.value.bdev) == Some(nodes[i].jm.value.id)
  {
    if i > 0 { ByBdevIs(nodes[1..], i - 1); }
  }

  /** A journal node `at` can use: its own or one it can attach. */
  predicate Usable(nodes: seq<Node>, at: Node, fails: set<Id>, id: Id) {
    Owns(at, id) || Attachable(nodes, at.id, id, fails)
  }

  function UsableOf(nodes: seq<Node>, at: Node, fails: set<Id>, ids: seq<Id>): (r: seq<Option<Id>>)
    ensures |r| <= |ids|
  {
    if ids == [] then []
    else
      var before, id := UsableOf(nodes, at, fails, ids[..|ids| - 1]), ids[|ids| - 1];
      if Usable(nodes, at, fails, id) then before + [Some(id)] else before
  }

  lemma DenotesConcat(nodes: seq<Node>, at: Node, a: seq<Name>, b: seq<Name>)
    ensures DenotesAll(nodes, at, a + b) == DenotesAll(nodes, at, a) + DenotesAll(nodes, at, b)
  {
  }

  /** The name of one journal, where there is one, denotes that journal. */
  ghost predicate NamesWell(nodes: seq<Node>, current: Node, viewer: Option<Node>, at: Node, fails: set<Id>, id: Id)
    requires viewer.Some? ==> viewer.value.jm.Some?
  {
    && id != ""
    && DenotesAll(nodes, at, NameAt(current, viewer, id)) == if Usable(nodes, at, fails, id) then [Some(id)] else []
  }

  lemma {:induction false} NamesDenote(nodes: seq<Node>, current: Node, viewer: Option<Node>, at: Node, fails: set<Id>, ids: seq<Id>)
    requires viewer.Some? ==> viewer.value.jm.Some?
    requires forall i :: 0 <= i < |ids| ==> NamesWell(nodes, current, viewer, at, fails, ids[i])
    ensures DenotesAll(nodes, at, NamesAt(current, viewer, ids)) == UsableOf(nodes, at, fails, ids)
  {
    hide DenotesAll, Usable, NameAt;
    if ids == [] {
      DenotesNothing(nodes, at);
    } else {
      var front, last := ids[..|ids| - 1], ids[|ids| - 1];
      assert NamesWell(nodes, current, viewer, at, fails, ids[|ids| - 1]);
      NamesDenote(nodes, current, viewer, at, fails, front);
      DenotesConcat(nodes, at, NamesAt(current, viewer, front), NameAt(current, viewer, last));
    }
  }

  lemma DenotesNothing(nodes: seq<Node>, at: Node)
    ensures DenotesAll(nodes, at, []) == []
  {
  }

  lemma {:induction false} UsableOfHas(nodes: seq<Node>, at: Node, fails: set<Id>, ids: seq<Id>, id: Id)
    ensures Some(id) in UsableOf(nodes, at, fails, ids) <==> id in ids && Usable(nodes, at, fails, id)
  {
    hide Usable;
    if ids != [] {
      var front, last := ids[..|ids| - 1], ids[|ids| - 1];
      assert ids == front + [last];
      UsableOfHas(nodes, at, fails, front, id);
    }
  }

  ghost predicate Unique(ids: seq<Id>) { forall i, j :: 0 <= i < j < |ids| ==> ids[i] != ids[j] }

  /** Two nodes keep the same of the ids in the same order just when they can use the same ones. */
  lemma {:induction false} SameUsable(nodes: seq<Node>, a: Node, b: Node, fa: set<Id>, fb: set<Id>, ids: seq<Id>)
    requires Unique(ids)
    ensures UsableOf(nodes, a, fa, ids) == UsableOf(nodes, b, fb, ids)
      <==> forall i :: 0 <= i < |ids| ==> Usable(nodes, a, fa, ids[i]) == Usable(nodes, b, fb, ids[i])
  {
    hide Usable;
    if ids != [] {
      var front, last := ids[..|ids| - 1], ids[|ids| - 1];
      assert ids == front + [last];
      SameUsable(nodes, a, b, fa, fb, front);
      UsableOfHas(nodes, a, fa, front, last);
      UsableOfHas(nodes, b, fb, front, last);
      UsableOfHas(nodes, a, fa, ids, last);
      UsableOfHas(nodes, b, fb, ids, last);
      var ra, rb := UsableOf(nodes, a, fa, front), UsableOf(nodes, b, fb, front);
      assert (ra + [Some(last)])[..|ra|] == ra && (rb + [Some(last)])[..|rb|] == rb;
    }
  }

  // ---------------------------------------------------------------- one create_lvstore

  /** The ids are journals other nodes offer, each once, at most HA_JM_COUNT - 1 of them. */
  ghost predicate AreChoice(nodes: seq<Node>, me: Id, ids: seq<Id>) {
    Unique(ids) && |ids| <= HA_JM_COUNT - 1 && forall k :: 0 <= k < |ids| ==> IsOffered(nodes, me, ids[k])
  }

  ghost predicate IsOffered(nodes: seq<Node>, me: Id, id: Id) {
    exists n :: 0 <= n < |nodes| && Offers(nodes[n], me) && nodes[n].jm.value.id == id
  }

  /** What get_sorted_ha_jms returns is such a choice. */
  lemma {:induction false} SortedAreChoice(nodes: seq<Node>, me: Id, own: string)
    ensures AreChoice(nodes, me, SortedHaJms(nodes, me, own))
  {
    hide SortedHaJms, Keys;
    ChoiceIsAdmissible(nodes, me, own);
    var ids := SortedHaJms(nodes, me, own);
    forall k | 0 <= k < |ids| ensures IsOffered(nodes, me, ids[k]) {
      KeysAreOffered(nodes, me, ids[k]);
    }
  }

  /** The two sides: node i gets the journals `ids`, is written back, and then node j connects. */
  datatype Sides = Sides(nodes: seq<Node>, i: nat, j: nat, ids: seq<Id>, failsP: set<Id>, failsS: set<Id>) {
    ghost predicate Valid() {
      && Proper(nodes) && i < |nodes| && j < |nodes| && i != j
      && nodes[i].ha && nodes[i].jm.Some? && nodes[j].jm.Some?
      && nodes[j].back == nodes[i].id && nodes[i].id != ""
      && Resolves(nodes, nodes[i].back)
      && AreChoice(nodes, nodes[i].id, ids)
    }

    function Primary(): Node
      requires i < |nodes| && Resolves(nodes, nodes[i].back)
    {
      nodes[i].(jmIds := ids, remotes := Connect(nodes, nodes[i].id, Gather(nodes, nodes[i], ids), failsP))
    }

    function Written(): seq<Node>
      requires i < |nodes| && Resolves(nodes, nodes[i].back)
    {
      nodes[i := Primary()]
    }

    function Secondary(): Node
      requires i < |nodes| && j < |nodes| && Resolves(nodes, nodes[i].back) && Resolves(Written(), nodes[j].back)
    {
      nodes[j].(remotes := Connect(Written(), nodes[j].id, Gather(Written(), nodes[j], []), failsS))
    }
  }

  lemma {:induction false} WritingKeepsOwners(nodes: seq<Node>, i: nat, n: Node, id: Id)
    requires i < |nodes| && n.id == nodes[i].id && n.status == nodes[i].status && n.jm == nodes[i].jm
    ensures var a, b := Owner(nodes, id), Owner(nodes[i := n], id);
      if a.None? then b.None?
      else b.Some? && b.value.id == a.value.id && b.value.status == a.value.status && b.value.jm == a.value.jm
  {
    if i > 0 {
      WritingKeepsOwners(nodes[1..], i - 1, n, id);
      assert nodes[i := n][1..] == nodes[1..][i - 1 := n];
    }
  }

  lemma WritingKeepsProper(x: Sides)
    requires x.Valid()
    ensures Proper(x.Written())
  {
    hide Connect, Gather;
    var after := x.Written();
    assert forall k :: 0 <= k < |after| ==> after[k].id == x.nodes[k].id && after[k].jm == x.nodes[k].jm;
  }

  /** Each chosen journal is another node's, and can be found. */
  lemma {:induction false} ChosenHasOwner(x: Sides, k: nat)
    requires x.Valid() && k < |x.ids|
    ensures var id := x.ids[k];
      && id != "" && Owner(x.nodes, id).Some? && Owner(x.Written(), id).Some?
      && Owner(x.nodes, id).value.id != x.nodes[x.i].id
      && Owner(x.nodes, id).value.jm.value.status.DevOnline?
  {
    hide Connect, Gather;
    var me, id := x.nodes[x.i].id, x.ids[k];
    assert IsOffered(x.nodes, me, id);
    var n :| 0 <= n < |x.nodes| && Offers(x.nodes[n], me) && x.nodes[n].jm.value.id == id;
    OwnerIs(x.nodes, n, id);
    WritingKeepsOwners(x.nodes, x.i, x.Primary(), id);
  }

  lemma SecondaryResolves(x: Sides)
    requires x.Valid()
    ensures Resolves(x.Written(), x.nodes[x.j].back)
    ensures Find(x.Written(), x.nodes[x.j].back) == Some(x.Primary())
  {
    hide Connect, Gather;
    WritingKeepsProper(x);
    FindIs(x.Written(), x.i);
    forall k | 0 <= k < |x.ids| ensures Owner(x.Written(), x.ids[k]).Some? {
      ChosenHasOwner(x, k);
    }
  }

  /** What the primary calls a chosen journal denotes that journal. */
  lemma {:induction false} PrimaryName(x: Sides, k: nat)
    requires x.Valid() && k < |x.ids|
    ensures NamesWell(x.Written(), x.Primary(), None, x.Primary(), x.failsP, x.ids[k])
  {
    hide Connect, Gather, Owner, Proper, ByBdev, FirstRemote;
    var p, id := x.nodes[x.i], x.ids[k];
    ChosenHasOwner(x, k);
    RemoteOf(x.nodes, p, x.ids, x.failsP, id);
    WritingKeepsOwners(x.nodes, x.i, x.Primary(), id);
    WritingKeepsProper(x);
    NotOwn(x.nodes, x.i, id);
    BdevDenotes(x.Written(), id);
  }

  lemma NotOwn(nodes: seq<Node>, i: nat, id: Id)
    requires Proper(nodes) && i < |nodes| && Owner(nodes, id).Some? && Owner(nodes, id).value.id != nodes[i].id
    ensures !Owns(nodes[i], id)
  {
    if Owns(nodes[i], id) { OwnerIs(nodes, i, id); }
  }

  lemma BdevDenotes(nodes: seq<Node>, id: Id)
    requires Proper(nodes) && Owner(nodes, id).Some?
    ensures ByBdev(nodes, Owner(nodes, id).value.jm.value.bdev) == Some(id)
  {
    var i := OwnerIsListed(nodes, id);
    ByBdevIs(nodes, i);
  }

  /** What the secondary calls a chosen journal denotes that journal. */
  lemma {:induction false} SecondaryName(x: Sides, k: nat)
    requires x.Valid() && k < |x.ids| && Resolves(x.Written(), x.nodes[x.j].back)
    ensures NamesWell(x.Written(), x.Primary(), Some(x.Secondary()), x.Secondary(), x.failsS, x.ids[k])
  {
    hide Connect, Gather, Owner, Proper, ByBdev, FirstRemote, Find;
    var s, id := x.nodes[x.j], x.ids[k];
    ChosenHasOwner(x, k);
    SecondaryResolves(x);
    WritingKeepsProper(x);
    if s.jm.value.id != id {
      assert id in x.Primary().jmIds;
      RemoteOf(x.Written(), s, [], x.failsS, id);
      BdevDenotes(x.Written(), id);
    }
  }

  ghost function PrimaryList(x: Sides): seq<Option<Id>>
    requires x.Valid()
  {
    match JmNames(x.Primary(), None) case Crashed => [] case Named(ns) => DenotesAll(x.Written(), x.Primary(), ns)
  }

  ghost function SecondaryList(x: Sides): seq<Option<Id>>
    requires x.Valid() && Resolves(x.Written(), x.nodes[x.j].back)
  {
    match JmNames(x.Primary(), Some(x.Secondary()))
    case Crashed => []
    case Named(ns) => DenotesAll(x.Written(), x.Secondary(), ns)
  }

  lemma {:induction false} PrimaryListIs(x: Sides)
    requires x.Valid()
    ensures PrimaryList(x) == [Some(x.nodes[x.i].jm.value.id)] + UsableOf(x.Written(), x.Primary(), x.failsP, x.ids)
  {
    hide Connect, Gather, Usable, NameAt, Proper, Owner, ByBdev, UsableOf, Find, NamesWell;
    forall k | 0 <= k < |x.ids| ensures NamesWell(x.Written(), x.Primary(), None, x.Primary(), x.failsP, x.ids[k]) {
      PrimaryName(x, k);
    }
    NamesDenote(x.Written(), x.Primary(), None, x.Primary(), x.failsP, x.ids);
    DenotesConcat(x.Written(), x.Primary(), [OwnName(x.Primary(), None)], NamesAt(x.Primary(), None, x.ids));
  }

  lemma OwnNameDenotes(x: Sides)
    requires x.Valid() && Resolves(x.Written(), x.nodes[x.j].back)
    ensures DenotesAll(x.Written(), x.Secondary(), [OwnName(x.Primary(), Some(x.Secondary()))])
            == [Some(x.nodes[x.i].jm.value.id)]
  {
    hide Connect, Gather, Proper;
    WritingKeepsProper(x);
    ByBdevIs(x.Written(), x.i);
  }

  lemma {:induction false} SecondaryListIs(x: Sides)
    requires x.Valid() && Resolves(x.Written(), x.nodes[x.j].back)
    ensures SecondaryList(x) == [Some(x.nodes[x.i].jm.value.id)] + UsableOf(x.Written(), x.Secondary(), x.failsS, x.ids)
  {
    hide Connect, Gather, Usable, NameAt, Proper, Owner, ByBdev, DenotesAll, UsableOf, Find, NamesWell;
    var viewer := Some(x.Secondary());
    forall k | 0 <= k < |x.ids| ensures NamesWell(x.Written(), x.Primary(), viewer, x.Secondary(), x.failsS, x.ids[k]) {
      SecondaryName(x, k);
    }
    NamesDenote(x.Written(), x.Primary(), viewer, x.Secondary(), x.failsS, x.ids);
    OwnNameDenotes(x);
    DenotesConcat(x.Written(), x.Secondary(), [OwnName(x.Primary(), viewer)], NamesAt(x.Primary(), viewer, x.ids));
  }

  // ---------------------------------------------------------------- the two lists

  /** The lists of the two sides denote the same journals in the same order exactly when both sides
      can use the same ones; at most HA_JM_COUNT, and the primary's own always first. */
  lemma {:induction false} ListsAgreeIff(x: Sides)
    requires x.Valid()
    ensures Resolves(x.Written(), x.nodes[x.j].back)
    ensures 1 <= |PrimaryList(x)| <= HA_JM_COUNT && PrimaryList(x)[0] == Some(x.nodes[x.i].jm.value.id)
    ensures 1 <= |SecondaryList(x)| <= HA_JM_COUNT && SecondaryList(x)[0] == Some(x.nodes[x.i].jm.value.id)
    ensures PrimaryList(x) == SecondaryList(x) <==> forall k :: 0 <= k < |x.ids| ==>
      Usable(x.Written(), x.Primary(), x.failsP, x.ids[k]) == Usable(x.Written(), x.Secondary(), x.failsS, x.ids[k])
  {
    hide Proper, Usable, UsableOf, PrimaryList, SecondaryList, Unique, x.Primary, x.Written, x.Secondary, Resolves;
    SecondaryResolves(x);
    PrimaryListIs(x);
    SecondaryListIs(x);
    SameUsable(x.Written(), x.Primary(), x.Secondary(), x.failsP, x.failsS, x.ids);
    var own := [Some(x.nodes[x.i].jm.value.id)];
    var a, b := UsableOf(x.Written(), x.Primary(), x.failsP, x.ids), UsableOf(x.Written(), x.Secondary(), x.failsS, x.ids);
    assert (own + a)[1..] == a && (own + b)[1..] == b;
  }

  /** What the sides can use when every connection succeeds: of nodes that are online, and the
      secondary its own in any case. */
  lemma {:induction false} UsableMeans(x: Sides, k: nat)
    requires x.Valid() && k < |x.ids| && x.failsP == {} && x.failsS == {}
    requires Resolves(x.Written(), x.nodes[x.j].back)
    ensures var id := x.ids[k]; var online := Owner(x.nodes, id).Some? && Owner(x.nodes, id).value.status.Online?;
      && Usable(x.Written(), x.Primary(), {}, id) == online
      && Usable(x.Written(), x.Secondary(), {}, id) == (Owns(x.nodes[x.j], id) || online)
  {
    hide Connect, Gather, Owner, Proper;
    var id := x.ids[k];
    ChosenHasOwner(x, k);
    WritingKeepsOwners(x.nodes, x.i, x.Primary(), id);
    NotOwn(x.nodes, x.i, id);
    OwnedBySecondary(x, id);
  }

  lemma OwnedBySecondary(x: Sides, id: Id)
    requires x.Valid() && Owner(x.nodes, id).Some?
    ensures Owns(x.nodes[x.j], id) <==> Owner(x.nodes, id).value.id == x.nodes[x.j].id
  {
    if Owns(x.nodes[x.j], id) {
      OwnerIs(x.nodes, x.j, id);
    } else {
      var n := OwnerIsListed(x.nodes, id);
    }
  }

  /** With every connection succeeding the lists differ in one case only: the secondary's journal
      was chosen although its node is not online, so that the primary leaves it out. */
  lemma {:induction false} ListsDifferIff(x: Sides)
    requires x.Valid() && x.failsP == {} && x.failsS == {}
    ensures Resolves(x.Written(), x.nodes[x.j].back)
    ensures PrimaryList(x) != SecondaryList(x)
      <==> x.nodes[x.j].jm.value.id in x.ids && !x.nodes[x.j].status.Online?
  {
    hide Proper, Usable, PrimaryList, SecondaryList, x.Primary, x.Written, x.Secondary, Resolves, Owner;
    ListsAgreeIff(x);
    var s := x.nodes[x.j];
    forall k | 0 <= k < |x.ids|
      ensures Usable(x.Written(), x.Primary(), {}, x.ids[k]) == Usable(x.Written(), x.Secondary(), {}, x.ids[k])
        <==> (x.ids[k] == s.jm.value.id ==> s.status.Online?)
    {
      UsableMeans(x, k);
      SecondaryOwns(x, x.ids[k]);
    }
    if s.jm.value.id in x.ids {
      var k :| 0 <= k < |x.ids| && x.ids[k] == s.jm.value.id;
    }
  }

  lemma SecondaryOwns(x: Sides, id: Id)
    requires x.Valid()
    ensures Owns(x.nodes[x.j], id) <==> id == x.nodes[x.j].jm.value.id
    ensures Owns(x.nodes[x.j], id) ==> Owner(x.nodes, id) == Some(x.nodes[x.j])
  {
    if Owns(x.nodes[x.j], id) { OwnerIs(x.nodes, x.j, id); }
  }

  function Somes(ids: seq<Id>): (r: seq<Option<Id>>)
    ensures |r| == |ids| && forall i :: 0 <= i < |r| ==> r[i] == Some(ids[i])
  {
    seq(|ids|, i requires 0 <= i < |ids| => Some(ids[i]))
  }

  lemma {:induction false} AllUsable(nodes: seq<Node>, at: Node, fails: set<Id>, ids: seq<Id>)
    requires forall i :: 0 <= i < |ids| ==> Usable(nodes, at, fails, ids[i])
    ensures UsableOf(nodes, at, fails, ids) == Somes(ids)
  {
    hide Usable;
    if ids != [] {
      assert Usable(nodes, at, fails, ids[|ids| - 1]);
      AllUsable(nodes, at, fails, ids[..|ids| - 1]);
    }
  }

  /** With all parties online and every connection succeeding, both lists are the primary's journal
      and then every chosen one, without repetition. */
  lemma {:induction false} ListsAreComplete(x: Sides)
    requires x.Valid() && x.failsP == {} && x.failsS == {}
    requires forall n :: 0 <= n < |x.nodes| ==> x.nodes[n].status.Online?
    ensures Resolves(x.Written(), x.nodes[x.j].back)
    ensures PrimaryList(x) == SecondaryList(x) == [Some(x.nodes[x.i].jm.value.id)] + Somes(x.ids)
    ensures Unique([x.nodes[x.i].jm.value.id] + x.ids)
  {
    hide Usable, UsableOf, PrimaryList, SecondaryList, x.Primary, x.Written, x.Secondary, Resolves, Owner, Proper;
    ListsAgreeIff(x);
    forall k | 0 <= k < |x.ids|
      ensures Usable(x.Written(), x.Primary(), {}, x.ids[k]) && x.ids[k] != x.nodes[x.i].jm.value.id
    {
      ChosenHasOwner(x, k);
      UsableMeans(x, k);
      var n := OwnerIsListed(x.nodes, x.ids[k]);
      NotOwn(x.nodes, x.i, x.ids[k]);
      ListsDifferIff(x);
    }
    PrimaryListIs(x);
    AllUsable(x.Written(), x.Primary(), {}, x.ids);
    ListsDifferIff(x);
  }
}
