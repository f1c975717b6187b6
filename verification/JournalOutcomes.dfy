/**
 Which journals a node gathers and attaches, and what its list of names says, told from the records: for
 any database, without assuming that bdevs or ids are unique.
 */
module JournalOutcomes {
  import opened Records
  import opened Journals
  import opened JournalNames
  import opened JournalViews

  /** i is the place of the first node with this journal. */
  ghost predicate FirstWith(nodes: seq<Node>, id: Id, i: nat) {
    i < |nodes| && nodes[i].jm.Some? && nodes[i].jm.value.id == id
    && forall l :: 0 <= l < i && nodes[l].jm.Some? ==> nodes[l].jm.value.id != id
  }

  lemma {:induction false} OwnerAt(nodes: seq<Node>, id: Id, i: nat)
    requires FirstWith(nodes, id, i)
    ensures Owner(nodes, id) == Some(nodes[i])
  {
    if i > 0 { OwnerAt(nodes[1..], id, i - 1); }
  }

  lemma {:induction false} OwnerIff(nodes: seq<Node>, id: Id)
    ensures Owner(nodes, id).Some? <==> exists i :: 0 <= i < |nodes| && nodes[i].jm.Some? && nodes[i].jm.value.id == id
  {
    if nodes != [] {
      OwnerIff(nodes[1..], id);
      if i :| 0 <= i < |nodes| && nodes[i].jm.Some? && nodes[i].jm.value.id == id {
        if i > 0 { assert nodes[1..][i - 1] == nodes[i]; }
      }
      if i :| 0 <= i < |nodes[1..]| && nodes[1..][i].jm.Some? && nodes[1..][i].jm.value.id == id {
        assert nodes[i + 1] == nodes[1..][i];
      }
    }
  }

  // ---------------------------------------------------------------- gathering

  /** The journals gathered are those asked for and those of the record, where some node has them, and, for a
      node that serves another, that one's own journal if it is online, and those of its record. */
  lemma {:induction false} GatheredIff(nodes: seq<Node>, n: Node, ids: seq<Id>, id: Id)
    requires Resolves(nodes, n.back)
    ensures Lists(Gather(nodes, n, ids), id) <==>
      || ((id in ids || id in n.jmIds) && exists i :: 0 <= i < |nodes| && nodes[i].jm.Some? && nodes[i].jm.value.id == id)
      || (n.back != "" && Find(nodes, n.back).Some?
          && (id in Find(nodes, n.back).value.jmIds
              || (Find(nodes, n.back).value.jm.Some? && Find(nodes, n.back).value.jm.value.id == id
                  && Find(nodes, n.back).value.jm.value.status == DevOnline)))
  {
    hide Owner, Find, Lists;
    OwnerIff(nodes, id);
    var first := Add(nodes, [], ids, false);
    var own := Add(nodes, first, n.jmIds, true);
    NothingListed(id);
    AddLists(nodes, [], ids, false, id);
    AddLists(nodes, first, n.jmIds, true, id);
    if n.back != "" {
      var org := Find(nodes, n.back).value;
      if org.jm.Some? && org.jm.value.status.DevOnline? {
        ListsMore(own, org.jm.value, id);
        AddLists(nodes, own + [org.jm.value], org.jmIds, true, id);
      } else {
        AddLists(nodes, own, org.jmIds, true, id);
      }
    }
  }

  ghost predicate OnceEach(devs: seq<Jm>) { forall i, j :: 0 <= i < j < |devs| ==> devs[i].id != devs[j].id }

  lemma OnceMore(devs: seq<Jm>, d: Jm)
    requires OnceEach(devs) && d.id !in IdsOf(devs)
    ensures OnceEach(devs + [d])
  {
    forall i | 0 <= i < |devs| ensures devs[i].id != d.id {
      assert IdsOf(devs)[i] == devs[i].id;
    }
  }

  /** What is added because it is new is not there yet. */
  lemma {:induction false} AddedOnce(nodes: seq<Node>, devs: seq<Jm>, ids: seq<Id>)
    requires OnceEach(devs)
    ensures OnceEach(Add(nodes, devs, ids, true))
  {
    hide OnceEach;
    if ids != [] {
      AddedOnce(nodes, devs, ids[..|ids| - 1]);
      var before := Add(nodes, devs, ids[..|ids| - 1], true);
      var owner := Owner(nodes, ids[|ids| - 1]);
      if owner.Some? && ids[|ids| - 1] !in IdsOf(before) { OnceMore(before, owner.value.jm.value); }
    }
  }

  /** The call raises exactly if the node serves another that has no record, or one with a journal in its
      record that no node has. */
  lemma {:induction false} ResolvesIff(nodes: seq<Node>, back: Id)
    ensures Resolves(nodes, back) <==>
      back == "" || (Find(nodes, back).Some?
                     && forall k :: 0 <= k < |Find(nodes, back).value.jmIds| ==>
                          HasJournal(nodes, Find(nodes, back).value.jmIds[k]))
    ensures Find(nodes, back).Some? <==> exists i :: 0 <= i < |nodes| && nodes[i].id == back
  {
    forall id ensures Owner(nodes, id).Some? <==> HasJournal(nodes, id) {
      OwnerIff(nodes, id);
    }
    hide Owner, HasJournal;
    if Find(nodes, back).Some? {
      var i :| 0 <= i < |nodes| && nodes[i] == Find(nodes, back).value;
    }
  }

  ghost predicate HasJournal(nodes: seq<Node>, id: Id) {
    exists i :: 0 <= i < |nodes| && nodes[i].jm.Some? && nodes[i].jm.value.id == id
  }

  // ---------------------------------------------------------------- attaching

  /** A gathered journal is attached exactly if its record names a bdev, and the first node that has it is
      another one, online like the journal, and can be connected to. */
  lemma {:induction false} AttachedIff(nodes: seq<Node>, me: Id, devs: seq<Jm>, fails: set<Id>, id: Id, i: nat)
    requires FirstWith(nodes, id, i)
    ensures Attached(Connect(nodes, me, devs, fails), id) <==>
      && (exists k :: 0 <= k < |devs| && devs[k].id == id && devs[k].bdev != "")
      && nodes[i].id != me && nodes[i].jm.value.status == DevOnline && nodes[i].status == Online && id !in fails
  {
    hide FirstWith;
    OwnerAt(nodes, id, i);
    if devs == [] {
      NothingListed(id);
    } else {
      var front, d := devs[..|devs| - 1], devs[|devs| - 1];
      AttachedIff(nodes, me, front, fails, id, i);
      var before := Connect(nodes, me, front, fails);
      if !(d.bdev == "" || Attached(before, d.id) || !Attachable(nodes, me, d.id, fails)) {
        AttachedMore(before, Remote(d.id, Owner(nodes, d.id).value.jm.value.bdev), id);
      }
      hide Owner, Attached, Connect;
      if k :| 0 <= k < |front| && front[k].id == id && front[k].bdev != "" {
        assert devs[k].id == id;
      }
    }
  }

  /** Every journal is attached once, under the bdev of the first node that has it. */
  ghost predicate AllWell(nodes: seq<Node>, r: seq<Remote>) {
    && (forall i, j :: 0 <= i < j < |r| ==> r[i].id != r[j].id)
    && (forall i :: 0 <= i < |r| ==> OfFirst(nodes, r[i]))
  }

  ghost predicate OfFirst(nodes: seq<Node>, x: Remote) {
    exists k: nat :: FirstWith(nodes, x.id, k) && x.bdev == nodes[k].jm.value.bdev
  }

  lemma WellMore(nodes: seq<Node>, r: seq<Remote>, x: Remote, k: nat)
    requires AllWell(nodes, r) && !Attached(r, x.id)
    requires FirstWith(nodes, x.id, k) && x.bdev == nodes[k].jm.value.bdev
    ensures AllWell(nodes, r + [x])
  {
    assert OfFirst(nodes, x);
    hide OfFirst, FirstWith;
  }

  /** What is attached is attached once, under the bdev of the first node that has it. */
  lemma {:induction false} AttachedOnce(nodes: seq<Node>, me: Id, devs: seq<Jm>, fails: set<Id>)
    ensures AllWell(nodes, Connect(nodes, me, devs, fails))
  {
    if devs != [] {
      var front, d := devs[..|devs| - 1], devs[|devs| - 1];
      AttachedOnce(nodes, me, front, fails);
      var before := Connect(nodes, me, front, fails);
      hide AllWell, Attached;
      if !(d.bdev == "" || Attached(before, d.id) || !Attachable(nodes, me, d.id, fails)) {
        var k := WhereOwned(nodes, d.id);
        WellMore(nodes, before, Remote(d.id, nodes[k].jm.value.bdev), k);
      }
    }
  }

  lemma {:induction false} WhereOwned(nodes: seq<Node>, id: Id) returns (k: nat)
    requires Owner(nodes, id).Some?
    ensures FirstWith(nodes, id, k) && Owner(nodes, id) == Some(nodes[k])
  {
    if Owns(nodes[0], id) {
      k := 0;
    } else {
      k := WhereOwned(nodes[1..], id);
      k := k + 1;
    }
  }

  // ---------------------------------------------------------------- names

  /** The list starts with the node's own journal: under its bdev on the node itself, attached on another one,
      and under a fixed name if there is none. It is at most three long, and nothing else without high
      availability. It is not there at all exactly if another node without a journal looks at a list that is
      not empty. */
  lemma {:induction false} NamesMean(current: Node, viewer: Option<Node>)
    ensures JmNames(current, viewer) == Crashed <==>
      current.ha && viewer.Some? && viewer.value.jm.None? && exists i :: 0 <= i < |current.jmIds| && current.jmIds[i] != ""
    ensures match JmNames(current, viewer)
      case Crashed => true
      case Named(names) =>
        && 1 <= |names| <= 3 && (!current.ha ==> |names| == 1)
        && names[0] == match current.jm
             case None => NoJournal
             case Some(jm) => if viewer.Some? then Attach(jm.bdev) else Local(jm.bdev)
    ensures current.ha && (viewer.Some? ==> viewer.value.jm.Some?) ==>
      JmNames(current, viewer).Named? && JmNames(current, viewer).names[1..] <= NamesAt(current, viewer, current.jmIds)
      && (|JmNames(current, viewer).names| < 3 ==> |JmNames(current, viewer).names| == 1 + |NamesAt(current, viewer, current.jmIds)|)
  {
    var own := OwnName(current, viewer);
    if current.ha && (viewer.Some? ==> viewer.value.jm.Some?) {
      var all := [own] + NamesAt(current, viewer, current.jmIds);
      assert all[1..] == NamesAt(current, viewer, current.jmIds);
      assert Cut(all, HA_JM_COUNT) == all[..|Cut(all, HA_JM_COUNT)|];
      assert Cut(all, HA_JM_COUNT)[1..] == all[1..][..|Cut(all, HA_JM_COUNT)| - 1];
    }
  }

  /** The journals behind it come in the order of the record, each as one name at most. */
  lemma {:induction false} NamesInOrder(current: Node, viewer: Option<Node>, a: seq<Id>, b: seq<Id>)
    requires viewer.Some? ==> viewer.value.jm.Some?
    ensures NamesAt(current, viewer, a + b) == NamesAt(current, viewer, a) + NamesAt(current, viewer, b)
    decreases |b|
  {
    if b == [] {
      assert a + b == a;
    } else {
      NamesInOrder(current, viewer, a, b[..|b| - 1]);
      assert (a + b)[..|a + b| - 1] == a + b[..|b| - 1];
    }
  }

  /** k is the place of the first record of an attached journal, or past the end. */
  ghost predicate FirstAttached(remotes: seq<Remote>, id: Id, k: nat) {
    k <= |remotes| && (k < |remotes| ==> remotes[k].id == id) && forall l :: 0 <= l < k ==> remotes[l].id != id
  }

  lemma {:induction false} FirstRemoteAt(remotes: seq<Remote>, id: Id, k: nat)
    requires FirstAttached(remotes, id, k)
    ensures FirstRemote(remotes, id) == if k < |remotes| then [Attach(remotes[k].bdev)] else []
  {
    if k > 0 { FirstRemoteAt(remotes[1..], id, k - 1); }
  }

  /** One id of the record: nothing if it is empty; the bdev of the journal of the node that looks; the name
      under which that node, or without one the node itself, has it attached; nothing if it has not. */
  lemma {:induction false} NameOfOne(current: Node, viewer: Option<Node>, id: Id, k: nat)
    requires viewer.Some? ==> viewer.value.jm.Some?
    requires FirstAttached(if viewer.Some? then viewer.value.remotes else current.remotes, id, k)
    ensures var remotes := if viewer.Some? then viewer.value.remotes else current.remotes;
      NamesAt(current, viewer, [id]) ==
      if id == "" then []
      else if viewer.Some? && viewer.value.jm.value.id == id then [Local(viewer.value.jm.value.bdev)]
      else if k < |remotes| then [Attach(remotes[k].bdev)] else []
  {
    FirstRemoteAt(if viewer.Some? then viewer.value.remotes else current.remotes, id, k);
    assert [id][..0] == [];
    assert NamesAt(current, viewer, [id][..0]) == [];
  }
}
