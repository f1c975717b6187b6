/**
 The records after an lvstore was created, recreated or rebuilt, told from the records before and how
 far the call got: the several writes of one call come to one write of each record.
 */
module LvstoreOutcomes {
  import opened Records
  import opened Pairing
  import opened LvstoreRecords

  // ---------------------------------------------------------------- creation

  /** create_lvstore and the note its caller makes. The node has its journals, its lvstore and, if the call
      returned, how it went; the partner has its journals and keeps everything else. */
  lemma {:induction false} CreatedRecords(nodes: Table, id: NodeId, copy: Node, o: Options)
    requires id in nodes && copy.secondary != id
    ensures var (after, s) := (CreateAndNote(nodes, id, copy, o), copy.secondary);
      var own := copy.(journals := o.journals(id));
      var named := own.(lvstore := true);
      match o.creation(id)
      case RaisesFirst => after == nodes
      case RaisesUnnamed => after == nodes[id := own]
      case OwnStackFails => after == nodes[id := named.(lvstoreStatus := NotReady)]
      case reached =>
        if s == NONE then after == nodes[id := named.(lvstoreStatus := Ready)]
        else if s !in nodes || reached == PartnerRaises then after == nodes[id := named.(lvstoreStatus := InCreation)]
        else after == nodes[id := named.(lvstoreStatus := if reached == Completes then Ready else NotReady)]
                           [s := nodes[s].(journals := o.journals(s))]
  {
    hide PartnerWritten;
    var s := copy.secondary;
    var named := Named(copy, o.journals(id));
    if s != NONE && s in nodes {
      PartnerWrittenIs(nodes, id, named, s, CreationOf(nodes, copy, o.creation(id)), o);
      NoteIsLast(nodes, id, s, named, nodes[s].(journals := o.journals(s)), CreateResult(nodes, id, copy, o));
    }
  }

  lemma PartnerWrittenIs(nodes: Table, id: NodeId, own: Node, s: NodeId, c: Creation, o: Options)
    requires id in nodes && s in nodes && s != id
    ensures PartnerWritten(nodes[id := own], id, own, s, c, o) == nodes[id := own][s := nodes[s].(journals := o.journals(s))]
  {
  }

  lemma NoteIsLast(nodes: Table, id: NodeId, s: NodeId, own: Node, x: Node, r: LvstoreResult)
    requires id in nodes && s in nodes && s != id
    ensures Noted(nodes[id := own][s := x], id, r) ==
      nodes[id := own.(lvstoreStatus := if r == Built then Ready else if r == NotBuilt then NotReady else own.lvstoreStatus)][s := x]
  {
  }

  /** What create_lvstore returns. */
  lemma CreatedResult(nodes: Table, id: NodeId, copy: Node, o: Options)
    ensures var (r, c, s) := (CreateResult(nodes, id, copy, o), o.creation(id), copy.secondary);
      && (r == Built <==> if s == NONE then c in {PartnerRaises, PartnerStackFails, Completes} else s in nodes && c == Completes)
      && (r == NotBuilt <==> c == OwnStackFails || (c == PartnerStackFails && s != NONE && s in nodes))
  {
  }

  // ---------------------------------------------------------------- rebuilding on a secondary

  /** The nodes among the first k that have s as their secondary, and an lvstore. */
  ghost function Served(created: seq<NodeId>, nodes: Table, s: NodeId, k: nat): set<NodeId>
    requires k <= |created| && Stored(created, nodes.Keys)
  {
    set i: nat | i < k && nodes[created[i]].secondary == s && nodes[created[i]].lvstore :: created[i]
  }

  /** The scan finds each primary once, in the order of creation. */
  lemma {:induction false} ScanMeans(created: seq<NodeId>, nodes: Table, s: NodeId, k: nat)
    requires Keyed(created, nodes.Keys) && Stored(created, nodes.Keys) && k <= |created|
    ensures var list := PrimaryScan(created, nodes, s, k);
      && (forall id :: id in list <==> id in Served(created, nodes, s, k))
      && (forall i, j :: 0 <= i < j < |list| ==> list[i] != list[j])
      && |list| == |Served(created, nodes, s, k)|
  {
    hide Keyed, Served;
    if k == 0 {
      NobodyServed(created, nodes, s);
    } else {
      ScanMeans(created, nodes, s, k - 1);
      ServedGrows(created, nodes, s, k);
    }
  }

  lemma NobodyServed(created: seq<NodeId>, nodes: Table, s: NodeId)
    requires Stored(created, nodes.Keys)
    ensures Served(created, nodes, s, 0) == {}
  {
  }

  lemma {:induction false} ServedGrows(created: seq<NodeId>, nodes: Table, s: NodeId, k: nat)
    requires Keyed(created, nodes.Keys) && Stored(created, nodes.Keys) && 0 < k <= |created|
    ensures var here := created[k - 1];
      && here !in Served(created, nodes, s, k - 1)
      && Served(created, nodes, s, k)
         == Served(created, nodes, s, k - 1) + if nodes[here].secondary == s && nodes[here].lvstore then {here} else {}
  {
  }

  /** What became of the primary at position i when the rebuilding stopped, or went through, at `limit`. */
  function RebuiltAt(n: Node, i: nat, limit: nat): Node {
    if i < limit then n.(lvstoreStatus := Ready) else if i == limit then n.(lvstoreStatus := InCreation) else n
  }

  lemma {:induction false} RebuildLeaves(nodes: Table, scanned: Table, list: seq<NodeId>, i: nat, limit: nat,
                                         id: NodeId)
    requires i <= |list| && i <= limit && scanned.Keys == nodes.Keys && id in nodes
    requires (forall k :: 0 <= k < |list| ==> list[k] in nodes) && (forall k, l :: 0 <= k < l < |list| ==> list[k] != list[l])
    requires forall k :: i <= k < |list| ==> nodes[list[k]] == scanned[list[k]]
    ensures var (after, ok) := RebuildFrom(nodes, scanned, list, i, limit);
      && (ok <==> |list| <= limit)
      && (id !in list[i..] ==> after[id] == nodes[id])
      && forall k :: i <= k < |list| && list[k] == id ==> after[id] == RebuiltAt(scanned[id], k, limit)
    decreases |list| - i
  {
    if i < |list| {
      assert list[i..] == [list[i]] + list[i + 1..];
      if i != limit {
        var started := nodes[list[i] := scanned[list[i]].(lvstoreStatus := InCreation)];
        RebuildLeaves(started[list[i] := started[list[i]].(lvstoreStatus := Ready)], scanned, list, i + 1, limit, id);
      }
    }
  }

  /** recreate_lvstore_on_sec: in the order of creation its primaries become ready until a stack fails, whose
      primary stays in creation; the later ones and all other nodes keep their records. */
  lemma {:induction false} RebuiltRecords(created: seq<NodeId>, nodes: Table, s: NodeId, o: Options, id: NodeId)
    requires Keyed(created, nodes.Keys) && Stored(created, nodes.Keys) && id in nodes
    ensures var (list, limit) := (PrimaryScan(created, nodes, s, |created|), o.rebuilt(s));
      var (after, ok) := Rebuilt(created, nodes, s, o);
      && (ok <==> |set p | p in nodes && nodes[p].secondary == s && nodes[p].lvstore| <= limit)
      && (nodes[id].secondary != s || !nodes[id].lvstore ==> after[id] == nodes[id])
      && forall k :: 0 <= k < |list| && list[k] == id ==>
           after[id] == nodes[id].(lvstoreStatus := if k < limit then Ready else if k == limit then InCreation
                                                    else nodes[id].lvstoreStatus)
  {
    hide Keyed, PrimaryScan, Served;
    var list := PrimaryScan(created, nodes, s, |created|);
    ScanMeans(created, nodes, s, |created|);
    ServedAre(created, nodes, s);
    ScanIsStored(created, nodes, s, |created|);
    RebuildLeaves(nodes, nodes, list, 0, o.rebuilt(s), id);
    assert list[0..] == list;
  }

  lemma ServedAre(created: seq<NodeId>, nodes: Table, s: NodeId)
    requires Keyed(created, nodes.Keys) && Stored(created, nodes.Keys)
    ensures Served(created, nodes, s, |created|) == set p | p in nodes && nodes[p].secondary == s && nodes[p].lvstore
  {
    forall p | p in nodes && nodes[p].secondary == s && nodes[p].lvstore ensures p in Served(created, nodes, s, |created|) {
      var i :| 0 <= i < |created| && created[i] == p;
    }
  }

  // ---------------------------------------------------------------- recreation

  /** Two records that are written several times have what was written last. */
  lemma LastWriteStays(nodes: Table, id: NodeId, s: NodeId, a: Node, b: Node, x: Node, y: Node)
    requires id != s
    ensures nodes[id := a][id := b] == nodes[id := b]
    ensures nodes[id := a][s := x][id := b] == nodes[s := x][id := b]
    ensures nodes[id := a][s := x] == nodes[s := x][id := a]
    ensures nodes[s := x][id := a][s := y] == nodes[s := y][id := a]
  {
  }

  /** The partner's record after a call that got to the recovery. */
  function PartnerAfter(n: Node, c: Recovery): Node {
    if n.status == Online then n.(lvstoreStatus := if c == Recovers then Ready else InCreation) else n
  }

  /** recreate_lvstore: the node has its journals and is in creation until the caller notes how it went; it is
      offline if the lvstore did not recover, and suspended if it is held back, unless a new hublvol was stored
      after that. An online partner is in creation if the recovery failed and ready if the call got to its end.
      Then the node that this one serves is rebuilt, and nobody looks how that went. */
  lemma {:induction false} RecreatedRecords(created: seq<NodeId>, nodes: Table, id: NodeId, copy: Node, o: Options)
    requires id in nodes && Stored(created, nodes.Keys) && copy.secondary != id
    ensures var (s, c) := (copy.secondary, o.recovery(id));
      var own := copy.(journals := o.journals(id), lvstoreStatus := InCreation);
      Recreated(created, nodes, id, copy, o) ==
      if c == JournalsRaise then (nodes[id := copy.(lvstoreStatus := InCreation)], Raised)
      else if c == StackFails then (nodes[id := own], NotBuilt)
      else if s == NONE then (if c == RecoveryFails then (nodes[id := own.(status := Offline)], Raised) else (nodes[id := own], Built))
      else if s !in nodes then (nodes[id := own], Raised)
      else if c == RecoveryFails then (nodes[s := PartnerAfter(nodes[s], c)][id := own.(status := Offline)], Raised)
      else if nodes[s].status == Unreachable && o.lvols(id) then
        (nodes[id := if o.hublvol(id) then own else own.(status := Suspended)], NotBuilt)
      else
        var done := nodes[s := PartnerAfter(nodes[s], c)][id := own];
        (if copy.primary != NONE && copy.primary in nodes then Rebuilt(created, done, copy.primary, o).0 else done, Built)
  {
    hide Rebuilt, WithPartner;
    var started := copy.(lvstoreStatus := InCreation);
    var own := started.(journals := o.journals(id));
    OneWrite(nodes, id, started, own);
    OneWrite(nodes, id, own, own.(status := Offline));
    if !(o.recovery(id).JournalsRaise? || o.recovery(id).StackFails?) && copy.secondary != NONE && copy.secondary in nodes {
      PartnerRecords(created, nodes, id, own, o);
    }
  }

  lemma OneWrite(nodes: Table, id: NodeId, a: Node, b: Node)
    ensures nodes[id := a][id := b] == nodes[id := b]
  {
  }

  lemma {:induction false} PartnerRecords(created: seq<NodeId>, nodes: Table, id: NodeId, own: Node, o: Options)
    requires id in nodes && own.secondary in nodes && own.secondary != id && Stored(created, nodes.Keys)
    requires o.recovery(id).RecoveryFails? || o.recovery(id).Recovers?
    ensures var (s, c) := (own.secondary, o.recovery(id));
      WithPartner(created, nodes[id := own], id, own, o) ==
      if c == RecoveryFails then (nodes[s := PartnerAfter(nodes[s], c)][id := own.(status := Offline)], Raised)
      else if nodes[s].status == Unreachable && o.lvols(id) then
        (nodes[id := if o.hublvol(id) then own else own.(status := Suspended)], NotBuilt)
      else
        var done := nodes[s := PartnerAfter(nodes[s], c)][id := own];
        (if own.primary != NONE && own.primary in nodes then Rebuilt(created, done, own.primary, o).0 else done, Built)
  {
    hide Rebuilt;
    var (s, sec) := (own.secondary, nodes[own.secondary]);
    var (started, done) := (sec.(lvstoreStatus := InCreation), sec.(lvstoreStatus := Ready));
    LastWriteStays(nodes, id, s, own, own, started, done);
    LastWriteStays(nodes, id, s, own, own.(status := Offline), started, done);
    LastWriteStays(nodes, id, s, own.(status := Suspended), own.(status := Offline), started, done);
    LastWriteStays(nodes, id, s, own.(status := Suspended), own, started, done);
    LastWriteStays(nodes, id, s, own, own.(status := Suspended), started, done);
    SameWrite(nodes, s);
  }

  lemma SameWrite(nodes: Table, s: NodeId)
    requires s in nodes
    ensures nodes[s := nodes[s]] == nodes
  {
  }

  /** The note the caller makes changes how the node's lvstore went, and nothing else. */
  lemma NotedRecords(nodes: Table, id: NodeId, r: LvstoreResult)
    requires id in nodes
    ensures Noted(nodes, id, r) == nodes[id := nodes[id].(lvstoreStatus :=
      if r == Built then Ready else if r == NotBuilt then NotReady else nodes[id].lvstoreStatus)]
  {
  }
}
