/**
 What creating and recreating an lvstore writes to the database: the node's own record, through the
 copy the caller read some time ago, the record of its partner, and those of the primaries it serves.
 Every write is of a whole record.
 */
module LvstoreRecords {
  import opened Records
  import opened Pairing

  datatype LvstoreResult = Built | NotBuilt | Raised

  /** How far create_lvstore gets: it raises before or after its journals are stored, fails on the
      node's own stack, raises on the partner's record or journals, fails on the partner's stack, or
      completes. */
  datatype Creation = RaisesFirst | RaisesUnnamed | OwnStackFails | PartnerRaises | PartnerStackFails | Completes

  /** How far recreate_lvstore gets on the node itself. */
  datatype Recovery = JournalsRaise | StackFails | RecoveryFails | Recovers

  /** What one activation or expansion meets. `rebuilt` says how many primaries of a secondary are
      rebuilt before a stack fails, `hublvol` whether a hublvol is created and stored. */
  datatype Options = Options(
    ha: bool,
    force: bool,
    forceLvstoreCreate: bool,
    enoughDevices: bool,
    creation: NodeId -> Creation,
    recovery: NodeId -> Recovery,
    rebuilt: NodeId -> nat,
    journals: NodeId -> seq<string>,
    lvols: NodeId -> bool,
    hublvol: NodeId -> bool)

  // ---------------------------------------------------------------- creation

  /** Without a secondary the partner's part falls away; a missing partner record raises. */
  function CreationOf(nodes: Table, copy: Node, c: Creation): Creation {
    if c.PartnerRaises? || c.PartnerStackFails? || c.Completes? then
      if copy.secondary == NONE then Completes else if copy.secondary !in nodes then PartnerRaises else c
    else c
  }

  function ResultOf(c: Creation): LvstoreResult {
    match c
    case Completes => Built
    case OwnStackFails => NotBuilt
    case PartnerStackFails => NotBuilt
    case _ => Raised
  }

  function Named(copy: Node, journals: seq<string>): Node {
    copy.(journals := journals, lvstore := true, lvstoreStatus := InCreation)
  }

  /** The partner is read afresh and written with its journals, and once more, the same copy, at the
      end; in between the hublvol is stored through the node's own copy. */
  function PartnerWritten(nodes: Table, id: NodeId, own: Node, s: NodeId, c: Creation, o: Options): (r: Table)
    requires id in nodes && s in nodes
    ensures r.Keys == nodes.Keys
  {
    var sec := nodes[s].(journals := o.journals(s));
    var once := nodes[s := sec];
    if c.PartnerStackFails? then once
    else (if o.hublvol(id) then once[id := own] else once)[s := sec]
  }

  /** The records when create_lvstore, called with the copy `copy`, returns or raises. */
  function Created(nodes: Table, id: NodeId, copy: Node, o: Options): (r: Table)
    requires id in nodes
    ensures r.Keys == nodes.Keys
  {
    var c := CreationOf(nodes, copy, o.creation(id));
    var own := Named(copy, o.journals(id));
    match c
    case RaisesFirst => nodes
    case RaisesUnnamed => nodes[id := copy.(journals := o.journals(id))]
    case OwnStackFails => nodes[id := own]
    case PartnerRaises => nodes[id := own]
    case _ => if copy.secondary == NONE then nodes[id := own] else PartnerWritten(nodes[id := own], id, own, copy.secondary, c, o)
  }

  /** The caller reads the record again and notes how it went, unless it was left by an exception. */
  function Noted(nodes: Table, id: NodeId, r: LvstoreResult): (t: Table)
    requires id in nodes
    ensures t.Keys == nodes.Keys
  {
    match r
    case Built => nodes[id := nodes[id].(lvstoreStatus := Ready)]
    case NotBuilt => nodes[id := nodes[id].(lvstoreStatus := NotReady)]
    case Raised => nodes
  }

  function CreateResult(nodes: Table, id: NodeId, copy: Node, o: Options): LvstoreResult {
    ResultOf(CreationOf(nodes, copy, o.creation(id)))
  }

  function CreateAndNote(nodes: Table, id: NodeId, copy: Node, o: Options): (r: Table)
    requires id in nodes
    ensures r.Keys == nodes.Keys
  {
    Noted(Created(nodes, id, copy, o), id, CreateResult(nodes, id, copy, o))
  }

  /** Whether the copy is written at all. */
  predicate Writes(id: NodeId, o: Options) { !o.creation(id).RaisesFirst? }

  /** Whatever is written besides, hosts, kinds, pointers and statuses are those of one write of the
      copy. */
  lemma {:induction false} CreationWritesCopy(nodes: Table, id: NodeId, copy: Node, o: Options)
    requires id in nodes
    ensures var (simple, after) := (if Writes(id, o) then nodes[id := copy] else nodes, CreateAndNote(nodes, id, copy, o));
      SamePairs(simple, after) && SameStatuses(simple, after)
  {
    hide Created, Noted, CreateResult, SamePairs, SameStatuses, Writes;
    var simple := if Writes(id, o) then nodes[id := copy] else nodes;
    var once := Created(nodes, id, copy, o);
    var after := Noted(once, id, CreateResult(nodes, id, copy, o));
    CreatedWritesCopy(nodes, id, copy, o);
    NotingIsNoWrite(once, id, CreateResult(nodes, id, copy, o));
    SamePairsTrans(simple, once, after);
  }

  lemma NotingIsNoWrite(nodes: Table, id: NodeId, r: LvstoreResult)
    requires id in nodes
    ensures SamePairs(nodes, Noted(nodes, id, r)) && SameStatuses(nodes, Noted(nodes, id, r))
  {
  }

  lemma {:induction false} CreatedWritesCopy(nodes: Table, id: NodeId, copy: Node, o: Options)
    requires id in nodes
    ensures var (simple, after) := (if Writes(id, o) then nodes[id := copy] else nodes, Created(nodes, id, copy, o));
      SamePairs(simple, after) && SameStatuses(simple, after)
  {
    hide PartnerWritten, SamePairs, SameStatuses;
    var c := CreationOf(nodes, copy, o.creation(id));
    var own := Named(copy, o.journals(id));
    SamePairsItself(nodes);
    OwnWriteIsOne(nodes, id, copy, copy.(journals := o.journals(id)));
    OwnWriteIsOne(nodes, id, copy, own);
    if copy.secondary in nodes {
      PartnerWriteIsOne(nodes, id, own, copy.secondary, c, o);
      SamePairsTrans(nodes[id := copy], nodes[id := own], PartnerWritten(nodes[id := own], id, own, copy.secondary, c, o));
    }
  }

  lemma OwnWriteIsOne(nodes: Table, id: NodeId, a: Node, b: Node)
    requires id in nodes && SamePair(a, b) && a.status == b.status
    ensures SamePairs(nodes[id := a], nodes[id := b]) && SameStatuses(nodes[id := a], nodes[id := b])
  {
  }

  lemma PartnerWriteIsOne(nodes: Table, id: NodeId, own: Node, s: NodeId, c: Creation, o: Options)
    requires id in nodes && s in nodes
    ensures var after := PartnerWritten(nodes[id := own], id, own, s, c, o);
      SamePairs(nodes[id := own], after) && SameStatuses(nodes[id := own], after)
  {
  }

  /** Nobody else's record is touched but the partner's, and no status but the node's own. */
  lemma {:induction false} CreationTouches(nodes: Table, id: NodeId, copy: Node, o: Options, n: NodeId)
    requires id in nodes && n in nodes
    ensures n != id && n != copy.secondary ==> CreateAndNote(nodes, id, copy, o)[n] == nodes[n]
    ensures n != id || copy.status == nodes[id].status ==> CreateAndNote(nodes, id, copy, o)[n].status == nodes[n].status
    ensures n != id ==> CreateAndNote(nodes, id, copy, o)[n].lvstore == nodes[n].lvstore
  {
  }

  // ---------------------------------------------------------------- recreation

  /** recreate_lvstore_on_sec over the primaries list[i..]: each record is written through the copy
      the scan gave, and once its stack is there read again and written as ready. */
  function RebuildFrom(nodes: Table, scanned: Table, list: seq<NodeId>, i: nat, limit: nat): (r: (Table, bool))
    requires i <= |list| && scanned.Keys == nodes.Keys && forall k :: 0 <= k < |list| ==> list[k] in nodes
    ensures r.0.Keys == nodes.Keys
    decreases |list| - i
  {
    if i == |list| then (nodes, true)
    else
      var started := nodes[list[i] := scanned[list[i]].(lvstoreStatus := InCreation)];
      if i == limit then (started, false)
      else RebuildFrom(started[list[i] := started[list[i]].(lvstoreStatus := Ready)], scanned, list, i + 1, limit)
  }

  function Rebuilt(created: seq<NodeId>, nodes: Table, s: NodeId, o: Options): (r: (Table, bool))
    requires Stored(created, nodes.Keys)
    ensures r.0.Keys == nodes.Keys
  {
    ScanIsStored(created, nodes, s, |created|);
    RebuildFrom(nodes, nodes, PrimaryScan(created, nodes, s, |created|), 0, o.rebuilt(s))
  }

  lemma {:induction false} ScanIsStored(created: seq<NodeId>, nodes: Table, s: NodeId, k: nat)
    requires k <= |created| && Stored(created, nodes.Keys)
    ensures forall i :: 0 <= i < |PrimaryScan(created, nodes, s, k)| ==> PrimaryScan(created, nodes, s, k)[i] in nodes
  {
    if k > 0 { ScanIsStored(created, nodes, s, k - 1); }
  }

  /** The part of recreate_lvstore that deals with the partner, from its lookup on. `own` is the
      node's record as the call has it. */
  function WithPartner(created: seq<NodeId>, nodes: Table, id: NodeId, own: Node, o: Options): (r: (Table, LvstoreResult))
    requires id in nodes && own.secondary in nodes && Stored(created, nodes.Keys)
    ensures r.0.Keys == nodes.Keys
  {
    var s := own.secondary;
    var sec := nodes[s];
    var held := sec.status.Unreachable? && o.lvols(id);
    var t1 := if held then nodes[id := nodes[id].(status := Suspended)] else nodes;
    var t2 := if sec.status.Online? then t1[s := sec.(lvstoreStatus := InCreation)] else t1;
    if o.recovery(id).RecoveryFails? then (t2[id := t2[id].(status := Offline)], Raised)
    else
      var t3 := if o.hublvol(id) then t2[id := own] else t2;
      if held then (t3, NotBuilt)
      else
        var t4 := if sec.status.Online? then t3[s := t3[s].(lvstoreStatus := Ready)] else t3;
        (if own.primary != NONE && own.primary in t4 then Rebuilt(created, t4, own.primary, o).0 else t4, Built)
  }

  /** The records when recreate_lvstore, called with the copy `copy`, returns or raises. A node
      without a secondary has no partner to deal with. */
  function Recreated(created: seq<NodeId>, nodes: Table, id: NodeId, copy: Node, o: Options): (r: (Table, LvstoreResult))
    requires id in nodes && Stored(created, nodes.Keys)
    ensures r.0.Keys == nodes.Keys
  {
    var t0 := nodes[id := copy.(lvstoreStatus := InCreation)];
    if o.recovery(id).JournalsRaise? then (t0, Raised)
    else
      var own := t0[id].(journals := o.journals(id));
      var t1 := t0[id := own];
      if o.recovery(id).StackFails? then (t1, NotBuilt)
      else if own.secondary == NONE then
        if o.recovery(id).RecoveryFails? then (t1[id := t1[id].(status := Offline)], Raised) else (t1, Built)
      else if own.secondary !in t1 then (t1, Raised)
      else WithPartner(created, t1, id, own, o)
  }

  /** No lvstore named, no status changed. */
  ghost predicate SameFlags(a: Table, b: Table) {
    a.Keys == b.Keys && forall id :: id in a ==> a[id].lvstore == b[id].lvstore && a[id].status == b[id].status
  }

  lemma {:induction false} StartKeepsFlags(nodes: Table, scanned: Table, p: NodeId)
    requires SameFlags(scanned, nodes) && p in nodes
    ensures var started := nodes[p := scanned[p].(lvstoreStatus := InCreation)];
      SameFlags(scanned, started) && SameFlags(scanned, started[p := started[p].(lvstoreStatus := Ready)])
  {
  }

  /** Rebuilding names no lvstore and changes no node's status; it completes if no stack fails. */
  lemma {:induction false} RebuildMeans(nodes: Table, scanned: Table, list: seq<NodeId>, i: nat, limit: nat)
    requires i <= |list| && SameFlags(scanned, nodes) && scanned.Keys == nodes.Keys && forall k :: 0 <= k < |list| ==> list[k] in nodes
    ensures var (after, ok) := RebuildFrom(nodes, scanned, list, i, limit);
      SameFlags(scanned, after) && (i <= limit ==> (ok <==> |list| <= limit))
    decreases |list| - i
  {
    hide SameFlags;
    if i < |list| {
      StartKeepsFlags(nodes, scanned, list[i]);
      if i != limit {
        var started := nodes[list[i] := scanned[list[i]].(lvstoreStatus := InCreation)];
        RebuildMeans(started[list[i] := started[list[i]].(lvstoreStatus := Ready)], scanned, list, i + 1, limit);
      }
    }
  }

  lemma {:induction false} ScanIsShort(created: seq<NodeId>, nodes: Table, s: NodeId, k: nat)
    requires k <= |created| && Stored(created, nodes.Keys)
    ensures |PrimaryScan(created, nodes, s, k)| <= k
  {
    if k > 0 { ScanIsShort(created, nodes, s, k - 1); }
  }

  lemma {:induction false} RebuildKeepsPairs(nodes: Table, scanned: Table, list: seq<NodeId>, i: nat, limit: nat)
    requires i <= |list| && SamePairs(scanned, nodes) && forall k :: 0 <= k < |list| ==> list[k] in nodes
    ensures SamePairs(scanned, RebuildFrom(nodes, scanned, list, i, limit).0)
    decreases |list| - i
  {
    if i < |list| {
      var started := nodes[list[i] := scanned[list[i]].(lvstoreStatus := InCreation)];
      assert SamePairs(scanned, started);
      if i != limit {
        RebuildKeepsPairs(started[list[i] := started[list[i]].(lvstoreStatus := Ready)], scanned, list, i + 1, limit);
      }
    }
  }

  lemma RebuiltKeepsPairs(created: seq<NodeId>, nodes: Table, s: NodeId, o: Options)
    requires Stored(created, nodes.Keys)
    ensures SamePairs(nodes, Rebuilt(created, nodes, s, o).0)
  {
    ScanIsStored(created, nodes, s, |created|);
    RebuildKeepsPairs(nodes, nodes, PrimaryScan(created, nodes, s, |created|), 0, o.rebuilt(s));
  }

  lemma SamePairsTrans(a: Table, b: Table, c: Table)
    requires SamePairs(a, b) && SamePairs(b, c)
    ensures SamePairs(a, c)
    ensures SameStatuses(a, b) && SameStatuses(b, c) ==> SameStatuses(a, c)
  {
  }

  lemma {:induction false} PartnerKeepsPairs(created: seq<NodeId>, nodes: Table, id: NodeId, own: Node, o: Options)
    requires id in nodes && own.secondary in nodes && Stored(created, nodes.Keys) && SamePair(own, nodes[id])
    ensures SamePairs(nodes, WithPartner(created, nodes, id, own, o).0)
  {
    hide Rebuilt, SamePairs, SamePair;
    var s := own.secondary;
    var sec := nodes[s];
    var held := sec.status.Unreachable? && o.lvols(id);
    var t1 := if held then nodes[id := nodes[id].(status := Suspended)] else nodes;
    var t2 := if sec.status.Online? then t1[s := sec.(lvstoreStatus := InCreation)] else t1;
    var t3 := if o.hublvol(id) then t2[id := own] else t2;
    var t4 := if sec.status.Online? then t3[s := t3[s].(lvstoreStatus := Ready)] else t3;
    PartnerWritesKeepPairs(nodes, id, own, held, sec.status.Online?, o.hublvol(id));
    if own.primary != NONE && own.primary in t4 {
      RebuiltKeepsPairs(created, t4, own.primary, o);
      SamePairsTrans(nodes, t4, Rebuilt(created, t4, own.primary, o).0);
    }
  }

  lemma {:induction false} PartnerWritesKeepPairs(nodes: Table, id: NodeId, own: Node, held: bool, online: bool, hublvol: bool)
    requires id in nodes && own.secondary in nodes && SamePair(own, nodes[id])
    ensures var s := own.secondary; var sec := nodes[s];
      var t1 := if held then nodes[id := nodes[id].(status := Suspended)] else nodes;
      var t2 := if online then t1[s := sec.(lvstoreStatus := InCreation)] else t1;
      var t3 := if hublvol then t2[id := own] else t2;
      var t4 := if online then t3[s := t3[s].(lvstoreStatus := Ready)] else t3;
      SamePairs(nodes, t2[id := t2[id].(status := Offline)]) && SamePairs(nodes, t3) && SamePairs(nodes, t4)
  {
    hide SamePairs;
    var s := own.secondary;
    var sec := nodes[s];
    SamePairsItself(nodes);
    WriteKeepsPairs(nodes, nodes, id, nodes[id].(status := Suspended));
    var t1 := if held then nodes[id := nodes[id].(status := Suspended)] else nodes;
    WriteKeepsPairs(nodes, t1, s, sec.(lvstoreStatus := InCreation));
    var t2 := if online then t1[s := sec.(lvstoreStatus := InCreation)] else t1;
    WriteKeepsPairs(nodes, t2, id, t2[id].(status := Offline));
    WriteKeepsPairs(nodes, t2, id, own);
    var t3 := if hublvol then t2[id := own] else t2;
    WriteKeepsPairs(nodes, t3, s, t3[s].(lvstoreStatus := Ready));
  }

  lemma SamePairsItself(a: Table)
    ensures SamePairs(a, a) && SameStatuses(a, a)
  {
  }

  /** A write of a record with the pointers it has in either table. */
  lemma WriteKeepsPairs(a: Table, b: Table, id: NodeId, n: Node)
    requires SamePairs(a, b) && id in b
    ensures id in a && (SamePair(n, a[id]) || SamePair(n, b[id]) ==> SamePairs(a, b[id := n]))
  {
  }

  /** Recreating an lvstore through a copy with current pointers changes no pair, however far it
      gets. */
  lemma RecreationKeepsPairs(created: seq<NodeId>, nodes: Table, id: NodeId, copy: Node, o: Options)
    requires id in nodes && Stored(created, nodes.Keys) && SamePair(copy, nodes[id])
    ensures SamePairs(nodes, Recreated(created, nodes, id, copy, o).0)
  {
    hide WithPartner;
    var t0 := nodes[id := copy.(lvstoreStatus := InCreation)];
    var own := t0[id].(journals := o.journals(id));
    var t1 := t0[id := own];
    assert SamePairs(nodes, t0) && SamePairs(nodes, t1);
    if own.secondary in t1 {
      PartnerKeepsPairs(created, t1, id, own, o);
      SamePairsTrans(nodes, t1, WithPartner(created, t1, id, own, o).0);
    }
  }

  /** A restart held back by an unreachable secondary notes that the node is suspended. The note lasts
      exactly if no new hublvol is stored after it: that goes through the copy the call has. */
  lemma {:induction false} SuspensionIsNotedIff(created: seq<NodeId>, nodes: Table, id: NodeId, copy: Node, o: Options)
    requires id in nodes && Stored(created, nodes.Keys) && copy.secondary in nodes && copy.secondary !in {id, NONE}
    requires nodes[copy.secondary].status.Unreachable? && o.lvols(id) && o.recovery(id).Recovers?
    ensures var (after, r) := Recreated(created, nodes, id, copy, o);
      r == NotBuilt && (after[id].status == Suspended <==> !o.hublvol(id) || copy.status == Suspended)
  {
    hide Rebuilt;
  }
}
