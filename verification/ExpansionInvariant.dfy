/**
 When an expansion keeps the pointers inverse. A node that needs no pairing is written through a copy
 read before the loop; that loses its back pointer if an earlier round has chosen it meanwhile, and
 nothing else does any harm.
 */
module ExpansionInvariant {
  import opened Records
  import opened Pairing
  import opened LvstoreRecords
  import opened ClusterOps
  import opened PairingInvariant

  // ---------------------------------------------------------------- the condition

  const TAKEN: NodeId := "taken"

  /** The records before the loop, with the nodes chosen so far marked as serving somebody. */
  function Marked(snap: Table, taken: set<NodeId>): (r: Table)
    ensures r.Keys == snap.Keys
  {
    map id | id in snap :: if id in taken then snap[id].(primary := TAKEN) else snap[id]
  }

  /** Whom the round at position i chooses, told from the records before the loop. */
  function Pick(created: seq<NodeId>, snap: Table, taken: set<NodeId>, i: nat): Option<NodeId>
    requires i < |created| && Stored(created, snap.Keys)
  {
    Chosen(created, Marked(snap, taken), i)
  }

  predicate Continues(snap: Table, copy: Node, c: Creation) { ResultOf(CreationOf(snap, copy, c)).Built? }

  /** From position i on, `taken` being chosen already, no round writes an old copy of a node that an
      earlier one has chosen; a dedicated node does not count. It is told from the records before the
      loop, the creation order, and how creating each lvstore goes. */
  predicate NoneOvertaken(created: seq<NodeId>, snap: Table, taken: set<NodeId>, i: nat, o: Options)
    requires i <= |created| && Stored(created, snap.Keys)
    decreases |created| - i
  {
    if i == |created| then true
    else
      var id := created[i];
      var n := snap[id];
      if !n.status.Online? || n.lvstore then NoneOvertaken(created, snap, taken, i + 1, o)
      else if o.ha && n.secondary == NONE then
        match Pick(created, snap, taken, i)
        case None => true
        case Some(s) =>
          Continues(snap, n.(secondary := s), o.creation(id)) ==> NoneOvertaken(created, snap, taken + {s}, i + 1, o)
      else
        && (Writes(id, o) && id in taken ==> n.dedicated)
        && (Continues(snap, n, o.creation(id)) ==> NoneOvertaken(created, snap, taken, i + 1, o))
  }

  // ---------------------------------------------------------------- one write of an old copy

  /** Writing back a copy whose host, kind and secondary are current keeps the pointers inverse
      exactly if its back pointer is current too, or the node is dedicated. */
  lemma OldCopyKeepsIff(nodes: Table, id: NodeId, copy: Node)
    requires Inverse(nodes) && id in nodes && NONE !in nodes
    requires copy.host == nodes[id].host && copy.dedicated == nodes[id].dedicated && copy.secondary == nodes[id].secondary
    ensures Inverse(nodes[id := copy]) <==> copy.dedicated || copy.primary == nodes[id].primary
  {
    var after := nodes[id := copy];
    if copy.dedicated || copy.primary == nodes[id].primary {
      forall n | n in after ensures PointsRight(after, n) && ServesRight(after, n) {
        assert PointsRight(nodes, n) && ServesRight(nodes, n);
      }
    } else {
      assert PointsRight(nodes, id) && ServesRight(nodes, id);
      var x, y := nodes[id].primary, copy.primary;
      if x != NONE {
        assert !PointsRight(after, x);
      } else {
        if y in nodes { assert PointsRight(nodes, y); }
        assert !ServesRight(after, id);
      }
    }
  }

  // ---------------------------------------------------------------- choosing from marks

  /** The scan looks at hosts, statuses, kinds and whether a node is free. */
  ghost predicate LookAlike(a: Table, b: Table) {
    a.Keys == b.Keys && forall id :: id in a ==> AlikeAt(a, b, id)
  }

  ghost predicate AlikeAt(a: Table, b: Table, id: NodeId)
    requires id in a && id in b
  {
    a[id].host == b[id].host && a[id].status == b[id].status && a[id].dedicated == b[id].dedicated && Free(a[id]) == Free(b[id])
  }

  lemma {:induction false} FirstFreeAlike(created: seq<NodeId>, a: Table, b: Table, host: string, i: nat)
    requires i <= |created| && Stored(created, a.Keys) && LookAlike(a, b)
    ensures FirstFree(created, a, host, i) == FirstFree(created, b, host, i)
    decreases |created| - i
  {
    if i < |created| {
      assert AlikeAt(a, b, created[i]);
      FirstFreeAlike(created, a, b, host, i + 1);
    }
  }

  lemma {:induction false} EligibleAlike(created: seq<NodeId>, a: Table, b: Table, host: string, k: nat)
    requires k <= |created| && Stored(created, a.Keys) && LookAlike(a, b)
    ensures Eligible(created, a, host, k) == Eligible(created, b, host, k)
  {
    if k > 0 {
      assert AlikeAt(a, b, created[k - 1]);
      EligibleAlike(created, a, b, host, k - 1);
    }
  }

  lemma ChosenAlike(created: seq<NodeId>, a: Table, b: Table, p: nat)
    requires p < |created| && Stored(created, a.Keys) && LookAlike(a, b)
    ensures Chosen(created, a, p) == Chosen(created, b, p)
  {
    hide FirstFree, Eligible;
    assert AlikeAt(a, b, created[p]);
    FirstFreeAlike(created, a, b, a[created[p]].host, p + 1);
    EligibleAlike(created, a, b, a[created[p]].host, |created|);
  }

  // ---------------------------------------------------------------- what the old copies still tell

  /** How the record of a node stands to the copy read before the loop, `taken` having been chosen by
      the first i rounds. */
  ghost predicate TracksAt(created: seq<NodeId>, copy: Node, now: Node, isTaken: bool, i: nat)
    requires i <= |created|
  {
    && now.host == copy.host && now.dedicated == copy.dedicated && now.status == copy.status
    && (!copy.dedicated ==>
          if isTaken then copy.primary == NONE && now.primary != NONE && now.primary in created[..i]
          else now.primary == copy.primary)
  }

  ghost predicate Tracks(created: seq<NodeId>, snap: Table, nodes: Table, taken: set<NodeId>, i: nat)
    requires i <= |created|
  {
    && nodes.Keys == snap.Keys
    && (forall id :: id in nodes ==> TracksAt(created, snap[id], nodes[id], id in taken, i))
    && (forall k :: i <= k < |created| && created[k] in nodes ==> nodes[created[k]].secondary == snap[created[k]].secondary)
  }

  lemma PickIsChosen(created: seq<NodeId>, snap: Table, nodes: Table, taken: set<NodeId>, i: nat)
    requires i < |created| && Stored(created, nodes.Keys) && Tracks(created, snap, nodes, taken, i)
    ensures Pick(created, snap, taken, i) == Chosen(created, nodes, i)
  {
    hide Chosen;
    forall id | id in nodes ensures AlikeAt(Marked(snap, taken), nodes, id) {
      assert TracksAt(created, snap[id], nodes[id], id in taken, i);
    }
    ChosenAlike(created, Marked(snap, taken), nodes, i);
  }

  // ---------------------------------------------------------------- a lost back pointer

  /** id is x's secondary and does not point back at it. */
  ghost predicate Broken(nodes: Table, x: NodeId, id: NodeId) {
    x in nodes && id in nodes && id != NONE && nodes[x].secondary == id && !nodes[id].dedicated && nodes[id].primary != x
  }

  lemma BrokenIsNotInverse(nodes: Table, x: NodeId, id: NodeId)
    requires Broken(nodes, x, id)
    ensures !Inverse(nodes)
  {
    assert !PointsRight(nodes, x);
  }

  /** Later rounds write other records, and a back pointer only to their own node. */
  lemma {:induction false} BrokenStep(created: seq<NodeId>, snap: Table, nodes: Table, k: nat, o: Options, x: NodeId, id: NodeId)
    requires k < |created| && Stored(created, nodes.Keys) && nodes.Keys == snap.Keys
    requires Broken(nodes, x, id) && created[k] != x && created[k] != id
    ensures Broken(ExpandStep(created, snap, nodes, k, o).0, x, id)
  {
    hide Chosen, ExpandStep;
    assert Broken(PointerStep(created, snap, nodes, k, o), x, id);
    ExpandStepIs(created, snap, nodes, k, o);
  }

  lemma {:induction false} BrokenStays(created: seq<NodeId>, snap: Table, nodes: Table, k: nat, o: Options, x: NodeId, id: NodeId)
    requires k <= |created| && Keyed(created, nodes.Keys) && Stored(created, nodes.Keys) && nodes.Keys == snap.Keys
    requires Broken(nodes, x, id) && x in created[..k] && id in created[..k]
    ensures Broken(LoopFrom(ExpandLoop, created, snap, nodes, k, o).0, x, id)
    decreases |created| - k
  {
    hide Keyed, Broken, ExpandStep;
    if k < |created| {
      BehindDiffers(created, nodes.Keys, k, x);
      BehindDiffers(created, nodes.Keys, k, id);
      BrokenStep(created, snap, nodes, k, o, x, id);
      var step := ExpandStep(created, snap, nodes, k, o);
      if step.1.None? {
        BrokenStays(created, snap, step.0, k + 1, o, x, id);
      }
    }
  }

  lemma BehindDiffers(created: seq<NodeId>, keys: set<NodeId>, k: nat, x: NodeId)
    requires k < |created| && Keyed(created, keys) && x in created[..k]
    ensures created[k] != x && x in created[..k + 1]
  {
    assert created[..k + 1] == created[..k] + [created[k]];
  }

  // ---------------------------------------------------------------- one round

  /** A round's outcome is told from the records before the loop. */
  lemma ResultIsTold(snap: Table, nodes: Table, a: Node, b: Node, id: NodeId, o: Options)
    requires nodes.Keys == snap.Keys && a.secondary == b.secondary
    ensures CreateResult(nodes, id, b, o).Built? <==> Continues(snap, a, o.creation(id))
  {
  }

  lemma TracksOn(created: seq<NodeId>, snap: Table, nodes: Table, taken: set<NodeId>, i: nat, simple: Table, now: set<NodeId>,
                 after: Table)
    requires Keyed(created, nodes.Keys) && i < |created| && Tracks(created, snap, nodes, taken, i) && simple.Keys == nodes.Keys
    requires forall id :: id in nodes && id != created[i] ==> simple[id].secondary == nodes[id].secondary
    requires forall id :: id in nodes ==> TracksAt(created, snap[id], simple[id], id in now, i + 1)
    requires SamePairs(simple, after) && SameStatuses(simple, after)
    ensures Tracks(created, snap, after, now, i + 1)
  {
    hide Keyed;
    forall k | i + 1 <= k < |created| && created[k] in after
      ensures after[created[k]].secondary == snap[created[k]].secondary
    {
      KeysDiffer(created, nodes.Keys, i, k);
    }
    forall id | id in after ensures TracksAt(created, snap[id], after[id], id in now, i + 1) {
      assert TracksAt(created, snap[id], simple[id], id in now, i + 1);
    }
  }

  lemma TracksLonger(created: seq<NodeId>, copy: Node, now: Node, isTaken: bool, i: nat)
    requires i < |created| && TracksAt(created, copy, now, isTaken, i)
    ensures TracksAt(created, copy, now, isTaken, i + 1)
  {
    assert created[..i + 1] == created[..i] + [created[i]];
  }

  /** A round that pairs. */
  lemma {:induction false} PairRound(created: seq<NodeId>, snap: Table, nodes: Table, taken: set<NodeId>, i: nat, s: NodeId, after: Table)
    requires Keyed(created, nodes.Keys) && Inverse(nodes) && i < |created| && Tracks(created, snap, nodes, taken, i)
    requires nodes[created[i]].secondary == NONE && Chosen(created, nodes, i) == Some(s)
    requires s in nodes
    requires SamePairs(Pair(nodes, created[i], s), after) && SameStatuses(Pair(nodes, created[i], s), after)
    ensures Inverse(after) && Tracks(created, snap, after, taken + {s}, i + 1)
  {
    hide Inverse, Chosen, Keyed, Tracks, SamePairs, SameStatuses, Pair;
    var id := created[i];
    NoneIsNoKey(created, nodes.Keys);
    var simple := Pair(nodes, id, s);
    ChosenIsIdle(created, nodes, i);
    PairKeepsInverse(nodes, id, s);
    PairsDecide(simple, after);
    PairTracks(created, snap, nodes, taken, i, s);
    TracksOn(created, snap, nodes, taken, i, simple, taken + {s}, after);
  }

  lemma NoneIsNoKey(created: seq<NodeId>, keys: set<NodeId>)
    requires Keyed(created, keys)
    ensures NONE !in keys && Stored(created, keys)
  {
  }

  lemma PairTracks(created: seq<NodeId>, snap: Table, nodes: Table, taken: set<NodeId>, i: nat, s: NodeId)
    requires i < |created| && created[i] in nodes && created[i] != NONE && Tracks(created, snap, nodes, taken, i) && s in nodes
    requires s != created[i] && (nodes[s].dedicated || nodes[s].primary == NONE)
    ensures var simple := Pair(nodes, created[i], s);
      && (forall id :: id in nodes && id != created[i] ==> simple[id].secondary == nodes[id].secondary)
      && (forall id :: id in nodes ==> TracksAt(created, snap[id], simple[id], id in taken + {s}, i + 1))
  {
    var simple := Pair(nodes, created[i], s);
    assert created[..i + 1] == created[..i] + [created[i]];
    forall n | n in nodes ensures TracksAt(created, snap[n], simple[n], n in taken + {s}, i + 1) {
      assert TracksAt(created, snap[n], nodes[n], n in taken, i);
    }
  }

  /** A round that writes a copy nobody has overtaken. */
  lemma {:induction false} CopyRound(created: seq<NodeId>, snap: Table, nodes: Table, taken: set<NodeId>, i: nat, after: Table)
    requires Keyed(created, nodes.Keys) && Inverse(nodes) && i < |created| && Tracks(created, snap, nodes, taken, i)
    requires created[i] in taken ==> snap[created[i]].dedicated
    requires var simple := nodes[created[i] := snap[created[i]]]; SamePairs(simple, after) && SameStatuses(simple, after)
    ensures Inverse(after) && Tracks(created, snap, after, taken, i + 1)
  {
    var id := created[i];
    var simple := nodes[id := snap[id]];
    assert TracksAt(created, snap[id], nodes[id], id in taken, i);
    OldCopyKeepsIff(nodes, id, snap[id]);
    PairsDecide(simple, after);
    hide Inverse;
    forall n | n in nodes ensures TracksAt(created, snap[n], simple[n], n in taken, i + 1) {
      TracksLonger(created, snap[n], nodes[n], n in taken, i);
    }
    TracksOn(created, snap, nodes, taken, i, simple, taken, after);
  }

  /** A round that writes a copy an earlier one has overtaken. */
  lemma OvertakenRound(created: seq<NodeId>, snap: Table, nodes: Table, taken: set<NodeId>, i: nat, after: Table)
    returns (x: NodeId)
    requires Keyed(created, nodes.Keys) && Inverse(nodes) && i < |created| && Tracks(created, snap, nodes, taken, i)
    requires created[i] in taken && !snap[created[i]].dedicated
    requires SamePairs(nodes[created[i] := snap[created[i]]], after)
    ensures x in created[..i] && Broken(after, x, created[i])
  {
    var id := created[i];
    x := nodes[id].primary;
    assert TracksAt(created, snap[id], nodes[id], true, i);
    assert ServesRight(nodes, id) && PointsRight(nodes, id);
  }

  /** A round that does nothing. */
  lemma IdleRound(created: seq<NodeId>, snap: Table, nodes: Table, taken: set<NodeId>, i: nat)
    requires Keyed(created, nodes.Keys) && i < |created| && Tracks(created, snap, nodes, taken, i)
    ensures Tracks(created, snap, nodes, taken, i + 1)
  {
    forall n | n in nodes ensures TracksAt(created, snap[n], nodes[n], n in taken, i + 1) {
      TracksLonger(created, snap[n], nodes[n], n in taken, i);
    }
  }

  // ---------------------------------------------------------------- the whole expansion

  lemma {:induction false} PairCase(created: seq<NodeId>, snap: Table, nodes: Table, taken: set<NodeId>, i: nat, o: Options)
    requires Keyed(created, nodes.Keys) && Stored(created, nodes.Keys) && Stored(created, snap.Keys)
    requires Inverse(nodes) && i < |created| && Tracks(created, snap, nodes, taken, i) && nodes.Keys == snap.Keys
    requires var n := snap[created[i]]; n.status.Online? && !n.lvstore && o.ha && n.secondary == NONE
    ensures Pick(created, snap, taken, i) == Chosen(created, nodes, i)
    ensures var (after, ended) := ExpandStep(created, snap, nodes, i, o);
      match Chosen(created, nodes, i)
      case None => after == nodes && ended.Some?
      case Some(s) =>
        && Inverse(after) && Tracks(created, snap, after, taken + {s}, i + 1)
        && (ended.None? <==> Continues(snap, snap[created[i]].(secondary := s), o.creation(created[i])))
  {
    hide Chosen, Pick, Inverse, Tracks, CreateAndNote, Keyed, CreateResult, Continues, Pair, SamePairs, SameStatuses;
    var id := created[i];
    SecondaryIsCurrent(created, snap, nodes, taken, i);
    PickIsChosen(created, snap, nodes, taken, i);
    if Chosen(created, nodes, i).Some? {
      var s := Chosen(created, nodes, i).value;
      ChosenIsIdle(created, nodes, i);
      PairingStep(created, snap, nodes, i, s, o);
      PairRound(created, snap, nodes, taken, i, s, ExpandStep(created, snap, nodes, i, o).0);
    }
  }

  lemma SecondaryIsCurrent(created: seq<NodeId>, snap: Table, nodes: Table, taken: set<NodeId>, i: nat)
    requires i < |created| && Stored(created, nodes.Keys) && Tracks(created, snap, nodes, taken, i)
    ensures created[i] in snap && nodes[created[i]].secondary == snap[created[i]].secondary
  {
  }

  /** What a round that pairs writes, and whether the loop goes on. */
  lemma {:induction false} PairingStep(created: seq<NodeId>, snap: Table, nodes: Table, i: nat, s: NodeId, o: Options)
    requires i < |created| && Stored(created, nodes.Keys) && nodes.Keys == snap.Keys && s in nodes && s != created[i]
    requires var n := snap[created[i]]; n.status.Online? && !n.lvstore && o.ha && n.secondary == NONE
    requires Chosen(created, nodes, i) == Some(s)
    ensures var (after, ended) := ExpandStep(created, snap, nodes, i, o); var simple := Pair(nodes, created[i], s);
      && SamePairs(simple, after) && SameStatuses(simple, after)
      && (ended.None? <==> Continues(snap, snap[created[i]].(secondary := s), o.creation(created[i])))
  {
    hide Chosen, CreateAndNote, CreateResult, Continues, Pair, SamePairs, SameStatuses;
    var id := created[i];
    ExpandStepIs(created, snap, nodes, i, o);
    PairGives(nodes, id, s);
    var paired := Pair(nodes, id, s);
    ResultIsTold(snap, paired, snap[id].(secondary := s), paired[id], id, o);
  }

  lemma {:induction false} CopyCase(created: seq<NodeId>, snap: Table, nodes: Table, taken: set<NodeId>, i: nat, o: Options)
    requires Keyed(created, nodes.Keys) && Stored(created, nodes.Keys) && Stored(created, snap.Keys)
    requires Inverse(nodes) && i < |created| && Tracks(created, snap, nodes, taken, i) && nodes.Keys == snap.Keys
    requires var n := snap[created[i]]; n.status.Online? && !n.lvstore && !(o.ha && n.secondary == NONE)
    ensures var (after, ended) := ExpandStep(created, snap, nodes, i, o); var id := created[i];
      if Writes(id, o) && id in taken && !snap[id].dedicated
      then !Inverse(LoopFrom(ExpandLoop, created, snap, nodes, i, o).0)
      else
        && Inverse(after) && (Writes(id, o) ==> Tracks(created, snap, after, taken, i + 1))
        && (ended.None? ==> Writes(id, o)) && (ended.None? <==> Continues(snap, snap[id], o.creation(id)))
  {
    hide Keyed, Inverse, Tracks, Chosen, Broken, CreateAndNote, CreateResult, Continues, Pair;
    var id := created[i];
    var (after, ended) := ExpandStep(created, snap, nodes, i, o);
    ExpandStepIs(created, snap, nodes, i, o);
    ResultIsTold(snap, nodes, snap[id], snap[id], id, o);
    if !Writes(id, o) {
      RaisedEnds(nodes, snap[id], id, o);
      PairsDecide(nodes, after);
    } else if id in taken && !snap[id].dedicated {
      var x := OvertakenRound(created, snap, nodes, taken, i, after);
      BehindDiffers(created, nodes.Keys, i, x);
      assert created[i] in created[..i + 1];
      if ended.None? { BrokenStays(created, snap, after, i + 1, o, x, id); }
      BrokenIsNotInverse(LoopFrom(ExpandLoop, created, snap, nodes, i, o).0, x, id);
    } else {
      CopyRound(created, snap, nodes, taken, i, after);
    }
  }

  lemma RaisedEnds(nodes: Table, copy: Node, id: NodeId, o: Options)
    requires !Writes(id, o)
    ensures CreateResult(nodes, id, copy, o).Raised?
  {
  }

  /** The expansion from position i on keeps the pointers inverse exactly if no round writes an old
      copy of a node that an earlier one has chosen. */
  lemma {:induction false} ExpandKeepsIff(created: seq<NodeId>, snap: Table, nodes: Table, taken: set<NodeId>, i: nat, o: Options)
    requires Keyed(created, nodes.Keys) && Stored(created, nodes.Keys) && Stored(created, snap.Keys)
    requires Inverse(nodes) && i <= |created| && Tracks(created, snap, nodes, taken, i)
    requires nodes.Keys == snap.Keys
    ensures Inverse(LoopFrom(ExpandLoop, created, snap, nodes, i, o).0) <==> NoneOvertaken(created, snap, taken, i, o)
    decreases |created| - i
  {
    hide Keyed, Inverse, Tracks, Chosen, Pick, Continues, ExpandStep;
    if i < |created| {
      var id := created[i];
      var (after, ended) := ExpandStep(created, snap, nodes, i, o);
      if !snap[id].status.Online? || snap[id].lvstore {
        SkippedRound(created, snap, nodes, i, o);
        IdleRound(created, snap, nodes, taken, i);
        ExpandKeepsIff(created, snap, nodes, taken, i + 1, o);
      } else if o.ha && snap[id].secondary == NONE {
        PairCase(created, snap, nodes, taken, i, o);
        if Chosen(created, nodes, i).Some? && ended.None? {
          ExpandKeepsIff(created, snap, after, taken + {Chosen(created, nodes, i).value}, i + 1, o);
        }
      } else {
        CopyCase(created, snap, nodes, taken, i, o);
        if !(Writes(id, o) && id in taken && !snap[id].dedicated) && ended.None? {
          ExpandKeepsIff(created, snap, after, taken, i + 1, o);
        }
      }
    }
  }

  lemma SkippedRound(created: seq<NodeId>, snap: Table, nodes: Table, i: nat, o: Options)
    requires i < |created| && Stored(created, nodes.Keys) && nodes.Keys == snap.Keys
    requires !snap[created[i]].status.Online? || snap[created[i]].lvstore
    ensures ExpandStep(created, snap, nodes, i, o) == (nodes, None)
  {
  }

  /** An expansion that is not refused keeps the pointers inverse if and only if nobody is overtaken:
      a condition on the records before it, the creation order, and how the creations go. */
  lemma {:induction false} ExpansionKeepsIff(w: World, o: Options)
    requires Invariant(w) && Expandable(w.status)
    ensures Invariant(Expansion(w, o).0) <==> NoneOvertaken(w.created, w.nodes, {}, 0, o)
  {
    assert Stored(w.created, w.nodes.Keys);
    assert Tracks(w.created, w.nodes, w.nodes, {}, 0);
    hide LoopFrom, Inverse, Keyed, Tracks, NoneOvertaken, Stored;
    ExpandKeepsIff(w.created, w.nodes, w.nodes, {}, 0, o);
  }

  // ---------------------------------------------------------------- hosts

  /** Pairs stay on different hosts either way: an old copy has the current secondary. */
  lemma {:induction false} ExpandKeepsApart(created: seq<NodeId>, snap: Table, nodes: Table, i: nat, o: Options)
    requires Keyed(created, nodes.Keys) && Stored(created, nodes.Keys) && i <= |created| && |created| != 2
    requires AgreeFrom(created, snap, nodes, i) && nodes.Keys == snap.Keys && Apart(nodes)
    ensures Apart(LoopFrom(ExpandLoop, created, snap, nodes, i, o).0)
    decreases |created| - i
  {
    hide Keyed, Apart, AgreeFrom, ExpandStep;
    if i < |created| {
      var step := ExpandStep(created, snap, nodes, i, o);
      ApartStep(created, snap, nodes, i, o);
      if step.1.None? {
        ExpandKeepsApart(created, snap, step.0, i + 1, o);
      }
    }
  }

  lemma {:induction false} ApartStep(created: seq<NodeId>, snap: Table, nodes: Table, i: nat, o: Options)
    requires Keyed(created, nodes.Keys) && Stored(created, nodes.Keys) && i < |created| && |created| != 2
    requires AgreeFrom(created, snap, nodes, i) && nodes.Keys == snap.Keys && Apart(nodes)
    ensures var after := ExpandStep(created, snap, nodes, i, o).0;
      Apart(after) && AgreeFrom(created, snap, after, i + 1)
  {
    var simple := PointerStep(created, snap, nodes, i, o);
    assert created[i] in nodes;
    ChosenMeans(created, nodes, i);
    PointerStepLeaves(created, snap, nodes, i, o);
    hide Chosen, ExpandStep, PointerStep, Keyed, Apart, Inverse;
    var after := ExpandStep(created, snap, nodes, i, o).0;
    ExpandStepIs(created, snap, nodes, i, o);
    PairsDecide(simple, after);
    AgreeOn(created, snap, nodes, i, simple, after);
  }

  lemma AgreeOn(created: seq<NodeId>, snap: Table, nodes: Table, i: nat, simple: Table, after: Table)
    requires Keyed(created, nodes.Keys) && i < |created| && AgreeFrom(created, snap, nodes, i) && SamePairs(simple, after)
    requires simple.Keys == nodes.Keys && forall id :: id in nodes ==>
      simple[id].host == nodes[id].host && simple[id].dedicated == nodes[id].dedicated
      && (id != created[i] ==> simple[id].secondary == nodes[id].secondary)
    ensures AgreeFrom(created, snap, after, i + 1)
  {
    hide Keyed;
    forall k | i + 1 <= k < |created| ensures created[k] != created[i] {
      KeysDiffer(created, nodes.Keys, i, k);
    }
  }

  lemma {:induction false} PointerStepLeaves(created: seq<NodeId>, snap: Table, nodes: Table, i: nat, o: Options)
    requires i < |created| && Stored(created, nodes.Keys) && nodes.Keys == snap.Keys
    requires var (a, b) := (snap[created[i]], nodes[created[i]]); a.host == b.host && a.dedicated == b.dedicated && a.secondary == b.secondary
    requires Chosen(created, nodes, i).Some? && Chosen(created, nodes, i).value in nodes ==>
      nodes[Chosen(created, nodes, i).value].host != nodes[created[i]].host
    ensures var after := PointerStep(created, snap, nodes, i, o);
      && (forall id :: id in nodes ==>
            after[id].host == nodes[id].host && after[id].dedicated == nodes[id].dedicated
            && (id != created[i] ==> after[id].secondary == nodes[id].secondary))
      && (Apart(nodes) ==> Apart(after))
  {
    hide Chosen;
  }
}
