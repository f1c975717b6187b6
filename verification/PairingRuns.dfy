/** Whole runs of administrative commands, and what every run keeps. */
module PairingRuns {
  import opened Records
  import opened Pairing
  import opened LvstoreRecords
  import opened ClusterOps
  import opened PairingInvariant
  import opened ExpansionInvariant

  /** One administrative command, or a change of a node's status by a monitor. */
  datatype Command =
    | Join(id: NodeId, host: string, dedicated: bool)
    | NoteStatus(id: NodeId, status: NodeStatus)
    | Activate(o: Options)
    | Expand(o: Options)

  function Do(w: World, c: Command): (r: World)
    requires Stored(w.created, w.nodes.Keys)
    ensures Stored(r.created, r.nodes.Keys)
  {
    match c
    case Join(id, host, dedicated) =>
      if id == NONE || id in w.nodes then w
      else World(w.created + [id], w.nodes[id := Node(host, BeingCreated, dedicated, NONE, NONE, false, Unset, [])], w.status)
    case NoteStatus(id, status) =>
      if id in w.nodes then w.(nodes := w.nodes[id := w.nodes[id].(status := status)]) else w
    case Activate(o) => Activation(w, o).0
    case Expand(o) => Expansion(w, o).0
  }

  function Run(w: World, cs: seq<Command>): (r: World)
    requires Stored(w.created, w.nodes.Keys)
    ensures Stored(r.created, r.nodes.Keys)
    decreases |cs|
  {
    if cs == [] then w else Run(Do(w, cs[0]), cs[1..])
  }

  /** An expansion that is not refused overtakes nobody. */
  predicate Clear(w: World, o: Options)
    requires Stored(w.created, w.nodes.Keys)
  {
    Expandable(w.status) ==> NoneOvertaken(w.created, w.nodes, {}, 0, o)
  }

  /** Every expansion of the run is clear. */
  ghost predicate ClearRun(w: World, cs: seq<Command>)
    requires Stored(w.created, w.nodes.Keys)
    decreases |cs|
  {
    cs == [] || ((cs[0].Expand? ==> Clear(w, cs[0].o)) && ClearRun(Do(w, cs[0]), cs[1..]))
  }

  /** No activation or expansion meets a cluster of exactly two nodes. */
  ghost predicate NeverTwo(w: World, cs: seq<Command>)
    requires Stored(w.created, w.nodes.Keys)
    decreases |cs|
  {
    cs == [] || ((cs[0].Activate? || cs[0].Expand? ==> |w.created| != 2) && NeverTwo(Do(w, cs[0]), cs[1..]))
  }

  lemma {:induction false} ExpansionKeeps(w: World, o: Options)
    requires Invariant(w)
    ensures Stored(w.created, w.nodes.Keys)
    ensures Invariant(Expansion(w, o).0) <==> Clear(w, o)
    ensures |w.created| != 2 && Apart(w.nodes) ==> Apart(Expansion(w, o).0.nodes)
  {
    assert Stored(w.created, w.nodes.Keys) && AgreeFrom(w.created, w.nodes, w.nodes, 0);
    hide LoopFrom, Inverse, Apart, Keyed, NoneOvertaken, AgreeFrom, Stored;
    if Expandable(w.status) {
      ExpansionKeepsIff(w, o);
      if |w.created| != 2 && Apart(w.nodes) {
        ExpandKeepsApart(w.created, w.nodes, w.nodes, 0, o);
      }
    }
  }

  /** One command keeps the invariant, except exactly an expansion that overtakes somebody. */
  lemma {:induction false} DoKeepsIff(w: World, c: Command)
    requires Invariant(w)
    ensures Stored(w.created, w.nodes.Keys)
    ensures Invariant(Do(w, c)) <==> (c.Expand? ==> Clear(w, c.o))
    ensures Apart(w.nodes) && (c.Activate? || c.Expand? ==> |w.created| != 2) ==> Apart(Do(w, c).nodes)
  {
    assert Stored(w.created, w.nodes.Keys);
    match c
    case Join(id, host, dedicated) => JoinKeeps(w, id, host, dedicated);
    case NoteStatus(id, status) =>
      hide Inverse, Apart;
      PairsDecide(w.nodes, Do(w, c).nodes);
    case Activate(o) =>
      hide Inverse, Apart, Keyed, Activation, Stored;
      ActivationKeeps(w, o);
    case Expand(o) =>
      hide Inverse, Apart, Keyed, Expansion, Stored, Clear;
      ExpansionKeeps(w, o);
  }

  lemma JoinKeeps(w: World, id: NodeId, host: string, dedicated: bool)
    requires Invariant(w)
    ensures Invariant(Do(w, Join(id, host, dedicated)))
    ensures Apart(w.nodes) ==> Apart(Do(w, Join(id, host, dedicated)).nodes)
  {
    var after := Do(w, Join(id, host, dedicated));
    forall n | n in after.nodes ensures PointsRight(after.nodes, n) && ServesRight(after.nodes, n) {
      if n in w.nodes {
        assert PointsRight(w.nodes, n) && ServesRight(w.nodes, n);
      }
    }
    if Apart(w.nodes) {
      forall p | p in after.nodes && after.nodes[p].secondary in after.nodes
        ensures after.nodes[p].host != after.nodes[after.nodes[p].secondary].host
      {
        if p in w.nodes {
          assert PointsRight(w.nodes, p);
        }
      }
    }
  }

  /** Every run, successful or failed, keeps the pointers inverse if its expansions are clear; pairs
      stay on different hosts unless a command met exactly two nodes. */
  lemma {:induction false} RunsKeepPairing(w: World, cs: seq<Command>)
    requires Invariant(w) && Stored(w.created, w.nodes.Keys) && ClearRun(w, cs)
    ensures Invariant(Run(w, cs))
    ensures Apart(w.nodes) && NeverTwo(w, cs) ==> Apart(Run(w, cs).nodes)
    decreases |cs|
  {
    hide Clear, Do, Apart, Inverse, Keyed;
    if cs != [] {
      DoKeepsIff(w, cs[0]);
      RunsKeepPairing(Do(w, cs[0]), cs[1..]);
    }
  }

  /** And a run whose last command is an expansion that is not clear has lost a pointer. */
  lemma {:induction false} UnclearLoses(w: World, o: Options)
    requires Invariant(w) && Stored(w.created, w.nodes.Keys) && !Clear(w, o)
    ensures !Inverse(Do(w, Expand(o)).nodes)
  {
    hide Clear, Inverse, Keyed, Expansion;
    DoKeepsIff(w, Expand(o));
    ExpansionIsValid(w, o);
  }

  lemma ExpansionIsValid(w: World, o: Options)
    requires Stored(w.created, w.nodes.Keys) && w.Valid()
    ensures Expansion(w, o).0.Valid()
  {
    hide LoopFrom;
  }

  // ---------------------------------------------------------------- a simple sufficient condition

  /** No node that serves nobody has a secondary but no lvstore. */
  ghost predicate Settled(nodes: Table) {
    forall id :: id in nodes && nodes[id].status.Online? && !nodes[id].lvstore && nodes[id].secondary != NONE
      ==> nodes[id].dedicated || nodes[id].primary != NONE
  }

  /** Only who serves nobody is ever chosen. */
  lemma PickIsIdle(created: seq<NodeId>, snap: Table, taken: set<NodeId>, i: nat)
    requires Keyed(created, snap.Keys) && Stored(created, snap.Keys) && Inverse(snap) && i < |created|
    requires snap[created[i]].secondary == NONE && Pick(created, snap, taken, i).Some?
    ensures var s := Pick(created, snap, taken, i).value; s in snap && (snap[s].dedicated || snap[s].primary == NONE)
  {
    hide Chosen, Marked, Inverse, Keyed;
    ChosenMeans(created, Marked(snap, taken), i);
    var s := Pick(created, snap, taken, i).value;
    if |created| == 2 {
      OtherIsIdle(created, snap, i, s);
    } else {
      MarksHideNobody(snap, taken, s);
    }
  }

  lemma MarksHideNobody(snap: Table, taken: set<NodeId>, s: NodeId)
    requires s in snap
    ensures Marked(snap, taken)[s].dedicated == snap[s].dedicated
    ensures Free(Marked(snap, taken)[s]) ==> snap[s].primary == NONE
  {
  }

  /** With two nodes, whoever the other one served would have it as secondary. */
  lemma OtherIsIdle(created: seq<NodeId>, snap: Table, i: nat, s: NodeId)
    requires Keyed(created, snap.Keys) && Inverse(snap) && |created| == 2 && i < 2 && s in snap && s != created[i]
    requires snap[created[i]].secondary == NONE
    ensures snap[s].dedicated || snap[s].primary == NONE
  {
    assert ServesRight(snap, s) && PointsRight(snap, s);
  }

  lemma {:induction false} SettledIsClear(created: seq<NodeId>, snap: Table, taken: set<NodeId>, i: nat, o: Options)
    requires Keyed(created, snap.Keys) && Stored(created, snap.Keys) && Inverse(snap) && Settled(snap) && i <= |created|
    requires forall id :: id in taken ==> id in snap && (snap[id].dedicated || snap[id].primary == NONE)
    requires o.ha || taken == {}
    ensures NoneOvertaken(created, snap, taken, i, o)
    decreases |created| - i
  {
    hide Keyed, Inverse, Pick, Continues;
    if i < |created| {
      var id := created[i];
      if o.ha && snap[id].secondary == NONE && Pick(created, snap, taken, i).Some? {
        PickIsIdle(created, snap, taken, i);
        SettledIsClear(created, snap, taken + {Pick(created, snap, taken, i).value}, i + 1, o);
      }
      SettledIsClear(created, snap, taken, i + 1, o);
    }
  }
}
