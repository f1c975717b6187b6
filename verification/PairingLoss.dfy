/**
 A run from the empty cluster, every step of which succeeds, in which an expansion loses a back
 pointer.
 */
module PairingLoss {
  import opened Records
  import opened Pairing
  import opened LvstoreRecords
  import opened ClusterOps
  import opened PairingInvariant
  import opened ExpansionInvariant
  import opened PairingRuns

  /** A cluster without a node. */
  const EMPTY: World := World([], map[], Unready)

  /** Everything an activation or an expansion asks for succeeds. */
  ghost predicate AllGoesWell(o: Options) {
    && o.ha && o.enoughDevices
    && (forall id :: o.creation(id).Completes?) && (forall id :: o.rebuilt(id) >= 3)
  }

  /** A dedicated secondary x and two nodes a and b join; a comes online only after the activation. */
  function Prelude(): seq<Command> {
    [Join("x", "hx", true), Join("a", "ha", false), Join("b", "hb", false), NoteStatus("x", Online), NoteStatus("b", Online)]
  }

  function Joined(host: string, status: NodeStatus, dedicated: bool): Node {
    Node(host, status, dedicated, NONE, NONE, false, Unset, [])
  }

  /** The records before the activation. */
  function BeforeActivation(): World {
    World(["x", "a", "b"], map["x" := Joined("hx", Online, true), "a" := Joined("ha", BeingCreated, false), "b" := Joined("hb", Online, false)],
          Unready)
  }

  lemma {:induction false} PreludeRuns()
    ensures Run(EMPTY, Prelude()) == BeforeActivation()
  {
    var cs := Prelude();
    var w1 := Do(EMPTY, cs[0]);
    var w2 := Do(w1, cs[1]);
    var w3 := Do(w2, cs[2]);
    var w4 := Do(w3, cs[3]);
    var w5 := Do(w4, cs[4]);
    assert w5.nodes == BeforeActivation().nodes && w5.created == BeforeActivation().created;
    assert cs[1..][1..][1..][1..][1..] == [];
    assert cs[1..][0] == cs[1] && cs[1..][1..][0] == cs[2] && cs[1..][1..][1..][0] == cs[3] && cs[1..][1..][1..][1..][0] == cs[4];
  }

  /** The pairing loop gives b to a, and the dedicated x to b. */
  function PairedThree(): Table {
    map["x" := Joined("hx", Online, true).(primary := "b"),
        "a" := Joined("ha", BeingCreated, false).(secondary := "b"),
        "b" := Joined("hb", Online, false).(secondary := "x", primary := "a")]
  }

  lemma {:induction false} ThreePair()
    ensures PairFrom(BeforeActivation().created, BeforeActivation().nodes, 0) == (PairedThree(), Paired)
  {
    var (created, t0) := (BeforeActivation().created, BeforeActivation().nodes);
    assert PairStep(created, t0, 0) == (t0, None);
    assert FirstFree(created, t0, "ha", 2) == Some("b");
    assert Chosen(created, t0, 1) == Some("b");
    var t1 := Pair(t0, "a", "b");
    assert PairStep(created, t0, 1) == (t1, None);
    NobodyFree(created, t1);
    assert PairStep(created, t1, 2) == (Pair(t1, "b", "x"), None);
    assert Pair(t1, "b", "x") == PairedThree();
    hide PairStep;
    assert PairFrom(created, PairedThree(), 3) == (PairedThree(), Paired);
    assert PairFrom(created, t1, 2) == (PairedThree(), Paired);
    assert PairFrom(created, t0, 1) == (PairedThree(), Paired);
  }

  /** Behind b there is nobody, and before it only x will do. */
  lemma NobodyFree(created: seq<NodeId>, t1: Table)
    requires created == BeforeActivation().created && t1 == Pair(BeforeActivation().nodes, "a", "b")
    ensures Stored(created, t1.Keys) && Chosen(created, t1, 2) == Some("x")
  {
    assert FirstFree(created, t1, "hb", 3) == None;
    assert Eligible(created, t1, "hb", 1) == ["x"];
    assert Eligible(created, t1, "hb", 2) == ["x"];
    assert Eligible(created, t1, "hb", 3) == ["x"];
  }

  /** What the lvstore loops leave of the paired nodes: b has its lvstore, a and x have none. */
  ghost predicate HalfBuilt(t: Table) {
    && SamePairs(PairedThree(), t) && SameStatuses(PairedThree(), t)
    && !t["x"].lvstore && !t["a"].lvstore
  }

  lemma {:induction false} ThreeBuild(o: Options)
    requires AllGoesWell(o)
    ensures var r := Building(["x", "a", "b"], PairedThree(), o); HalfBuilt(r.0) && r.1 == Succeeded
  {
    hide LoopFrom, HalfBuilt, CreateAndNote, PairedThree;
    var created, t := ["x", "a", "b"], PairedThree();
    FirstLoop(created, t, o);
    OneIsBuilt(o);
    SecondLoop(created, CreateAndNote(t, "b", t["b"], o), o);
  }

  lemma {:induction false} OneIsBuilt(o: Options)
    ensures "b" in PairedThree() && HalfBuilt(CreateAndNote(PairedThree(), "b", PairedThree()["b"], o))
  {
    hide CreateAndNote;
    var t := PairedThree();
    CreationTouches(t, "b", t["b"], o, "x");
    CreationTouches(t, "b", t["b"], o, "a");
    CreationWritesCopy(t, "b", t["b"], o);
    assert t["b" := t["b"]] == t;
  }

  lemma {:induction false} FirstLoop(created: seq<NodeId>, t: Table, o: Options)
    requires created == ["x", "a", "b"] && t == PairedThree() && AllGoesWell(o)
    ensures Stored(created, t.Keys) && LoopFrom(BuildLoop, created, t, t, 0, o) == (CreateAndNote(t, "b", t["b"], o), Succeeded)
  {
    hide CreateAndNote, Recreated;
    assert BuildStep(created, t, t, "x", o) == (t, None);
    assert BuildStep(created, t, t, "a", o) == (t, None);
    var u := CreateAndNote(t, "b", t["b"], o);
    assert BuildStep(created, t, t, "b", o) == (u, None);
    hide BuildStep;
    assert LoopFrom(BuildLoop, created, t, u, 3, o) == (u, Succeeded);
    assert LoopFrom(BuildLoop, created, t, t, 2, o) == (u, Succeeded);
    assert LoopFrom(BuildLoop, created, t, t, 1, o) == (u, Succeeded);
  }

  lemma {:induction false} SecondLoop(created: seq<NodeId>, u: Table, o: Options)
    requires created == ["x", "a", "b"] && HalfBuilt(u) && AllGoesWell(o)
    ensures Stored(created, u.Keys)
    ensures var r := LoopFrom(SecondaryLoop, created, u, u, 0, o); HalfBuilt(r.0) && r.1 == Succeeded
  {
    hide Rebuilt, HalfBuilt, Noted, RebuildFrom;
    SecondRounds(created, u, o);
    var v := Noted(Rebuilt(created, u, "x", o).0, "x", Built);
    hide SecondaryStep;
    assert LoopFrom(SecondaryLoop, created, u, v, 3, o) == (v, Succeeded);
    assert LoopFrom(SecondaryLoop, created, u, v, 2, o) == (v, Succeeded);
    assert LoopFrom(SecondaryLoop, created, u, v, 1, o) == (v, Succeeded);
  }

  lemma {:induction false} SecondRounds(created: seq<NodeId>, u: Table, o: Options)
    requires created == ["x", "a", "b"] && HalfBuilt(u) && AllGoesWell(o)
    ensures Stored(created, u.Keys) && "x" in u
    ensures var v := Noted(Rebuilt(created, u, "x", o).0, "x", Built);
      && HalfBuilt(v)
      && SecondaryStep(created, u, u, "x", o) == (v, None)
      && SecondaryStep(created, u, v, "a", o) == (v, None) && SecondaryStep(created, u, v, "b", o) == (v, None)
  {
    hide Rebuilt, Noted, HalfBuilt, SamePairs, SameFlags;
    HalfBuiltMeans(u);
    RebuildsAll(created, u, o);
    RebuiltKeepsPairs(created, u, "x", o);
    HalfBuiltStays(u, Rebuilt(created, u, "x", o).0);
  }

  lemma HalfBuiltMeans(u: Table)
    requires HalfBuilt(u)
    ensures u.Keys == {"x", "a", "b"}
    ensures u["x"].status == Online && u["x"].dedicated && !u["a"].dedicated && !u["b"].dedicated
  {
  }

  lemma {:induction false} HalfBuiltStays(u: Table, t: Table)
    requires HalfBuilt(u) && SamePairs(u, t) && SameFlags(u, t)
    ensures "x" in t && HalfBuilt(Noted(t, "x", Built))
  {
    hide HalfBuilt, SamePairs, SameStatuses, SameFlags, Noted;
    HalfBuiltMeans(u);
    FlagsMean(u, t);
    var v := Noted(t, "x", Built);
    NotingIsNoWrite(t, "x", Built);
    NotingKeepsFlags(t);
    SamePairsTrans(u, t, v);
    FlagsAt(u, t, "x");
    FlagsAt(u, t, "a");
    FlagsAt(t, v, "x");
    FlagsAt(t, v, "a");
    HalfBuiltTransfers(u, v);
  }

  lemma FlagsAt(u: Table, t: Table, id: NodeId)
    requires SameFlags(u, t) && id in u
    ensures id in t && u[id].lvstore == t[id].lvstore
  {
  }

  lemma FlagsMean(u: Table, t: Table)
    requires SameFlags(u, t)
    ensures u.Keys == t.Keys && SameStatuses(u, t)
  {
  }

  lemma HalfBuiltTransfers(u: Table, v: Table)
    requires HalfBuilt(u) && SamePairs(u, v) && SameStatuses(u, v)
    requires "x" in v && "a" in v && "x" in u && "a" in u && v["x"].lvstore == u["x"].lvstore && v["a"].lvstore == u["a"].lvstore
    ensures HalfBuilt(v)
  {
    hide PairedThree, SamePairs, SameStatuses;
    SamePairsTrans(PairedThree(), u, v);
  }

  lemma NotingKeepsFlags(t: Table)
    requires "x" in t
    ensures SameFlags(t, Noted(t, "x", Built))
  {
  }

  lemma RebuildsAll(created: seq<NodeId>, u: Table, o: Options)
    requires |created| == 3 && Stored(created, u.Keys) && AllGoesWell(o)
    ensures var (t, ok) := Rebuilt(created, u, "x", o);
      ok && SameFlags(u, t)
  {
    ScanIsStored(created, u, "x", 3);
    ScanIsShort(created, u, "x", 3);
    RebuildMeans(u, u, PrimaryScan(created, u, "x", 3), 0, o.rebuilt("x"));
  }

  /** After the activation a comes online. */
  lemma {:induction false} Activated(o: Options)
    requires AllGoesWell(o)
    ensures var w := Activation(BeforeActivation(), o).0;
      w.created == ["x", "a", "b"] && w.status == Active && HalfBuilt(w.nodes)
  {
    ThreePair();
    ThreeBuild(o);
    hide PairFrom, Building, HalfBuilt;
  }

  /** x, although dedicated, has no lvstore and is given a; then a's old copy is written. */
  lemma {:induction false} ExpansionIsUnclear(w: World, o: Options)
    requires AllGoesWell(o) && w.created == ["x", "a", "b"] && w.status == Active
    requires w.nodes.Keys == {"x", "a", "b"} && w.nodes["a"].status == Online
    requires HalfBuilt(w.nodes["a" := w.nodes["a"].(status := BeingCreated)])
    ensures Stored(w.created, w.nodes.Keys) && !Clear(w, o)
  {
    var created, t := w.created, w.nodes;
    assert Marked(t, {}) == t;
    assert FirstFree(created, t, "hx", 1) == Some("a");
    assert Pick(created, t, {}, 0) == Some("a");
    assert Continues(t, t["x"].(secondary := "a"), o.creation("x"));
    SecondRoundOvertakes(created, t, o);
    FirstRoundChooses(created, t, o);
  }

  lemma SecondRoundOvertakes(created: seq<NodeId>, t: Table, o: Options)
    requires created == ["x", "a", "b"] && Stored(created, t.Keys) && AllGoesWell(o)
    requires "a" in t && t["a"].status.Online? && !t["a"].lvstore && t["a"].secondary != NONE && !t["a"].dedicated
    ensures !NoneOvertaken(created, t, {"a"}, 1, o)
  {
  }

  lemma {:induction false} FirstRoundChooses(created: seq<NodeId>, t: Table, o: Options)
    requires created == ["x", "a", "b"] && Stored(created, t.Keys) && AllGoesWell(o)
    requires "x" in t && t["x"].status.Online? && !t["x"].lvstore && t["x"].secondary == NONE
    requires Pick(created, t, {}, 0) == Some("a") && Continues(t, t["x"].(secondary := "a"), o.creation("x"))
    requires !NoneOvertaken(created, t, {"a"}, 1, o)
    ensures !NoneOvertaken(created, t, {}, 0, o)
  {
    hide Pick, Continues;
    assert {} + {"a"} == {"a"};
  }

  function LosingRun(o: Options): seq<Command> {
    Prelude() + [Activate(o), NoteStatus("a", Online), Expand(o)]
  }

  lemma {:induction false} RunConcat(w: World, a: seq<Command>, b: seq<Command>)
    requires Stored(w.created, w.nodes.Keys)
    ensures Run(w, a + b) == Run(Run(w, a), b)
    decreases |a|
  {
    hide Do;
    if a == [] {
      assert a + b == b;
    } else {
      assert (a + b)[1..] == a[1..] + b;
      RunConcat(Do(w, a[0]), a[1..], b);
    }
  }

  /** From the empty cluster, with everything succeeding: an expansion in which a node loses its back
      pointer, although the pointers were inverse before it. */
  lemma {:induction false} RunLosesUpdate(o: Options)
    requires AllGoesWell(o)
    ensures Invariant(EMPTY) && !Inverse(Run(EMPTY, LosingRun(o)).nodes)
  {
    hide Do, Prelude, BeforeActivation, Inverse, Keyed;
    PreludeRuns();
    var (w0, w1, w2) := BackOnline(o);
    BackOnlineMeans(o);
    UnclearLoses(w2, o);
    var tail := [Activate(o), NoteStatus("a", Online), Expand(o)];
    RunConcat(EMPTY, Prelude(), tail);
    assert tail[1..] == [NoteStatus("a", Online), Expand(o)] && tail[1..][1..] == [Expand(o)] && tail[1..][1..][1..] == [];
    assert Run(w2, [Expand(o)]) == Do(w2, Expand(o));
    assert Run(w1, tail[1..]) == Run(w2, [Expand(o)]);
    assert Run(w0, tail) == Run(w1, tail[1..]);
  }

  /** The worlds before and after the activation, and with a back online. */
  ghost function BackOnline(o: Options): (World, World, World) {
    var w1 := Do(BeforeActivation(), Activate(o));
    (BeforeActivation(), w1, Do(w1, NoteStatus("a", Online)))
  }

  lemma {:induction false} BackOnlineMeans(o: Options)
    requires AllGoesWell(o)
    ensures var w2 := BackOnline(o).2;
      Invariant(EMPTY) && Invariant(w2) && Stored(w2.created, w2.nodes.Keys) && !Clear(w2, o)
  {
    hide Activation, Inverse, Clear, Keyed, HalfBuilt, Stored;
    var (w0, w1, w2) := BackOnline(o);
    Activated(o);
    StartIsInverse();
    DoKeepsIff(w0, Activate(o));
    DoKeepsIff(w1, NoteStatus("a", Online));
    HalfBuiltKeys(w1.nodes);
    BackToHalf(w1.nodes);
    ExpansionIsUnclear(w2, o);
  }

  lemma HalfBuiltKeys(t: Table)
    requires HalfBuilt(t)
    ensures t.Keys == {"x", "a", "b"} && t["a"].status == BeingCreated
  {
  }

  lemma BackToHalf(t: Table)
    requires "a" in t && t["a"].status == BeingCreated
    ensures var u := t["a" := t["a"].(status := Online)]; u["a" := u["a"].(status := BeingCreated)] == t
  {
  }

  lemma StartIsInverse()
    ensures Invariant(EMPTY) && Invariant(BeforeActivation())
  {
  }
}
