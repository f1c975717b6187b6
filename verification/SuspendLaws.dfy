/**
 What suspension and resumption guarantee at every moment, whatever the environment does between
 two commands: no lvol is reachable through both nodes, and neither node is opened before the
 other one is closed and has stepped down.
 */
module SuspendLaws {
  import opened Records
  import opened Fabric
  import opened Silencing
  import opened Suspend

  /** Some listener of the node for the lvol is accessible. */
  ghost predicate Reach(s: State, node: NodeId, lvol: Lvol) {
    exists p :: p in s.paths && p.node == node && p.lvol == lvol && s.paths[p] != Inaccessible
  }

  ghost predicate HasPath(s: State, r: Role) {
    exists p :: p in s.paths && Serves(p, r)
  }

  /** The state a call may start from: no listener is on its way, and every listener of the pair
      for the lvstore is on one of the lvols and data NICs the records list. */
  ghost predicate Listed(m: Subject, s: State) {
    && s.pending == map[]
    && (forall p :: p in s.paths && p.node == m.node && p.lvol.lvs == m.lvs ==> m.IsOwn(p))
    && (m.secondary.Some? && m.secondary.value.status.Online? ==>
          forall p :: p in s.paths && p.node == m.secondary.value.node && p.lvol.lvs == m.lvs ==> m.IsPartners(p))
    && (forall k, p :: 0 <= k < |m.served| && p in s.paths && p.node == m.node && p.lvol.lvs == m.served[k].lvs ==>
          p.lvol in m.served[k].lvols && p.ip in m.nics && p.ip != "")
  }

  lemma ListedCovers(m: Subject, s: State)
    requires Listed(m, s)
    ensures Covers(s.paths, m.P(), m.OwnPaths())
    ensures m.PartnerOnline() ==> Covers(s.paths, m.S(), m.PartnerPaths())
    ensures forall k :: 0 <= k < |m.served| ==> Covers(s.paths, Role(m.node, m.served[k].lvs), m.ServedPaths(k))
  {
    PathsServe(m.node, m.lvols, m.nics);
    if m.PartnerOnline() { PathsServe(m.secondary.value.node, m.lvols, m.secondary.value.nics); }
    forall k | 0 <= k < |m.served| ensures Covers(s.paths, Role(m.node, m.served[k].lvs), m.ServedPaths(k)) {
      PathsServe(m.node, m.served[k].lvols, m.nics);
    }
  }

  // ---------------------------------------------------------------- where the parts of a suspension lie

  function A(m: Subject): nat { |m.StopServing(|m.served|)| }
  function B(m: Subject): nat { A(m) + |m.PartnerPaths()| }
  function C(m: Subject): nat { B(m) + |m.OwnPaths()| }
  function D(m: Subject): nat { C(m) + 2 }
  function E(m: Subject): nat { D(m) + |m.PartnerPaths()| }

  lemma {:induction false} StopServingShape(m: Subject, k: nat, i: nat)
    requires k <= |m.served| && i < |m.StopServing(k)|
    ensures var c := m.StopServing(k)[i]; (c.SetAna? && c.ana == Inaccessible) || c.Demote?
  {
    if k > 0 && i < |m.StopServing(k - 1)| {
      StopServingShape(m, k - 1, i);
    }
  }

  lemma {:induction false} SuspendingShape(m: Subject, i: nat)
    requires i < |m.Suspending()|
    ensures |m.Suspending()| == E(m) + 1
    ensures var c := m.Suspending()[i];
      if i < A(m) then (c.SetAna? && c.ana == Inaccessible) || c.Demote?
      else if i < B(m) then c == SetAna(m.PartnerPaths()[i - A(m)], Inaccessible)
      else if i < C(m) then c == DelPath(m.OwnPaths()[i - B(m)])
      else if i < D(m) then c == Demote(m.P())
      else if i < E(m) then c == SetAna(m.PartnerPaths()[i - D(m)], NonOptimized)
      else c == Mark(m.node, Suspended)
  {
    hide m.StopServing, m.PartnerPaths, m.OwnPaths;
    var rest := m.ClosePartner() + (m.DeleteOwn() + (m.StepDown() + (m.ReopenPartner() + [Mark(m.node, Suspended)])));
    assert m.Suspending() == m.StopServing(|m.served|) + rest;
    if i < A(m) {
      StopServingShape(m, |m.served|, i);
    } else {
      assert m.Suspending()[i] == rest[i - A(m)];
    }
  }

  /** All listeners in the lists belong to the right node and lvstore. */
  lemma ListsServe(m: Subject)
    requires m.WellFormed()
    ensures forall p :: p in m.OwnPaths() ==> Serves(p, m.P())
    ensures m.secondary.Some? ==> forall p :: p in m.PartnerPaths() ==> Serves(p, m.S())
  {
    PathsServe(m.node, m.lvols, m.nics);
    if m.PartnerOnline() {
      PathsServe(m.secondary.value.node, m.lvols, m.secondary.value.nics);
    }
  }

  /** The secondary's listeners are closed from position B until the primary has stepped down. */
  function PartnerStretch(m: Subject): Stretch
    requires m.secondary.Some?
  {
    Stretch(m.S(), m.PartnerPaths(), false, false, A(m), D(m))
  }

  /** The node's own listeners are deleted, and it is demoted for good. */
  function OwnStretch(m: Subject): Stretch {
    Stretch(m.P(), m.OwnPaths(), true, true, B(m), E(m) + 1)
  }

  lemma {:induction false} PartnerStretchOwn(m: Subject)
    requires m.WellFormed() && m.PartnerOnline()
    ensures Own(PartnerStretch(m)) && PartnerStretch(m).Closed() == B(m)
    ensures B(m) <= D(m) < |m.Suspending()|
  {
    ListsServe(m);
    SuspendingShape(m, 0);
    hide m.StopServing, m.Suspending, m.PartnerPaths, m.OwnPaths, A;
  }

  lemma {:induction false} PartnerStretchFits(m: Subject, i: nat)
    requires m.WellFormed() && m.PartnerOnline() && i < |m.Suspending()|
    ensures Fits(PartnerStretch(m), m.Suspending(), i)
  {
    hide m.StopServing, m.Suspending, m.PartnerPaths, m.OwnPaths, A;
    SuspendingShape(m, i);
  }

  lemma PartnerStretchCloses(m: Subject, j: nat)
    requires m.WellFormed() && m.PartnerOnline() && j < |m.PartnerPaths()| && B(m) <= |m.Suspending()|
    ensures Closes(PartnerStretch(m), m.Suspending(), j)
  {
    hide m.StopServing, m.Suspending, m.PartnerPaths, m.OwnPaths, A;
    SuspendingShape(m, A(m) + j);
  }

  lemma {:induction false} PartnerStretchInProgram(m: Subject)
    requires m.WellFormed() && m.PartnerOnline()
    ensures InProgram(PartnerStretch(m), m.Suspending()) && Own(PartnerStretch(m))
  {
    hide m.StopServing, m.Suspending, m.PartnerPaths, m.OwnPaths, A, B, D, Own, Fits, Closes;
    var (g, prog) := (PartnerStretch(m), m.Suspending());
    PartnerStretchOwn(m);
    forall i | 0 <= i < |prog| ensures Fits(g, prog, i) {
      PartnerStretchFits(m, i);
    }
    forall j | 0 <= j < |g.ps| ensures Closes(g, prog, j) {
      PartnerStretchCloses(m, j);
    }
  }

  /** No command of a suspension opens anything on the suspended node. */
  lemma SuspendingOpensNothingHere(m: Subject, i: nat, r: Role)
    requires m.WellFormed() && i < |m.Suspending()| && r.node == m.node
    ensures Harmless(m.Suspending()[i], r) && !Adds(m.Suspending()[i], r) && !m.Suspending()[i].Submit?
  {
    ListsServe(m);
    SuspendingShape(m, i);
    hide m.StopServing, m.Suspending, m.PartnerPaths, m.OwnPaths, A;
    if D(m) <= i < E(m) {
      assert m.PartnerPaths()[i - D(m)] in m.PartnerPaths();
    }
  }

  lemma OwnStretchOwn(m: Subject)
    requires m.WellFormed()
    ensures Own(OwnStretch(m)) && OwnStretch(m).Closed() == C(m)
    ensures C(m) < E(m) + 1 == |m.Suspending()|
  {
    ListsServe(m);
    SuspendingShape(m, 0);
    hide m.StopServing, m.Suspending, m.PartnerPaths, m.OwnPaths, A;
  }

  lemma {:induction false} OwnStretchFits(m: Subject, i: nat)
    requires m.WellFormed() && i < |m.Suspending()|
    ensures Fits(OwnStretch(m), m.Suspending(), i)
  {
    hide m.StopServing, m.Suspending, m.PartnerPaths, m.OwnPaths, A, Harmless, Adds, Serves;
    SuspendingOpensNothingHere(m, i, m.P());
    SuspendingShape(m, i);
  }

  lemma OwnStretchCloses(m: Subject, j: nat)
    requires m.WellFormed() && j < |m.OwnPaths()| && C(m) <= |m.Suspending()|
    ensures Closes(OwnStretch(m), m.Suspending(), j)
  {
    hide m.StopServing, m.Suspending, m.PartnerPaths, m.OwnPaths, A;
    SuspendingShape(m, B(m) + j);
  }

  lemma {:induction false} OwnStretchInProgram(m: Subject)
    requires m.WellFormed()
    ensures InProgram(OwnStretch(m), m.Suspending()) && Own(OwnStretch(m))
  {
    hide m.StopServing, m.Suspending, m.PartnerPaths, m.OwnPaths, A, B, C, E, Own, Fits, Closes;
    var (g, prog) := (OwnStretch(m), m.Suspending());
    OwnStretchOwn(m);
    forall i | 0 <= i < |prog| ensures Fits(g, prog, i) {
      OwnStretchFits(m, i);
    }
    forall j | 0 <= j < |g.ps| ensures Closes(g, prog, j) {
      OwnStretchCloses(m, j);
    }
  }

  /** From the moment the secondary's paths are closed, no lvol is reachable through both nodes;
      and if one is reachable through the secondary again, every listener of the primary is gone
      and the primary neither leads nor can come to lead. */
  lemma {:induction false} SuspensionExcludes(m: Subject, s: State, run: seq<Action>)
    requires m.WellFormed() && m.secondary.Some? && m.secondary.value.status.Online? && Listed(m, s)
    ensures var ((t, pc), second) := (Exec(m.Suspending(), s, 0, run), m.secondary.value.node);
      B(m) <= pc ==>
        && (forall l: Lvol :: l.lvs == m.lvs ==> !(Reach(t, m.node, l) && Reach(t, second, l)))
        && ((exists l: Lvol :: l.lvs == m.lvs && Reach(t, second, l)) ==> !HasPath(t, m.P()) && Quiet(t, m.P()))
  {
    ListedCovers(m, s);
    PartnerStretchInProgram(m);
    OwnStretchInProgram(m);
    Silences(PartnerStretch(m), m.Suspending(), s, run);
    Silences(OwnStretch(m), m.Suspending(), s, run);
    SuspendingShape(m, 0);
    hide m.Suspending, m.PartnerPaths, m.OwnPaths, A, Quiet, InProgram, Covers;
  }

  // ---------------------------------------------------------------- the primaries it serves

  lemma {:induction false} StopServingPrefix(m: Subject, k: nat, n: nat)
    requires k <= n <= |m.served|
    ensures m.StopServing(k) <= m.StopServing(n)
  {
    if k < n {
      StopServingPrefix(m, k, n - 1);
    }
  }

  function ServedStretch(m: Subject, k: nat): Stretch
    requires k < |m.served|
  {
    Stretch(Role(m.node, m.served[k].lvs), m.ServedPaths(k), false, true, |m.StopServing(k)|, E(m) + 1)
  }

  lemma ServedItem(m: Subject, k: nat, j: nat)
    requires k < |m.served| && j <= |m.ServedPaths(k)|
    ensures |m.StopServing(k + 1)| == |m.StopServing(k)| + |m.ServedPaths(k)| + 2
    ensures m.StopServing(k + 1)[|m.StopServing(k)| + j] ==
      if j < |m.ServedPaths(k)| then SetAna(m.ServedPaths(k)[j], Inaccessible) else Demote(Role(m.node, m.served[k].lvs))
  {
    var r := Role(m.node, m.served[k].lvs);
    var item := Each(ToAna(Inaccessible), m.ServedPaths(k)) + [Demote(r), Demote(r)];
    assert m.StopServing(k + 1) == m.StopServing(k) + item;
    hide m.StopServing, m.ServedPaths;
    assert m.StopServing(k + 1)[|m.StopServing(k)| + j] == item[j];
  }

  lemma {:induction false} ServedPart(m: Subject, k: nat, j: nat)
    requires k < |m.served| && j <= |m.ServedPaths(k)|
    ensures |m.StopServing(k)| + |m.ServedPaths(k)| + 2 <= A(m) < |m.Suspending()|
    ensures m.Suspending()[|m.StopServing(k)| + j] ==
      if j < |m.ServedPaths(k)| then SetAna(m.ServedPaths(k)[j], Inaccessible) else Demote(Role(m.node, m.served[k].lvs))
  {
    hide m.StopServing, m.ServedPaths, m.PartnerPaths, m.OwnPaths;
    StopServingPrefix(m, k + 1, |m.served|);
    ServedItem(m, k, j);
    var i := |m.StopServing(k)| + j;
    assert m.StopServing(|m.served|)[i] == m.StopServing(k + 1)[i];
    assert m.Suspending()[i] == m.StopServing(|m.served|)[i];
  }

  lemma {:induction false} ServedStretchInProgram(m: Subject, k: nat)
    requires m.WellFormed() && k < |m.served|
    ensures InProgram(ServedStretch(m, k), m.Suspending()) && Own(ServedStretch(m, k))
  {
    var (g, prog) := (ServedStretch(m, k), m.Suspending());
    ListsServe(m);
    SuspendingShape(m, 0);
    ServedPart(m, k, |m.ServedPaths(k)|);
    ServedAreOwn(m, k);
    hide m.StopServing, m.Suspending, m.PartnerPaths, m.OwnPaths, A, m.ServedPaths, Own, Harmless, Adds, Serves;
    forall i | 0 <= i < |prog| ensures Fits(g, prog, i) {
      SuspendingOpensNothingHere(m, i, g.role);
    }
    forall j | 0 <= j < |g.ps| ensures Closes(g, prog, j) {
      ServedPart(m, k, j);
    }
  }

  lemma ServedAreOwn(m: Subject, k: nat)
    requires m.WellFormed() && k < |m.served|
    ensures Own(ServedStretch(m, k))
  {
    PathsServe(m.node, m.served[k].lvols, m.nics);
    forall j | 0 <= j < |m.ServedPaths(k)| ensures Serves(m.ServedPaths(k)[j], Role(m.node, m.served[k].lvs)) {
      assert m.ServedPaths(k)[j] in m.ServedPaths(k);
    }
  }

  /** For each primary it serves, the suspended node is closed and steps down, and stays so. */
  lemma {:induction false} SuspensionStopsServing(m: Subject, s: State, run: seq<Action>, k: nat)
    requires m.WellFormed() && Listed(m, s) && k < |m.served|
    ensures var (t, pc) := Exec(m.Suspending(), s, 0, run);
      |m.StopServing(k + 1)| <= pc ==> Quiet(t, Role(m.node, m.served[k].lvs))
  {
    ListedCovers(m, s);
    ServedStretchInProgram(m, k);
    Silences(ServedStretch(m, k), m.Suspending(), s, run);
    SuspendingShape(m, 0);
    hide m.Suspending, m.PartnerPaths, m.OwnPaths, A, Quiet, InProgram, Covers;
  }

  /** When a suspension is over the node neither leads nor can come to lead its own lvstore or one it
      serves, whatever the status of its secondary. */
  lemma {:induction false} SuspensionEndsQuiet(m: Subject, s: State, run: seq<Action>)
    requires m.WellFormed() && Listed(m, s) && Exec(m.Suspending(), s, 0, run).1 == |m.Suspending()|
    ensures var t := Exec(m.Suspending(), s, 0, run).0;
      && Quiet(t, Role(m.node, m.lvs))
      && forall k :: 0 <= k < |m.served| ==> Quiet(t, Role(m.node, m.served[k].lvs))
  {
    ListedCovers(m, s);
    OwnStretchInProgram(m);
    OwnStretchOwn(m);
    Silences(OwnStretch(m), m.Suspending(), s, run);
    forall k | 0 <= k < |m.served| ensures Quiet(Exec(m.Suspending(), s, 0, run).0, Role(m.node, m.served[k].lvs)) {
      SuspensionStopsServing(m, s, run, k);
      ServedPart(m, k, |m.ServedPaths(k)|);
      ServedItem(m, k, 0);
      hide m.StopServing, m.Suspending, A, Quiet;
    }
  }

  // ---------------------------------------------------------------- resumption

  /** Where the parts of a resumption end: closing, demoting, creating, reopening. */
  function Demoted(m: Subject): nat { |m.PartnerPaths()| + |m.DemotePartner()| }
  function Created(m: Subject): nat { Demoted(m) + |m.OwnPaths()| }
  function Reopened(m: Subject): nat { Created(m) + |m.PartnerPaths()| }

  lemma {:induction false} ServeShape(m: Subject, k: nat, i: nat)
    requires m.WellFormed() && k <= |m.served| && i < |m.Serve(k)|
    ensures var c := m.Serve(k)[i];
      c.SetAna? && c.ana == NonOptimized && c.path.node == m.node && c.path.lvol.lvs != m.lvs
  {
    if k > 0 {
      if i < |m.Serve(k - 1)| {
        ServeShape(m, k - 1, i);
      } else {
        PathsServe(m.node, m.served[k - 1].lvols, m.nics);
        assert m.ServedPaths(k - 1)[i - |m.Serve(k - 1)|] in m.ServedPaths(k - 1);
      }
    }
  }

  lemma {:induction false} ResumingShape(m: Subject, i: nat)
    requires m.WellFormed() && m.PartnerOnline() && i < |m.Resuming()|
    ensures |m.DemotePartner()| == 2 && Reopened(m) < |m.Resuming()|
    ensures var c := m.Resuming()[i];
      if i < |m.PartnerPaths()| then c == SetAna(m.PartnerPaths()[i], Inaccessible)
      else if i < Demoted(m) then c == Demote(m.S())
      else if i < Created(m) then c == AddPath(m.OwnPaths()[i - Demoted(m)], Optimized)
      else if i < Reopened(m) then c == SetAna(m.PartnerPaths()[i - Created(m)], NonOptimized)
      else c.Mark? || (c.SetAna? && c.path.node == m.node && c.path.lvol.lvs != m.lvs)
  {
    ReturningLength(m);
    hide m.PartnerPaths, m.OwnPaths, m.Returning, m.Reopening;
    if i < Created(m) {
      assert m.Resuming()[i] == m.Returning()[i];
      ReturningShape(m, i);
    } else {
      assert m.Resuming()[i] == m.Reopening()[i - Created(m)];
      ReopeningShape(m, i - Created(m));
    }
  }

  lemma ReturningLength(m: Subject)
    requires m.PartnerOnline()
    ensures |m.Returning()| == Created(m) && |m.DemotePartner()| == 2
    ensures |m.Reopening()| == |m.PartnerPaths()| + |m.Serve(|m.served|)| + 1
  {
    hide m.PartnerPaths, m.OwnPaths, m.Serve;
  }

  lemma ReturningShape(m: Subject, i: nat)
    requires m.PartnerOnline() && i < |m.Returning()|
    ensures var c := m.Returning()[i];
      if i < |m.PartnerPaths()| then c == SetAna(m.PartnerPaths()[i], Inaccessible)
      else if i < Demoted(m) then c == Demote(m.S())
      else i < Created(m) && c == AddPath(m.OwnPaths()[i - Demoted(m)], Optimized)
  {
    hide m.PartnerPaths, m.OwnPaths;
    var rest := m.DemotePartner() + m.CreateOwn();
    if |m.PartnerPaths()| <= i {
      assert m.Returning()[i] == rest[i - |m.PartnerPaths()|];
    }
  }

  lemma {:induction false} ReopeningShape(m: Subject, i: nat)
    requires m.WellFormed() && m.PartnerOnline() && i < |m.Reopening()|
    ensures var c := m.Reopening()[i];
      if i < |m.PartnerPaths()| then c == SetAna(m.PartnerPaths()[i], NonOptimized)
      else c.Mark? || (c.SetAna? && c.path.node == m.node && c.path.lvol.lvs != m.lvs)
  {
    hide m.Serve, m.PartnerPaths;
    var n := |m.PartnerPaths()|;
    var rest := m.Serve(|m.served|) + [Mark(m.node, Online)];
    if n <= i {
      assert m.Reopening()[i] == rest[i - n];
      if i < n + |m.Serve(|m.served|)| {
        ServeShape(m, |m.served|, i - n);
      }
    }
  }

  function ReturnStretch(m: Subject): Stretch
    requires m.secondary.Some?
  {
    Stretch(m.S(), m.PartnerPaths(), false, true, 0, Created(m))
  }

  lemma ReturnStretchOwn(m: Subject)
    requires m.WellFormed() && m.PartnerOnline()
    ensures Own(ReturnStretch(m)) && ReturnStretch(m).Closed() <= Created(m) <= |m.Resuming()|
  {
    ListsServe(m);
    ResumingLength(m);
    hide m.Resuming, m.PartnerPaths, m.OwnPaths, m.DemotePartner;
  }

  lemma {:induction false} ReturnStretchFits(m: Subject, i: nat)
    requires m.WellFormed() && m.PartnerOnline() && i < |m.Resuming()|
    ensures Fits(ReturnStretch(m), m.Resuming(), i)
  {
    hide m.Resuming, m.PartnerPaths, m.OwnPaths, m.DemotePartner;
    ListsServe(m);
    ReturningLength(m);
    ResumingShape(m, i);
    if Demoted(m) <= i < Created(m) {
      assert m.OwnPaths()[i - Demoted(m)] in m.OwnPaths();
    }
  }

  lemma {:induction false} ReturnStretchCloses(m: Subject, j: nat)
    requires m.WellFormed() && m.PartnerOnline() && j < |m.PartnerPaths()| <= |m.Resuming()|
    ensures Closes(ReturnStretch(m), m.Resuming(), j)
  {
    hide m.Resuming, m.PartnerPaths, m.OwnPaths, m.DemotePartner;
    ResumingShape(m, j);
  }

  lemma {:induction false} ReturnStretchInProgram(m: Subject)
    requires m.WellFormed() && m.PartnerOnline()
    ensures InProgram(ReturnStretch(m), m.Resuming()) && Own(ReturnStretch(m))
  {
    hide m.Resuming, m.PartnerPaths, m.OwnPaths, Created, Own, Fits, Closes;
    var (g, prog) := (ReturnStretch(m), m.Resuming());
    ReturnStretchOwn(m);
    forall i | 0 <= i < |prog| ensures Fits(g, prog, i) {
      ReturnStretchFits(m, i);
    }
    forall j | 0 <= j < |g.ps| ensures Closes(g, prog, j) {
      ReturnStretchCloses(m, j);
    }
  }

  lemma ResumingLength(m: Subject)
    requires m.PartnerOnline()
    ensures |m.Resuming()| == Created(m) + |m.Reopening()|
  {
    ReturningLength(m);
  }

  /** The listeners ps of r: none of r's before position `at`, then one by one, and they stay. */
  ghost predicate Growing(r: Role, ps: seq<Path>, at: nat, s: State, i: nat) {
    && s.pending == map[] && r.node !in s.dead
    && (i <= at ==> !HasPath(s, r))
    && (forall j :: 0 <= j < |ps| && at + j < i ==> ps[j] in s.paths && s.paths[ps[j]] == Optimized)
  }

  /** c touches no listener of the primary's own lvstore. */
  predicate Elsewhere(c: Command, m: Subject) {
    c.Demote? || c.Mark? || (c.SetAna? && !Serves(c.path, m.P()))
  }

  lemma {:induction false} ResumingMostlyElsewhere(m: Subject, i: nat)
    requires m.WellFormed() && m.PartnerOnline() && i < |m.Resuming()|
    ensures if Demoted(m) <= i < Created(m) then m.Resuming()[i] == AddPath(m.OwnPaths()[i - Demoted(m)], Optimized)
            else Elsewhere(m.Resuming()[i], m)
  {
    ListsServe(m);
    ResumingShape(m, i);
    hide m.Resuming, m.PartnerPaths, m.OwnPaths, m.DemotePartner;
    if i < |m.PartnerPaths()| {
      assert m.PartnerPaths()[i] in m.PartnerPaths();
    } else if Created(m) <= i < Reopened(m) {
      assert m.PartnerPaths()[i - Created(m)] in m.PartnerPaths();
    }
  }

  lemma ElsewhereGrows(m: Subject, ps: seq<Path>, at: nat, s: State, i: nat, c: Command)
    requires Growing(m.P(), ps, at, s, i) && Elsewhere(c, m) && (i < at || at + |ps| <= i)
    requires forall j :: 0 <= j < |ps| ==> Serves(ps[j], m.P())
    ensures Growing(m.P(), ps, at, Apply(s, c), i + 1)
  {
  }

  lemma CreationGrows(r: Role, ps: seq<Path>, at: nat, s: State, i: nat)
    requires Growing(r, ps, at, s, i) && at <= i < at + |ps|
    requires forall j :: 0 <= j < |ps| ==> Serves(ps[j], r)
    ensures Growing(r, ps, at, Apply(s, AddPath(ps[i - at], Optimized)), i + 1)
  {
    assert Serves(ps[i - at], r);
  }

  lemma {:induction false} CommandGrows(m: Subject, s: State, i: nat)
    requires m.WellFormed() && m.PartnerOnline() && i < |m.Resuming()|
    requires Growing(m.P(), m.OwnPaths(), Demoted(m), s, i)
    ensures Growing(m.P(), m.OwnPaths(), Demoted(m), Apply(s, m.Resuming()[i]), i + 1)
  {
    hide m.Resuming, m.PartnerPaths, m.OwnPaths, m.DemotePartner, m.WellFormed, Apply, Growing, Elsewhere;
    ListsServe(m);
    ResumingMostlyElsewhere(m, i);
    var ps := m.OwnPaths();
    if Demoted(m) <= i < Created(m) {
      CreationGrows(m.P(), ps, Demoted(m), s, i);
    } else {
      ElsewhereGrows(m, ps, Demoted(m), s, i, m.Resuming()[i]);
    }
  }

  /** During a resumption no listener of the primary exists before every path of the secondary is
      closed and the secondary has stepped down; and the secondary is open again only after all
      listeners of the primary exist. */
  lemma {:induction false} ResumptionExcludes(m: Subject, s: State, run: seq<Action>)
    requires m.WellFormed() && m.secondary.Some? && m.secondary.value.status.Online?
    requires Listed(m, s) && m.node !in s.dead && !HasPath(s, m.P())
    ensures var ((t, pc), second) := (Exec(m.Resuming(), s, 0, run), Role(m.secondary.value.node, m.lvs));
      && (HasPath(t, m.P()) ==> Demoted(m) < pc && (pc <= Created(m) ==> Quiet(t, second)))
      && (|m.PartnerPaths()| <= pc && OpenPath(t, second) ==>
            Created(m) < pc && forall p :: m.IsOwn(p) ==> p in t.paths && t.paths[p] == Optimized)
  {
    ListedCovers(m, s);
    forall p ensures p in m.OwnPaths() <==> m.IsOwn(p) { ListsAre(m, p); }
    ReturnStretchInProgram(m);
    Silences(ReturnStretch(m), m.Resuming(), s, run);
    assert |m.DemotePartner()| == 2;
    hide m.Resuming, m.PartnerPaths, m.OwnPaths, m.DemotePartner, InProgram, Covers;
    var prog := m.Resuming();
    var inv := (t: State, i: nat) => Growing(m.P(), m.OwnPaths(), Demoted(m), t, i);
    forall t: State, i: nat | i < |prog| && inv(t, i) ensures inv(Apply(t, prog[i]), i + 1) {
      CommandGrows(m, t, i);
    }
    InvariantRule(prog, s, 0, run, inv);
  }

  lemma {:induction false} ServePromotesNobody(m: Subject, k: nat, i: nat)
    requires k <= |m.served| && i < |m.Serve(k)|
    ensures !m.Serve(k)[i].Lead?
  {
    if k > 0 && i < |m.Serve(k - 1)| {
      ServePromotesNobody(m, k - 1, i);
    }
  }

  lemma ReturningPromotesNobody(m: Subject, i: nat)
    requires i < |m.Returning()|
    ensures !m.Returning()[i].Lead?
  {
    hide m.PartnerPaths, m.OwnPaths;
  }

  lemma ReopeningPromotesNobody(m: Subject, i: nat)
    requires i < |m.Reopening()|
    ensures !m.Reopening()[i].Lead?
  {
    hide m.Serve, m.PartnerPaths;
    var n := |m.PartnerPaths()|;
    if n <= i < n + |m.Serve(|m.served|)| {
      ServePromotesNobody(m, |m.served|, i - n);
    }
  }

  lemma {:induction false} ResumingPromotesNobody(m: Subject, i: nat)
    requires i < |m.Resuming()|
    ensures !m.Resuming()[i].Lead?
  {
    hide m.Returning, m.Reopening;
    if i < |m.Returning()| {
      ReturningPromotesNobody(m, i);
    } else {
      ReopeningPromotesNobody(m, i - |m.Returning()|);
    }
  }

  /** Neither call promotes anybody, whatever the secondary's status and however the call ends: with
      one leader to start with, there is never a second. */
  lemma {:induction false} SuspendAndResumeKeepOneLeader(m: Subject, s: State, run: seq<Action>)
    requires OneLeader(s)
    ensures OneLeader(Exec(m.Suspending(), s, 0, run).0)
    ensures OneLeader(Exec(m.Resuming(), s, 0, run).0)
  {
    hide m.Suspending, m.Resuming;
    forall i | 0 <= i < |m.Suspending()| ensures !m.Suspending()[i].Lead? {
      SuspendingPromotesNobody(m, i);
    }
    NoPromotionIsSafe(m.Suspending(), s, run);
    forall i | 0 <= i < |m.Resuming()| ensures !m.Resuming()[i].Lead? {
      ResumingPromotesNobody(m, i);
    }
    NoPromotionIsSafe(m.Resuming(), s, run);
  }

  lemma SuspendingPromotesNobody(m: Subject, i: nat)
    requires i < |m.Suspending()|
    ensures !m.Suspending()[i].Lead?
  {
    SuspendingShape(m, i);
  }
}
