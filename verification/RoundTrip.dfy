/** Suspension followed by resumption: exactly when it restores the whole path table. */
module RoundTrip {
  import opened Records
  import opened Fabric
  import opened Suspend
  import SuspendLaws

  function Look(paths: map<Path, Ana>, p: Path): Option<Ana> {
    if p in paths then Some(paths[p]) else None
  }

  /** What one command makes of one listener. */
  function One(c: Command, p: Path, v: Option<Ana>): Option<Ana> {
    match c
    case SetAna(q, ana) => if q == p && v.Some? then Some(ana) else v
    case AddPath(q, ana) => if q == p then Some(ana) else v
    case DelPath(q) => if q == p then None else v
    case _ => v
  }

  function Fate(cs: Program, p: Path, v: Option<Ana>): Option<Ana> {
    if cs == [] then v else One(cs[|cs| - 1], p, Fate(cs[..|cs| - 1], p, v))
  }

  lemma {:induction false} FateConcat(a: Program, b: Program, p: Path, v: Option<Ana>)
    ensures Fate(a + b, p, v) == Fate(b, p, Fate(a, p, v))
    decreases |b|
  {
    if b == [] {
      assert a + b == a;
    } else {
      FateConcat(a, b[..|b| - 1], p, v);
      assert (a + b)[..|a + b| - 1] == a + b[..|b| - 1];
    }
  }

  /** A loop over listeners does to each listed one what one command does, and nothing to others. */
  lemma {:induction false} FateEach(op: PathOp, ps: seq<Path>, p: Path, v: Option<Ana>)
    requires !op.Hand?
    ensures Fate(Each(op, ps), p, v) == if p in ps then One(CommandOn(op, p), p, v) else v
    decreases |ps|
  {
    hide Each;
    if ps != [] {
      FateEach(op, ps[..|ps| - 1], p, v);
      EachButLast(op, ps);
      assert ps == ps[..|ps| - 1] + [ps[|ps| - 1]];
    }
  }

  lemma EachButLast(op: PathOp, ps: seq<Path>)
    requires ps != []
    ensures var cs := Each(op, ps);
      |cs| == |ps| && cs[..|cs| - 1] == Each(op, ps[..|ps| - 1]) && cs[|cs| - 1] == CommandOn(op, ps[|ps| - 1])
  {
  }

  // ---------------------------------------------------------------- runs follow the program

  /** Commands that concern single listeners of live nodes, or no listener at all. */
  predicate Plain(c: Command) { !c.Submit? && !c.Kill? }

  ghost predicate Follows(prog: Program, s: State, t: State, i: nat)
    requires i <= |prog|
  {
    t.pending == map[] && t.dead == s.dead && forall p :: Look(t.paths, p) == Fate(prog[..i], p, Look(s.paths, p))
  }

  lemma CommandFollows(prog: Program, s: State, t: State, i: nat)
    requires i < |prog| && Follows(prog, s, t, i) && Plain(prog[i])
    requires prog[i].AddPath? ==> prog[i].path.node !in s.dead
    ensures Follows(prog, s, Apply(t, prog[i]), i + 1)
  {
    var u := Apply(t, prog[i]);
    forall p ensures Look(u.paths, p) == Fate(prog[..i + 1], p, Look(s.paths, p)) {
      assert prog[..i + 1][..i] == prog[..i] && prog[..i + 1][i] == prog[i];
      assert Look(t.paths, p) == Fate(prog[..i], p, Look(s.paths, p));
      hide Fate;
      assert Look(u.paths, p) == One(prog[i], p, Look(t.paths, p));
    }
  }

  /** The path table depends on how far the program has come, not on the events in between. */
  lemma PathsFollow(prog: Program, s: State, run: seq<Action>)
    requires s.pending == map[]
    requires forall i :: 0 <= i < |prog| ==> Plain(prog[i]) && (prog[i].AddPath? ==> prog[i].path.node !in s.dead)
    ensures var (t, pc) := Exec(prog, s, 0, run); Follows(prog, s, t, pc)
  {
    var inv := (t: State, i: nat) => i <= |prog| && Follows(prog, s, t, i);
    assert inv(s, 0);
    forall t: State, i: nat | i < |prog| && inv(t, i) ensures inv(Apply(t, prog[i]), i + 1) {
      CommandFollows(prog, s, t, i);
    }
    hide Follows, Fate;
    forall t: State, i: nat, e: Event | i <= |prog| && inv(t, i) && Enabled(t, e) ensures inv(Happen(t, e), i) {
      EventFollows(prog, s, t, i, e);
    }
    InvariantRule(prog, s, 0, run, inv);
  }

  lemma EventFollows(prog: Program, s: State, t: State, i: nat, e: Event)
    requires i <= |prog| && Follows(prog, s, t, i) && Enabled(t, e)
    ensures Follows(prog, s, Happen(t, e), i)
  {
    assert Happen(t, e).paths == t.paths;
  }

  // ---------------------------------------------------------------- what each call makes of a listener

  predicate InServed(m: Subject, k: nat, p: Path)
    requires k <= |m.served|
  {
    exists j :: 0 <= j < k && p in m.ServedPaths(j)
  }

  function Closed(v: Option<Ana>): Option<Ana> { if v.Some? then Some(Inaccessible) else None }
  function Standby(v: Option<Ana>): Option<Ana> { if v.Some? then Some(NonOptimized) else None }

  lemma {:induction false} FateSteps(cs: Program, p: Path, v: Option<Ana>)
    requires forall i :: 0 <= i < |cs| ==> cs[i].Demote? || cs[i].Mark?
    ensures Fate(cs, p, v) == v
    decreases |cs|
  {
    if cs != [] { FateSteps(cs[..|cs| - 1], p, v); }
  }

  lemma {:induction false} FateStopServing(m: Subject, k: nat, p: Path, v: Option<Ana>)
    requires k <= |m.served|
    ensures Fate(m.StopServing(k), p, v) == if InServed(m, k, p) then Closed(v) else v
  {
    hide Fate, Each, m.ServedPaths;
    if k == 0 {
      FateSteps([], p, v);
    } else {
      FateStopServing(m, k - 1, p, v);
      var r := Role(m.node, m.served[k - 1].lvs);
      var close := Each(ToAna(Inaccessible), m.ServedPaths(k - 1));
      var w := Fate(m.StopServing(k - 1), p, v);
      FateConcat(m.StopServing(k - 1), close + [Demote(r), Demote(r)], p, v);
      FateConcat(close, [Demote(r), Demote(r)], p, w);
      FateEach(ToAna(Inaccessible), m.ServedPaths(k - 1), p, w);
      FateSteps([Demote(r), Demote(r)], p, Fate(close, p, w));
      assert InServed(m, k, p) <==> InServed(m, k - 1, p) || p in m.ServedPaths(k - 1);
    }
  }

  lemma {:induction false} FateServe(m: Subject, k: nat, p: Path, v: Option<Ana>)
    requires k <= |m.served|
    ensures Fate(m.Serve(k), p, v) == if InServed(m, k, p) then Standby(v) else v
  {
    hide Fate, Each, m.ServedPaths;
    if k == 0 {
      FateSteps([], p, v);
    } else {
      FateServe(m, k - 1, p, v);
      FateConcat(m.Serve(k - 1), Each(ToAna(NonOptimized), m.ServedPaths(k - 1)), p, v);
      FateEach(ToAna(NonOptimized), m.ServedPaths(k - 1), p, Fate(m.Serve(k - 1), p, v));
      assert InServed(m, k, p) <==> InServed(m, k - 1, p) || p in m.ServedPaths(k - 1);
    }
  }

  /** The lists of a call have no listener in common. */
  lemma ListsDisjoint(m: Subject, p: Path)
    requires m.WellFormed()
    ensures !(p in m.OwnPaths() && p in m.PartnerPaths())
    ensures InServed(m, |m.served|, p) ==> p !in m.OwnPaths() && p !in m.PartnerPaths()
  {
    PathsServe(m.node, m.lvols, m.nics);
    if m.PartnerOnline() {
      PathsServe(m.secondary.value.node, m.lvols, m.secondary.value.nics);
    }
    if InServed(m, |m.served|, p) {
      var k :| 0 <= k < |m.served| && p in m.ServedPaths(k);
      PathsServe(m.node, m.served[k].lvols, m.nics);
    }
  }

  lemma FateSuspending(m: Subject, p: Path, v: Option<Ana>)
    requires m.WellFormed()
    ensures Fate(m.Suspending(), p, v) ==
      if p in m.OwnPaths() then None
      else if p in m.PartnerPaths() then Standby(v)
      else if InServed(m, |m.served|, p) then Closed(v)
      else v
  {
    hide Fate, Each, m.StopServing;
    ListsDisjoint(m, p);
    FateStopServing(m, |m.served|, p, v);
    var tail := m.ReopenPartner() + [Mark(m.node, Suspended)];
    var mid := m.StepDown() + tail;
    var own := m.DeleteOwn() + mid;
    var v1 := Fate(m.StopServing(|m.served|), p, v);
    FateConcat(m.StopServing(|m.served|), m.ClosePartner() + own, p, v);
    FateConcat(m.ClosePartner(), own, p, v1);
    FateEach(ToAna(Inaccessible), m.PartnerPaths(), p, v1);
    var v2 := Fate(m.ClosePartner(), p, v1);
    FateConcat(m.DeleteOwn(), mid, p, v2);
    FateEach(Delete, m.OwnPaths(), p, v2);
    var v3 := Fate(m.DeleteOwn(), p, v2);
    FateConcat(m.StepDown(), tail, p, v3);
    FateSteps(m.StepDown(), p, v3);
    FateConcat(m.ReopenPartner(), [Mark(m.node, Suspended)], p, v3);
    FateEach(ToAna(NonOptimized), m.PartnerPaths(), p, v3);
    FateSteps([Mark(m.node, Suspended)], p, Fate(m.ReopenPartner(), p, v3));
  }

  lemma FateResuming(m: Subject, p: Path, v: Option<Ana>)
    requires m.WellFormed() && m.secondary.Some?
    ensures Fate(m.Resuming(), p, v) ==
      if p in m.OwnPaths() then Some(Optimized)
      else if p in m.PartnerPaths() || InServed(m, |m.served|, p) then Standby(v)
      else v
  {
    hide m.Serve, m.OwnPaths, m.PartnerPaths, InServed, m.Returning, Fate, Each;
    ListsDisjoint(m, p);
    FateReturning(m, p, v);
    var v3 := Fate(m.Returning(), p, v);
    FateServe(m, |m.served|, p, Fate(m.ReopenPartner(), p, v3));
    FateConcat(m.Returning(), m.Reopening(), p, v);
    var tail := m.Serve(|m.served|) + [Mark(m.node, Online)];
    FateConcat(m.ReopenPartner(), tail, p, v3);
    FateEach(ToAna(NonOptimized), m.PartnerPaths(), p, v3);
    var v4 := Fate(m.ReopenPartner(), p, v3);
    FateConcat(m.Serve(|m.served|), [Mark(m.node, Online)], p, v4);
    FateSteps([Mark(m.node, Online)], p, Fate(m.Serve(|m.served|), p, v4));
  }

  lemma FateReturning(m: Subject, p: Path, v: Option<Ana>)
    requires m.WellFormed()
    ensures Fate(m.Returning(), p, v) ==
      if p in m.OwnPaths() then Some(Optimized)
      else if p in m.PartnerPaths() then Closed(v)
      else v
  {
    hide m.OwnPaths, m.PartnerPaths, InServed, Fate, Each;
    ListsDisjoint(m, p);
    FateConcat(m.ClosePartner(), m.DemotePartner() + m.CreateOwn(), p, v);
    FateEach(ToAna(Inaccessible), m.PartnerPaths(), p, v);
    var v1 := Fate(m.ClosePartner(), p, v);
    FateConcat(m.DemotePartner(), m.CreateOwn(), p, v1);
    FateSteps(m.DemotePartner(), p, v1);
    FateEach(Create(Optimized), m.OwnPaths(), p, v1);
  }

  // ---------------------------------------------------------------- the round trip

  /** Two calls on the same node and the same records; only statuses may have changed between. */
  ghost predicate SameSubject(a: Subject, b: Subject) {
    && a.node == b.node && a.lvs == b.lvs && a.lvols == b.lvols && a.nics == b.nics && a.served == b.served
    && a.secondary.Some? && b.secondary.Some?
    && a.secondary.value.node == b.secondary.value.node && a.secondary.value.nics == b.secondary.value.nics
  }

  /** A listener that at least one of the two calls sets back to standby. */
  ghost predicate SetBack(a: Subject, b: Subject, p: Path) {
    a.IsPartners(p) || b.IsPartners(p) || a.IsServed(p)
  }

  /** What the two calls together make of a listener. */
  ghost function Restored(a: Subject, b: Subject, p: Path, v: Option<Ana>): Option<Ana> {
    if a.IsOwn(p) then Some(Optimized) else if SetBack(a, b, p) then Standby(v) else v
  }

  /** Every own listener exists and is optimized; every existing one that is set back is on standby. */
  ghost predicate Steady(a: Subject, b: Subject, paths: map<Path, Ana>) {
    && (forall p :: a.IsOwn(p) ==> p in paths && paths[p] == Optimized)
    && (forall p :: p in paths && SetBack(a, b, p) ==> paths[p] == NonOptimized)
  }

  lemma {:induction false} FateRoundTrip(a: Subject, b: Subject, p: Path, v: Option<Ana>)
    requires a.WellFormed() && b.WellFormed() && SameSubject(a, b)
    ensures Fate(b.Resuming(), p, Fate(a.Suspending(), p, v)) == Restored(a, b, p, v)
  {
    hide Fate, InServed, a.OwnPaths, b.OwnPaths, a.PartnerPaths, b.PartnerPaths, a.Suspending, b.Resuming;
    hide a.WellFormed, b.WellFormed;
    SameLists(a, b, p);
    FateSuspending(a, p, v);
    FateResuming(b, p, Fate(a.Suspending(), p, v));
    ListsDisjoint(b, p);
    ListsAre(a, p);
    ListsAre(b, p);
    ServedIs(a, p);
  }

  lemma ServedIs(m: Subject, p: Path)
    ensures InServed(m, |m.served|, p) <==> m.IsServed(p)
  {
    ListsAre(m, p);
  }

  lemma SameLists(a: Subject, b: Subject, p: Path)
    requires SameSubject(a, b)
    ensures a.OwnPaths() == b.OwnPaths()
    ensures InServed(a, |a.served|, p) <==> InServed(b, |b.served|, p)
  {
    forall k | 0 <= k < |a.served| ensures a.ServedPaths(k) == b.ServedPaths(k) {}
  }

  /** Every listener command of the two calls goes to the suspended node or to an existing listener. */
  lemma {:induction false} StopServingIsPlain(m: Subject, k: nat, i: nat)
    requires k <= |m.served| && i < |m.StopServing(k)|
    ensures Plain(m.StopServing(k)[i]) && !m.StopServing(k)[i].AddPath?
  {
    if k > 0 && i < |m.StopServing(k - 1)| {
      StopServingIsPlain(m, k - 1, i);
    }
  }

  lemma SuspendingIsPlain(m: Subject, i: nat)
    requires i < |m.Suspending()|
    ensures Plain(m.Suspending()[i]) && !m.Suspending()[i].AddPath?
  {
    hide m.OwnPaths, m.PartnerPaths;
    if i < |m.StopServing(|m.served|)| {
      StopServingIsPlain(m, |m.served|, i);
    }
  }

  lemma {:induction false} ServeIsPlain(m: Subject, k: nat, i: nat)
    requires k <= |m.served| && i < |m.Serve(k)|
    ensures m.Serve(k)[i].SetAna?
  {
    if k > 0 && i < |m.Serve(k - 1)| {
      ServeIsPlain(m, k - 1, i);
    }
  }

  lemma ReopeningIsPlain(m: Subject, i: nat)
    requires i < |m.Reopening()|
    ensures m.Reopening()[i].SetAna? || m.Reopening()[i].Mark?
  {
    hide m.PartnerPaths;
    var n := |m.PartnerPaths()|;
    if n <= i < n + |m.Serve(|m.served|)| {
      ServeIsPlain(m, |m.served|, i - n);
    }
  }

  lemma ReturningIsPlain(m: Subject, i: nat)
    requires i < |m.Returning()|
    ensures Plain(m.Returning()[i]) && (m.Returning()[i].AddPath? ==> m.Returning()[i].path.node == m.node)
  {
    hide m.PartnerPaths;
    PathsServe(m.node, m.lvols, m.nics);
    var n := |m.PartnerPaths()| + |m.DemotePartner()|;
    if n <= i {
      assert m.Returning()[i] == m.CreateOwn()[i - n];
      assert m.OwnPaths()[i - n] in m.OwnPaths();
    }
  }

  lemma {:induction false} ResumingIsPlain(m: Subject, i: nat)
    requires i < |m.Resuming()|
    ensures Plain(m.Resuming()[i]) && (m.Resuming()[i].AddPath? ==> m.Resuming()[i].path.node == m.node)
  {
    hide m.Returning, m.Reopening;
    if i < |m.Returning()| {
      ReturningIsPlain(m, i);
    } else {
      ReopeningIsPlain(m, i - |m.Returning()|);
    }
  }

  /** The path table after a complete suspension and a complete resumption, whatever happened in
      between: the node's own listeners are optimized, every listener set back is on standby, and
      all others are as they were. */
  lemma {:induction false} TableAfter(a: Subject, b: Subject, s: State, down: seq<Action>, up: seq<Action>)
    returns (t: State, u: State)
    requires a.WellFormed() && b.WellFormed() && SameSubject(a, b) && s.pending == map[] && a.node !in s.dead
    requires Exec(a.Suspending(), s, 0, down).1 == |a.Suspending()|
    requires Exec(b.Resuming(), Exec(a.Suspending(), s, 0, down).0, 0, up).1 == |b.Resuming()|
    ensures t == Exec(a.Suspending(), s, 0, down).0 && u == Exec(b.Resuming(), t, 0, up).0
    ensures forall p :: Look(u.paths, p) == Restored(a, b, p, Look(s.paths, p))
  {
    t := Exec(a.Suspending(), s, 0, down).0;
    u := Exec(b.Resuming(), t, 0, up).0;
    hide a.Suspending, b.Resuming, Exec, Fate, a.OwnPaths, SetBack, Look;
    forall i | 0 <= i < |a.Suspending()| ensures Plain(a.Suspending()[i]) && !a.Suspending()[i].AddPath? {
      SuspendingIsPlain(a, i);
    }
    PathsFollow(a.Suspending(), s, down);
    assert a.Suspending()[..|a.Suspending()|] == a.Suspending();
    forall i | 0 <= i < |b.Resuming()|
      ensures Plain(b.Resuming()[i]) && (b.Resuming()[i].AddPath? ==> b.Resuming()[i].path.node !in t.dead)
    {
      ResumingIsPlain(b, i);
    }
    PathsFollow(b.Resuming(), t, up);
    assert b.Resuming()[..|b.Resuming()|] == b.Resuming();
    forall p ensures Look(u.paths, p) == Restored(a, b, p, Look(s.paths, p)) {
      FateRoundTrip(a, b, p, Look(s.paths, p));
    }
  }

  /** Suspending and resuming restores the whole path table exactly if it was steady. */
  lemma {:induction false} RestoredIffSteady(a: Subject, b: Subject, s: State, down: seq<Action>, up: seq<Action>)
    requires a.WellFormed() && b.WellFormed() && SameSubject(a, b) && s.pending == map[] && a.node !in s.dead
    requires Exec(a.Suspending(), s, 0, down).1 == |a.Suspending()|
    requires Exec(b.Resuming(), Exec(a.Suspending(), s, 0, down).0, 0, up).1 == |b.Resuming()|
    ensures Exec(b.Resuming(), Exec(a.Suspending(), s, 0, down).0, 0, up).0.paths == s.paths <==> Steady(a, b, s.paths)
  {
    hide a.Suspending, b.Resuming, Exec, a.OwnPaths, SetBack;
    ListsApart(a, b);
    var t, u := TableAfter(a, b, s, down, up);
    if Steady(a, b, s.paths) {
      forall p ensures Look(u.paths, p) == Look(s.paths, p) {}
      SameTable(u.paths, s.paths);
    } else if u.paths == s.paths {
      forall p | a.IsOwn(p) ensures p in s.paths && s.paths[p] == Optimized {
        assert Look(u.paths, p) == Some(Optimized);
      }
      forall p | p in s.paths && SetBack(a, b, p) ensures s.paths[p] == NonOptimized {
        assert Look(u.paths, p) == Standby(Look(s.paths, p));
      }
      assert false;
    }
  }

  lemma SameTable(x: map<Path, Ana>, y: map<Path, Ana>)
    requires forall p :: Look(x, p) == Look(y, p)
    ensures x == y
  {
    assert forall p :: p in x <==> Look(x, p).Some?;
    assert forall p :: p in y <==> Look(y, p).Some?;
    assert x.Keys == y.Keys;
    forall p | p in x ensures x[p] == y[p] {
      assert Look(x, p) == Look(y, p);
    }
  }

  lemma ListsApart(a: Subject, b: Subject)
    requires a.WellFormed() && b.WellFormed() && SameSubject(a, b)
    ensures forall p :: a.IsOwn(p) ==> !SetBack(a, b, p)
  {
    forall p | a.IsOwn(p) ensures !SetBack(a, b, p) {
      assert p.lvol.lvs == a.lvs;
    }
  }

  // ---------------------------------------------------------------- one call

  lemma {:induction false} StopServingRoles(m: Subject, k: nat, i: nat)
    requires k <= |m.served| && i < |m.StopServing(k)|
    ensures m.StopServing(k)[i].Demote? ==> m.StopServing(k)[i].role.node == m.node
  {
    if k > 0 && i < |m.StopServing(k - 1)| { StopServingRoles(m, k - 1, i); }
  }

  lemma ReturningAlone(m: Subject, i: nat)
    requires !m.PartnerOnline() && i < |m.Returning()|
    ensures m.Returning()[i].AddPath?
  {
    hide m.OwnPaths;
    assert m.Returning() == m.CreateOwn();
  }

  /** A secondary that is not online is not asked to step down. */
  lemma {:induction false} AbsentPartnerIsLeftAlone(m: Subject, i: nat)
    requires !(m.secondary.Some? && m.secondary.value.status.Online?)
    ensures i < |m.Suspending()| && m.Suspending()[i].Demote? ==> m.Suspending()[i].role.node == m.node
    ensures i < |m.Resuming()| ==> !m.Resuming()[i].Demote?
  {
    hide m.StopServing, m.Suspending, m.Returning, m.Reopening;
    if i < |m.Suspending()| {
      SuspendLaws.SuspendingShape(m, i);
      if i < |m.StopServing(|m.served|)| {
        StopServingRoles(m, |m.served|, i);
        StopsFirst(m, i);
      }
    }
    if i < |m.Returning()| {
      ReturningAlone(m, i);
    } else if i < |m.Resuming()| {
      ReopeningIsPlain(m, i - |m.Returning()|);
    }
  }

  lemma StopsFirst(m: Subject, i: nat)
    requires i < |m.StopServing(|m.served|)|
    ensures i < |m.Suspending()| && m.Suspending()[i] == m.StopServing(|m.served|)[i]
  {
  }

  /** The last command of a program marks the node, and events change no status. */
  lemma {:induction false} MarkedAtEnd(prog: Program, s: State, run: seq<Action>, n: NodeId, st: NodeStatus)
    requires prog != [] && prog[|prog| - 1] == Mark(n, st)
    ensures var (t, pc) := Exec(prog, s, 0, run); pc == |prog| ==> n in t.status && t.status[n] == st
  {
    var inv := (t: State, i: nat) => i == |prog| ==> n in t.status && t.status[n] == st;
    InvariantRule(prog, s, 0, run, inv);
  }

  lemma {:induction false} NothingMarked(prog: Program, s: State, run: seq<Action>)
    requires forall i :: 0 <= i < |prog| ==> prog[i].AddPath?
    ensures Exec(prog, s, 0, run).0.status == s.status
  {
    hide Enabled;
    var inv := (t: State, i: nat) => t.status == s.status;
    InvariantRule(prog, s, 0, run, inv);
  }

  /** The path table after a complete suspension: the node's own listeners are gone, those of an online
      secondary are back on standby, those for the primaries it serves are closed, all others are as they
      were; and the node is suspended. */
  lemma {:induction false} SuspendedTable(m: Subject, s: State, run: seq<Action>)
    requires m.WellFormed() && s.pending == map[] && Exec(m.Suspending(), s, 0, run).1 == |m.Suspending()|
    ensures var t := Exec(m.Suspending(), s, 0, run).0;
      && m.node in t.status && t.status[m.node] == Suspended
      && forall p :: Look(t.paths, p) ==
           if m.IsOwn(p) then None
           else if m.IsPartners(p) then Standby(Look(s.paths, p))
           else if m.IsServed(p) then Closed(Look(s.paths, p))
           else Look(s.paths, p)
  {
    var prog := m.Suspending();
    assert prog[|prog| - 1] == Mark(m.node, Suspended);
    MarkedAtEnd(prog, s, run, m.node, Suspended);
    hide m.Suspending, Exec, Fate, m.OwnPaths, m.PartnerPaths, Look, InServed;
    hide m.IsOwn, m.IsPartners, m.IsServed;
    forall i | 0 <= i < |prog| ensures Plain(prog[i]) && !prog[i].AddPath? {
      SuspendingIsPlain(m, i);
    }
    PathsFollow(prog, s, run);
    assert prog[..|prog|] == prog;
    forall p ensures Look(Exec(prog, s, 0, run).0.paths, p) ==
           if m.IsOwn(p) then None
           else if m.IsPartners(p) then Standby(Look(s.paths, p))
           else if m.IsServed(p) then Closed(Look(s.paths, p))
           else Look(s.paths, p)
    {
      FateSuspending(m, p, Look(s.paths, p));
      ListsAre(m, p);
      ServedIs(m, p);
    }
  }

  /** And after a complete resumption: the node's own listeners are optimized, those of an online secondary
      and those for the primaries it serves are on standby, and the node is online. */
  lemma {:induction false} ResumedTable(m: Subject, s: State, run: seq<Action>)
    requires m.WellFormed() && m.secondary.Some? && s.pending == map[] && m.node !in s.dead
    requires Exec(m.Resuming(), s, 0, run).1 == |m.Resuming()|
    ensures var t := Exec(m.Resuming(), s, 0, run).0;
      && m.node in t.status && t.status[m.node] == Online
      && forall p :: Look(t.paths, p) ==
           if m.IsOwn(p) then Some(Optimized)
           else if m.IsPartners(p) || m.IsServed(p) then Standby(Look(s.paths, p))
           else Look(s.paths, p)
  {
    var prog := m.Resuming();
    ResumingEnds(m);
    MarkedAtEnd(prog, s, run, m.node, Online);
    hide m.Resuming, Exec, Fate, m.OwnPaths, m.PartnerPaths, Look, InServed;
    hide m.IsOwn, m.IsPartners, m.IsServed;
    forall i | 0 <= i < |prog| ensures Plain(prog[i]) && (prog[i].AddPath? ==> prog[i].path.node !in s.dead) {
      ResumingIsPlain(m, i);
    }
    PathsFollow(prog, s, run);
    assert prog[..|prog|] == prog;
    forall p ensures Look(Exec(prog, s, 0, run).0.paths, p) ==
           if m.IsOwn(p) then Some(Optimized)
           else if m.IsPartners(p) || m.IsServed(p) then Standby(Look(s.paths, p))
           else Look(s.paths, p)
    {
      FateResuming(m, p, Look(s.paths, p));
      ListsAre(m, p);
      ServedIs(m, p);
    }
  }

  lemma ResumingEnds(m: Subject)
    requires m.secondary.Some?
    ensures m.Resuming() != [] && m.Resuming()[|m.Resuming()| - 1] == Mark(m.node, Online)
  {
    hide m.Returning, m.ReopenPartner, m.Serve;
  }

  lemma CrashedProgram(m: Subject)
    requires m.secondary.None?
    ensures m.Resuming() == Each(Create(Optimized), m.OwnPaths())
  {
    hide m.OwnPaths;
    assert m.ClosePartner() == [] && m.DemotePartner() == [];
    assert m.Returning() == m.CreateOwn();
    hide m.Returning;
    assert m.Reopening() == [];
  }

  /** Without a secondary record a resumption leaves the node's own listeners optimized, touches nothing
      else and does not note that the node is online. */
  lemma {:induction false} CrashedTable(m: Subject, s: State, run: seq<Action>)
    requires m.WellFormed() && m.secondary.None? && s.pending == map[] && m.node !in s.dead
    requires Exec(m.Resuming(), s, 0, run).1 == |m.Resuming()|
    ensures var t := Exec(m.Resuming(), s, 0, run).0;
      t.status == s.status && forall p :: Look(t.paths, p) == if m.IsOwn(p) then Some(Optimized) else Look(s.paths, p)
  {
    hide m.Resuming, Exec, Fate, m.OwnPaths, Look, m.IsOwn, m.WellFormed;
    var prog := m.Resuming();
    CrashedProgram(m);
    NothingMarked(prog, s, run);
    forall i | 0 <= i < |prog| ensures Plain(prog[i]) && (prog[i].AddPath? ==> prog[i].path.node !in s.dead) {
      ResumingIsPlain(m, i);
    }
    PathsFollow(prog, s, run);
    assert prog[..|prog|] == prog;
    forall p ensures Look(Exec(prog, s, 0, run).0.paths, p) == if m.IsOwn(p) then Some(Optimized) else Look(s.paths, p) {
      FateEach(Create(Optimized), m.OwnPaths(), p, Look(s.paths, p));
      ListsAre(m, p);
    }
  }
}
