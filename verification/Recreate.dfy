/**
 recreate_lvstore: a restarted primary takes its lvstore back from its secondary, while clients
 may make either node take leadership at any moment.
 */
module Recreate {
  import opened Records
  import opened Fabric
  import opened Control

  /** What one call meets: the secondary's status as read at its start, and how recovery goes. */
  datatype Call = Call(
    primary: NodeId,
    secondary: NodeId,
    lvs: LvstoreName,
    secStatus: NodeStatus,
    lvols: seq<Lvol>,
    nics: seq<string>,
    recovered: bool,
    force: bool)
  {
    function P(): Role { Role(primary, lvs) }
    function S(): Role { Role(secondary, lvs) }

    /** The restart is held back: nobody can tell whether the secondary still leads. */
    predicate HeldBack() { secStatus.Unreachable? && lvols != [] }

    /** The store came back, or the caller insists. */
    predicate Promotes() { recovered || force }

    function PathState(): Ana { if HeldBack() then Inaccessible else Optimized }

    function Hold(): Program { if HeldBack() then [Mark(primary, Suspended)] else [] }

    /** Block the secondary's port, then take its leadership away. */
    function Fence(): Program { if secStatus.Online? then [Block(S()), Demote(S()), Demote(S())] else [] }

    function Before(): Program { Hold() + Fence() + [Demote(P())] }

    function Release(): Program { if secStatus.Online? || secStatus.Down? then [Allow(S())] else [] }

    function Attempt(): Program {
      if Promotes() then [Lead(P())] + Each(Hand(PathState()), PathsOf(primary, lvols, nics)) + Release()
      else [Kill(primary), Mark(primary, Offline)]
    }

    /** The commands the call issues once the block-device stack is there. */
    function Issues(): Program { Before() + Attempt() }
  }

  datatype Result = StackFailed | Raised | SuspendedInstead | Done

  /** Blocks the secondary's port and demotes it, if it is online. */
  method FenceSecondary(c: Controller, x: Call)
    modifies c
    ensures c.issued == old(c.issued) + x.Fence()
  {
    if x.secStatus.Online? {
      c.Issue(Block(x.S()));
      c.Issue(Demote(x.S()));
      c.Issue(Demote(x.S()));
    }
  }

  method RecreateLvstore(c: Controller, x: Call, stackBuilt: bool) returns (r: Result)
    modifies c
    ensures c.issued == old(c.issued) + if stackBuilt then x.Issues() else []
    ensures r == if !stackBuilt then StackFailed
                 else if !x.recovered && !x.force then Raised
                 else if x.secStatus == Unreachable && x.lvols != [] then SuspendedInstead
                 else Done
  {
    hide x.Attempt, x.Before;
    if !stackBuilt {
      return StackFailed;
    }
    var primNodeSuspend, lvolAnaState := ClearTheWay(c, x);
    if !x.recovered && !x.force {
      KillApp(c, x);
      return Raised;
    }
    Finish(c, x, lvolAnaState);
    return if primNodeSuspend then SuspendedInstead else Done;
  }

  /** What comes before the recovery: is the restart held back, is there a secondary to fence? */
  method ClearTheWay(c: Controller, x: Call) returns (primNodeSuspend: bool, lvolAnaState: Ana)
    modifies c
    ensures c.issued == old(c.issued) + x.Before()
    ensures primNodeSuspend == x.HeldBack() && lvolAnaState == x.PathState()
  {
    hide x.Fence;
    primNodeSuspend := x.secStatus.Unreachable?;
    if x.lvols == [] {
      primNodeSuspend := false;
    }
    lvolAnaState := Optimized;
    if primNodeSuspend {
      c.Issue(Mark(x.primary, Suspended));
      lvolAnaState := Inaccessible;
    }
    FenceSecondary(c, x);
    c.Issue(Demote(x.P()));
  }

  /** Stops the process of a primary that did not recover its lvstore. */
  method KillApp(c: Controller, x: Call)
    requires !x.Promotes()
    modifies c
    ensures c.issued == old(c.issued) + x.Attempt()
  {
    c.Issue(Kill(x.primary));
    c.Issue(Mark(x.primary, Offline));
  }

  /** Promotes the primary, hands out its listeners and lets the secondary's clients back in. */
  method Finish(c: Controller, x: Call, lvolAnaState: Ana)
    requires x.Promotes() && lvolAnaState == x.PathState()
    modifies c
    ensures c.issued == old(c.issued) + x.Attempt()
  {
    c.Issue(Lead(x.P()));
    c.ForPaths(Hand(lvolAnaState), x.primary, x.lvols, x.nics);
    if x.secStatus.Online? || x.secStatus.Down? {
      c.Issue(Allow(x.S()));
    }
  }

  // ---------------------------------------------------------------- with the secondary online

  /** Only the two nodes of the pair have anything to do with the lvstore. */
  ghost predicate PairOnly(x: Call, s: State) {
    forall n {:trigger Quiet(s, Role(n, x.lvs))} :: n != x.primary && n != x.secondary ==> Quiet(s, Role(n, x.lvs))
  }

  /** The port of the secondary is closed: from the block until the final allow, or for good if
      the call raises. */
  predicate Fenced(x: Call, pc: nat) {
    1 <= pc && (pc < |x.Issues()| || !x.Promotes())
  }

  ghost predicate Safe(x: Call, s: State, pc: nat) {
    && OneLeader(s) && PairOnly(x, s)
    && (Fenced(x, pc) ==> x.S() in s.blocked)
    && (2 <= pc && Fenced(x, pc) ==> x.S() !in s.leaders)
    && (pc == |x.Issues()| && x.Promotes() ==> x.S() !in s.blocked)
    && (5 <= pc && !x.Promotes() ==> x.primary in s.dead && x.P() !in s.leaders)
    && (6 <= pc && !x.Promotes() ==> x.primary in s.status && s.status[x.primary] == Offline)
  }

  /** Which command comes when, with the secondary online. */
  lemma OnlineProgram(x: Call, i: nat)
    requires x.secStatus.Online? && i < |x.Issues()|
    ensures 6 <= |x.Issues()|
    ensures i == 0 ==> x.Issues()[i] == Block(x.S())
    ensures i == 1 || i == 2 ==> x.Issues()[i] == Demote(x.S())
    ensures i == 3 ==> x.Issues()[i] == Demote(x.P())
    ensures i == 4 ==> x.Issues()[i] == if x.Promotes() then Lead(x.P()) else Kill(x.primary)
    ensures x.Promotes() && 5 <= i ==>
      if i + 1 == |x.Issues()| then x.Issues()[i] == Allow(x.S())
      else x.Issues()[i].Submit? && x.Issues()[i].path.node == x.primary
    ensures !x.Promotes() ==> |x.Issues()| == 6 && (i == 5 ==> x.Issues()[i] == Mark(x.primary, Offline))
  {
    hide x.Attempt, x.Before, x.Promotes;
    OnlineBefore(x);
    OnlineAttempt(x);
    if 4 <= i {
      assert x.Issues()[i] == x.Attempt()[i - 4];
      if x.Promotes() && 5 <= i && i + 1 < |x.Issues()| { OnlineListener(x, i - 4); }
    } else {
      assert x.Issues()[i] == x.Before()[i];
    }
  }

  lemma OnlineBefore(x: Call)
    requires x.secStatus.Online?
    ensures x.Before() == [Block(x.S()), Demote(x.S()), Demote(x.S()), Demote(x.P())]
  {
  }

  lemma OnlineAttempt(x: Call)
    requires x.secStatus.Online?
    ensures 2 <= |x.Attempt()|
    ensures x.Attempt()[0] == if x.Promotes() then Lead(x.P()) else Kill(x.primary)
    ensures x.Promotes() ==> x.Attempt()[|x.Attempt()| - 1] == Allow(x.S())
    ensures !x.Promotes() ==> x.Attempt() == [Kill(x.primary), Mark(x.primary, Offline)]
  {
    hide Each, PathsOf;
  }

  lemma OnlineListener(x: Call, j: nat)
    requires x.secStatus.Online? && x.Promotes() && 1 <= j && j + 1 < |x.Attempt()|
    ensures x.Attempt()[j].Submit? && x.Attempt()[j].path.node == x.primary
  {
    var ps := PathsOf(x.primary, x.lvols, x.nics);
    PathsServe(x.primary, x.lvols, x.nics);
    assert x.Attempt()[j] == Each(Hand(x.PathState()), ps)[j - 1];
    assert ps[j - 1] in ps;
  }

  lemma {:induction false} CommandKeepsSafe(x: Call, s: State, i: nat)
    requires x.secStatus.Online? && x.primary != x.secondary && i < |x.Issues()| && Safe(x, s, i)
    ensures Safe(x, Apply(s, x.Issues()[i]), i + 1)
  {
    OnlineProgram(x, i);
    var c := x.Issues()[i];
    forall n | n != x.primary && n != x.secondary ensures Quiet(Apply(s, c), Role(n, x.lvs)) {
      assert Quiet(s, Role(n, x.lvs));
      CommandKeepsQuiet(s, c, Role(n, x.lvs));
    }
    if c.Lead? {
      forall q | q in s.leaders && q.lvs == x.lvs ensures q == x.P() {
        assert q.node != x.primary && q.node != x.secondary ==> Quiet(s, Role(q.node, x.lvs));
      }
    } else {
      CommandKeepsOneLeader(s, c);
    }
  }

  lemma EventKeepsSafe(x: Call, s: State, i: nat, e: Event)
    requires x.secStatus.Online? && Safe(x, s, i) && Enabled(s, e)
    ensures Safe(x, Happen(s, e), i)
  {
    EventKeepsOneLeader(s, e);
    forall n | n != x.primary && n != x.secondary ensures Quiet(Happen(s, e), Role(n, x.lvs)) {
      assert Quiet(s, Role(n, x.lvs));
      EventKeepsQuiet(s, e, Role(n, x.lvs));
    }
  }

  lemma {:induction false} SafeThroughout(x: Call, s: State, run: seq<Action>)
    requires x.secStatus.Online? && x.primary != x.secondary && OneLeader(s) && PairOnly(x, s)
    ensures var (t, pc) := Exec(x.Issues(), s, 0, run); Safe(x, t, pc)
  {
    var inv := (t: State, i: nat) => Safe(x, t, i);
    forall t: State, i: nat | i < |x.Issues()| && inv(t, i) ensures inv(Apply(t, x.Issues()[i]), i + 1) {
      CommandKeepsSafe(x, t, i);
    }
    forall t: State, i: nat, e: Event | i <= |x.Issues()| && inv(t, i) && Enabled(t, e) ensures inv(Happen(t, e), i) {
      EventKeepsSafe(x, t, i, e);
    }
    InvariantRule(x.Issues(), s, 0, run, inv);
  }

  /** However clients and commands interleave, the two nodes never lead together. */
  lemma NeverTwoLeaders(x: Call, s: State, run: seq<Action>)
    requires x.secStatus.Online? && x.primary != x.secondary && OneLeader(s) && PairOnly(x, s)
    ensures OneLeader(Exec(x.Issues(), s, 0, run).0)
  {
    SafeThroughout(x, s, run);
  }

  /** From the demotion of the secondary to the promotion of the primary, and on to the final
      allow, the secondary's port is blocked and it does not lead; a normal return has unblocked it. */
  lemma PromotedBehindBlockedPort(x: Call, s: State, run: seq<Action>)
    requires x.secStatus.Online? && x.primary != x.secondary && OneLeader(s) && PairOnly(x, s)
    ensures var (t, pc) := Exec(x.Issues(), s, 0, run);
      && x.Issues()[1] == Demote(x.S()) && (x.recovered || x.force ==> x.Issues()[4] == Lead(x.P()))
      && (2 <= pc < |x.Issues()| ==> x.S() in t.blocked && x.S() !in t.leaders)
      && (pc == |x.Issues()| && (x.recovered || x.force) ==> x.S() !in t.blocked)
  {
    OnlineProgram(x, 1);
    OnlineProgram(x, 4);
    SafeThroughout(x, s, run);
  }

  /** A recovery failure leaves the primary killed, offline and not leading. It also leaves the
      secondary's port blocked: nobody leads the lvstore and nobody can come to lead it. */
  lemma RaisedLeavesNobody(x: Call, s: State, run: seq<Action>)
    requires x.secStatus.Online? && x.primary != x.secondary && OneLeader(s) && PairOnly(x, s) && !x.recovered && !x.force
    ensures var (t, pc) := Exec(x.Issues(), s, 0, run);
      pc == |x.Issues()| ==>
        && x.primary in t.dead && x.primary in t.status && t.status[x.primary] == Offline
        && x.S() in t.blocked
        && forall r: Role :: r.lvs == x.lvs ==> Quiet(t, r)
  {
    OnlineProgram(x, 0);
    SafeThroughout(x, s, run);
    var (t, pc) := Exec(x.Issues(), s, 0, run);
    if pc == |x.Issues()| {
      forall r: Role | r.lvs == x.lvs ensures Quiet(t, r) {
        assert r.node != x.primary && r.node != x.secondary ==> Quiet(t, Role(r.node, x.lvs));
        assert r == Role(r.node, x.lvs);
      }
    }
  }

  // ---------------------------------------------------------------- with the secondary not online

  lemma AttemptShape(x: Call, j: nat)
    requires x.Promotes() && 1 <= j < |x.Attempt()|
    ensures x.Attempt()[0] == Lead(x.P())
    ensures x.Attempt()[j] == Allow(x.S()) || (x.Attempt()[j].Submit? && x.Attempt()[j].path.node == x.primary)
  {
    var ps := PathsOf(x.primary, x.lvols, x.nics);
    PathsServe(x.primary, x.lvols, x.nics);
    if j - 1 < |ps| {
      assert x.Attempt()[j] == Each(Hand(x.PathState()), ps)[j - 1];
      assert ps[j - 1] in ps;
    }
  }

  /** Where the promotion stands when no fence is issued. */
  lemma {:induction false} UnfencedProgram(x: Call)
    requires !x.secStatus.Online? && x.Promotes()
    ensures var at := |x.Before()|;
      1 <= at < |x.Issues()| && x.Issues()[at - 1] == Demote(x.P()) && x.Issues()[at] == Lead(x.P())
      && (forall i :: 0 <= i < at - 1 ==> x.Issues()[i].Mark?)
      && (forall i :: at < i < |x.Issues()| ==>
            x.Issues()[i] == Allow(x.S()) || (x.Issues()[i].Submit? && x.Issues()[i].path.node == x.primary))
  {
    var at := |x.Before()|;
    assert x.Issues()[at] == x.Attempt()[0];
    hide *;
    forall i | at < i < |x.Issues()|
      ensures x.Issues()[i] == Allow(x.S()) || (x.Issues()[i].Submit? && x.Issues()[i].path.node == x.primary)
    {
      TailOfIssues(x, i);
    }
  }

  lemma TailOfIssues(x: Call, i: nat)
    requires x.Promotes() && |x.Before()| < i < |x.Issues()|
    ensures x.Issues()[i] == Allow(x.S()) || (x.Issues()[i].Submit? && x.Issues()[i].path.node == x.primary)
  {
    hide x.Attempt, x.Before, x.P, x.S, x.Promotes;
    AttemptShape(x, i - |x.Before()|);
    assert x.Issues()[i] == x.Attempt()[i - |x.Before()|];
  }

  ghost predicate UnfencedSafe(x: Call, s: State, i: nat) {
    OneLeader(s) && PairOnly(x, s) && (i <= |x.Before()| ==> Quiet(s, x.S()))
  }

  lemma {:induction false} UnfencedCommand(x: Call, s: State, i: nat)
    requires !x.secStatus.Online? && x.Promotes() && x.primary != x.secondary
    requires i < |x.Issues()| && UnfencedSafe(x, s, i)
    ensures UnfencedSafe(x, Apply(s, x.Issues()[i]), i + 1)
  {
    UnfencedProgram(x);
    var c := x.Issues()[i];
    hide Quiet;
    forall n | n != x.primary && n != x.secondary ensures Quiet(Apply(s, c), Role(n, x.lvs)) {
      assert Quiet(s, Role(n, x.lvs));
      CommandKeepsQuiet(s, c, Role(n, x.lvs));
    }
    if i < |x.Before()| {
      CommandKeepsQuiet(s, c, x.S());
    }
    if c.Lead? {
      LeadIsSafe(x, s);
    } else {
      CommandKeepsOneLeader(s, c);
    }
  }

  /** Promoting the primary is safe while everybody else is quiet. */
  lemma LeadIsSafe(x: Call, s: State)
    requires OneLeader(s) && PairOnly(x, s) && Quiet(s, x.S())
    ensures OneLeader(Apply(s, Lead(x.P())))
  {
    forall q | q in s.leaders && q.lvs == x.lvs ensures q == x.P() {
      assert q.node != x.primary && q.node != x.secondary ==> Quiet(s, Role(q.node, x.lvs));
    }
  }

  lemma UnfencedEvent(x: Call, s: State, i: nat, e: Event)
    requires UnfencedSafe(x, s, i) && Enabled(s, e)
    ensures UnfencedSafe(x, Happen(s, e), i)
  {
    hide Quiet, Enabled;
    EventKeepsOneLeader(s, e);
    forall n | n != x.primary && n != x.secondary ensures Quiet(Happen(s, e), Role(n, x.lvs)) {
      assert Quiet(s, Role(n, x.lvs));
      EventKeepsQuiet(s, e, Role(n, x.lvs));
    }
    if i <= |x.Before()| {
      EventKeepsQuiet(s, e, x.S());
    }
  }

  lemma QuietSecondaryIsSafe(x: Call, s: State, run: seq<Action>)
    requires !x.secStatus.Online? && x.Promotes() && x.primary != x.secondary
    requires OneLeader(s) && PairOnly(x, s) && Quiet(s, x.S())
    ensures OneLeader(Exec(x.Issues(), s, 0, run).0)
  {
    var inv := (t: State, i: nat) => UnfencedSafe(x, t, i);
    forall t: State, i: nat | i < |x.Issues()| && inv(t, i) ensures inv(Apply(t, x.Issues()[i]), i + 1) {
      UnfencedCommand(x, t, i);
    }
    forall t: State, i: nat, e: Event | i <= |x.Issues()| && inv(t, i) && Enabled(t, e) ensures inv(Happen(t, e), i) {
      UnfencedEvent(x, t, i, e);
    }
    InvariantRule(x.Issues(), s, 0, run, inv);
  }

  /** Until just before the promotion; then the secondary takes leadership; then the promotion. */
  function Split(n: nat, e: Event): seq<Action> {
    if n == 0 then [Env(e), Next] else [Next] + Split(n - 1, e)
  }

  lemma {:induction false} SplitRuns(x: Call, s: State, pc: nat)
    requires !x.secStatus.Online? && x.Promotes() && x.primary != x.secondary && x.primary !in s.dead
    requires pc <= |x.Before()| && (pc == |x.Before()| ==> x.P() !in s.leaders)
    requires OneLeader(s) && PairOnly(x, s) && (x.S() in s.leaders || OpenPath(s, x.S()))
    ensures !OneLeader(Exec(x.Issues(), s, pc, Split(|x.Before()| - pc, Take(x.S()))).0)
    decreases |x.Before()| - pc
  {
    hide Quiet, OneLeader, PairOnly, OpenPath, x.Issues, x.Before, x.Promotes, Apply, Exec;
    UnfencedProgram(x);
    var run := Split(|x.Before()| - pc, Take(x.S()));
    if pc < |x.Before()| {
      var c := x.Issues()[pc];
      StillOpen(x, s, c);
      NextFirst(x.Issues(), s, pc, Split(|x.Before()| - (pc + 1), Take(x.S())));
      SplitRuns(x, Apply(s, c), pc + 1);
    } else {
      SplitEnds(x, s, pc);
    }
  }

  lemma NextFirst(prog: Program, s: State, pc: nat, rest: seq<Action>)
    requires pc < |prog|
    ensures Exec(prog, s, pc, [Next] + rest) == Exec(prog, Apply(s, prog[pc]), pc + 1, rest)
  {
    assert ([Next] + rest)[1..] == rest;
  }

  lemma {:induction false} StillOpen(x: Call, s: State, c: Command)
    requires c.Mark? || c == Demote(x.P())
    requires OneLeader(s) && PairOnly(x, s) && (x.S() in s.leaders || OpenPath(s, x.S())) && x.primary != x.secondary
    ensures var t := Apply(s, c);
      OneLeader(t) && PairOnly(x, t) && (x.S() in t.leaders || OpenPath(t, x.S())) && t.dead == s.dead
      && (c == Demote(x.P()) ==> x.P() !in t.leaders)
  {
    forall n | n != x.primary && n != x.secondary ensures Quiet(Apply(s, c), Role(n, x.lvs)) {
      assert Quiet(s, Role(n, x.lvs));
      CommandKeepsQuiet(s, c, Role(n, x.lvs));
    }
  }

  lemma {:induction false} SplitEnds(x: Call, s: State, pc: nat)
    requires pc < |x.Issues()| && x.Issues()[pc] == Lead(x.P()) && x.primary != x.secondary && x.primary !in s.dead
    requires OneLeader(s) && PairOnly(x, s) && x.P() !in s.leaders && (x.S() in s.leaders || OpenPath(s, x.S()))
    ensures !OneLeader(Exec(x.Issues(), s, pc, Split(0, Take(x.S()))).0)
  {
    forall q | q in s.leaders && q.lvs == x.lvs ensures q == x.S() {
      assert q.node != x.primary && q.node != x.secondary ==> Quiet(s, Role(q.node, x.lvs));
    }
    var run := Split(0, Take(x.S()));
    assert run == [Env(Take(x.S())), Next] && run[1..] == [Next] && run[1..][1..] == [];
    var t := if Enabled(s, Take(x.S())) then Happen(s, Take(x.S())) else s;
    assert x.S() in t.leaders;
    var u := Apply(t, Lead(x.P()));
    assert x.S() in u.leaders && x.P() in u.leaders;
    assert Exec(x.Issues(), s, pc, run) == Exec(x.Issues(), t, pc, [Next]);
    assert Exec(x.Issues(), t, pc, [Next]) == (u, pc + 1);
  }

  /** A run in which two nodes lead, for a secondary that is not quiet: if it only has a listener on
      its way, that one gets there first. */
  lemma {:induction false} UnquietIsUnsafe(x: Call, s: State) returns (run: seq<Action>)
    requires !x.secStatus.Online? && x.Promotes() && x.primary != x.secondary && x.primary !in s.dead
    requires OneLeader(s) && PairOnly(x, s) && !Quiet(s, x.S())
    ensures !OneLeader(Exec(x.Issues(), s, 0, run).0)
  {
    hide Quiet, PairOnly, OneLeader, Exec, Split, OpenPath, x.Issues, x.Before, x.Promotes;
    UnfencedProgram(x);
    var rest := Split(|x.Before()|, Take(x.S()));
    if x.S() in s.leaders || OpenPath(s, x.S()) {
      run := rest;
      SplitRuns(x, s, 0);
    } else {
      var p := OnItsWay(s, x.S());
      run := [Env(Attach(p))] + rest;
      AttachKeeps(x, s, p);
      SplitRuns(x, Happen(s, Attach(p)), 0);
      EventFirst(x.Issues(), s, Attach(p), rest);
    }
  }

  lemma EventFirst(prog: Program, s: State, e: Event, rest: seq<Action>)
    requires Enabled(s, e)
    ensures Exec(prog, s, 0, [Env(e)] + rest) == Exec(prog, Happen(s, e), 0, rest)
  {
    assert ([Env(e)] + rest)[1..] == rest;
  }

  lemma OnItsWay(s: State, r: Role) returns (p: Path)
    requires !Quiet(s, r) && r !in s.leaders && !OpenPath(s, r)
    ensures p in s.pending && p.node !in s.dead && Enabled(s, Attach(p)) && OpenPath(Happen(s, Attach(p)), r)
  {
    p :| p in s.pending && Serves(p, r) && s.pending[p] != Inaccessible;
    assert p in Happen(s, Attach(p)).paths;
  }

  lemma AttachKeeps(x: Call, s: State, p: Path)
    requires OneLeader(s) && PairOnly(x, s) && Enabled(s, Attach(p))
    ensures var t := Happen(s, Attach(p)); OneLeader(t) && PairOnly(x, t) && t.dead == s.dead && t.leaders == s.leaders
  {
    hide Quiet;
    forall n | n != x.primary && n != x.secondary ensures Quiet(Happen(s, Attach(p)), Role(n, x.lvs)) {
      assert Quiet(s, Role(n, x.lvs));
      EventKeepsQuiet(s, Attach(p), Role(n, x.lvs));
    }
  }

  /** When the secondary is not online nobody demotes it. The promotion is then safe in every
      interleaving exactly if the secondary neither leads nor, port and process permitting, has an
      accessible listener or one on its way. */
  lemma {:induction false} UnfencedSafeIff(x: Call, s: State)
    requires !x.secStatus.Online? && (x.recovered || x.force) && x.primary != x.secondary && x.primary !in s.dead
    requires OneLeader(s) && PairOnly(x, s)
    ensures (forall run: seq<Action> :: OneLeader(Exec(x.Issues(), s, 0, run).0)) <==> Quiet(s, x.S())
  {
    assert x.Promotes();
    hide Quiet, PairOnly, OneLeader, x.Issues, x.Promotes;
    if Quiet(s, x.S()) {
      forall run: seq<Action> ensures OneLeader(Exec(x.Issues(), s, 0, run).0) {
        QuietSecondaryIsSafe(x, s, run);
      }
    } else {
      var run := UnquietIsUnsafe(x, s);
      assert !OneLeader(Exec(x.Issues(), s, 0, run).0);
    }
  }

  // ---------------------------------------------------------------- a restart held back

  /** Every command of a held-back call leaves the primary without an accessible path. */
  lemma HeldBackProgram(x: Call, i: nat)
    requires x.HeldBack() && i < |x.Issues()|
    ensures var c := x.Issues()[i]; c.Lead? || Harmless(c, x.P())
    ensures x.Issues()[0] == Mark(x.primary, Suspended)
    ensures 0 < i && x.Promotes() ==> !x.Issues()[i].Mark?
  {
    hide x.Attempt, x.Before, x.Promotes;
    HeldBackBefore(x);
    if 2 <= i {
      assert x.Issues()[i] == x.Attempt()[i - 2];
      HeldBackAttempt(x, i - 2);
    } else {
      assert x.Issues()[i] == x.Before()[i];
    }
    assert x.Issues()[0] == x.Before()[0];
  }

  lemma HeldBackBefore(x: Call)
    requires x.HeldBack()
    ensures x.Before() == [Mark(x.primary, Suspended), Demote(x.P())]
  {
  }

  lemma HeldBackAttempt(x: Call, j: nat)
    requires x.HeldBack() && j < |x.Attempt()|
    ensures var c := x.Attempt()[j]; c.Lead? || Harmless(c, x.P())
    ensures x.Promotes() ==> !x.Attempt()[j].Mark?
  {
    var ps := PathsOf(x.primary, x.lvols, x.nics);
    if x.Promotes() && 1 <= j {
      assert |x.Attempt()| == 1 + |ps|;
      assert x.Attempt()[j] == Each(Hand(x.PathState()), ps)[j - 1];
    }
  }

  ghost predicate Held(x: Call, s: State, i: nat) {
    NoOpen(s, x.P()) && (1 <= i ==> x.primary in s.status && s.status[x.primary] == Suspended)
  }

  /** With the secondary unreachable and lvols to serve, the primary is marked suspended and gets
      no accessible path, neither by the call's commands nor by the threads it submits. */
  lemma HeldBackStaysClosed(x: Call, s: State, run: seq<Action>)
    requires x.secStatus == Unreachable && x.lvols != [] && (x.recovered || x.force) && NoOpen(s, x.P())
    ensures var (t, pc) := Exec(x.Issues(), s, 0, run);
      Held(x, t, pc)
  {
    assert x.HeldBack() && x.Promotes();
    hide Apply, Happen, Enabled, Held, x.Issues, x.HeldBack, x.Promotes;
    HeldAtStart(x, s);
    var inv := (t: State, i: nat) => Held(x, t, i);
    forall t: State, i: nat | i < |x.Issues()| && inv(t, i) ensures inv(Apply(t, x.Issues()[i]), i + 1) {
      HeldCommand(x, t, i);
    }
    forall t: State, i: nat, e: Event | i <= |x.Issues()| && inv(t, i) && Enabled(t, e) ensures inv(Happen(t, e), i) {
      HeldEvent(x, t, i, e);
    }
    InvariantRule(x.Issues(), s, 0, run, inv);
  }

  lemma HeldAtStart(x: Call, s: State)
    requires NoOpen(s, x.P())
    ensures Held(x, s, 0)
  {
  }

  lemma {:induction false} HeldCommand(x: Call, s: State, i: nat)
    requires x.HeldBack() && x.Promotes() && i < |x.Issues()| && Held(x, s, i)
    ensures Held(x, Apply(s, x.Issues()[i]), i + 1)
  {
    hide x.Issues, x.HeldBack, x.Promotes;
    HeldBackProgram(x, i);
  }

  lemma HeldEvent(x: Call, s: State, i: nat, e: Event)
    requires Held(x, s, i) && Enabled(s, e)
    ensures Held(x, Happen(s, e), i)
  {
  }
}
