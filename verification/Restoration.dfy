/**
 What recreate_lvstore achieves, told from what the call meets: the primary's listeners, the two ports
 and the statuses when the call has issued its last command, in every interleaving.
 */
module Restoration {
  import opened Records
  import opened Fabric
  import opened Recreate

  // ---------------------------------------------------------------- the commands

  /** The commands before the recovery: a mark of suspension, a fence, the primary's own demotion. */
  lemma BeforeHolds(x: Call, i: nat)
    requires i < |x.Before()|
    ensures var c := x.Before()[i];
      || (c == Mark(x.primary, Suspended) && x.secStatus == Unreachable && x.lvols != [] && i == 0)
      || (c == Block(x.S()) && x.secStatus == Online && i == 0)
      || (c == Demote(x.S()) && x.secStatus == Online)
      || c == Demote(x.P())
    ensures i == 0 && x.secStatus == Online ==> x.Before()[i] == Block(x.S())
    ensures i == 0 && x.secStatus == Unreachable && x.lvols != [] ==> x.Before()[i] == Mark(x.primary, Suspended)
    ensures x.Before()[|x.Before()| - 1] == Demote(x.P())
  {
  }

  /** The commands after a recovery that succeeded or was forced. */
  lemma AttemptHolds(x: Call, j: nat)
    requires (x.recovered || x.force) && j < |x.Attempt()|
    ensures var c := x.Attempt()[j]; var ana := if x.secStatus == Unreachable && x.lvols != [] then Inaccessible else Optimized;
      if j == 0 then c == Lead(x.P())
      else if j == |x.Attempt()| - 1 && (x.secStatus == Online || x.secStatus == Down) then c == Allow(x.S())
      else c.Submit? && c.ana == ana && c.path in PathsOf(x.primary, x.lvols, x.nics)
  {
    var ps := PathsOf(x.primary, x.lvols, x.nics);
    if 1 <= j && j - 1 < |ps| {
      assert x.Attempt()[j] == Each(Hand(x.PathState()), ps)[j - 1];
    }
  }

  /** Every listener of the primary is handed out. */
  lemma AttemptHands(x: Call, p: Path) returns (j: nat)
    requires (x.recovered || x.force) && p in PathsOf(x.primary, x.lvols, x.nics)
    ensures j < |x.Attempt()| && x.Attempt()[j].Submit? && x.Attempt()[j].path == p
  {
    var ps := PathsOf(x.primary, x.lvols, x.nics);
    var k :| 0 <= k < |ps| && ps[k] == p;
    j := k + 1;
    assert x.Attempt()[j] == Each(Hand(x.PathState()), ps)[k];
  }

  lemma GivenUp(x: Call)
    requires !x.recovered && !x.force
    ensures x.Attempt() == [Kill(x.primary), Mark(x.primary, Offline)]
  {
  }

  lemma IssuesAre(x: Call, i: nat)
    ensures |x.Issues()| == |x.Before()| + |x.Attempt()| && |x.Before()| > 0
    ensures i < |x.Issues()| ==> x.Issues()[i] == if i < |x.Before()| then x.Before()[i] else x.Attempt()[i - |x.Before()|]
  {
    hide x.Attempt, x.Hold, x.Fence;
  }

  lemma AttemptLength(x: Call)
    ensures |x.Attempt()| >= 1
    ensures (x.recovered || x.force) && (x.secStatus == Online || x.secStatus == Down) ==> |x.Attempt()| >= 2
  {
    hide Each, PathsOf;
  }

  // ---------------------------------------------------------------- listeners

  /** The listener is there and optimized, or a thread that will make it so is on its way. */
  predicate Handed(s: State, p: Path) {
    (p in s.pending && s.pending[p] == Optimized) || (p in s.paths && s.paths[p] == Optimized)
  }

  /** c removes and changes no listener, and hands out optimized ones only. */
  predicate Gentle(c: Command) {
    c.Block? || c.Allow? || c.Lead? || c.Demote? || c.Mark? || (c.Submit? && c.ana == Optimized)
  }

  ghost predicate HandedOut(prog: Program, s: State, i: nat) {
    && i <= |prog|
    && (forall p :: p in s.pending ==> s.pending[p] == Optimized)
    && (forall j :: 0 <= j < i && prog[j].Submit? ==> Handed(s, prog[j].path))
  }

  lemma CommandHands(prog: Program, s: State, i: nat)
    requires i < |prog| && Gentle(prog[i]) && HandedOut(prog, s, i)
    ensures HandedOut(prog, Apply(s, prog[i]), i + 1)
  {
  }

  lemma EventHands(prog: Program, s: State, i: nat, e: Event)
    requires HandedOut(prog, s, i)
    ensures HandedOut(prog, Happen(s, e), i)
  {
  }

  lemma {:induction false} ServingIsGentle(x: Call, i: nat)
    requires (x.recovered || x.force) && !(x.secStatus == Unreachable && x.lvols != []) && i < |x.Issues()|
    ensures Gentle(x.Issues()[i])
  {
    hide x.Issues, x.Before, x.Attempt;
    IssuesAre(x, i);
    if i < |x.Before()| {
      BeforeHolds(x, i);
    } else {
      AttemptHolds(x, i - |x.Before()|);
    }
  }

  /** A restart that is not held back makes its primary reachable: when the call has issued everything, each
      of the node's listeners, one for each lvol and data NIC with an address, is optimized or on its way to be. */
  lemma {:induction false} ListenersAreHandedOut(x: Call, s: State, run: seq<Action>, p: Path)
    requires (x.recovered || x.force) && !(x.secStatus == Unreachable && x.lvols != []) && s.pending == map[]
    requires p.node == x.primary && p.lvol in x.lvols && p.ip in x.nics && p.ip != ""
    ensures var (t, pc) := Exec(x.Issues(), s, 0, run); pc == |x.Issues()| ==> Handed(t, p)
  {
    hide x.Issues, x.Before, x.Attempt, Apply, Happen, Enabled, Handed, Gentle, HandedOut;
    var prog := x.Issues();
    var inv := (t: State, i: nat) => HandedOut(prog, t, i);
    NothingPending(prog, s);
    forall t: State, i: nat | i < |prog| && inv(t, i) ensures inv(Apply(t, prog[i]), i + 1) {
      ServingIsGentle(x, i);
      CommandHands(prog, t, i);
    }
    forall t: State, i: nat, e: Event | i <= |prog| && inv(t, i) && Enabled(t, e) ensures inv(Happen(t, e), i) {
      EventHands(prog, t, i, e);
    }
    InvariantRule(prog, s, 0, run, inv);
    PathsServe(x.primary, x.lvols, x.nics);
    var j := AttemptHands(x, p);
    IssuesAre(x, 0);
    IssuesAre(x, |x.Before()| + j);
    AllHanded(prog, Exec(prog, s, 0, run).0, Exec(prog, s, 0, run).1, |x.Before()| + j);
  }

  lemma NothingPending(prog: Program, s: State)
    requires s.pending == map[]
    ensures HandedOut(prog, s, 0) && |prog| >= 0
  {
  }

  lemma AllHanded(prog: Program, s: State, i: nat, j: nat)
    requires HandedOut(prog, s, i) && j < |prog| && prog[j].Submit?
    ensures i == |prog| ==> Handed(s, prog[j].path)
  {
  }

  // ---------------------------------------------------------------- ports, processes, statuses

  /** Where the ports are blocked and allowed. */
  lemma {:induction false} PortCommands(x: Call, i: nat)
    requires i < |x.Issues()|
    ensures var c := x.Issues()[i]; var last := |x.Issues()| - 1;
      && (c.Block? <==> x.secStatus == Online && i == 0) && (c.Block? ==> c.role == x.S())
      && (c.Allow? <==> (x.recovered || x.force) && (x.secStatus == Online || x.secStatus == Down) && i == last)
      && (c.Allow? ==> c.role == x.S())
  {
    hide x.Issues, x.Before, x.Attempt;
    IssuesAre(x, i);
    AttemptLength(x);
    if i < |x.Before()| {
      BeforeHolds(x, i);
    } else if x.recovered || x.force {
      AttemptHolds(x, i - |x.Before()|);
    } else {
      GivenUp(x);
    }
  }

  /** The secondary's port, and everybody else's, once i commands are issued. */
  ghost predicate Ports(x: Call, s: State, t: State, i: nat) {
    && (forall r :: r != x.S() ==> (r in t.blocked <==> r in s.blocked))
    && (x.S() in t.blocked <==>
          && (x.S() in s.blocked || (x.secStatus == Online && 1 <= i))
          && !((x.recovered || x.force) && (x.secStatus == Online || x.secStatus == Down) && i == |x.Issues()|))
  }

  lemma {:induction false} PortStep(x: Call, s: State, t: State, i: nat)
    requires i < |x.Issues()| && Ports(x, s, t, i)
    ensures Ports(x, s, Apply(t, x.Issues()[i]), i + 1)
  {
    hide x.Issues;
    PortCommands(x, i);
  }

  /** When the call has issued everything, the secondary's port is open if it is online or down and the
      primary was promoted, blocked if it is online and the primary was not, and otherwise as it was; nobody
      else's port has changed. */
  lemma {:induction false} PortsAtEnd(x: Call, s: State, run: seq<Action>)
    requires Exec(x.Issues(), s, 0, run).1 == |x.Issues()|
    ensures var (t, second) := (Exec(x.Issues(), s, 0, run).0, Role(x.secondary, x.lvs));
      && (forall r :: r != second ==> (r in t.blocked <==> r in s.blocked))
      && (second in t.blocked <==>
            if x.recovered || x.force then second in s.blocked && x.secStatus != Online && x.secStatus != Down
            else second in s.blocked || x.secStatus == Online)
  {
    hide x.Issues, Apply, Happen, Enabled, Ports;
    IssuesStart(x, s);
    var inv := (t: State, i: nat) => Ports(x, s, t, i);
    forall t: State, i: nat | i < |x.Issues()| && inv(t, i) ensures inv(Apply(t, x.Issues()[i]), i + 1) {
      PortStep(x, s, t, i);
    }
    forall t: State, i: nat, e: Event | i <= |x.Issues()| && inv(t, i) && Enabled(t, e) ensures inv(Happen(t, e), i) {
      EventKeepsPorts(x, s, t, i, e);
    }
    InvariantRule(x.Issues(), s, 0, run, inv);
    PortsMean(x, s, Exec(x.Issues(), s, 0, run).0, |x.Issues()|);
  }

  lemma PortsMean(x: Call, s: State, t: State, i: nat)
    requires Ports(x, s, t, i) && i == |x.Issues()| > 0
    ensures forall r :: r != Role(x.secondary, x.lvs) ==> (r in t.blocked <==> r in s.blocked)
    ensures Role(x.secondary, x.lvs) in t.blocked <==>
      if x.recovered || x.force then Role(x.secondary, x.lvs) in s.blocked && x.secStatus != Online && x.secStatus != Down
      else Role(x.secondary, x.lvs) in s.blocked || x.secStatus == Online
  {
  }

  lemma IssuesStart(x: Call, s: State)
    ensures |x.Issues()| > 0 && Ports(x, s, s, 0)
  {
  }

  lemma EventKeepsPorts(x: Call, s: State, t: State, i: nat, e: Event)
    requires Ports(x, s, t, i)
    ensures Ports(x, s, Happen(t, e), i)
  {
  }

  /** When a restart that is not held back has issued everything and the threads of the listeners of its own
      lvstore have run, the primary is open to clients whenever it has such a listener at all. */
  lemma {:induction false} PrimaryIsOpen(x: Call, s: State, run: seq<Action>, p: Path)
    requires (x.recovered || x.force) && !(x.secStatus == Unreachable && x.lvols != []) && s.pending == map[]
    requires x.primary != x.secondary && x.primary !in s.dead && Role(x.primary, x.lvs) !in s.blocked
    requires p.node == x.primary && p.lvol in x.lvols && p.lvol.lvs == x.lvs && p.ip in x.nics && p.ip != ""
    ensures var (t, pc) := Exec(x.Issues(), s, 0, run);
      pc == |x.Issues()| && p !in t.pending ==> OpenPath(t, Role(x.primary, x.lvs))
  {
    hide x.Issues, Exec;
    var (t, pc) := Exec(x.Issues(), s, 0, run);
    if pc == |x.Issues()| && p !in t.pending {
      ListenersAreHandedOut(x, s, run, p);
      PortsAtEnd(x, s, run);
      NotedAtEnd(x, s, run);
      assert p in t.paths && Serves(p, Role(x.primary, x.lvs)) && t.paths[p] != Inaccessible;
    }
  }

  /** Which processes are killed, and what is noted, once i commands are issued. */
  ghost predicate Notes(x: Call, s: State, t: State, i: nat) {
    var held := x.secStatus == Unreachable && x.lvols != [];
    && (x.recovered || x.force ==> t.dead == s.dead)
    && (!(x.recovered || x.force) && i > |x.Before()| ==> t.dead == s.dead + {x.primary})
    && t.status == if !(x.recovered || x.force) && i == |x.Before()| + 2 then s.status[x.primary := Offline]
                   else if held && 1 <= i then s.status[x.primary := Suspended] else s.status
  }

  lemma CommandNotes(s: State, c: Command)
    ensures Apply(s, c).dead == s.dead + if c.Kill? then {c.node} else {}
    ensures Apply(s, c).status == if c.Mark? then s.status[c.node := c.status] else s.status
  {
  }

  lemma {:induction false} NoteStep(x: Call, s: State, t: State, i: nat)
    requires i < |x.Issues()| && Notes(x, s, t, i) && (i == |x.Before()| ==> t.dead == s.dead)
    ensures Notes(x, s, Apply(t, x.Issues()[i]), i + 1)
    ensures i < |x.Before()| ==> Apply(t, x.Issues()[i]).dead == t.dead
  {
    hide x.Issues, x.Before, x.Attempt, Apply;
    IssuesAre(x, i);
    CommandNotes(t, x.Issues()[i]);
    if i < |x.Before()| {
      BeforeHolds(x, i);
    } else if x.recovered || x.force {
      AttemptHolds(x, i - |x.Before()|);
    } else {
      GivenUp(x);
    }
  }

  /** What is noted in the end: a primary that was not promoted is killed and offline, one that is held back is
      suspended, and nothing else changes: in particular a restart that goes well notes nothing here. */
  lemma {:induction false} NotedAtEnd(x: Call, s: State, run: seq<Action>)
    requires Exec(x.Issues(), s, 0, run).1 == |x.Issues()|
    ensures var t := Exec(x.Issues(), s, 0, run).0;
      if !x.recovered && !x.force then t.dead == s.dead + {x.primary} && t.status == s.status[x.primary := Offline]
      else t.dead == s.dead
           && t.status == if x.secStatus == Unreachable && x.lvols != [] then s.status[x.primary := Suspended] else s.status
  {
    hide x.Issues, x.Before, x.Attempt, Apply, Happen, Enabled, Notes;
    var inv := (t: State, i: nat) => Notes(x, s, t, i) && (i <= |x.Before()| ==> t.dead == s.dead);
    NotesMean(x, s, s, 0);
    forall t: State, i: nat | i < |x.Issues()| && inv(t, i) ensures inv(Apply(t, x.Issues()[i]), i + 1) {
      NoteStep(x, s, t, i);
    }
    forall t: State, i: nat, e: Event | i <= |x.Issues()| && inv(t, i) && Enabled(t, e) ensures inv(Happen(t, e), i) {
      EventKeepsNotes(x, s, t, i, e);
    }
    InvariantRule(x.Issues(), s, 0, run, inv);
    IssuesEnd(x);
    NotesMean(x, s, Exec(x.Issues(), s, 0, run).0, |x.Issues()|);
  }

  lemma NotesMean(x: Call, s: State, t: State, i: nat)
    ensures Notes(x, s, s, 0)
    ensures Notes(x, s, t, i) ==>
      var held := x.secStatus == Unreachable && x.lvols != [];
      && (x.recovered || x.force ==> t.dead == s.dead)
      && (!(x.recovered || x.force) && i == |x.Before()| + 2 ==> t.dead == s.dead + {x.primary} && t.status == s.status[x.primary := Offline])
      && ((x.recovered || x.force) && 1 <= i ==> t.status == if held then s.status[x.primary := Suspended] else s.status)
  {
  }

  lemma IssuesEnd(x: Call)
    ensures |x.Issues()| > 0
    ensures !x.recovered && !x.force ==> |x.Issues()| == |x.Before()| + 2
  {
  }

  lemma EventKeepsNotes(x: Call, s: State, t: State, i: nat, e: Event)
    requires Notes(x, s, t, i)
    ensures Notes(x, s, Happen(t, e), i) && Happen(t, e).dead == t.dead
  {
  }
}
