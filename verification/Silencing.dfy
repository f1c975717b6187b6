/**
 A stretch of a program that closes every listener a node has for an lvstore, one by one, and then
 takes its leadership: from then on, and as long as no command opens anything again, the node is
 quiet in every interleaving.
 */
module Silencing {
  import opened Fabric

  /** Commands from, from+1, .. close ps one by one; the next one, if `demotes`, demotes the role;
      up to `until` nothing opens anything for it. */
  datatype Stretch = Stretch(role: Role, ps: seq<Path>, delete: bool, demotes: bool, from: nat, until: nat) {
    function Closed(): nat { from + |ps| }
  }

  predicate Covers(paths: map<Path, Ana>, r: Role, ps: seq<Path>) {
    forall p :: p in paths && Serves(p, r) ==> p in ps
  }

  predicate Adds(c: Command, r: Role) {
    (c.AddPath? || c.Submit?) && Serves(c.path, r)
  }

  /** What the stretch asks of command i of the program. */
  ghost predicate Fits(g: Stretch, prog: Program, i: nat)
    requires i < |prog|
  {
    && !prog[i].Submit?
    && (i < g.until ==> !Adds(prog[i], g.role))
    && (g.from <= i < g.until ==> Harmless(prog[i], g.role))
    && (g.demotes && i == g.Closed() < g.until ==> prog[i] == Demote(g.role))
  }

  ghost predicate Closes(g: Stretch, prog: Program, j: nat)
    requires j < |g.ps| && g.Closed() <= |prog|
  {
    prog[g.from + j] == CommandOn(if g.delete then Delete else ToAna(Inaccessible), g.ps[j])
  }

  ghost predicate InProgram(g: Stretch, prog: Program) {
    && g.Closed() <= g.until <= |prog|
    && (forall j :: 0 <= j < |g.ps| ==> Closes(g, prog, j))
    && (forall i :: 0 <= i < |prog| ==> Fits(g, prog, i))
  }

  predicate Left(s: State, p: Path, delete: bool) {
    p in s.paths ==> !delete && s.paths[p] == Inaccessible
  }

  ghost predicate Progress(g: Stretch, s: State, i: nat) {
    && s.pending == map[]
    && (i <= g.until ==> Covers(s.paths, g.role, g.ps))
    && (forall j :: 0 <= j < |g.ps| && g.from + j < i <= g.until ==> Left(s, g.ps[j], g.delete))
    && (g.demotes && g.Closed() < i <= g.until ==> g.role !in s.leaders)
  }

  /** The role's listeners are closed, or deleted. */
  ghost predicate AllLeft(g: Stretch, s: State) {
    forall p :: p in s.paths && Serves(p, g.role) ==> Left(s, p, g.delete)
  }

  lemma ProgressMeans(g: Stretch, s: State, i: nat)
    requires Progress(g, s, i) && g.Closed() <= i <= g.until
    ensures AllLeft(g, s) && NoOpen(s, g.role)
    ensures g.demotes && g.Closed() < i ==> Quiet(s, g.role)
  {
    forall p | p in s.paths && Serves(p, g.role) ensures Left(s, p, g.delete) {
      var j :| 0 <= j < |g.ps| && g.ps[j] == p;
    }
  }

  /** The listed paths are the role's own. */
  ghost predicate Own(g: Stretch) {
    forall j :: 0 <= j < |g.ps| ==> Serves(g.ps[j], g.role)
  }

  lemma CommandProgress(g: Stretch, prog: Program, s: State, i: nat)
    requires InProgram(g, prog) && Own(g) && i < |prog| && Progress(g, s, i)
    ensures Progress(g, Apply(s, prog[i]), i + 1)
  {
    var c := prog[i];
    var t := Apply(s, c);
    assert Fits(g, prog, i);
    if i < g.until {
      assert Covers(t.paths, g.role, g.ps);
      forall j | 0 <= j < |g.ps| && g.from + j < i + 1 <= g.until ensures Left(t, g.ps[j], g.delete) {
        assert Serves(g.ps[j], g.role);
        if g.from + j == i {
          assert Closes(g, prog, j);
        }
      }
    }
  }

  lemma EventProgress(g: Stretch, s: State, i: nat, e: Event)
    requires Own(g) && Progress(g, s, i) && Enabled(s, e)
    ensures Progress(g, Happen(s, e), i)
  {
    if e == Take(g.role) && g.Closed() < i <= g.until {
      ProgressMeans(g, s, i);
    }
  }

  /** Once the stretch has run, and until its end, the node's listeners are closed; after the
      demotion it is quiet. */
  lemma Silences(g: Stretch, prog: Program, s: State, run: seq<Action>)
    requires InProgram(g, prog) && Own(g) && s.pending == map[] && Covers(s.paths, g.role, g.ps)
    ensures var (t, pc) := Exec(prog, s, 0, run);
      && (g.Closed() <= pc <= g.until ==> AllLeft(g, t) && NoOpen(t, g.role))
      && (g.demotes && g.Closed() < pc <= g.until ==> Quiet(t, g.role))
  {
    var inv := (t: State, i: nat) => Progress(g, t, i);
    forall t: State, i: nat | i < |prog| && inv(t, i) ensures inv(Apply(t, prog[i]), i + 1) {
      CommandProgress(g, prog, t, i);
    }
    forall t: State, i: nat, e: Event | i <= |prog| && inv(t, i) && Enabled(t, e) ensures inv(Happen(t, e), i) {
      EventProgress(g, t, i, e);
    }
    InvariantRule(prog, s, 0, run, inv);
    var (t, pc) := Exec(prog, s, 0, run);
    if g.Closed() <= pc <= g.until {
      ProgressMeans(g, t, pc);
    }
  }
}
