/**
 The data plane as the control plane sees it: which node leads which lvstore, which service ports
 are blocked, and the table of NVMe paths with their ANA states (section 8.20 of the NVM Express
 Base Specification, revision 1.4). A command is one RPC; between any two commands the environment
 may act. A program is the list of commands that one control-plane operation issues.
 */
module Fabric {
  import opened Records

  type NodeId = string
  type LvstoreName = string

  datatype Ana = Optimized | NonOptimized | Inaccessible

  datatype Lvol = Lvol(nqn: string, lvs: LvstoreName)

  /** A listener of `node` for the subsystem of `lvol` on one address. */
  datatype Path = Path(node: NodeId, lvol: Lvol, ip: string)

  /** A node in its part for one lvstore. */
  datatype Role = Role(node: NodeId, lvs: LvstoreName)

  datatype State = State(
    leaders: set<Role>,
    blocked: set<Role>,
    paths: map<Path, Ana>,
    pending: map<Path, Ana>,
    dead: set<NodeId>,
    status: map<NodeId, NodeStatus>)

  datatype Command =
    | Block(role: Role)                 // firewall_set_port "block"
    | Allow(role: Role)                 // firewall_set_port "allow"
    | Lead(role: Role)                  // bdev_lvol_set_leader(leader=True)
    | Demote(role: Role)                // bdev_lvol_set_leader(leader=False), bdev_distrib_force_to_non_leader
    | SetAna(path: Path, ana: Ana)      // nvmf_subsystem_listener_set_ana_state
    | AddPath(path: Path, ana: Ana)     // listeners_create
    | DelPath(path: Path)               // listeners_del
    | Submit(path: Path, ana: Ana)      // add_lvol_thread handed to the executor, never joined
    | Kill(node: NodeId)                // spdk_process_kill
    | Mark(node: NodeId, status: NodeStatus)

  /** What may happen on its own: a client's I/O makes a node take leadership, a node loses it, a
      submitted thread gets to create its listener. */
  datatype Event = Take(role: Role) | Drop(role: Role) | Attach(path: Path)

  predicate Serves(p: Path, r: Role) {
    p.node == r.node && p.lvol.lvs == r.lvs
  }

  /** r's node can be written to: its port is open and one of its paths is accessible. */
  ghost predicate OpenPath(s: State, r: Role) {
    r.node !in s.dead && r !in s.blocked
    && exists p :: p in s.paths && Serves(p, r) && s.paths[p] != Inaccessible
  }

  /** The environment rule: a node takes leadership only with an open path, and only while no
      other node leads the lvstore. */
  ghost predicate Enabled(s: State, e: Event) {
    match e
    case Take(r) => OpenPath(s, r) && forall q :: q in s.leaders && q.lvs == r.lvs ==> q == r
    case Drop(r) => true
    case Attach(p) => p in s.pending && p.node !in s.dead
  }

  function Happen(s: State, e: Event): State {
    match e
    case Take(r) => s.(leaders := s.leaders + {r})
    case Drop(r) => s.(leaders := s.leaders - {r})
    case Attach(p) =>
      if p in s.pending then s.(paths := s.paths[p := s.pending[p]], pending := s.pending - {p}) else s
  }

  function Apply(s: State, c: Command): State {
    match c
    case Block(r) => s.(blocked := s.blocked + {r})
    case Allow(r) => s.(blocked := s.blocked - {r})
    case Lead(r) => if r.node in s.dead then s else s.(leaders := s.leaders + {r})
    case Demote(r) => s.(leaders := s.leaders - {r})
    case SetAna(p, ana) => if p in s.paths then s.(paths := s.paths[p := ana]) else s
    case AddPath(p, ana) => if p.node in s.dead then s else s.(paths := s.paths[p := ana])
    case DelPath(p) => s.(paths := s.paths - {p})
    case Submit(p, ana) => s.(pending := s.pending[p := ana])
    case Kill(n) => State(
      (set r | r in s.leaders && r.node != n), s.blocked,
      (map p | p in s.paths && p.node != n :: s.paths[p]),
      (map p | p in s.pending && p.node != n :: s.pending[p]),
      s.dead + {n}, s.status)
    case Mark(n, status) => s.(status := s.status[n := status])
  }

  type Program = seq<Command>

  /** One step of an interleaved run: the program's next command, or an event. */
  datatype Action = Next | Env(event: Event)

  /** The state and the program counter after a run from command pc on. An event that is not
      enabled does not happen, so every sequence of actions is a run. */
  ghost function Exec(prog: Program, s: State, pc: nat, run: seq<Action>): (r: (State, nat))
    requires pc <= |prog|
    ensures pc <= r.1 <= |prog|
    decreases |run|
  {
    if run == [] then (s, pc)
    else match run[0]
      case Next => if pc < |prog| then Exec(prog, Apply(s, prog[pc]), pc + 1, run[1..]) else Exec(prog, s, pc, run[1..])
      case Env(e) => Exec(prog, if Enabled(s, e) then Happen(s, e) else s, pc, run[1..])
  }

  /** The rule every proof about interleaved runs uses: what holds at the start, and is kept by
      each command of the program and by each enabled event, holds after every run. */
  lemma {:induction false} InvariantRule(prog: Program, s: State, pc: nat, run: seq<Action>, inv: (State, nat) -> bool)
    requires pc <= |prog| && inv(s, pc)
    requires forall t: State, i: nat {:trigger Apply(t, prog[i])} :: i < |prog| && inv(t, i) ==> inv(Apply(t, prog[i]), i + 1)
    requires forall t: State, i: nat, e: Event {:trigger Happen(t, e), inv(t, i)} ::
      i <= |prog| && inv(t, i) && Enabled(t, e) ==> inv(Happen(t, e), i)
    ensures var (t, i) := Exec(prog, s, pc, run); inv(t, i)
    decreases |run|
  {
    hide Enabled, Apply, Happen;
    if run != [] {
      match run[0]
      case Next =>
        if pc < |prog| {
          InvariantRule(prog, Apply(s, prog[pc]), pc + 1, run[1..], inv);
        } else {
          InvariantRule(prog, s, pc, run[1..], inv);
        }
      case Env(e) =>
        InvariantRule(prog, if Enabled(s, e) then Happen(s, e) else s, pc, run[1..], inv);
    }
  }

  // ---------------------------------------------------------------- one leader

  /** No lvstore has two leaders. */
  ghost predicate OneLeader(s: State) {
    forall q, r :: q in s.leaders && r in s.leaders && q.lvs == r.lvs ==> q == r
  }

  lemma EventKeepsOneLeader(s: State, e: Event)
    requires OneLeader(s) && Enabled(s, e)
    ensures OneLeader(Happen(s, e))
  {
  }

  lemma CommandKeepsOneLeader(s: State, c: Command)
    requires OneLeader(s) && !c.Lead?
    ensures OneLeader(Apply(s, c))
  {
  }

  /** A program that never promotes keeps one leader, whatever happens in between. */
  lemma NoPromotionIsSafe(prog: Program, s: State, run: seq<Action>)
    requires OneLeader(s) && forall i :: 0 <= i < |prog| ==> !prog[i].Lead?
    ensures OneLeader(Exec(prog, s, 0, run).0)
  {
    var inv := (t: State, i: nat) => OneLeader(t);
    forall t: State, i: nat | i < |prog| && inv(t, i) ensures inv(Apply(t, prog[i]), i + 1) {
      CommandKeepsOneLeader(t, prog[i]);
    }
    forall t: State, i: nat, e: Event | i <= |prog| && inv(t, i) && Enabled(t, e) ensures inv(Happen(t, e), i) {
      EventKeepsOneLeader(t, e);
    }
    InvariantRule(prog, s, 0, run, inv);
  }

  // ---------------------------------------------------------------- quiet nodes

  /** r has no accessible path, and none is on its way. */
  ghost predicate NoOpen(s: State, r: Role) {
    && (forall p :: p in s.paths && Serves(p, r) ==> s.paths[p] == Inaccessible)
    && (forall p :: p in s.pending && Serves(p, r) ==> s.pending[p] == Inaccessible)
  }

  ghost predicate Shut(s: State, r: Role) {
    r.node in s.dead || r in s.blocked || NoOpen(s, r)
  }

  /** r does not lead and cannot come to lead by itself. */
  ghost predicate Quiet(s: State, r: Role) {
    r !in s.leaders && Shut(s, r)
  }

  /** c neither promotes r nor opens anything for it. */
  predicate Harmless(c: Command, r: Role) {
    match c
    case Lead(q) => q != r
    case Allow(q) => q != r
    case SetAna(p, ana) => !Serves(p, r) || ana == Inaccessible
    case AddPath(p, ana) => !Serves(p, r) || ana == Inaccessible
    case Submit(p, ana) => !Serves(p, r) || ana == Inaccessible
    case _ => true
  }

  lemma CommandKeepsQuiet(s: State, c: Command, r: Role)
    requires Quiet(s, r) && Harmless(c, r)
    ensures Quiet(Apply(s, c), r)
  {
  }

  lemma EventKeepsQuiet(s: State, e: Event, r: Role)
    requires Quiet(s, r) && Enabled(s, e)
    ensures Quiet(Happen(s, e), r)
  {
  }

  // ---------------------------------------------------------------- path lists

  /** The listeners of one lvol on a node: one for each data NIC that has an IPv4 address. */
  function LvolPaths(node: NodeId, lvol: Lvol, nics: seq<string>): seq<Path> {
    if nics == [] then []
    else
      LvolPaths(node, lvol, nics[..|nics| - 1])
      + if nics[|nics| - 1] == "" then [] else [Path(node, lvol, nics[|nics| - 1])]
  }

  function PathsOf(node: NodeId, lvols: seq<Lvol>, nics: seq<string>): seq<Path> {
    if lvols == [] then []
    else PathsOf(node, lvols[..|lvols| - 1], nics) + LvolPaths(node, lvols[|lvols| - 1], nics)
  }

  lemma {:induction false} LvolPathsServe(node: NodeId, lvol: Lvol, nics: seq<string>)
    ensures forall p :: p in LvolPaths(node, lvol, nics) <==> p.node == node && p.lvol == lvol && p.ip in nics && p.ip != ""
  {
    if nics != [] {
      LvolPathsServe(node, lvol, nics[..|nics| - 1]);
      assert nics == nics[..|nics| - 1] + [nics[|nics| - 1]];
    }
  }

  /** The list holds exactly the addressed NICs of the node, for exactly the given lvols. */
  lemma {:induction false} PathsServe(node: NodeId, lvols: seq<Lvol>, nics: seq<string>)
    ensures forall p :: p in PathsOf(node, lvols, nics) <==> p.node == node && p.lvol in lvols && p.ip in nics && p.ip != ""
  {
    if lvols != [] {
      PathsServe(node, lvols[..|lvols| - 1], nics);
      LvolPathsServe(node, lvols[|lvols| - 1], nics);
      assert lvols == lvols[..|lvols| - 1] + [lvols[|lvols| - 1]];
    }
  }

  /** The four things a loop over lvols and NICs does with a listener. */
  datatype PathOp = ToAna(ana: Ana) | Create(ana: Ana) | Delete | Hand(ana: Ana)

  function CommandOn(op: PathOp, p: Path): Command {
    match op
    case ToAna(ana) => SetAna(p, ana)
    case Create(ana) => AddPath(p, ana)
    case Delete => DelPath(p)
    case Hand(ana) => Submit(p, ana)
  }

  function Each(op: PathOp, ps: seq<Path>): (r: Program)
    ensures |r| == |ps| && forall i :: 0 <= i < |ps| ==> r[i] == CommandOn(op, ps[i])
  {
    seq(|ps|, i requires 0 <= i < |ps| => CommandOn(op, ps[i]))
  }

  lemma EachMore(op: PathOp, ps: seq<Path>, p: Path)
    ensures Each(op, ps + [p]) == Each(op, ps) + [CommandOn(op, p)]
  {
  }
}
