/**
 The block-device stack of an lvstore: what create_lvstore builds, how _create_bdev_stack creates
 it on a node, and how _remove_bdev_stack takes it back when a create fails half way.
 */
module BdevStack {
  import opened Records

  /** Generated names; anything else on the node is Foreign. */
  datatype Name = DistribName(vuid: nat) | RaidName(jmVuid: nat) | StoreName(jmVuid: nat) | Foreign(name: string)

  datatype Kind = Distrib | Raid | LvStore | PtNonExcl | Unknown

  datatype Mark = Unmarked | Created | Deleted

  /** One dictionary of the stack. */
  datatype Entry = Entry(kind: Kind, name: Name, bases: seq<Name>, blocks: nat, mark: Mark)

  /** What exists on the node: bdevs are what get_bdevs lists, lvstores are not among them. */
  datatype World = World(bdevs: set<Name>, stores: set<Name>)

  /** RPCs as the node sees them. Map is the cluster map sent to a new distrib. */
  datatype Rpc =
    | Make(kind: Kind, name: Name, ok: bool)
    | Map(name: Name, ok: bool)
    | Unmake(kind: Kind, name: Name, ok: bool)

  function Play(w: World, r: Rpc): World {
    match r
    case Make(kind, n, ok) =>
      if !ok then w else if kind.LvStore? then w.(stores := w.stores + {n}) else w.(bdevs := w.bdevs + {n})
    case Map(_, _) => w
    case Unmake(kind, n, ok) =>
      if !ok then w else if kind.LvStore? then w.(stores := w.stores - {n}) else w.(bdevs := w.bdevs - {n})
  }

  function Replay(w: World, log: seq<Rpc>): World {
    if log == [] then w else Play(Replay(w, log[..|log| - 1]), log[|log| - 1])
  }

  lemma {:induction false} ReplayConcat(w: World, a: seq<Rpc>, b: seq<Rpc>)
    ensures Replay(w, a + b) == Replay(Replay(w, a), b)
    decreases |b|
  {
    if b == [] {
      assert a + b == a;
    } else {
      ReplayConcat(w, a, b[..|b| - 1]);
      assert (a + b)[..|a + b| - 1] == a + b[..|b| - 1];
    }
  }

  lemma ReplayOne(w: World, a: Rpc)
    ensures Replay(w, [a]) == Play(w, a)
  {
    assert [a][..0] == [];
  }

  lemma ReplayTwo(w: World, a: Rpc, b: Rpc)
    ensures Replay(w, [a, b]) == Play(Play(w, a), b)
  {
    assert [a, b][..1] == [a];
    ReplayOne(w, a);
  }

  /** Which RPCs fail. */
  datatype Faults = Faults(onMake: set<Name>, onMap: set<Name>, onUnmake: set<Name>)

  /** Whether the stack is created for the first time on the primary (then the lvstore is made),
      or is brought back on it, or is built on the secondary. */
  datatype Mode = OnPrimary | Restart | OnSecondary

  predicate Creatable(k: Kind, mode: Mode) {
    match k
    case LvStore => mode.OnPrimary?
    case Unknown => false
    case _ => true
  }

  datatype Ending = Completed | CreateFailed | MapFailed

  /** The loop: its RPCs so far, the positions of what it brought into being, those of them that it
      remembers for a rollback, and how it left early. */
  datatype Loop = Loop(log: seq<Rpc>, born: seq<nat>, made: seq<nat>, ended: Option<Ending>)

  /** What becomes of one entry: RPCs, whether it is made, whether the call ends here. */
  datatype Round = Round(rpcs: seq<Rpc>, made: bool, ended: Option<Ending>) {
    predicate Born() { made || ended == Some(MapFailed) }
  }

  function RoundOf(e: Entry, present: set<Name>, mode: Mode, f: Faults): Round {
    if e.name in present || !Creatable(e.kind, mode) then Round([], false, None)
    else if e.name in f.onMake then Round([Make(e.kind, e.name, false)], false, Some(CreateFailed))
    else if !e.kind.Distrib? then Round([Make(e.kind, e.name, true)], true, None)
    else if e.name in f.onMap then Round([Make(e.kind, e.name, true), Map(e.name, false)], false, Some(MapFailed))
    else Round([Make(e.kind, e.name, true), Map(e.name, true)], true, None)
  }

  function Step(before: Loop, k: nat, e: Entry, present: set<Name>, mode: Mode, f: Faults): Loop {
    if before.ended.Some? then before
    else
      var round := RoundOf(e, present, mode, f);
      Loop(before.log + round.rpcs,
           if round.Born() then before.born + [k] else before.born,
           if round.made then before.made + [k] else before.made,
           round.ended)
  }

  function Through(stack: seq<Entry>, present: set<Name>, mode: Mode, f: Faults, k: nat): (r: Loop)
    requires k <= |stack|
    ensures Below(r.made, k) && Below(r.born, k)
  {
    if k == 0 then Loop([], [], [], None)
    else Step(Through(stack, present, mode, f, k - 1), k - 1, stack[k - 1], present, mode, f)
  }

  /** Increasing positions below k. */
  predicate Below(which: seq<nat>, k: nat) {
    && (forall i :: 0 <= i < |which| ==> which[i] < k)
    && (forall i, j :: 0 <= i < j < |which| ==> which[i] < which[j])
  }

  /** The stack with the given entries marked. */
  function Marked(stack: seq<Entry>, which: seq<nat>, mark: Mark): (r: seq<Entry>)
    ensures |r| == |stack| && forall i :: 0 <= i < |stack| ==> r[i] == if i in which then stack[i].(mark := mark) else stack[i]
  {
    seq(|stack|, i requires 0 <= i < |stack| => if i in which then stack[i].(mark := mark) else stack[i])
  }

  /** What _remove_bdev_stack deletes: not what is deleted already, nothing of an unknown type, and
      the lvstore only if asked. */
  predicate Removable(e: Entry, distribsOnly: bool) {
    !e.mark.Deleted? && !e.kind.Unknown? && !(e.kind.LvStore? && distribsOnly)
  }

  function Struck(e: Entry, distribsOnly: bool): Entry {
    if Removable(e, distribsOnly) then e.(mark := Deleted) else e
  }

  function StruckAll(stack: seq<Entry>, which: seq<nat>, distribsOnly: bool): (r: seq<Entry>)
    ensures |r| == |stack|
    ensures forall i :: 0 <= i < |stack| ==> r[i] == if i in which then Struck(stack[i], distribsOnly) else stack[i]
  {
    seq(|stack|, i requires 0 <= i < |stack| => if i in which then Struck(stack[i], distribsOnly) else stack[i])
  }

  function Deletion(e: Entry, distribsOnly: bool, f: Faults): seq<Rpc> {
    if Removable(e, distribsOnly) then [Unmake(e.kind, e.name, e.name !in f.onUnmake)] else []
  }

  /** Deletions of the given entries, last one first. */
  function Undo(stack: seq<Entry>, which: seq<nat>, distribsOnly: bool, f: Faults): seq<Rpc>
    requires Below(which, |stack|)
  {
    if which == [] then []
    else Deletion(stack[which[|which| - 1]], distribsOnly, f) + Undo(stack, which[..|which| - 1], distribsOnly, f)
  }

  /** All RPCs of one call of _create_bdev_stack. */
  function LogOf(stack: seq<Entry>, present: set<Name>, mode: Mode, f: Faults): seq<Rpc> {
    var loop := Through(stack, present, mode, f, |stack|);
    loop.log + if loop.ended == Some(CreateFailed) then Undo(Marked(stack, loop.made, Created), loop.made, false, f) else []
  }

  function EndingOf(stack: seq<Entry>, present: set<Name>, mode: Mode, f: Faults): Ending {
    match Through(stack, present, mode, f, |stack|).ended case None => Completed case Some(e) => e
  }

  function MarksAfter(stack: seq<Entry>, present: set<Name>, mode: Mode, f: Faults): seq<Entry> {
    Marked(stack, Through(stack, present, mode, f, |stack|).made,
           if EndingOf(stack, present, mode, f).CreateFailed? then Deleted else Created)
  }

  function Reversed<T>(s: seq<T>): (r: seq<T>)
    ensures |r| == |s| && forall i :: 0 <= i < |s| ==> r[i] == s[|s| - 1 - i]
  {
    seq(|s|, i requires 0 <= i < |s| => s[|s| - 1 - i])
  }

  /** After an early exit nothing more happens. */
  lemma {:induction false} EndsThere(stack: seq<Entry>, present: set<Name>, mode: Mode, f: Faults, k: nat)
    requires k <= |stack| && (k < |stack| ==> Through(stack, present, mode, f, k).ended.Some?)
    ensures Through(stack, present, mode, f, |stack|) == Through(stack, present, mode, f, k)
    decreases |stack| - k
  {
    if k < |stack| { EndsThere(stack, present, mode, f, k + 1); }
  }

  /** The SPDK target of one node. */
  class Target {
    var world: World
    var log: seq<Rpc>
    const faults: Faults

    constructor (w: World, f: Faults)
      ensures world == w && log == [] && faults == f
    {
      world, log, faults := w, [], f;
    }

    method Call(r: Rpc)
      modifies this
      ensures world == Play(old(world), r) && log == old(log) + [r]
    {
      world, log := Play(world, r), log + [r];
    }
  }

  /** One round of the loop of _create_bdev_stack. */
  method CreateOne(t: Target, stack: array<Entry>, k: nat, present: set<Name>, mode: Mode)
    returns (made: bool, ended: Option<Ending>)
    requires k < stack.Length
    modifies t, stack
    ensures var round := RoundOf(old(stack[k]), present, mode, t.faults);
      && t.log == old(t.log) + round.rpcs
      && t.world == Replay(old(t.world), round.rpcs)
      && made == round.made && ended == round.ended
    ensures stack[..] == old(stack[..])[k := if made then old(stack[k]).(mark := Created) else old(stack[k])]
  {
    made, ended := false, None;
    var e := stack[k];
    if e.name in present || !Creatable(e.kind, mode) {
      return;
    }
    var ok := e.name !in t.faults.onMake;
    var create := Make(e.kind, e.name, ok);
    ReplayOne(t.world, create);
    t.Call(create);
    if !ok {
      ended := Some(CreateFailed);
      return;
    }
    if e.kind.Distrib? {
      var send := Map(e.name, e.name !in t.faults.onMap);
      ReplayTwo(old(t.world), create, send);
      t.Call(send);
      if !send.ok {
        ended := Some(MapFailed);
        return;
      }
    }
    stack[k] := e.(mark := Created);
    made := true;
  }

  /** _remove_bdev_stack on one entry. */
  method RemoveOne(t: Target, stack: array<Entry>, i: nat, distribsOnly: bool)
    requires i < stack.Length
    modifies t, stack
    ensures t.log == old(t.log) + Deletion(old(stack[i]), distribsOnly, t.faults)
    ensures t.world == Replay(old(t.world), Deletion(old(stack[i]), distribsOnly, t.faults))
    ensures stack[..] == old(stack[..])[i := Struck(old(stack[i]), distribsOnly)]
  {
    var e := stack[i];
    if Removable(e, distribsOnly) {
      var delete := Unmake(e.kind, e.name, e.name !in t.faults.onUnmake);
      ReplayOne(t.world, delete);
      t.Call(delete);
      stack[i] := e.(mark := Deleted);
    }
  }

  /** _remove_bdev_stack on the entries at the given positions, last one first. */
  method RemoveBdevStack(t: Target, stack: array<Entry>, which: seq<nat>, distribsOnly: bool)
    requires Below(which, stack.Length)
    modifies t, stack
    ensures t.log == old(t.log) + Undo(old(stack[..]), which, distribsOnly, t.faults)
    ensures t.world == Replay(old(t.world), Undo(old(stack[..]), which, distribsOnly, t.faults))
    ensures stack[..] == StruckAll(old(stack[..]), which, distribsOnly)
  {
    hide Replay, Play, Deletion, Struck, StruckAll, Undo;
    ghost var all := stack[..];
    ghost var done: seq<Rpc> := [];
    UndoNothing(all, which, distribsOnly, t.faults, t.world);
    var n: nat := |which|;
    while n > 0
      invariant n <= |which| && Below(which[..n], stack.Length)
      invariant Undo(all, which, distribsOnly, t.faults) == done + Undo(all, which[..n], distribsOnly, t.faults)
      invariant t.log == old(t.log) + done && t.world == Replay(old(t.world), done)
      invariant stack[..] == StruckAll(all, which[n..], distribsOnly)
    {
      UndoMore(all, which, n - 1, distribsOnly, t.faults);
      n := n - 1;
      ghost var more := Deletion(all[which[n]], distribsOnly, t.faults);
      ReplayConcat(old(t.world), done, more);
      assert stack[..][which[n]] == all[which[n]];
      RemoveOne(t, stack, which[n], distribsOnly);
      done := done + more;
    }
    UndoEmpty(all, distribsOnly, t.faults);
    assert which[0..] == which && which[..0] == [] && done + [] == done;
  }

  /** The loop of _create_bdev_stack. `created` holds the positions of what was created, newest
      first as in the source. */
  method CreateEach(t: Target, stack: array<Entry>, mode: Mode) returns (created: seq<nat>, ended: Option<Ending>)
    modifies t, stack
    ensures var loop := Through(old(stack[..]), old(t.world.bdevs), mode, t.faults, stack.Length);
      && t.log == old(t.log) + loop.log && t.world == Replay(old(t.world), loop.log)
      && ended == loop.ended && created == Reversed(loop.made)
      && stack[..] == Marked(old(stack[..]), loop.made, Created)
  {
    hide Replay, Play, RoundOf, Marked, Undo, StruckAll, Through, Step;
    created, ended := [], None;
    var present := t.world.bdevs;
    ghost var all := stack[..];
    ghost var loop := Through(all, present, mode, t.faults, 0);
    ThroughNothing(all, present, mode, t.faults, t.world);
    var k := 0;
    while k < stack.Length && ended.None?
      invariant 0 <= k <= stack.Length
      invariant loop == Through(all, present, mode, t.faults, k) && loop.ended == ended
      invariant created == Reversed(loop.made)
      invariant t.log == old(t.log) + loop.log && t.world == Replay(old(t.world), loop.log)
      invariant stack[..] == Marked(all, loop.made, Created)
    {
      ThroughMore(all, present, mode, t.faults, k, old(t.world));
      assert stack[..][k] == all[k];
      var made;
      made, ended := CreateOne(t, stack, k, present, mode);
      if made { created := [k] + created; }
      k := k + 1;
      loop := Through(all, present, mode, t.faults, k);
    }
    EndsThere(all, present, mode, t.faults, k);
  }

  /** _create_bdev_stack on an array of entries, whose marks it sets in place. */
  method CreateBdevStack(t: Target, stack: array<Entry>, mode: Mode) returns (r: Ending)
    modifies t, stack
    ensures t.log == old(t.log) + LogOf(old(stack[..]), old(t.world.bdevs), mode, t.faults)
    ensures t.world == Replay(old(t.world), LogOf(old(stack[..]), old(t.world.bdevs), mode, t.faults))
    ensures r == EndingOf(old(stack[..]), old(t.world.bdevs), mode, t.faults)
    ensures stack[..] == MarksAfter(old(stack[..]), old(t.world.bdevs), mode, t.faults)
  {
    hide Replay, Play, Marked, Undo, StruckAll, Through, MarksAfter, LogOf;
    var created, ended := CreateEach(t, stack, mode);
    CallEnds(old(stack[..]), old(t.world.bdevs), mode, t.faults, old(t.world));
    if ended == Some(CreateFailed) && created != [] {
      ghost var made := Through(old(stack[..]), old(t.world.bdevs), mode, t.faults, stack.Length).made;
      assert Reversed(created) == made;
      RemoveBdevStack(t, stack, Reversed(created), false);
    }
    r := match ended case None => Completed case Some(e) => e;
  }

  /** The loop's outcome and the rollback make up the call; rolling back an empty list is rolling
      back nothing, and what is rolled back ends up deleted. */
  lemma {:induction false} CallEnds(all: seq<Entry>, present: set<Name>, mode: Mode, f: Faults, w: World)
    ensures var loop, log := Through(all, present, mode, f, |all|), LogOf(all, present, mode, f);
      var marked := Marked(all, loop.made, Created);
      var undo := Undo(marked, loop.made, false, f);
      if loop.ended == Some(CreateFailed) && loop.made != [] then
        && log == loop.log + undo && Replay(w, log) == Replay(Replay(w, loop.log), undo)
        && MarksAfter(all, present, mode, f) == StruckAll(marked, loop.made, false)
      else log == loop.log && MarksAfter(all, present, mode, f) == marked
  {
    hide Through, Replay, StruckAll, Marked;
    var loop := Through(all, present, mode, f, |all|);
    ReplayConcat(w, loop.log, Undo(Marked(all, loop.made, Created), loop.made, false, f));
    assert loop.log + [] == loop.log;
    MarksEnd(all, present, mode, f);
  }

  lemma {:induction false} MarksEnd(all: seq<Entry>, present: set<Name>, mode: Mode, f: Faults)
    ensures var made := Through(all, present, mode, f, |all|).made;
      && StruckAll(Marked(all, made, Created), made, false) == Marked(all, made, Deleted)
      && (made == [] ==> Marked(all, made, Deleted) == Marked(all, made, Created))
  {
    hide Through;
    var made := Through(all, present, mode, f, |all|).made;
    forall i | 0 <= i < |all| && i in made ensures Creatable(all[i].kind, mode) {
      var j :| 0 <= j < |made| && made[j] == i;
      MadeMeans(all, present, mode, f, |all|, j);
    }
  }

  /** What the loop made was missing and can be made. */
  lemma {:induction false} MadeMeans(all: seq<Entry>, present: set<Name>, mode: Mode, f: Faults, k: nat, i: nat)
    requires k <= |all| && i < |Through(all, present, mode, f, k).made|
    ensures var e := all[Through(all, present, mode, f, k).made[i]];
      && e.name !in present && Creatable(e.kind, mode) && e.name !in f.onMake
      && (e.kind.Distrib? ==> e.name !in f.onMap)
  {
    hide RoundOf, Below;
    if i < |Through(all, present, mode, f, k - 1).made| {
      MadeMeans(all, present, mode, f, k - 1, i);
    } else {
      RoundMakes(all[k - 1], present, mode, f);
    }
  }

  lemma RoundMakes(e: Entry, present: set<Name>, mode: Mode, f: Faults)
    requires RoundOf(e, present, mode, f).made
    ensures e.name !in present && Creatable(e.kind, mode) && e.name !in f.onMake && (e.kind.Distrib? ==> e.name !in f.onMap)
  {
  }

  lemma UndoNothing(all: seq<Entry>, which: seq<nat>, distribsOnly: bool, f: Faults, w: World)
    requires Below(which, |all|)
    ensures which[..|which|] == which && Replay(w, []) == w && StruckAll(all, which[|which|..], distribsOnly) == all
  {
    assert which[..|which|] == which;
  }

  lemma UndoEmpty(all: seq<Entry>, distribsOnly: bool, f: Faults)
    ensures Undo(all, [], distribsOnly, f) == []
  {
  }

  lemma {:induction false} UndoMore(all: seq<Entry>, which: seq<nat>, n: nat, distribsOnly: bool, f: Faults)
    requires n < |which| && Below(which, |all|)
    ensures Below(which[..n], |all|)
    ensures Undo(all, which[..n + 1], distribsOnly, f)
            == Deletion(all[which[n]], distribsOnly, f) + Undo(all, which[..n], distribsOnly, f)
    ensures var struck := StruckAll(all, which[n + 1..], distribsOnly);
      && struck[which[n]] == all[which[n]]
      && struck[which[n] := Struck(all[which[n]], distribsOnly)] == StruckAll(all, which[n..], distribsOnly)
  {
    hide Deletion, Struck, StruckAll;
    assert which[..n + 1][..n] == which[..n];
    assert Below(which[..n + 1], |all|);
    assert which[n] !in which[n + 1..];
    assert which[n..] == [which[n]] + which[n + 1..];
    StruckMore(all, which[n], which[n + 1..], distribsOnly);
  }

  lemma StruckMore(all: seq<Entry>, i: nat, rest: seq<nat>, distribsOnly: bool)
    requires i < |all| && i !in rest
    ensures var struck := StruckAll(all, rest, distribsOnly);
      struck[i] == all[i] && struck[i := Struck(all[i], distribsOnly)] == StruckAll(all, [i] + rest, distribsOnly)
  {
    hide Struck;
    assert forall k :: k in [i] + rest <==> k == i || k in rest;
  }

  lemma ThroughNothing(all: seq<Entry>, present: set<Name>, mode: Mode, f: Faults, w: World)
    ensures Through(all, present, mode, f, 0) == Loop([], [], [], None) && Replay(w, []) == w && Marked(all, [], Created) == all
  {
  }

  lemma {:induction false} ThroughMore(all: seq<Entry>, present: set<Name>, mode: Mode, f: Faults, k: nat, w: World)
    requires k < |all| && Through(all, present, mode, f, k).ended.None?
    ensures var loop, after := Through(all, present, mode, f, k), Through(all, present, mode, f, k + 1);
      var round := RoundOf(all[k], present, mode, f);
      && after.log == loop.log + round.rpcs && after.ended == round.ended
      && after.made == (if round.made then loop.made + [k] else loop.made)
      && Replay(w, after.log) == Replay(Replay(w, loop.log), round.rpcs)
      && Marked(all, loop.made, Created)[k] == all[k]
      && Marked(all, after.made, Created)
         == Marked(all, loop.made, Created)[k := if round.made then all[k].(mark := Created) else all[k]]
  {
    var loop := Through(all, present, mode, f, k);
    ReplayConcat(w, loop.log, RoundOf(all[k], present, mode, f).rpcs);
    assert k !in loop.made;
  }
}
