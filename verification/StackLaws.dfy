/**
 What _create_bdev_stack leaves behind: rollback in exact reverse, base bdevs that never vanish
 under a bdev, and nothing left to do for a second run.
 */
module StackLaws {
  import opened Records
  import opened BdevStack

  /** A bdev that others may be built on. */
  predicate IsBase(k: Kind) { k.Distrib? || k.Raid? || k.PtNonExcl? }

  predicate Distinct(stack: seq<Entry>) {
    forall i, j :: 0 <= i < j < |stack| ==> stack[i].name != stack[j].name
  }

  ghost predicate Supported(stack: seq<Entry>, k: nat, base: Name)
    requires k <= |stack|
  {
    exists j :: 0 <= j < k && stack[j].name == base && IsBase(stack[j].kind)
  }

  /** Every entry is built on earlier ones. */
  ghost predicate Layered(stack: seq<Entry>) {
    forall k, b :: 0 <= k < |stack| && b in stack[k].bases ==> Supported(stack, k, b)
  }

  predicate Exists(w: World, e: Entry) {
    e.name in if e.kind.LvStore? then w.stores else w.bdevs
  }

  /** No bdev of the stack exists without the bdevs it is built on. */
  ghost predicate Closed(w: World, stack: seq<Entry>) {
    forall i, b :: 0 <= i < |stack| && Exists(w, stack[i]) && b in stack[i].bases ==> b in w.bdevs
  }

  /** SPDK refuses to create an lvstore that exists; for bdevs the code looks first. */
  predicate RefusesExisting(w: World, stack: seq<Entry>, f: Faults) {
    forall i :: 0 <= i < |stack| && stack[i].kind.LvStore? && stack[i].name in w.stores ==> stack[i].name in f.onMake
  }

  function Bdevs(stack: seq<Entry>, which: seq<nat>): set<Name>
    requires Below(which, |stack|)
  {
    set i | i in which && !stack[i].kind.LvStore? :: stack[i].name
  }

  function Stores(stack: seq<Entry>, which: seq<nat>): set<Name>
    requires Below(which, |stack|)
  {
    set i | i in which && stack[i].kind.LvStore? :: stack[i].name
  }

  function With(w: World, stack: seq<Entry>, which: seq<nat>): World
    requires Below(which, |stack|)
  {
    World(w.bdevs + Bdevs(stack, which), w.stores + Stores(stack, which))
  }

  lemma WithMore(w: World, stack: seq<Entry>, which: seq<nat>)
    requires Below(which, |stack|) && which != []
    ensures Below(which[..|which| - 1], |stack|)
    ensures var e := stack[which[|which| - 1]];
      With(w, stack, which) == Play(With(w, stack, which[..|which| - 1]), Make(e.kind, e.name, true))
  {
    var front, last := which[..|which| - 1], which[|which| - 1];
    assert which == front + [last];
    assert forall i :: i in which <==> i in front || i == last;
  }

  // --- The loop. ---

  /** Until the loop stops early, everything of the first k that can be made is there or was made. */
  lemma {:induction false} NothingSkipped(stack: seq<Entry>, present: set<Name>, mode: Mode, f: Faults, k: nat, j: nat)
    requires j < k <= |stack| && Through(stack, present, mode, f, k).ended.None?
    ensures j in Through(stack, present, mode, f, k).made
      <==> stack[j].name !in present && Creatable(stack[j].kind, mode)
  {
    if j < k - 1 { NothingSkipped(stack, present, mode, f, k - 1, j); }
  }

  lemma AfterRound(v: World, e: Entry, present: set<Name>, mode: Mode, f: Faults)
    ensures var round := RoundOf(e, present, mode, f);
      Replay(v, round.rpcs) == if round.Born() then Play(v, Make(e.kind, e.name, true)) else v
  {
    ReplayOne(v, Make(e.kind, e.name, true));
    ReplayOne(v, Make(e.kind, e.name, false));
    ReplayTwo(v, Make(e.kind, e.name, true), Map(e.name, true));
    ReplayTwo(v, Make(e.kind, e.name, true), Map(e.name, false));
  }

  lemma WithStep(w: World, stack: seq<Entry>, born: seq<nat>, k: nat)
    requires k < |stack| && Below(born, k)
    ensures Below(born, |stack|) && Below(born + [k], |stack|)
    ensures Play(With(w, stack, born), Make(stack[k].kind, stack[k].name, true)) == With(w, stack, born + [k])
  {
    WithMore(w, stack, born + [k]);
    assert (born + [k])[..|born|] == born;
  }

  /** The world after the loop: what was born is added. */
  lemma {:induction false} LoopWorld(w: World, stack: seq<Entry>, mode: Mode, f: Faults, k: nat)
    requires k <= |stack|
    ensures var loop := Through(stack, w.bdevs, mode, f, k); Replay(w, loop.log) == With(w, stack, loop.born)
  {
    hide RoundOf, With, Play, Replay;
    if k == 0 {
      WithNothing(w, stack);
    } else {
      var before := Through(stack, w.bdevs, mode, f, k - 1);
      LoopWorld(w, stack, mode, f, k - 1);
      ReplayConcat(w, before.log, RoundOf(stack[k - 1], w.bdevs, mode, f).rpcs);
      AfterRound(With(w, stack, before.born), stack[k - 1], w.bdevs, mode, f);
      WithStep(w, stack, before.born, k - 1);
    }
  }

  lemma WithNothing(w: World, stack: seq<Entry>)
    ensures With(w, stack, []) == w && Replay(w, []) == w
  {
  }

  /** What is born is remembered, except a distrib whose map could not be sent. */
  ghost predicate OneStrays(loop: Loop, stack: seq<Entry>, present: set<Name>) {
    && loop.born != [] && loop.born[..|loop.born| - 1] == loop.made
    && var last := loop.born[|loop.born| - 1];
      last < |stack| && stack[last].kind.Distrib? && stack[last].name !in present
  }

  lemma {:induction false} BornIsMade(stack: seq<Entry>, present: set<Name>, mode: Mode, f: Faults, k: nat)
    requires k <= |stack|
    ensures var loop := Through(stack, present, mode, f, k);
      if loop.ended == Some(MapFailed) then OneStrays(loop, stack, present) else loop.born == loop.made
  {
    if k > 0 {
      BornIsMade(stack, present, mode, f, k - 1);
      BornStep(Through(stack, present, mode, f, k - 1), k - 1, stack, present, mode, f);
    }
  }

  lemma BornStep(before: Loop, k: nat, stack: seq<Entry>, present: set<Name>, mode: Mode, f: Faults)
    requires k < |stack|
    requires if before.ended == Some(MapFailed) then OneStrays(before, stack, present) else before.born == before.made
    ensures var after := Step(before, k, stack[k], present, mode, f);
      if after.ended == Some(MapFailed) then OneStrays(after, stack, present) else after.born == after.made
  {
    assert (before.born + [k])[..|before.born|] == before.born;
  }

  // --- Rollback. ---

  /** What is left after deleting entries, where some deletions fail. */
  function Without(v: World, stack: seq<Entry>, which: seq<nat>, f: Faults): World
    requires Below(which, |stack|)
  {
    World(v.bdevs - (Bdevs(stack, which) - f.onUnmake), v.stores - (Stores(stack, which) - f.onUnmake))
  }

  lemma WithoutMore(v: World, stack: seq<Entry>, which: seq<nat>, f: Faults)
    requires Below(which, |stack|) && which != []
    ensures Below(which[..|which| - 1], |stack|)
    ensures var e := stack[which[|which| - 1]];
      Without(Play(v, Unmake(e.kind, e.name, e.name !in f.onUnmake)), stack, which[..|which| - 1], f)
      == Without(v, stack, which, f)
  {
    var front, last := which[..|which| - 1], which[|which| - 1];
    assert which == front + [last];
    assert forall i :: i in which <==> i in front || i == last;
  }

  /** Deletions take away exactly what they name, except where the RPC fails. */
  lemma {:induction false} UndoWorld(v: World, stack: seq<Entry>, which: seq<nat>, f: Faults)
    requires Below(which, |stack|) && forall i :: i in which ==> Removable(stack[i], false)
    ensures Replay(v, Undo(stack, which, false, f)) == Without(v, stack, which, f)
    decreases |which|
  {
    hide Without, Replay, Play;
    if which == [] {
      WithoutNothing(v, stack, f);
    } else {
      var e, front := stack[which[|which| - 1]], which[..|which| - 1];
      var delete := Unmake(e.kind, e.name, e.name !in f.onUnmake);
      UndoWorld(Play(v, delete), stack, front, f);
      ReplayConcat(v, [delete], Undo(stack, front, false, f));
      ReplayOne(v, delete);
      WithoutMore(v, stack, which, f);
    }
  }

  lemma WithoutNothing(v: World, stack: seq<Entry>, f: Faults)
    ensures Without(v, stack, [], f) == v && Replay(v, []) == v
  {
  }

  /** What the loop made did not exist before. */
  lemma MadeIsNew(w: World, stack: seq<Entry>, mode: Mode, f: Faults)
    requires RefusesExisting(w, stack, f)
    ensures var made := Through(stack, w.bdevs, mode, f, |stack|).made;
      Bdevs(stack, made) !! w.bdevs && Stores(stack, made) !! w.stores
  {
    hide Through;
    var made := Through(stack, w.bdevs, mode, f, |stack|).made;
    forall i | i in made ensures stack[i].name !in (if stack[i].kind.LvStore? then w.stores else w.bdevs) {
      var j :| 0 <= j < |made| && made[j] == i;
      MadeMeans(stack, w.bdevs, mode, f, |stack|, j);
    }
  }

  /** The marks do not matter for what a name is or what can be removed. */
  lemma MarkedSame(w: World, stack: seq<Entry>, made: seq<nat>, f: Faults)
    requires Below(made, |stack|) && forall i :: i in made ==> !stack[i].kind.Unknown?
    ensures var marked := Marked(stack, made, Created);
      && Bdevs(marked, made) == Bdevs(stack, made) && Stores(marked, made) == Stores(stack, made)
      && (forall i :: i in made ==> Removable(marked[i], false))
  {
    var marked := Marked(stack, made, Created);
    assert forall i :: i in made ==> marked[i].name == stack[i].name && marked[i].kind == stack[i].kind;
  }

  lemma MadeIsKnown(stack: seq<Entry>, present: set<Name>, mode: Mode, f: Faults)
    ensures var made := Through(stack, present, mode, f, |stack|).made; forall i :: i in made ==> !stack[i].kind.Unknown?
  {
    hide Through;
    var made := Through(stack, present, mode, f, |stack|).made;
    forall i | i in made ensures !stack[i].kind.Unknown? {
      var j :| 0 <= j < |made| && made[j] == i;
      MadeMeans(stack, present, mode, f, |stack|, j);
    }
  }

  /** A failed create takes back everything the call made, except where a deletion fails, and
      nothing else. */
  lemma {:induction false} RollbackRestores(w: World, stack: seq<Entry>, mode: Mode, f: Faults)
    requires RefusesExisting(w, stack, f) && EndingOf(stack, w.bdevs, mode, f).CreateFailed?
    ensures var made := Through(stack, w.bdevs, mode, f, |stack|).made;
      Replay(w, LogOf(stack, w.bdevs, mode, f))
      == World(w.bdevs + (Bdevs(stack, made) * f.onUnmake), w.stores + (Stores(stack, made) * f.onUnmake))
  {
    hide Through, Replay, Undo, MarksAfter, Bdevs, Stores;
    var loop := Through(stack, w.bdevs, mode, f, |stack|);
    CallEnds(stack, w.bdevs, mode, f, w);
    LoopWorld(w, stack, mode, f, |stack|);
    BornIsMade(stack, w.bdevs, mode, f, |stack|);
    MadeIsNew(w, stack, mode, f);
    MadeIsKnown(stack, w.bdevs, mode, f);
    MarkedSame(w, stack, loop.made, f);
    UndoWorld(With(w, stack, loop.made), Marked(stack, loop.made, Created), loop.made, f);
    UndoNone(stack, loop.made, f, Replay(w, loop.log));
  }

  lemma UndoNone(stack: seq<Entry>, made: seq<nat>, f: Faults, v: World)
    requires Below(made, |stack|)
    ensures made == [] ==> Bdevs(stack, made) == {} && Stores(stack, made) == {}
  {
  }

  /** A failed call leaves the node as it was exactly when what failed was a create and not the
      sending of the cluster map; deletions succeeding. */
  lemma FailureRestoresIff(w: World, stack: seq<Entry>, mode: Mode, f: Faults)
    requires RefusesExisting(w, stack, f) && f.onUnmake == {}
    requires !EndingOf(stack, w.bdevs, mode, f).Completed?
    ensures Replay(w, LogOf(stack, w.bdevs, mode, f)) == w <==> EndingOf(stack, w.bdevs, mode, f).CreateFailed?
  {
    hide Through, Replay, Undo, MarksAfter, Bdevs, Stores, Marked;
    var loop := Through(stack, w.bdevs, mode, f, |stack|);
    if EndingOf(stack, w.bdevs, mode, f).CreateFailed? {
      RollbackRestores(w, stack, mode, f);
    } else {
      CallEnds(stack, w.bdevs, mode, f, w);
      LoopWorld(w, stack, mode, f, |stack|);
      BornIsMade(stack, w.bdevs, mode, f, |stack|);
      BornExists(stack, loop.born);
    }
  }

  lemma BornExists(stack: seq<Entry>, born: seq<nat>)
    requires Below(born, |stack|)
    ensures born != [] && stack[born[|born| - 1]].kind.Distrib? ==> stack[born[|born| - 1]].name in Bdevs(stack, born)
  {
  }

  // --- Order. ---

  function Creations(log: seq<Rpc>): seq<Name> {
    if log == [] then []
    else
      var r := log[|log| - 1];
      Creations(log[..|log| - 1]) + if r.Make? && r.ok then [r.name] else []
  }

  function Deletions(log: seq<Rpc>): seq<Name> {
    if log == [] then []
    else
      var r := log[|log| - 1];
      Deletions(log[..|log| - 1]) + if r.Unmake? then [r.name] else []
  }

  lemma NamesMore(a: seq<Rpc>, r: Rpc)
    ensures Creations(a + [r]) == Creations(a) + if r.Make? && r.ok then [r.name] else []
    ensures Deletions(a + [r]) == Deletions(a) + if r.Unmake? then [r.name] else []
  {
    assert (a + [r])[..|a|] == a;
  }

  lemma NamesOfNothing()
    ensures Creations([]) == [] && Deletions([]) == []
  {
  }

  lemma {:induction false} NamesConcat(a: seq<Rpc>, b: seq<Rpc>)
    ensures Creations(a + b) == Creations(a) + Creations(b) && Deletions(a + b) == Deletions(a) + Deletions(b)
    decreases |b|
  {
    hide Creations, Deletions;
    if b == [] {
      assert a + b == a;
      NamesOfNothing();
    } else {
      var front, last := b[..|b| - 1], b[|b| - 1];
      assert b == front + [last];
      assert a + b == a + front + [last];
      NamesConcat(a, front);
      NamesMore(front, last);
      NamesMore(a + front, last);
    }
  }

  function NamesAt(stack: seq<Entry>, which: seq<nat>): (r: seq<Name>)
    requires Below(which, |stack|)
    ensures |r| == |which| && forall i :: 0 <= i < |which| ==> r[i] == stack[which[i]].name
  {
    seq(|which|, i requires 0 <= i < |which| => stack[which[i]].name)
  }

  lemma NamesOne(r: Rpc)
    ensures Creations([r]) == (if r.Make? && r.ok then [r.name] else [])
    ensures Deletions([r]) == (if r.Unmake? then [r.name] else [])
    ensures Creations([]) == [] && Deletions([]) == []
  {
    assert [r][..0] == [];
  }

  lemma NamesAtMore(stack: seq<Entry>, which: seq<nat>, k: nat)
    requires Below(which, |stack|) && Below(which + [k], |stack|) && k < |stack|
    ensures NamesAt(stack, which + [k]) == NamesAt(stack, which) + [stack[k].name]
    ensures Reversed(NamesAt(stack, which + [k])) == [stack[k].name] + Reversed(NamesAt(stack, which))
  {
  }

  lemma RoundNames(e: Entry, present: set<Name>, mode: Mode, f: Faults)
    ensures var round := RoundOf(e, present, mode, f);
      Deletions(round.rpcs) == [] && Creations(round.rpcs) == if round.Born() then [e.name] else []
  {
    hide Creations, Deletions;
    var make, send := Make(e.kind, e.name, true), Map(e.name, e.name !in f.onMap);
    NamesOne(make);
    NamesOne(send);
    NamesOne(Make(e.kind, e.name, false));
    NamesConcat([make], [send]);
    assert [make] + [send] == [make, send];
  }

  /** The loop creates in the order of the stack and deletes nothing. */
  lemma {:induction false} LoopNames(stack: seq<Entry>, present: set<Name>, mode: Mode, f: Faults, k: nat)
    requires k <= |stack|
    ensures var loop := Through(stack, present, mode, f, k);
      Below(loop.born, |stack|) && Creations(loop.log) == NamesAt(stack, loop.born) && Deletions(loop.log) == []
  {
    hide RoundOf, Creations, Deletions, NamesAt, Through, Below;
    if k == 0 {
      LoopStarts(stack, present, mode, f);
      NoNames(stack);
    } else {
      LoopNames(stack, present, mode, f, k - 1);
      BornMore(stack, present, mode, f, k - 1);
      if Through(stack, present, mode, f, k - 1).ended.None? {
        RoundIsNamed(stack, present, mode, f, k - 1);
      }
    }
  }

  lemma {:induction false} RoundIsNamed(stack: seq<Entry>, present: set<Name>, mode: Mode, f: Faults, k: nat)
    requires k < |stack| && Through(stack, present, mode, f, k).ended.None?
    requires var loop := Through(stack, present, mode, f, k);
      Below(loop.born, |stack|) && Creations(loop.log) == NamesAt(stack, loop.born) && Deletions(loop.log) == []
    ensures var loop := Through(stack, present, mode, f, k + 1);
      Below(loop.born, |stack|) && Creations(loop.log) == NamesAt(stack, loop.born) && Deletions(loop.log) == []
  {
    hide RoundOf, Creations, Deletions, NamesAt, Through;
    var loop := Through(stack, present, mode, f, k);
    BornMore(stack, present, mode, f, k);
    NamesConcat(loop.log, RoundOf(stack[k], present, mode, f).rpcs);
    RoundNames(stack[k], present, mode, f);
    BelowMore(loop.born, k, |stack|);
    NamesAtMore(stack, loop.born, k);
  }

  lemma BelowMore(which: seq<nat>, k: nat, n: nat)
    requires Below(which, k) && k < n
    ensures Below(which, n) && Below(which + [k], n)
  {
  }

  lemma LoopStarts(stack: seq<Entry>, present: set<Name>, mode: Mode, f: Faults)
    ensures Through(stack, present, mode, f, 0) == Loop([], [], [], None) && Below([], |stack|)
  {
  }

  lemma BornMore(stack: seq<Entry>, present: set<Name>, mode: Mode, f: Faults, k: nat)
    requires k < |stack|
    ensures var loop, after := Through(stack, present, mode, f, k), Through(stack, present, mode, f, k + 1);
      var round := RoundOf(stack[k], present, mode, f);
      if loop.ended.Some? then after == loop
      else after.log == loop.log + round.rpcs && after.born == if round.Born() then loop.born + [k] else loop.born
  {
  }

  lemma NoNames(stack: seq<Entry>)
    ensures Creations([]) == [] && Deletions([]) == [] && NamesAt(stack, []) == [] && Reversed(NamesAt(stack, [])) == []
  {
  }

  lemma {:induction false} UndoNames(stack: seq<Entry>, which: seq<nat>, f: Faults)
    requires Below(which, |stack|) && forall i :: i in which ==> Removable(stack[i], false)
    ensures var log := Undo(stack, which, false, f);
      && |log| == |which| && Creations(log) == [] && Deletions(log) == Reversed(NamesAt(stack, which))
    decreases |which|
  {
    hide Creations, Deletions, NamesAt, Reversed;
    if which == [] {
      NoNames(stack);
    } else {
      var e, front := stack[which[|which| - 1]], which[..|which| - 1];
      var delete := Unmake(e.kind, e.name, e.name !in f.onUnmake);
      assert which == front + [which[|which| - 1]];
      UndoNames(stack, front, f);
      NamesConcat([delete], Undo(stack, front, false, f));
      NamesOne(delete);
      NamesAtMore(stack, front, which[|which| - 1]);
    }
  }

  /** Rolling back deletes what was created, newest first. */
  lemma {:induction false} UndoOfMade(stack: seq<Entry>, present: set<Name>, mode: Mode, f: Faults)
    ensures var made := Through(stack, present, mode, f, |stack|).made;
      var log := Undo(Marked(stack, made, Created), made, false, f);
      Creations(log) == [] && Deletions(log) == Reversed(NamesAt(stack, made))
  {
    hide Through, Undo, Creations, Deletions;
    var made := Through(stack, present, mode, f, |stack|).made;
    var marked := Marked(stack, made, Created);
    MadeIsKnown(stack, present, mode, f);
    MarkedSame(World({}, {}), stack, made, f);
    UndoNames(marked, made, f);
    assert NamesAt(marked, made) == NamesAt(stack, made);
  }

  lemma MadeNamesAreNew(stack: seq<Entry>, present: set<Name>, mode: Mode, f: Faults, n: Name)
    requires n in NamesAt(stack, Through(stack, present, mode, f, |stack|).made)
    ensures n !in present
  {
    hide Through;
    var made := Through(stack, present, mode, f, |stack|).made;
    var j :| 0 <= j < |made| && stack[made[j]].name == n;
    MadeMeans(stack, present, mode, f, |stack|, j);
  }

  /** After a failed create the deletions are exactly the creations in reverse order, none of them
      of a bdev that was there before; any other call deletes nothing. */
  lemma {:induction false} RollbackReverses(w: World, stack: seq<Entry>, mode: Mode, f: Faults)
    ensures var log := LogOf(stack, w.bdevs, mode, f);
      && Deletions(log) == (if EndingOf(stack, w.bdevs, mode, f).CreateFailed? then Reversed(Creations(log)) else [])
      && (forall n :: n in Deletions(log) ==> n !in w.bdevs)
  {
    hide Through, Undo, Creations, Deletions, NamesAt, Marked;
    var loop, log := Through(stack, w.bdevs, mode, f, |stack|), LogOf(stack, w.bdevs, mode, f);
    LoopNames(stack, w.bdevs, mode, f, |stack|);
    BornIsMade(stack, w.bdevs, mode, f, |stack|);
    assert loop.log + [] == loop.log;
    if loop.ended == Some(CreateFailed) {
      UndoOfMade(stack, w.bdevs, mode, f);
      NamesConcat(loop.log, Undo(Marked(stack, loop.made, Created), loop.made, false, f));
      forall n | n in Deletions(log) ensures n !in w.bdevs {
        MadeNamesAreNew(stack, w.bdevs, mode, f, n);
      }
    }
  }

  // --- Base bdevs. ---

  /** Making the next entry is safe: what it is built on is there. */
  lemma BasesAreThere(w: World, stack: seq<Entry>, mode: Mode, f: Faults, k: nat, b: Name)
    requires k < |stack| && Layered(stack) && b in stack[k].bases
    requires Through(stack, w.bdevs, mode, f, k).ended.None?
    ensures b in With(w, stack, Through(stack, w.bdevs, mode, f, k).born).bdevs
  {
    hide Through;
    var loop := Through(stack, w.bdevs, mode, f, k);
    assert Supported(stack, k, b);
    var j :| 0 <= j < k && stack[j].name == b && IsBase(stack[j].kind);
    NothingSkipped(stack, w.bdevs, mode, f, k, j);
    BornIsMade(stack, w.bdevs, mode, f, k);
  }

  lemma MakeKeepsClosed(v: World, stack: seq<Entry>, k: nat)
    requires k < |stack| && Distinct(stack) && Closed(v, stack)
    requires forall b :: b in stack[k].bases ==> b in v.bdevs
    ensures Closed(Play(v, Make(stack[k].kind, stack[k].name, true)), stack)
  {
  }

  /** Whatever part of a round has been played, the world is as before it or has the new bdev. */
  lemma WithinRound(v: World, e: Entry, present: set<Name>, mode: Mode, f: Faults, p: nat)
    requires p <= |RoundOf(e, present, mode, f).rpcs|
    ensures var round := RoundOf(e, present, mode, f);
      var after := Replay(v, round.rpcs[..p]);
      after == v || (round.Born() && after == Play(v, Make(e.kind, e.name, true)))
  {
    var rpcs := RoundOf(e, present, mode, f).rpcs;
    if p == 1 {
      assert rpcs[..1] == [rpcs[0]];
      ReplayOne(v, rpcs[0]);
    } else if p == 2 {
      assert rpcs[..2] == [rpcs[0], rpcs[1]];
      ReplayTwo(v, rpcs[0], rpcs[1]);
    }
  }

  /** At every point of the loop every bdev has the bdevs it is built on. */
  lemma {:induction false} LoopKeepsClosed(w: World, stack: seq<Entry>, mode: Mode, f: Faults, k: nat, p: nat)
    requires k <= |stack| && Distinct(stack) && Layered(stack) && Closed(w, stack)
    requires p <= |Through(stack, w.bdevs, mode, f, k).log|
    ensures Closed(Replay(w, Through(stack, w.bdevs, mode, f, k).log[..p]), stack)
  {
    hide RoundOf, With, Closed, Layered, Distinct, Replay, Play, Through;
    var log := Through(stack, w.bdevs, mode, f, k).log;
    if k == 0 {
      LoopStarts(stack, w.bdevs, mode, f);
      assert log[..p] == [];
      WithNothing(w, stack);
    } else {
      var before := Through(stack, w.bdevs, mode, f, k - 1);
      BornMore(stack, w.bdevs, mode, f, k - 1);
      if p <= |before.log| {
        assert log[..p] == before.log[..p];
        LoopKeepsClosed(w, stack, mode, f, k - 1, p);
      } else {
        assert before.log[..|before.log|] == before.log;
        LoopKeepsClosed(w, stack, mode, f, k - 1, |before.log|);
        var q := p - |before.log|;
        assert log[..p] == before.log + RoundOf(stack[k - 1], w.bdevs, mode, f).rpcs[..q];
        RoundKeepsClosed(w, stack, mode, f, k - 1, q);
      }
    }
  }

  /** Part of round k, after everything before it. */
  lemma {:induction false} RoundKeepsClosed(w: World, stack: seq<Entry>, mode: Mode, f: Faults, k: nat, q: nat)
    requires k < |stack| && Distinct(stack) && Layered(stack) && Through(stack, w.bdevs, mode, f, k).ended.None?
    requires Closed(Replay(w, Through(stack, w.bdevs, mode, f, k).log), stack)
    requires q <= |RoundOf(stack[k], w.bdevs, mode, f).rpcs|
    ensures Closed(Replay(w, Through(stack, w.bdevs, mode, f, k).log + RoundOf(stack[k], w.bdevs, mode, f).rpcs[..q]), stack)
  {
    hide RoundOf, With, Closed, Layered, Distinct, Replay, Play, Through;
    var (before, e) := (Through(stack, w.bdevs, mode, f, k), stack[k]);
    ReplayConcat(w, before.log, RoundOf(e, w.bdevs, mode, f).rpcs[..q]);
    LoopWorld(w, stack, mode, f, k);
    var v := With(w, stack, before.born);
    WithinRound(v, e, w.bdevs, mode, f, q);
    forall b | b in e.bases ensures b in v.bdevs {
      BasesAreThere(w, stack, mode, f, k, b);
    }
    MakeKeepsClosed(v, stack, k);
  }

  /** The rollback walks back through states the loop went through. */
  lemma {:induction false} StateOfLoop(w: World, stack: seq<Entry>, mode: Mode, f: Faults, k: nat, i: nat)
    requires k <= |stack| && Distinct(stack) && Layered(stack) && Closed(w, stack)
    requires i <= |Through(stack, w.bdevs, mode, f, k).made|
    ensures Closed(With(w, stack, Through(stack, w.bdevs, mode, f, k).made[..i]), stack)
  {
    hide RoundOf, With, Closed, Layered, Distinct, Replay;
    var loop := Through(stack, w.bdevs, mode, f, k);
    if i == 0 {
      assert loop.made[..0] == [];
      WithNothing(w, stack);
    } else {
      var before := Through(stack, w.bdevs, mode, f, k - 1);
      if i <= |before.made| {
        assert loop.made[..i] == before.made[..i];
        StateOfLoop(w, stack, mode, f, k - 1, i);
      } else {
        assert loop.made[..i] == loop.made;
        assert loop.log[..|loop.log|] == loop.log;
        LoopKeepsClosed(w, stack, mode, f, k, |loop.log|);
        LoopWorld(w, stack, mode, f, k);
        BornIsMade(stack, w.bdevs, mode, f, k);
        BornIsMade(stack, w.bdevs, mode, f, k - 1);
      }
    }
  }

  /** Deleting the newest bdev is undoing its creation. */
  lemma UnmakeUndoes(w: World, stack: seq<Entry>, which: seq<nat>)
    requires Below(which, |stack|) && which != [] && Distinct(stack)
    requires Bdevs(stack, which) !! w.bdevs && Stores(stack, which) !! w.stores
    ensures Below(which[..|which| - 1], |stack|)
    ensures var e := stack[which[|which| - 1]]; var front := which[..|which| - 1];
      && Play(With(w, stack, which), Unmake(e.kind, e.name, true)) == With(w, stack, front)
      && Bdevs(stack, front) !! w.bdevs && Stores(stack, front) !! w.stores
  {
    var front, last := which[..|which| - 1], which[|which| - 1];
    assert which == front + [last];
    assert forall i :: i in which <==> i in front || i == last;
    assert last in which;
  }

  /** Part of a rollback from With(which) leaves With of a shorter prefix of `which`. */
  lemma {:induction false} PartOfUndo(w: World, stack: seq<Entry>, which: seq<nat>, f: Faults, p: nat)
    requires Below(which, |stack|) && Distinct(stack) && f.onUnmake == {}
    requires forall i :: i in which ==> Removable(stack[i], false)
    requires Bdevs(stack, which) !! w.bdevs && Stores(stack, which) !! w.stores
    requires p <= |Undo(stack, which, false, f)|
    ensures p <= |which| && Below(which[..|which| - p], |stack|)
    ensures Replay(With(w, stack, which), Undo(stack, which, false, f)[..p]) == With(w, stack, which[..|which| - p])
    decreases |which|
  {
    hide With, Replay, Play, Bdevs, Stores, Undo;
    UndoNames(stack, which, f);
    var undo := Undo(stack, which, false, f);
    if p == 0 {
      assert which[..|which|] == which;
      assert undo[..0] == [];
      WithoutNothing(With(w, stack, which), stack, f);
    } else {
      var e, front := stack[which[|which| - 1]], which[..|which| - 1];
      var delete := Unmake(e.kind, e.name, true);
      UnmakeUndoes(w, stack, which);
      UndoSplits(stack, which, f, p);
      ReplayConcat(With(w, stack, which), [delete], Undo(stack, front, false, f)[..p - 1]);
      ReplayOne(With(w, stack, which), delete);
      PartOfUndo(w, stack, front, f, p - 1);
      assert front[..|front| - (p - 1)] == which[..|which| - p];
    }
  }

  lemma UndoSplits(stack: seq<Entry>, which: seq<nat>, f: Faults, p: nat)
    requires Below(which, |stack|) && which != [] && f.onUnmake == {}
    requires Removable(stack[which[|which| - 1]], false) && 0 < p <= |Undo(stack, which, false, f)|
    ensures var e, front := stack[which[|which| - 1]], which[..|which| - 1];
      && p - 1 <= |Undo(stack, front, false, f)|
      && Undo(stack, which, false, f)[..p] == [Unmake(e.kind, e.name, true)] + Undo(stack, front, false, f)[..p - 1]
  {
  }

  /** At every point of a call, rollback included, every bdev of the stack that exists has the bdevs
      it is built on; deletions succeeding. */
  lemma BasesNeverVanish(w: World, stack: seq<Entry>, mode: Mode, f: Faults, p: nat)
    requires Distinct(stack) && Layered(stack) && Closed(w, stack)
    requires RefusesExisting(w, stack, f) && f.onUnmake == {}
    requires p <= |LogOf(stack, w.bdevs, mode, f)|
    ensures Closed(Replay(w, LogOf(stack, w.bdevs, mode, f)[..p]), stack)
  {
    hide Through, Undo, With, Closed, Layered, Distinct, Replay, Bdevs, Stores, MarksAfter, StruckAll, Marked;
    var loop, log := Through(stack, w.bdevs, mode, f, |stack|), LogOf(stack, w.bdevs, mode, f);
    CallEnds(stack, w.bdevs, mode, f, w);
    if p <= |loop.log| {
      assert log[..p] == loop.log[..p];
      LoopKeepsClosed(w, stack, mode, f, |stack|, p);
    } else {
      var marked := Marked(stack, loop.made, Created);
      var undo, q := Undo(marked, loop.made, false, f), p - |loop.log|;
      assert log[..p] == loop.log + undo[..q];
      ReplayConcat(w, loop.log, undo[..q]);
      LoopWorld(w, stack, mode, f, |stack|);
      BornIsMade(stack, w.bdevs, mode, f, |stack|);
      MadeIsNew(w, stack, mode, f);
      MadeIsKnown(stack, w.bdevs, mode, f);
      MarkedSame(w, stack, loop.made, f);
      MarkedDistinct(stack, loop.made);
      PartOfUndo(w, marked, loop.made, f, q);
      MarkedWith(w, stack, loop.made, |loop.made|);
      MarkedWith(w, stack, loop.made, |loop.made| - q);
      assert loop.made[..|loop.made|] == loop.made;
      StateOfLoop(w, stack, mode, f, |stack|, |loop.made| - q);
    }
  }

  lemma MarkedDistinct(stack: seq<Entry>, made: seq<nat>)
    requires Distinct(stack)
    ensures Distinct(Marked(stack, made, Created))
  {
  }

  lemma {:induction false} MarkedWith(w: World, stack: seq<Entry>, made: seq<nat>, n: nat)
    requires Below(made, |stack|) && n <= |made|
    ensures Below(made[..n], |stack|) && With(w, Marked(stack, made, Created), made[..n]) == With(w, stack, made[..n])
  {
    var marked := Marked(stack, made, Created);
    assert forall i :: i in made ==> marked[i].name == stack[i].name && marked[i].kind == stack[i].kind;
    assert forall i :: i in made[..n] ==> i in made;
  }

  // --- A second run. ---

  /** When nothing can be made, nothing is asked for. */
  lemma {:induction false} NothingToDo(stack: seq<Entry>, present: set<Name>, mode: Mode, f: Faults, k: nat)
    requires k <= |stack|
    requires forall i :: 0 <= i < k ==> stack[i].name in present || !Creatable(stack[i].kind, mode)
    ensures Through(stack, present, mode, f, k) == Loop([], [], [], None)
  {
    hide RoundOf, Below, Creatable;
    if k > 0 {
      NothingToDo(stack, present, mode, f, k - 1);
      NothingForOne(stack[k - 1], present, mode, f);
      assert [] + RoundOf(stack[k - 1], present, mode, f).rpcs == [];
    }
  }

  lemma NothingForOne(e: Entry, present: set<Name>, mode: Mode, f: Faults)
    requires e.name in present || !Creatable(e.kind, mode)
    ensures RoundOf(e, present, mode, f) == Round([], false, None)
  {
  }

  lemma {:induction false} EndedEarly(stack: seq<Entry>, present: set<Name>, mode: Mode, f: Faults, k: nat)
    requires k <= |stack|
    ensures Through(stack, present, mode, f, k).ended != Some(Completed)
  {
    if k > 0 { EndedEarly(stack, present, mode, f, k - 1); }
  }

  lemma AllThere(w: World, stack: seq<Entry>, mode: Mode, f: Faults, i: nat)
    requires i < |stack| && EndingOf(stack, w.bdevs, mode, f).Completed?
    ensures var after := Replay(w, LogOf(stack, w.bdevs, mode, f));
      && w.bdevs <= after.bdevs
      && (Creatable(stack[i].kind, mode) ==> stack[i].name in w.bdevs || Exists(after, stack[i]))
  {
    hide Through, Replay, Undo;
    var loop := Through(stack, w.bdevs, mode, f, |stack|);
    assert loop.log + [] == loop.log;
    LoopWorld(w, stack, mode, f, |stack|);
    BornIsMade(stack, w.bdevs, mode, f, |stack|);
    EndedEarly(stack, w.bdevs, mode, f, |stack|);
    NothingSkipped(stack, w.bdevs, mode, f, |stack|, i);
  }

  /** After a run that completed, in whichever mode, a run that brings the stack back on its node or
      builds it as a secondary sends nothing and completes. */
  lemma SecondRunDoesNothing(w: World, stack: seq<Entry>, mode: Mode, f: Faults, again: Mode, g: Faults)
    requires EndingOf(stack, w.bdevs, mode, f).Completed? && !again.OnPrimary?
    ensures var after := Replay(w, LogOf(stack, w.bdevs, mode, f));
      LogOf(stack, after.bdevs, again, g) == [] && EndingOf(stack, after.bdevs, again, g).Completed?
  {
    hide Through, Replay, Undo;
    var after := Replay(w, LogOf(stack, w.bdevs, mode, f));
    forall i | 0 <= i < |stack| ensures stack[i].name in after.bdevs || !Creatable(stack[i].kind, again) {
      AllThere(w, stack, mode, f, i);
    }
    NothingToDo(stack, after.bdevs, again, g, |stack|);
  }
}
