/**
 What one call of _create_bdev_stack asks for, entry by entry, and what the node holds afterwards:
 told from the stack, the bdevs that were there, and which RPCs fail.
 */
module StackContents {
  import opened Records
  import opened BdevStack
  import opened StackLaws

  /** Nothing goes wrong at this entry: it is there, or not made in this mode, or made and, if it is a
      distrib, sent its cluster map. */
  predicate GetsPast(e: Entry, present: set<Name>, mode: Mode, f: Faults) {
    e.name in present || e.kind.Unknown? || (e.kind.LvStore? && !mode.OnPrimary?)
    || (e.name !in f.onMake && (e.kind.Distrib? ==> e.name !in f.onMap))
  }

  lemma RoundEnds(e: Entry, present: set<Name>, mode: Mode, f: Faults)
    ensures RoundOf(e, present, mode, f).ended.None? <==> GetsPast(e, present, mode, f)
  {
  }

  lemma LoopGrows(stack: seq<Entry>, present: set<Name>, mode: Mode, f: Faults, k: nat)
    requires k < |stack|
    ensures var before, after := Through(stack, present, mode, f, k), Through(stack, present, mode, f, k + 1);
      && (after.ended.None? <==> before.ended.None? && GetsPast(stack[k], present, mode, f))
      && after.log == before.log + if before.ended.None? then RoundOf(stack[k], present, mode, f).rpcs else []
  {
    RoundEnds(stack[k], present, mode, f);
    hide RoundOf, Below, GetsPast;
  }

  lemma LoopIsFresh(stack: seq<Entry>, present: set<Name>, mode: Mode, f: Faults)
    ensures Through(stack, present, mode, f, 0) == Loop([], [], [], None)
  {
  }

  /** The loop comes to entry k, or to its end, exactly if nothing goes wrong before. */
  lemma {:induction false} ReachedIff(stack: seq<Entry>, present: set<Name>, mode: Mode, f: Faults, k: nat)
    requires k <= |stack|
    ensures Through(stack, present, mode, f, k).ended.None? <==> forall j :: 0 <= j < k ==> GetsPast(stack[j], present, mode, f)
  {
    hide Through, GetsPast, RoundOf;
    if k == 0 {
      LoopIsFresh(stack, present, mode, f);
    } else {
      ReachedIff(stack, present, mode, f, k - 1);
      LoopGrows(stack, present, mode, f, k - 1);
    }
  }

  /** The call completes exactly if nothing goes wrong at all. */
  lemma {:induction false} CompletesIff(stack: seq<Entry>, present: set<Name>, mode: Mode, f: Faults)
    ensures EndingOf(stack, present, mode, f).Completed? <==> forall j :: 0 <= j < |stack| ==> GetsPast(stack[j], present, mode, f)
  {
    hide Through, GetsPast;
    ReachedIff(stack, present, mode, f, |stack|);
    EndedEarly(stack, present, mode, f, |stack|);
  }

  lemma {:induction false} UndoOnlyUndoes(stack: seq<Entry>, which: seq<nat>, f: Faults)
    requires Below(which, |stack|)
    ensures forall r :: r in Undo(stack, which, false, f) ==> r.Unmake?
  {
    if which != [] { UndoOnlyUndoes(stack, which[..|which| - 1], f); }
  }

  /** A request of a call is one of some round. */
  lemma {:induction false} LogHolds(stack: seq<Entry>, present: set<Name>, mode: Mode, f: Faults, k: nat, r: Rpc)
    requires k <= |stack|
    ensures r in Through(stack, present, mode, f, k).log
      <==> exists j :: 0 <= j < k && Through(stack, present, mode, f, j).ended.None? && r in RoundOf(stack[j], present, mode, f).rpcs
  {
    hide RoundOf, Through, GetsPast;
    if k == 0 {
      LoopIsFresh(stack, present, mode, f);
    } else {
      LogHolds(stack, present, mode, f, k - 1, r);
      LoopGrows(stack, present, mode, f, k - 1);
    }
  }

  lemma {:induction false} CallHolds(stack: seq<Entry>, present: set<Name>, mode: Mode, f: Faults, r: Rpc)
    requires !r.Unmake?
    ensures r in LogOf(stack, present, mode, f)
      <==> exists j :: 0 <= j < |stack| && Through(stack, present, mode, f, j).ended.None? && r in RoundOf(stack[j], present, mode, f).rpcs
  {
    hide Through, RoundOf, Undo, Marked;
    LogHolds(stack, present, mode, f, |stack|, r);
    var made := Through(stack, present, mode, f, |stack|).made;
    UndoOnlyUndoes(Marked(stack, made, Created), made, f);
  }

  /** What is asked for when the loop comes to an entry. */
  lemma RoundAsks(e: Entry, present: set<Name>, mode: Mode, f: Faults)
    ensures var rpcs := RoundOf(e, present, mode, f).rpcs;
      && (forall r :: r in rpcs ==> !r.Unmake? && r.name == e.name)
      && (forall kind, ok :: Make(kind, e.name, ok) in rpcs <==>
            kind == e.kind && e.name !in present && (ok <==> e.name !in f.onMake)
            && (kind.Distrib? || kind.Raid? || kind.PtNonExcl? || (kind.LvStore? && mode.OnPrimary?)))
      && (forall ok :: Map(e.name, ok) in rpcs <==>
            e.kind.Distrib? && e.name !in present && e.name !in f.onMake && (ok <==> e.name !in f.onMap))
  {
  }

  /** An entry is asked for exactly if the loop comes to it, it is missing, and its kind is made: a
      distrib, a raid and a bdev on top of one always, an lvstore only on the primary for the first time. */
  lemma {:induction false} AskedForIff(stack: seq<Entry>, present: set<Name>, mode: Mode, f: Faults, k: nat, ok: bool)
    requires Distinct(stack) && k < |stack|
    ensures Make(stack[k].kind, stack[k].name, ok) in LogOf(stack, present, mode, f) <==>
      && (forall j :: 0 <= j < k ==> GetsPast(stack[j], present, mode, f))
      && stack[k].name !in present && (ok <==> stack[k].name !in f.onMake)
      && match stack[k].kind
        case LvStore => mode.OnPrimary?
        case Unknown => false
        case _ => true
  {
    hide Through, RoundOf, LogOf, GetsPast;
    var e := stack[k];
    var r := Make(e.kind, e.name, ok);
    CallHolds(stack, present, mode, f, r);
    ReachedIff(stack, present, mode, f, k);
    RoundAsks(e, present, mode, f);
    if j :| 0 <= j < |stack| && Through(stack, present, mode, f, j).ended.None? && r in RoundOf(stack[j], present, mode, f).rpcs {
      RoundAsks(stack[j], present, mode, f);
      assert j == k;
    }
  }

  /** A cluster map is sent exactly to a distrib that the call has created. */
  lemma {:induction false} SentMapIff(stack: seq<Entry>, present: set<Name>, mode: Mode, f: Faults, k: nat, ok: bool)
    requires Distinct(stack) && k < |stack|
    ensures Map(stack[k].name, ok) in LogOf(stack, present, mode, f) <==>
      && (forall j :: 0 <= j < k ==> GetsPast(stack[j], present, mode, f))
      && stack[k].kind.Distrib? && stack[k].name !in present && stack[k].name !in f.onMake && (ok <==> stack[k].name !in f.onMap)
  {
    hide Through, RoundOf, LogOf, GetsPast;
    var e := stack[k];
    var r := Map(e.name, ok);
    CallHolds(stack, present, mode, f, r);
    ReachedIff(stack, present, mode, f, k);
    RoundAsks(e, present, mode, f);
    if j :| 0 <= j < |stack| && Through(stack, present, mode, f, j).ended.None? && r in RoundOf(stack[j], present, mode, f).rpcs {
      RoundAsks(stack[j], present, mode, f);
      assert j == k;
    }
  }

  /** A call that completes leaves every bdev of the stack on the node and, on the primary for the first
      time, every lvstore whose name no bdev had; nothing else is new, and nothing is gone. */
  lemma {:induction false} CompletedWorld(w: World, stack: seq<Entry>, mode: Mode, f: Faults)
    requires forall j :: 0 <= j < |stack| ==> GetsPast(stack[j], w.bdevs, mode, f)
    ensures var after := Replay(w, LogOf(stack, w.bdevs, mode, f));
      && after.bdevs == w.bdevs + (set i | 0 <= i < |stack| && !stack[i].kind.LvStore? && !stack[i].kind.Unknown? :: stack[i].name)
      && after.stores == w.stores + (set i | 0 <= i < |stack| && stack[i].kind.LvStore? && mode.OnPrimary?
                                             && stack[i].name !in w.bdevs :: stack[i].name)
  {
    hide Through, Replay, Undo, GetsPast;
    CompletesIff(stack, w.bdevs, mode, f);
    var loop := Through(stack, w.bdevs, mode, f, |stack|);
    assert loop.log + [] == loop.log;
    LoopWorld(w, stack, mode, f, |stack|);
    BornIsMade(stack, w.bdevs, mode, f, |stack|);
    EndedEarly(stack, w.bdevs, mode, f, |stack|);
    forall i: nat | i < |stack| ensures i in loop.made <==> stack[i].name !in w.bdevs && Creatable(stack[i].kind, mode) {
      NothingSkipped(stack, w.bdevs, mode, f, |stack|, i);
    }
    MadeNames(w, stack, mode, loop.made);
  }

  lemma MadeNames(w: World, stack: seq<Entry>, mode: Mode, made: seq<nat>)
    requires Below(made, |stack|)
    requires forall i: nat :: i < |stack| ==> (i in made <==> stack[i].name !in w.bdevs && Creatable(stack[i].kind, mode))
    ensures With(w, stack, made).bdevs
      == w.bdevs + (set i | 0 <= i < |stack| && !stack[i].kind.LvStore? && !stack[i].kind.Unknown? :: stack[i].name)
    ensures With(w, stack, made).stores
      == w.stores + (set i | 0 <= i < |stack| && stack[i].kind.LvStore? && mode.OnPrimary? && stack[i].name !in w.bdevs :: stack[i].name)
  {
  }

  /** Nothing in a log touches an lvstore. */
  ghost predicate NoStores(log: seq<Rpc>) {
    forall r :: r in log && !r.Map? ==> !r.kind.LvStore?
  }

  lemma {:induction false} StoresStay(w: World, log: seq<Rpc>)
    requires NoStores(log)
    ensures Replay(w, log).stores == w.stores
  {
    if log != [] { StoresStay(w, log[..|log| - 1]); }
  }

  lemma {:induction false} UndoNoStores(stack: seq<Entry>, which: seq<nat>, f: Faults)
    requires Below(which, |stack|) && forall i :: 0 <= i < |which| ==> !stack[which[i]].kind.LvStore?
    ensures NoStores(Undo(stack, which, false, f))
  {
    if which != [] { UndoNoStores(stack, which[..|which| - 1], f); }
  }

  /** Elsewhere than on the primary for the first time no lvstore comes or goes, however the call ends. */
  lemma {:induction false} NoStoreElsewhere(w: World, stack: seq<Entry>, mode: Mode, f: Faults)
    requires !mode.OnPrimary?
    ensures Replay(w, LogOf(stack, w.bdevs, mode, f)).stores == w.stores
  {
    hide Through, Replay, Undo, RoundOf;
    var loop := Through(stack, w.bdevs, mode, f, |stack|);
    forall r | r in loop.log && !r.Map? ensures !r.kind.LvStore? {
      LogHolds(stack, w.bdevs, mode, f, |stack|, r);
      var j :| 0 <= j < |stack| && r in RoundOf(stack[j], w.bdevs, mode, f).rpcs;
      RoundAsks(stack[j], w.bdevs, mode, f);
    }
    var marked := Marked(stack, loop.made, Created);
    forall i | 0 <= i < |loop.made| ensures !marked[loop.made[i]].kind.LvStore? {
      MadeMeans(stack, w.bdevs, mode, f, |stack|, i);
    }
    UndoNoStores(marked, loop.made, f);
    StoresStay(w, LogOf(stack, w.bdevs, mode, f));
  }

  // ---------------------------------------------------------------- what is marked and what is deleted

  /** The call has created an entry, and a distrib's map was sent, exactly if nothing goes wrong up to it,
      it was missing, and its kind is made. */
  lemma {:induction false} MadeIff(stack: seq<Entry>, present: set<Name>, mode: Mode, f: Faults, n: nat, k: nat)
    requires k < n <= |stack|
    ensures k in Through(stack, present, mode, f, n).made <==>
      && (forall j :: 0 <= j <= k ==> GetsPast(stack[j], present, mode, f))
      && stack[k].name !in present && !stack[k].kind.Unknown? && (stack[k].kind.LvStore? ==> mode.OnPrimary?)
  {
    hide Through, GetsPast, RoundOf;
    MadeGrows(stack, present, mode, f, n - 1);
    if k < n - 1 {
      MadeIff(stack, present, mode, f, n - 1, k);
    } else {
      ReachedIff(stack, present, mode, f, k);
      RoundMadeIff(stack[k], present, mode, f);
    }
  }

  lemma MadeGrows(stack: seq<Entry>, present: set<Name>, mode: Mode, f: Faults, k: nat)
    requires k < |stack|
    ensures var before, after := Through(stack, present, mode, f, k), Through(stack, present, mode, f, k + 1);
      && k !in before.made
      && after.made == before.made + if before.ended.None? && RoundOf(stack[k], present, mode, f).made then [k] else []
  {
    hide RoundOf;
  }

  lemma RoundMadeIff(e: Entry, present: set<Name>, mode: Mode, f: Faults)
    ensures RoundOf(e, present, mode, f).made <==>
      GetsPast(e, present, mode, f) && e.name !in present && !e.kind.Unknown? && (e.kind.LvStore? ==> mode.OnPrimary?)
  {
  }

  /** What the call has created ends up marked as created, or as deleted if a create failed; everything
      else keeps its mark. */
  lemma {:induction false} MarkedIff(stack: seq<Entry>, present: set<Name>, mode: Mode, f: Faults, k: nat)
    requires k < |stack|
    ensures var made := (forall j :: 0 <= j <= k ==> GetsPast(stack[j], present, mode, f))
                        && stack[k].name !in present && !stack[k].kind.Unknown? && (stack[k].kind.LvStore? ==> mode.OnPrimary?);
      var failed := EndingOf(stack, present, mode, f).CreateFailed?;
      MarksAfter(stack, present, mode, f)[k]
      == if made then stack[k].(mark := if failed then Deleted else Created) else stack[k]
  {
    hide Through, GetsPast, EndingOf;
    MadeIff(stack, present, mode, f, |stack|, k);
  }

  /** _remove_bdev_stack asks to delete exactly what is not deleted already and not of an unknown kind,
      and an lvstore only if not told to leave it. */
  lemma {:induction false} DeletedIff(stack: seq<Entry>, which: seq<nat>, distribsOnly: bool, f: Faults, r: Rpc)
    requires Below(which, |stack|)
    ensures r in Undo(stack, which, distribsOnly, f) <==>
      exists i :: 0 <= i < |which|
        && r == Unmake(stack[which[i]].kind, stack[which[i]].name, stack[which[i]].name !in f.onUnmake)
        && !stack[which[i]].mark.Deleted? && !stack[which[i]].kind.Unknown? && !(stack[which[i]].kind.LvStore? && distribsOnly)
  {
    if which != [] {
      var front, last := which[..|which| - 1], |which| - 1;
      DeletedIff(stack, front, distribsOnly, f, r);
      DeletionIff(stack[which[last]], distribsOnly, f, r);
      hide Deletion;
      forall i | 0 <= i < last ensures front[i] == which[i] {
      }
    }
  }

  lemma DeletionIff(e: Entry, distribsOnly: bool, f: Faults, r: Rpc)
    ensures r in Deletion(e, distribsOnly, f) <==>
      r == Unmake(e.kind, e.name, e.name !in f.onUnmake)
      && !e.mark.Deleted? && !e.kind.Unknown? && !(e.kind.LvStore? && distribsOnly)
  {
  }
}
