/**
 create_lvstore: the stack it builds, and the two nodes it creates it on.
 */
module Lvstore {
  import opened Records
  import opened BdevStack
  import opened StackContents
  import opened StackLaws

  function DistribAt(vuid: nat, blocks: nat): Entry {
    Entry(Distrib, DistribName(vuid), [], blocks, Unmarked)
  }

  function NamesOf(entries: seq<Entry>): (r: seq<Name>)
    ensures |r| == |entries| && forall i :: 0 <= i < |r| ==> r[i] == entries[i].name
  {
    seq(|entries|, i requires 0 <= i < |entries| => entries[i].name)
  }

  /** Blocks of all distribs. */
  function Blocks(stack: seq<Entry>): nat {
    if stack == [] then 0
    else Blocks(stack[..|stack| - 1]) + if stack[|stack| - 1].kind.Distrib? then stack[|stack| - 1].blocks else 0
  }

  /** Distribs at the bottom, all in one raid if there are several, the lvstore on top. */
  ghost predicate IsLvstoreStack(stack: seq<Entry>, n: nat, jmVuid: nat) {
    && 0 < n
    && |stack| == (if n == 1 then 2 else n + 2)
    && (forall i :: 0 <= i < n ==> stack[i].kind.Distrib? && stack[i].bases == [])
    && stack[|stack| - 1].kind.LvStore? && stack[|stack| - 1].name == StoreName(jmVuid)
    && stack[|stack| - 1].bases == [stack[|stack| - 2].name]
    && (n > 1 ==> stack[n].kind.Raid? && stack[n].name == RaidName(jmVuid) && stack[n].bases == NamesOf(stack[..n]))
  }

  lemma SomeVuidIsFree(used: seq<nat>) returns (v: nat)
    ensures v !in used
    ensures forall i :: 0 <= i < |used| ==> used[i] < v
  {
    v := 0;
    for i := 0 to |used|
      invariant forall j :: 0 <= j < i ==> used[j] < v
    {
      if used[i] >= v { v := used[i] + 1; }
    }
  }

  /** A vuid is drawn until it is none of those already used. */
  method DrawVuid(used: seq<nat>) returns (v: nat)
    ensures v !in used
  {
    ghost var free := SomeVuidIsFree(used);
    v :| v !in used;
  }

  /** Floored first by the count and then by the block size, the distribs together lose less than
      one block each. */
  lemma {:induction false} CapacityLost(max: nat, n: nat, bs: nat)
    requires 0 < n && 0 < bs
    ensures var total := n * (max / n / bs) * bs; total <= max < total + n * bs
  {
    FloorTwice(max, n, bs, max / n / bs, max / n % bs, max % n);
  }

  lemma {:induction false} FloorTwice(max: nat, n: nat, bs: nat, q: nat, r: nat, rest: nat)
    requires max == n * (q * bs + r) + rest && r < bs && rest < n
    ensures n * q * bs <= max < n * q * bs + n * bs
  {
    assert n * (q * bs + r) == n * q * bs + n * r;
    assert n * r <= n * (bs - 1);
  }

  lemma BlocksMore(stack: seq<Entry>, e: Entry)
    ensures Blocks(stack + [e]) == Blocks(stack) + if e.kind.Distrib? then e.blocks else 0
  {
    assert (stack + [e])[..|stack|] == stack;
  }

  /** The loop over number_of_distribs. */
  method BuildDistribs(n: nat, blocks: nat) returns (stack: seq<Entry>)
    ensures |stack| == n && Distinct(stack) && Blocks(stack) == n * blocks
    ensures forall i :: 0 <= i < n ==> stack[i].kind.Distrib? && stack[i].bases == [] && stack[i].name.DistribName?
  {
    stack := [];
    var vuids: seq<nat> := [];
    for i := 0 to n
      invariant |stack| == |vuids| == i && Blocks(stack) == i * blocks
      invariant forall j :: 0 <= j < i ==> stack[j] == DistribAt(vuids[j], blocks)
      invariant forall j, k :: 0 <= j < k < i ==> vuids[j] != vuids[k]
    {
      var vuid := DrawVuid(vuids);
      BlocksMore(stack, DistribAt(vuid, blocks));
      stack := stack + [DistribAt(vuid, blocks)];
      vuids := vuids + [vuid];
    }
  }

  /** The stack create_lvstore puts together for a node with n distribs. */
  method BuildStack(max: nat, n: nat, bs: nat, jmVuid: nat) returns (stack: seq<Entry>)
    requires 0 < n && 0 < bs
    ensures IsLvstoreStack(stack, n, jmVuid) && Distinct(stack) && Layered(stack)
    ensures Blocks(stack) * bs <= max < Blocks(stack) * bs + n * bs
  {
    var size := max / n;
    var distribs := BuildDistribs(n, size / bs);
    CapacityLost(max, n, bs);
    stack := distribs;
    var device := distribs[0].name;
    if n > 1 {
      device := RaidName(jmVuid);
      BlocksMore(stack, Entry(Raid, device, NamesOf(distribs), 0, Unmarked));
      stack := stack + [Entry(Raid, device, NamesOf(distribs), 0, Unmarked)];
      assert stack[..n] == distribs;
    }
    BlocksMore(stack, Entry(LvStore, StoreName(jmVuid), [device], 0, Unmarked));
    stack := stack + [Entry(LvStore, StoreName(jmVuid), [device], 0, Unmarked)];
    assert stack[..n] == distribs;
    LvstoreStackLayered(stack, n, jmVuid);
  }

  lemma LvstoreStackLayered(stack: seq<Entry>, n: nat, jmVuid: nat)
    requires IsLvstoreStack(stack, n, jmVuid)
    ensures Layered(stack)
  {
    forall k, b | 0 <= k < |stack| && b in stack[k].bases ensures Supported(stack, k, b) {
      if k == |stack| - 1 {
        assert stack[k - 1].name == b;
      } else {
        var j :| 0 <= j < n && NamesOf(stack[..n])[j] == b;
        assert stack[j].name == b;
      }
    }
  }

  /** Every bdev of the stack is there. */
  ghost predicate HasBdevs(w: World, stack: seq<Entry>) {
    forall i :: 0 <= i < |stack| && !stack[i].kind.LvStore? ==> stack[i].name in w.bdevs
  }

  /** Nothing goes wrong on the node. */
  ghost predicate Smooth(stack: seq<Entry>, present: set<Name>, mode: Mode, f: Faults) {
    forall j :: 0 <= j < |stack| ==> GetsPast(stack[j], present, mode, f)
  }

  lemma {:induction false} SmoothHasAll(w: World, stack: seq<Entry>, mode: Mode, f: Faults, n: nat, jmVuid: nat)
    requires IsLvstoreStack(stack, n, jmVuid) && StoreName(jmVuid) !in w.bdevs
    ensures EndingOf(stack, w.bdevs, mode, f).Completed? <==> Smooth(stack, w.bdevs, mode, f)
    ensures var after := Replay(w, LogOf(stack, w.bdevs, mode, f));
      && (Smooth(stack, w.bdevs, mode, f) ==> HasBdevs(after, stack))
      && (Smooth(stack, w.bdevs, mode, f) && mode.OnPrimary? ==> StoreName(jmVuid) in after.stores)
      && (!mode.OnPrimary? ==> after.stores == w.stores)
  {
    hide LogOf, Replay, EndingOf, GetsPast;
    CompletesIff(stack, w.bdevs, mode, f);
    if Smooth(stack, w.bdevs, mode, f) { CompletedWorld(w, stack, mode, f); }
    if !mode.OnPrimary? { NoStoreElsewhere(w, stack, mode, f); }
    assert stack[|stack| - 1].kind.LvStore?;
  }

  predicate SameButMark(a: Entry, b: Entry) { a.kind == b.kind && a.name == b.name && a.bases == b.bases }

  lemma SameShape(a: seq<Entry>, b: seq<Entry>, n: nat, jmVuid: nat)
    requires IsLvstoreStack(a, n, jmVuid) && |a| == |b| && forall i :: 0 <= i < |a| ==> SameButMark(a[i], b[i])
    ensures IsLvstoreStack(b, n, jmVuid)
  {
    var last := |a| - 1;
    assert SameButMark(a[last], b[last]) && SameButMark(a[last - 1], b[last - 1]);
    if n > 1 {
      assert SameButMark(a[n], b[n]);
      assert NamesOf(a[..n]) == NamesOf(b[..n]);
    }
  }

  lemma MarksKeepShape(built: seq<Entry>, which: seq<nat>, mark: Mark, n: nat, jmVuid: nat)
    requires IsLvstoreStack(built, n, jmVuid)
    ensures IsLvstoreStack(Marked(built, which, mark), n, jmVuid)
  {
    hide IsLvstoreStack;
    SameShape(built, Marked(built, which, mark), n, jmVuid);
  }

  /** create_lvstore: the stack on the node itself and then, if it has one, on its secondary. It succeeds
      exactly if nothing goes wrong on either. Then both hold all bdevs of the stack, and the primary the
      lvstore too; on the secondary no lvstore is ever made. The secondary is not touched unless the
      primary's stack is complete, and a failure there leaves the primary's stack standing. */
  method CreateLvstore(primary: Target, secondary: Target?, max: nat, n: nat, bs: nat, jmVuid: nat)
    returns (ok: bool, ghost built: seq<Entry>)
    requires 0 < n && 0 < bs && primary != secondary
    requires StoreName(jmVuid) !in primary.world.bdevs && (secondary != null ==> StoreName(jmVuid) !in secondary.world.bdevs)
    modifies primary, secondary
    ensures IsLvstoreStack(built, n, jmVuid) && Distinct(built) && Layered(built)
    ensures Blocks(built) * bs <= max < Blocks(built) * bs + n * bs
    ensures primary.world == Replay(old(primary.world), LogOf(built, old(primary.world.bdevs), OnPrimary, primary.faults))
    ensures var smooth := Smooth(built, old(primary.world.bdevs), OnPrimary, primary.faults);
      && (ok <==> smooth && (secondary != null ==> Smooth(built, old(secondary.world.bdevs), OnSecondary, secondary.faults)))
      && (smooth ==> HasBdevs(primary.world, built) && StoreName(jmVuid) in primary.world.stores)
      && (!smooth && secondary != null ==> secondary.world == old(secondary.world) && secondary.log == old(secondary.log))
    ensures ok && secondary != null ==> HasBdevs(secondary.world, built)
    ensures secondary != null ==> secondary.world.stores == old(secondary.world.stores)
  {
    hide IsLvstoreStack, Distinct, Layered, Replay, LogOf, EndingOf, Through, HasBdevs, Smooth, Blocks;
    var entries := BuildStack(max, n, bs, jmVuid);
    built := entries;
    var stack := new Entry[|entries|](i requires 0 <= i < |entries| => entries[i]);
    assert stack[..] == entries;
    var r := CreateBdevStack(primary, stack, OnPrimary);
    SmoothHasAll(old(primary.world), built, OnPrimary, primary.faults, n, jmVuid);
    ok := r.Completed?;
    if !ok { return; }
    if secondary != null {
      ghost var made := Through(built, old(primary.world.bdevs), OnPrimary, primary.faults, |built|).made;
      ok := CreateOnSecondary(secondary, stack, built, made, n, jmVuid);
    }
  }

  /** The same stack on the secondary, whatever its marks. */
  method CreateOnSecondary(secondary: Target, stack: array<Entry>, ghost built: seq<Entry>, ghost made: seq<nat>, n: nat, jmVuid: nat)
    returns (ok: bool)
    requires IsLvstoreStack(built, n, jmVuid) && stack[..] == Marked(built, made, Created)
    requires StoreName(jmVuid) !in secondary.world.bdevs
    modifies secondary, stack
    ensures ok <==> Smooth(built, old(secondary.world.bdevs), OnSecondary, secondary.faults)
    ensures ok ==> HasBdevs(secondary.world, built)
    ensures secondary.world.stores == old(secondary.world.stores)
  {
    hide IsLvstoreStack, Replay, LogOf, EndingOf, HasBdevs, Smooth;
    ghost var marked := stack[..];
    MarksKeepShape(built, made, Created, n, jmVuid);
    var r := CreateBdevStack(secondary, stack, OnSecondary);
    SmoothHasAll(old(secondary.world), marked, OnSecondary, secondary.faults, n, jmVuid);
    MarksDoNotMatter(secondary.world, old(secondary.world.bdevs), built, made, secondary.faults);
    ok := r.Completed?;
  }

  lemma MarksDoNotMatter(w: World, present: set<Name>, built: seq<Entry>, made: seq<nat>, f: Faults)
    ensures var marked := Marked(built, made, Created);
      && (Smooth(marked, present, OnSecondary, f) <==> Smooth(built, present, OnSecondary, f))
      && (HasBdevs(w, marked) <==> HasBdevs(w, built))
  {
    var marked := Marked(built, made, Created);
    forall i | 0 <= i < |built|
      ensures marked[i].name == built[i].name && marked[i].kind == built[i].kind
      ensures GetsPast(marked[i], present, OnSecondary, f) <==> GetsPast(built[i], present, OnSecondary, f)
    {
    }
  }
}
