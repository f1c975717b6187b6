/** The closed ring, walked: any number of steps leads where counting modulo the number of nodes says. */
module RingWalk {
  import opened Pairing
  import opened PairingRing

  /** The node reached from `id` by following `steps` secondary pointers. */
  function Follow(nodes: Table, id: NodeId, steps: nat): NodeId
    decreases steps
  {
    if steps == 0 || id !in nodes then id else Follow(nodes, nodes[id].secondary, steps - 1)
  }

  /** The pairs are one single ring: any number of steps from node i leads to node i + steps mod n. */
  lemma {:induction false} RingIsSingle(created: seq<NodeId>, nodes: Table, i: nat, steps: nat)
    requires Stored(created, nodes.Keys) && i < |created|
    requires forall j :: 0 <= j < |created| ==> Linked(created, nodes, 0, j)
    ensures Follow(nodes, created[i], steps) == created[(i + steps) % |created|]
    decreases steps
  {
    var n := |created|;
    if steps == 0 {
      assert (i + 0) % n == i;
    } else {
      var next := After(0, n, i);
      assert Linked(created, nodes, 0, i);
      RingIsSingle(created, nodes, next, steps - 1);
      ModStep(i, steps, n);
    }
  }

  lemma {:induction false} ModStep(i: nat, steps: nat, n: nat)
    requires i < n && steps > 0
    ensures (After(0, n, i) + (steps - 1)) % n == (i + steps) % n
  {
    if i + 1 == n {
      var rest := steps - 1;
      assert i + steps == n + rest;
      ModShift(rest, n);
    }
  }

  lemma {:induction false} ModShift(k: nat, n: nat)
    requires n > 0
    ensures (n + k) % n == k % n
  {
    var d := (n + k) / n - k / n - 1;
    assert d * n == k % n - (n + k) % n;
    MultipleIsFar(d, n);
  }

  lemma MultipleIsFar(d: int, n: int)
    requires n > 0
    ensures d >= 1 ==> d * n >= n
    ensures d <= -1 ==> d * n <= -n
  {
    if d >= 1 {
      assert (d - 1) * n >= 0;
    } else if d <= -1 {
      assert (-d - 1) * n >= 0;
    }
  }
}
