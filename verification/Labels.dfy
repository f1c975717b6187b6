/** Physical labels: one per host. */
module Labels {
  import opened Records

  /** A stored node; a label of 0 is one that is not set yet. */
  datatype Node = Node(host: string, tag: int)

  function FirstOn(nodes: seq<Node>, host: string): Option<int> {
    if nodes == [] then None
    else if nodes[0].tag > 0 && nodes[0].host == host then Some(nodes[0].tag)
    else FirstOn(nodes[1..], host)
  }

  function Used(nodes: seq<Node>): (r: set<int>)
    ensures forall l :: l in r <==> exists i :: 0 <= i < |nodes| && nodes[i].tag > 0 && nodes[i].tag == l
  {
    set i | 0 <= i < |nodes| && nodes[i].tag > 0 :: nodes[i].tag
  }

  /** The label for one more node on `host`: that of the host if it has one, else the least unused. */
  ghost predicate IsNext(nodes: seq<Node>, host: string, l: int) {
    if FirstOn(nodes, host).Some? then l == FirstOn(nodes, host).value
    else l > 0 && l !in Used(nodes) && forall k :: 0 < k < l ==> k in Used(nodes)
  }

  lemma {:induction false} FirstOnMeans(nodes: seq<Node>, host: string)
    ensures FirstOn(nodes, host).None? <==> forall i :: 0 <= i < |nodes| && nodes[i].tag > 0 ==> nodes[i].host != host
    ensures FirstOn(nodes, host).Some? ==>
      exists i :: 0 <= i < |nodes| && nodes[i].tag > 0 && nodes[i].host == host && nodes[i].tag == FirstOn(nodes, host).value
  {
    if nodes != [] && !(nodes[0].tag > 0 && nodes[0].host == host) {
      FirstOnMeans(nodes[1..], host);
      if i :| 0 <= i < |nodes| - 1 && nodes[1..][i].tag > 0 && nodes[1..][i].host == host
              && Some(nodes[1..][i].tag) == FirstOn(nodes, host) {
        assert nodes[i + 1] == nodes[1..][i];
      }
      if FirstOn(nodes, host).None? {
        forall i | 0 <= i < |nodes| && nodes[i].tag > 0 ensures nodes[i].host != host {
          if i > 0 { assert nodes[i] == nodes[1..][i - 1]; }
        }
      }
    }
  }

  /** The first n positive numbers. */
  function UpTo(n: nat): (r: set<int>)
    ensures |r| == n && forall k :: k in r <==> 0 < k <= n
  {
    if n == 0 then {} else UpTo(n - 1) + {n}
  }

  lemma AllUsed(used: set<int>, n: nat)
    requires forall k :: 0 < k <= n ==> k in used
    ensures n <= |used|
  {
    assert UpTo(n) <= used;
    SubsetSize(UpTo(n), used);
  }

  lemma SubsetSize(a: set<int>, b: set<int>)
    requires a <= b
    ensures |a| <= |b|
  {
    assert a + (b - a) == b && a * (b - a) == {};
  }

  /** get_next_physical_device_order: the search stops, at most one past the labels in use. */
  method GetNextPhysicalDeviceOrder(nodes: seq<Node>, host: string) returns (l: int)
    ensures IsNext(nodes, host, l)
    ensures FirstOn(nodes, host).None? ==> l <= |Used(nodes)| + 1
  {
    var used: seq<int> := [];
    for i := 0 to |nodes|
      invariant FirstOn(nodes, host) == FirstOn(nodes[i..], host)
      invariant forall k :: k in used <==> exists j :: 0 <= j < i && nodes[j].tag > 0 && nodes[j].tag == k
    {
      if nodes[i].tag > 0 {
        if nodes[i].host == host { return nodes[i].tag; }
        used := used + [nodes[i].tag];
      }
    }
    l := 1;
    while l in used
      invariant 0 < l && forall k :: 0 < k < l ==> k in Used(nodes)
      decreases |Used(nodes)| + 1 - l
    {
      assert l in Used(nodes);
      AllUsed(Used(nodes), l);
      l := l + 1;
    }
    AllUsed(Used(nodes), l - 1);
  }

  /** Two labelled nodes share a label exactly when they share a host. */
  ghost predicate OnePerHost(nodes: seq<Node>) {
    forall i, j :: 0 <= i < |nodes| && 0 <= j < |nodes| && nodes[i].tag > 0 && nodes[j].tag > 0 ==>
      (nodes[i].tag == nodes[j].tag <==> nodes[i].host == nodes[j].host)
  }

  lemma AdditionKeepsLabels(nodes: seq<Node>, host: string, l: int)
    requires OnePerHost(nodes) && IsNext(nodes, host, l)
    ensures l > 0 && OnePerHost(nodes + [Node(host, l)])
  {
    FirstOnMeans(nodes, host);
    var after := nodes + [Node(host, l)];
    forall i | 0 <= i < |nodes| && nodes[i].tag > 0 ensures nodes[i].tag == l <==> nodes[i].host == host {
      assert nodes[i].tag in Used(nodes);
    }
  }

  /** A cluster to which nodes are added one by one. */
  class Cluster {
    var nodes: seq<Node>

    constructor ()
      ensures nodes == []
    {
      nodes := [];
    }

    /** The record is stored without a label before the label is looked for (add_node). */
    method AddNode(host: string)
      requires OnePerHost(nodes)
      modifies this
      ensures |nodes| == |old(nodes)| + 1 && nodes[..|old(nodes)|] == old(nodes)
      ensures nodes[|old(nodes)|].host == host && IsNext(old(nodes), host, nodes[|old(nodes)|].tag)
      ensures nodes[|old(nodes)|].tag > 0 && OnePerHost(nodes)
    {
      ghost var before := nodes;
      nodes := nodes + [Node(host, 0)];
      var l := GetNextPhysicalDeviceOrder(nodes, host);
      UnlabelledChangesNothing(before, host, l);
      AdditionKeepsLabels(before, host, l);
      nodes := nodes[..|nodes| - 1] + [Node(host, l)];
      assert nodes == before + [Node(host, l)];
    }

    /** Any number of additions. */
    method AddNodes(hosts: seq<string>)
      requires OnePerHost(nodes) && forall i :: 0 <= i < |nodes| ==> nodes[i].tag > 0
      modifies this
      ensures |nodes| == |old(nodes)| + |hosts| && nodes[..|old(nodes)|] == old(nodes)
      ensures forall i :: 0 <= i < |hosts| ==> nodes[|old(nodes)| + i].host == hosts[i]
      ensures OnePerHost(nodes) && forall i :: 0 <= i < |nodes| ==> nodes[i].tag > 0
    {
      for i := 0 to |hosts|
        invariant |nodes| == |old(nodes)| + i && nodes[..|old(nodes)|] == old(nodes)
        invariant forall j :: 0 <= j < i ==> nodes[|old(nodes)| + j].host == hosts[j]
        invariant OnePerHost(nodes) && forall j :: 0 <= j < |nodes| ==> nodes[j].tag > 0
      {
        ghost var before := nodes;
        AddNode(hosts[i]);
        assert forall j :: 0 <= j < |before| ==> nodes[j] == nodes[..|before|][j] == before[j];
      }
    }
  }

  lemma {:induction false} FirstOnMore(nodes: seq<Node>, host: string)
    ensures FirstOn(nodes + [Node(host, 0)], host) == FirstOn(nodes, host)
  {
    if nodes != [] {
      FirstOnMore(nodes[1..], host);
      assert (nodes + [Node(host, 0)])[1..] == nodes[1..] + [Node(host, 0)];
    }
  }

  lemma UnlabelledChangesNothing(nodes: seq<Node>, host: string, l: int)
    ensures IsNext(nodes + [Node(host, 0)], host, l) <==> IsNext(nodes, host, l)
  {
    FirstOnMore(nodes, host);
    var more := nodes + [Node(host, 0)];
    assert Used(more) == Used(nodes) by {
      forall k ensures k in Used(more) <==> k in Used(nodes) {
        if k in Used(nodes) {
          var i :| 0 <= i < |nodes| && nodes[i].tag > 0 && nodes[i].tag == k;
          assert more[i] == nodes[i];
        }
      }
    }
  }
}
