/**
 Which journal devices an lvstore uses: the greedy choice of get_sorted_ha_jms, and why no other
 admissible choice is used less.
 */
module Journals {
  import opened Records

  type Id = string

  datatype Jm = Jm(id: Id, bdev: string, status: DeviceStatus)

  /** A journal of another node, attached under a name derived from its bdev. */
  datatype Remote = Remote(id: Id, bdev: string)

  datatype Node = Node(
    id: Id,
    host: string,
    status: NodeStatus,
    jm: Option<Jm>,
    jmIds: seq<Id>,
    ha: bool,
    back: Id,
    remotes: seq<Remote>)

  // ---------------------------------------------------------------- what the scans collect

  /** A node other than `me` whose journal may be chosen. */
  predicate Offers(n: Node, me: Id) {
    n.id != me && n.jm.Some? && n.jm.value.status.DevOnline? && n.jm.value.id != ""
  }

  /** The offered journals in the order the scan first meets them. */
  function Keys(nodes: seq<Node>, me: Id): (r: seq<Id>)
    ensures forall i, j :: 0 <= i < j < |r| ==> r[i] != r[j]
  {
    if nodes == [] then []
    else
      var before, n := Keys(nodes[..|nodes| - 1], me), nodes[|nodes| - 1];
      if Offers(n, me) && n.jm.value.id !in before then before + [n.jm.value.id] else before
  }

  /** The host of each offered journal. */
  function Hosts(nodes: seq<Node>, me: Id): (r: map<Id, string>)
    ensures forall id :: id in r <==> id in Keys(nodes, me)
  {
    if nodes == [] then map[]
    else
      var before, n := Hosts(nodes[..|nodes| - 1], me), nodes[|nodes| - 1];
      if Offers(n, me) then before[n.jm.value.id := n.host] else before
  }

  function Count(s: seq<Id>, id: Id): nat {
    if s == [] then 0 else Count(s[..|s| - 1], id) + if s[|s| - 1] == id then 1 else 0
  }

  /** How often the other nodes name a journal among theirs. */
  function Uses(nodes: seq<Node>, me: Id, id: Id): nat {
    if nodes == [] then 0
    else
      var n := nodes[|nodes| - 1];
      Uses(nodes[..|nodes| - 1], me, id) + if n.id == me then 0 else Count(n.jmIds, id)
  }

  function Usage(nodes: seq<Node>, me: Id): (r: map<Id, nat>)
    ensures forall id :: id in r <==> id in Keys(nodes, me)
  {
    map id | id in Keys(nodes, me) :: Uses(nodes, me, id)
  }

  // ---------------------------------------------------------------- sorting and picking

  /** Puts x behind everything that counts no more than it. */
  function Insert(s: seq<Id>, x: Id, count: map<Id, nat>): (r: seq<Id>)
    requires x in count && forall id :: id in s ==> id in count
    ensures multiset(r) == multiset(s) + multiset{x}
  {
    if s == [] || count[s[|s| - 1]] <= count[x] then s + [x]
    else
      assert s == s[..|s| - 1] + [s[|s| - 1]];
      Insert(s[..|s| - 1], x, count) + [s[|s| - 1]]
  }

  function StableSort(s: seq<Id>, count: map<Id, nat>): (r: seq<Id>)
    requires forall id :: id in s ==> id in count
    ensures multiset(r) == multiset(s)
  {
    if s == [] then []
    else
      var front := StableSort(s[..|s| - 1], count);
      assert s == s[..|s| - 1] + [s[|s| - 1]];
      assert forall id :: id in front ==> id in multiset(front);
      Insert(front, s[|s| - 1], count)
  }

  ghost predicate Ascending(s: seq<Id>, count: map<Id, nat>) {
    && (forall i :: 0 <= i < |s| ==> s[i] in count)
    && (forall i, j :: 0 <= i < j < |s| ==> count[s[i]] <= count[s[j]])
  }

  predicate Known(s: seq<Id>, hosts: map<Id, string>) {
    forall i :: 0 <= i < |s| ==> s[i] in hosts
  }

  function HostsOf(s: seq<Id>, hosts: map<Id, string>): (r: seq<string>)
    requires Known(s, hosts)
    ensures |r| == |s| && forall i :: 0 <= i < |s| ==> r[i] == hosts[s[i]]
  {
    seq(|s|, i requires 0 <= i < |s| => hosts[s[i]])
  }

  /** The first journal of every host but the own one. */
  function Pick(order: seq<Id>, hosts: map<Id, string>, own: string): (r: seq<Id>)
    requires Known(order, hosts)
    ensures Known(r, hosts)
  {
    if order == [] then []
    else
      var before, id := Pick(order[..|order| - 1], hosts, own), order[|order| - 1];
      if hosts[id] in HostsOf(before, hosts) || hosts[id] == own then before else before + [id]
  }

  function Cut<T>(s: seq<T>, n: nat): (r: seq<T>)
    ensures |r| == if |s| <= n then |s| else n
    ensures r == s[..|r|]
  {
    if |s| <= n then s[..|s|] else s[..n]
  }

  /** The sorted keys of the count dictionary. */
  function Order(nodes: seq<Node>, me: Id): (r: seq<Id>)
    ensures Known(r, Hosts(nodes, me))
  {
    var r := StableSort(Keys(nodes, me), Usage(nodes, me));
    SameElements(r, Keys(nodes, me));
    r
  }

  function Picked(nodes: seq<Node>, me: Id, own: string): (r: seq<Id>)
    ensures Known(r, Hosts(nodes, me))
  {
    Pick(Order(nodes, me), Hosts(nodes, me), own)
  }

  function SortedHaJms(nodes: seq<Node>, me: Id, own: string): seq<Id> {
    Cut(Picked(nodes, me, own), HA_JM_COUNT - 1)
  }

  lemma SameElements(a: seq<Id>, b: seq<Id>)
    requires multiset(a) == multiset(b)
    ensures forall id :: id in a <==> id in b
  {
    forall id ensures id in a <==> id in b {
      assert id in a <==> id in multiset(a);
      assert id in b <==> id in multiset(b);
    }
  }

  // ---------------------------------------------------------------- the method

  class Counter {
    var count: map<Id, nat>
    var host: map<Id, string>
    var order: seq<Id>

    constructor ()
      ensures count == map[] && host == map[] && order == []
    {
      count, host, order := map[], map[], [];
    }

    ghost predicate Holds(nodes: seq<Node>, me: Id)
      reads this
    {
      order == Keys(nodes, me) && host == Hosts(nodes, me) && count.Keys == host.Keys
    }

    method Collect(nodes: seq<Node>, me: Id)
      requires count == map[] && host == map[] && order == []
      modifies this
      ensures Holds(nodes, me) && forall id :: id in count ==> count[id] == 0
    {
      for i := 0 to |nodes|
        invariant Holds(nodes[..i], me) && forall id :: id in count ==> count[id] == 0
      {
        assert nodes[..i + 1][..i] == nodes[..i];
        var n := nodes[i];
        if Offers(n, me) {
          var id := n.jm.value.id;
          if id !in order { order := order + [id]; }
          count, host := count[id := 0], host[id := n.host];
        }
      }
      assert nodes[..|nodes|] == nodes;
    }

    method CountNode(ids: seq<Id>)
      modifies this`count
      ensures count.Keys == old(count.Keys)
      ensures forall id :: id in count ==> count[id] == old(count)[id] + Count(ids, id)
    {
      for j := 0 to |ids|
        invariant count.Keys == old(count.Keys)
        invariant forall id :: id in count ==> count[id] == old(count)[id] + Count(ids[..j], id)
      {
        assert ids[..j + 1][..j] == ids[..j];
        if ids[j] in count { count := count[ids[j] := count[ids[j]] + 1]; }
      }
      assert ids[..|ids|] == ids;
    }

    method CountUses(nodes: seq<Node>, me: Id)
      requires Holds(nodes, me) && forall id :: id in count ==> count[id] == 0
      modifies this`count
      ensures Holds(nodes, me) && count == Usage(nodes, me)
      ensures forall id :: id in count ==> count[id] == |Mentions(nodes, me, [id])|
    {
      hide Keys, Hosts, Offers, Mentions;
      for i := 0 to |nodes|
        invariant Holds(nodes, me)
        invariant forall id :: id in count ==> count[id] == Uses(nodes[..i], me, id)
      {
        assert nodes[..i + 1][..i] == nodes[..i];
        if nodes[i].id != me { CountNode(nodes[i].jmIds); }
      }
      assert nodes[..|nodes|] == nodes;
      forall id | id in count ensures count[id] == |Mentions(nodes, me, [id])| {
        UsesIsMentions(nodes, me, id);
      }
    }
  }

  method PickEach(order: seq<Id>, hosts: map<Id, string>, own: string) returns (out: seq<Id>)
    requires Known(order, hosts)
    ensures out == Pick(order, hosts, own)
  {
    var used: seq<string> := [];
    out := [];
    for i := 0 to |order|
      invariant Known(order[..i], hosts) && out == Pick(order[..i], hosts, own) && used == HostsOf(out, hosts)
    {
      assert order[..i + 1][..i] == order[..i];
      var host := hosts[order[i]];
      if host in used || host == own { continue; }
      used := used + [host];
      out := out + [order[i]];
    }
    assert order[..|order|] == order;
  }

  method GetSortedHaJms(nodes: seq<Node>, me: Id, own: string) returns (out: seq<Id>)
    ensures out == SortedHaJms(nodes, me, own)
    ensures Admissible(nodes, me, own, out) && |out| <= 2
    ensures forall t {:trigger Admissible(nodes, me, own, t)} :: Admissible(nodes, me, own, t) && |t| <= 2 ==>
      |t| <= |out| && |Mentions(nodes, me, out[..|t|])| <= |Mentions(nodes, me, t)|
  {
    var c := new Counter();
    c.Collect(nodes, me);
    c.CountUses(nodes, me);
    var sorted := StableSort(c.order, c.count);
    assert sorted == Order(nodes, me);
    var all := PickEach(sorted, c.host, own);
    out := Cut(all, HA_JM_COUNT - 1);
    ChoiceIsAdmissible(nodes, me, own);
    forall t | Admissible(nodes, me, own, t) && |t| <= 2
      ensures |t| <= |out| && |Mentions(nodes, me, out[..|t|])| <= |Mentions(nodes, me, t)|
    {
      ChoiceIsBest(nodes, me, own, t);
    }
  }

  // ---------------------------------------------------------------- the sort

  lemma AscendingMore(s: seq<Id>, last: Id, count: map<Id, nat>)
    requires Ascending(s, count) && last in count && forall i :: 0 <= i < |s| ==> count[s[i]] <= count[last]
    ensures Ascending(s + [last], count)
  {
  }

  lemma {:induction false} InsertAscending(s: seq<Id>, x: Id, count: map<Id, nat>)
    requires Ascending(s, count) && x in count
    ensures Ascending(Insert(s, x, count), count)
  {
    if s == [] || count[s[|s| - 1]] <= count[x] {
      AscendingMore(s, x, count);
    } else {
      var front, last := s[..|s| - 1], s[|s| - 1];
      InsertAscending(front, x, count);
      var r := Insert(front, x, count);
      forall i | 0 <= i < |r| ensures count[r[i]] <= count[last] {
        assert r[i] in multiset(r);
        assert r[i] in multiset(front) || r[i] == x;
      }
      AscendingMore(r, last, count);
    }
  }

  lemma {:induction false} SortAscending(s: seq<Id>, count: map<Id, nat>)
    requires forall id :: id in s ==> id in count
    ensures Ascending(StableSort(s, count), count)
  {
    if s != [] {
      SortAscending(s[..|s| - 1], count);
      InsertAscending(StableSort(s[..|s| - 1], count), s[|s| - 1], count);
    }
  }

  /** The members of s that count exactly n, in order. */
  function Class(s: seq<Id>, count: map<Id, nat>, n: nat): seq<Id>
    requires forall id :: id in s ==> id in count
  {
    if s == [] then []
    else Class(s[..|s| - 1], count, n) + if count[s[|s| - 1]] == n then [s[|s| - 1]] else []
  }

  lemma ClassMore(s: seq<Id>, x: Id, count: map<Id, nat>, n: nat)
    requires x in count && forall id :: id in s ==> id in count
    ensures Class(s + [x], count, n) == Class(s, count, n) + if count[x] == n then [x] else []
  {
    assert (s + [x])[..|s|] == s;
  }

  lemma {:induction false} InsertKeepsClass(s: seq<Id>, x: Id, count: map<Id, nat>, n: nat)
    requires x in count && forall id :: id in s ==> id in count
    ensures forall id :: id in Insert(s, x, count) ==> id in count
    ensures Class(Insert(s, x, count), count, n) == Class(s + [x], count, n)
  {
    hide Class;
    if s != [] && count[s[|s| - 1]] > count[x] {
      var front, last := s[..|s| - 1], s[|s| - 1];
      assert s == front + [last];
      InsertKeepsClass(front, x, count, n);
      ClassMore(front, last, count, n);
      ClassMore(front, x, count, n);
      ClassMore(s, x, count, n);
      ClassMore(Insert(front, x, count), last, count, n);
    }
  }

  /** Journals that are used equally often keep the order of the scan. */
  lemma {:induction false} SortIsStable(s: seq<Id>, count: map<Id, nat>, n: nat)
    requires forall id :: id in s ==> id in count
    ensures forall id :: id in StableSort(s, count) ==> id in count
    ensures Class(StableSort(s, count), count, n) == Class(s, count, n)
  {
    if s != [] {
      var front, last := s[..|s| - 1], s[|s| - 1];
      SortIsStable(front, count, n);
      InsertKeepsClass(StableSort(front, count), last, count, n);
      ClassMore(StableSort(front, count), last, count, n);
    }
  }

  // ---------------------------------------------------------------- the pick

  /** Pairwise different hosts, none of them `own`. */
  ghost predicate Apart(s: seq<Id>, hosts: map<Id, string>, own: string) {
    && Known(s, hosts)
    && (forall i :: 0 <= i < |s| ==> hosts[s[i]] != own)
    && (forall i, j :: 0 <= i < j < |s| ==> hosts[s[i]] != hosts[s[j]])
  }

  lemma {:induction false} PickApart(order: seq<Id>, hosts: map<Id, string>, own: string)
    requires Known(order, hosts)
    ensures Apart(Pick(order, hosts, own), hosts, own)
    ensures forall id :: id in Pick(order, hosts, own) ==> id in order
  {
    if order != [] {
      PickApart(order[..|order| - 1], hosts, own);
      var before := Pick(order[..|order| - 1], hosts, own);
      assert forall i :: 0 <= i < |before| ==> hosts[before[i]] == HostsOf(before, hosts)[i];
    }
  }

  lemma {:induction false} PickAscending(order: seq<Id>, hosts: map<Id, string>, own: string, count: map<Id, nat>)
    requires Known(order, hosts) && Ascending(order, count)
    ensures Ascending(Pick(order, hosts, own), count)
  {
    if order != [] {
      var front := order[..|order| - 1];
      PickAscending(front, hosts, own, count);
      PickApart(front, hosts, own);
      var before := Pick(front, hosts, own);
      forall i | 0 <= i < |before| ensures count[before[i]] <= count[order[|order| - 1]] {
        assert before[i] in before;
        var j :| 0 <= j < |front| && front[j] == before[i];
      }
      AscendingMore(before, order[|order| - 1], count);
    }
  }

  /** For every journal of another host, one of that host is picked that is used no more. */
  lemma {:induction false} PickCovers(order: seq<Id>, hosts: map<Id, string>, own: string, count: map<Id, nat>, k: nat)
    returns (g: nat)
    requires Known(order, hosts) && Ascending(order, count) && k < |order| && hosts[order[k]] != own
    ensures g < |Pick(order, hosts, own)|
    ensures Pick(order, hosts, own)[g] in count && hosts[Pick(order, hosts, own)[g]] == hosts[order[k]]
    ensures count[Pick(order, hosts, own)[g]] <= count[order[k]]
  {
    var front, last := order[..|order| - 1], |order| - 1;
    var before := Pick(front, hosts, own);
    if k < last {
      g := PickCovers(front, hosts, own, count, k);
    } else if hosts[order[last]] in HostsOf(before, hosts) {
      g :| 0 <= g < |before| && HostsOf(before, hosts)[g] == hosts[order[last]];
      PickApart(front, hosts, own);
      assert before[g] in front;
      var j :| 0 <= j < |front| && front[j] == before[g];
      assert order[j] == before[g];
    } else {
      g := |before|;
    }
  }

  // ---------------------------------------------------------------- the exchange argument

  function Total(s: seq<Id>, count: map<Id, nat>): nat
    requires forall i :: 0 <= i < |s| ==> s[i] in count
  {
    if s == [] then 0 else Total(s[..|s| - 1], count) + count[s[|s| - 1]]
  }

  function Drop<T>(s: seq<T>, k: nat): (r: seq<T>)
    requires k < |s|
    ensures |r| == |s| - 1 && forall i :: 0 <= i < |r| ==> r[i] == if i < k then s[i] else s[i + 1]
  {
    s[..k] + s[k + 1..]
  }

  lemma {:induction false} TotalDrop(s: seq<Id>, count: map<Id, nat>, k: nat)
    requires k < |s| && forall i :: 0 <= i < |s| ==> s[i] in count
    ensures Total(s, count) == Total(Drop(s, k), count) + count[s[k]]
  {
    if k < |s| - 1 {
      TotalDrop(s[..|s| - 1], count, k);
      assert Drop(s, k)[..|s| - 2] == Drop(s[..|s| - 1], k);
    } else {
      assert Drop(s, k) == s[..|s| - 1];
    }
  }

  ghost predicate Distinct(s: seq<nat>) { forall i, j :: 0 <= i < j < |s| ==> s[i] != s[j] }

  /** Distinct numbers below n are at most n. */
  lemma {:induction false} Pigeonhole(s: seq<nat>, n: nat)
    requires Distinct(s) && forall i :: 0 <= i < |s| ==> s[i] < n
    ensures |s| <= n
  {
    if s != [] {
      assert s[0] < n;
      if k :| 0 <= k < |s| && s[k] == n - 1 {
        Pigeonhole(Drop(s, k), n - 1);
      } else {
        Pigeonhole(s, n - 1);
      }
    }
  }

  /** Among more than m distinct numbers one is at least m. */
  lemma OneReaches(ix: seq<nat>, m: nat) returns (k: nat)
    requires Distinct(ix) && |ix| == m + 1
    ensures k < |ix| && ix[k] >= m
  {
    if forall k :: 0 <= k < |ix| ==> ix[k] < m {
      Pigeonhole(ix, m);
    }
    k :| 0 <= k < |ix| && ix[k] >= m;
  }

  lemma TotalFirst(g: seq<Id>, count: map<Id, nat>, m: nat)
    requires m < |g| && forall i :: 0 <= i < |g| ==> g[i] in count
    ensures Total(g[..m + 1], count) == Total(g[..m], count) + count[g[m]]
  {
    assert g[..m + 1][..m] == g[..m];
  }

  /** Where each of t is matched with a different, no more used member of the ascending list g, the
      first members of g are used no more in total than t. */
  lemma {:induction false} LeastTotal(g: seq<Id>, t: seq<Id>, ix: seq<nat>, count: map<Id, nat>)
    requires Ascending(g, count) && |ix| == |t| && Distinct(ix)
    requires forall i :: 0 <= i < |t| ==> ix[i] < |g| && t[i] in count && count[g[ix[i]]] <= count[t[i]]
    ensures |t| <= |g| && Total(g[..|t|], count) <= Total(t, count)
    decreases |t|
  {
    hide Total, Distinct, Ascending;
    Pigeonhole(ix, |g|);
    if t == [] {
      NothingIsNothing(g, count);
    } else {
      var m := |t| - 1;
      var k := OneReaches(ix, m);
      DropDistinct(ix, k);
      LeastTotal(g, Drop(t, k), Drop(ix, k), count);
      TotalDrop(t, count, k);
      AscendingAt(g, count, m, ix[k]);
      TotalFirst(g, count, m);
    }
  }

  lemma NothingIsNothing(g: seq<Id>, count: map<Id, nat>)
    ensures g[..0] == [] && Total([], count) == 0
  {
  }

  lemma DropDistinct(ix: seq<nat>, k: nat)
    requires Distinct(ix) && k < |ix|
    ensures Distinct(Drop(ix, k))
  {
  }

  lemma AscendingAt(g: seq<Id>, count: map<Id, nat>, m: nat, i: nat)
    requires Ascending(g, count) && m <= i < |g|
    ensures forall j :: 0 <= j < |g| ==> g[j] in count
    ensures count[g[m]] <= count[g[i]]
  {
  }

  // ---------------------------------------------------------------- what is counted

  /** Every place at which another node names a journal of s: the node and the position in its list. */
  ghost function Mentions(nodes: seq<Node>, me: Id, s: seq<Id>): set<(nat, nat)> {
    set i: nat, k: nat | i < |nodes| && nodes[i].id != me && k < |nodes[i].jmIds| && nodes[i].jmIds[k] in s :: (i, k)
  }

  /** The positions of one journal in one list. */
  ghost function Places(node: nat, ids: seq<Id>, id: Id): set<(nat, nat)> {
    set k: nat | k < |ids| && ids[k] == id :: (node, k)
  }

  lemma {:induction false} CountIsPlaces(node: nat, ids: seq<Id>, id: Id)
    ensures Count(ids, id) == |Places(node, ids, id)|
  {
    if ids != [] {
      var front, last := ids[..|ids| - 1], |ids| - 1;
      CountIsPlaces(node, front, id);
      assert Places(node, ids, id) == Places(node, front, id) + if ids[last] == id then {(node, last as nat)} else {};
    }
  }

  lemma MentionsMore(nodes: seq<Node>, me: Id, id: Id)
    requires nodes != []
    ensures var front, last := nodes[..|nodes| - 1], |nodes| - 1;
      var here := if nodes[last].id == me then {} else Places(last, nodes[last].jmIds, id);
      Mentions(nodes, me, [id]) == Mentions(front, me, [id]) + here && Mentions(front, me, [id]) !! here
  {
    var front, last := nodes[..|nodes| - 1], |nodes| - 1;
    var here := if nodes[last].id == me then {} else Places(last, nodes[last].jmIds, id);
    forall i: nat, k: nat ensures (i, k) in Mentions(nodes, me, [id]) <==> (i, k) in Mentions(front, me, [id]) || (i, k) in here {
      if i < last { assert front[i] == nodes[i]; }
    }
  }

  /** The usage of a journal is the number of places at which the other nodes name it. */
  lemma {:induction false} UsesIsMentions(nodes: seq<Node>, me: Id, id: Id)
    ensures Uses(nodes, me, id) == |Mentions(nodes, me, [id])|
  {
    hide Places, Mentions;
    if nodes == [] {
      NobodyMentions(me, id);
    } else {
      UsesIsMentions(nodes[..|nodes| - 1], me, id);
      MentionsMore(nodes, me, id);
      CountIsPlaces(|nodes| - 1, nodes[|nodes| - 1].jmIds, id);
    }
  }

  lemma NobodyMentions(me: Id, id: Id)
    ensures Mentions([], me, [id]) == {}
  {
  }

  lemma {:induction false} TotalIsMentions(nodes: seq<Node>, me: Id, s: seq<Id>)
    requires forall i :: 0 <= i < |s| ==> s[i] in Usage(nodes, me)
    requires forall i, j :: 0 <= i < j < |s| ==> s[i] != s[j]
    ensures Total(s, Usage(nodes, me)) == |Mentions(nodes, me, s)|
  {
    if s != [] {
      var front, last := s[..|s| - 1], s[|s| - 1];
      TotalIsMentions(nodes, me, front);
      UsesIsMentions(nodes, me, last);
      assert s == front + [last];
      assert Mentions(nodes, me, s) == Mentions(nodes, me, front) + Mentions(nodes, me, [last]);
      assert Mentions(nodes, me, front) !! Mentions(nodes, me, [last]);
    }
  }

  // ---------------------------------------------------------------- the choice

  /** A choice get_sorted_ha_jms could make: offered journals on different other hosts. */
  ghost predicate Admissible(nodes: seq<Node>, me: Id, own: string, t: seq<Id>) {
    (forall i :: 0 <= i < |t| ==> t[i] in Keys(nodes, me)) && Apart(t, Hosts(nodes, me), own)
  }

  lemma {:induction false} OrderAscending(nodes: seq<Node>, me: Id)
    ensures Ascending(Order(nodes, me), Usage(nodes, me))
    ensures forall id :: id in Order(nodes, me) <==> id in Keys(nodes, me)
  {
    SortAscending(Keys(nodes, me), Usage(nodes, me));
    SameElements(StableSort(Keys(nodes, me), Usage(nodes, me)), Keys(nodes, me));
  }

  /** The journals are an admissible choice, at most two of them. */
  lemma {:induction false} ChoiceIsAdmissible(nodes: seq<Node>, me: Id, own: string)
    ensures Admissible(nodes, me, own, SortedHaJms(nodes, me, own)) && |SortedHaJms(nodes, me, own)| <= 2
  {
    hide Order, Hosts, Keys, Pick;
    OrderAscending(nodes, me);
    PickApart(Order(nodes, me), Hosts(nodes, me), own);
  }

  /** What is collected are the online journals of the other nodes, each with the host of one of them
      that has it. */
  lemma {:induction false} KeysAreOffered(nodes: seq<Node>, me: Id, id: Id)
    requires id in Keys(nodes, me)
    ensures id != ""
    ensures exists i :: 0 <= i < |nodes| && nodes[i].id != me && nodes[i].jm.Some? && nodes[i].jm.value.id == id
                        && nodes[i].jm.value.status.DevOnline? && nodes[i].host == Hosts(nodes, me)[id]
  {
    var last := |nodes| - 1;
    if Offers(nodes[last], me) && nodes[last].jm.value.id == id {
    } else {
      KeysAreOffered(nodes[..last], me, id);
      var front := nodes[..last];
      var i :| 0 <= i < last && front[i].id != me && front[i].jm.Some? && front[i].jm.value.id == id
               && front[i].jm.value.status.DevOnline? && front[i].host == Hosts(front, me)[id];
      assert front[i] == nodes[i];
    }
  }

  lemma {:induction false} OfferedAreKeys(nodes: seq<Node>, me: Id, i: nat)
    requires i < |nodes| && nodes[i].id != me && nodes[i].jm.Some?
    requires nodes[i].jm.value.status.DevOnline? && nodes[i].jm.value.id != ""
    ensures nodes[i].jm.value.id in Keys(nodes, me)
  {
    if i < |nodes| - 1 {
      OfferedAreKeys(nodes[..|nodes| - 1], me, i);
      assert nodes[..|nodes| - 1][i] == nodes[i];
    }
  }

  /** They come in the order of the scan: those of the first nodes come first. */
  lemma {:induction false} KeysInScanOrder(nodes: seq<Node>, me: Id, n: nat)
    requires n <= |nodes|
    ensures Keys(nodes[..n], me) <= Keys(nodes, me)
    decreases |nodes| - n
  {
    if n < |nodes| {
      KeysInScanOrder(nodes, me, n + 1);
      assert nodes[..n + 1][..n] == nodes[..n];
    } else {
      assert nodes[..n] == nodes;
    }
  }

  /** No admissible choice of at most two journals has more of them, and none is named at fewer places
      than as many of those chosen. */
  lemma {:induction false} ChoiceIsBest(nodes: seq<Node>, me: Id, own: string, t: seq<Id>)
    requires Admissible(nodes, me, own, t) && |t| <= 2
    ensures var out := SortedHaJms(nodes, me, own);
      |t| <= |out| && |Mentions(nodes, me, out[..|t|])| <= |Mentions(nodes, me, t)|
  {
    hide Order, Hosts, Usage, Keys, Pick, Total, Mentions, Picked, SortedHaJms, Admissible;
    LeastUsed(nodes, me, own, t);
    ChoiceIsAdmissible(nodes, me, own);
    var out := SortedHaJms(nodes, me, own);
    AdmissibleDiffer(nodes, me, own, t);
    AdmissibleDiffer(nodes, me, own, out);
    TotalIsMentions(nodes, me, t);
    TotalIsMentions(nodes, me, out[..|t|]);
  }

  lemma AdmissibleDiffer(nodes: seq<Node>, me: Id, own: string, t: seq<Id>)
    requires Admissible(nodes, me, own, t)
    ensures forall i :: 0 <= i < |t| ==> t[i] in Usage(nodes, me)
    ensures forall i, j :: 0 <= i < j < |t| ==> t[i] != t[j]
  {
  }

  lemma {:induction false} LeastUsed(nodes: seq<Node>, me: Id, own: string, t: seq<Id>)
    requires Admissible(nodes, me, own, t) && |t| <= HA_JM_COUNT - 1
    ensures var out := SortedHaJms(nodes, me, own);
      && |t| <= |out|
      && (forall i :: 0 <= i < |t| ==> t[i] in Usage(nodes, me) && out[i] in Usage(nodes, me))
      && Total(out[..|t|], Usage(nodes, me)) <= Total(t, Usage(nodes, me))
  {
    hide Order, Hosts, Usage, Keys, Pick, Total;
    OrderAscending(nodes, me);
    PickIsBest(Order(nodes, me), Hosts(nodes, me), own, Usage(nodes, me), t);
    var g := Picked(nodes, me, own);
    assert Cut(g, HA_JM_COUNT - 1)[..|t|] == g[..|t|];
  }

  /** The exchange argument for any ascending order: no choice on different other hosts is larger
      than the pick or uses less than as many of its first members. */
  lemma {:induction false} PickIsBest(order: seq<Id>, hosts: map<Id, string>, own: string, count: map<Id, nat>, t: seq<Id>)
    requires Known(order, hosts) && Ascending(order, count) && Apart(t, hosts, own)
    requires forall i :: 0 <= i < |t| ==> t[i] in order
    ensures var g := Pick(order, hosts, own);
      && |t| <= |g|
      && (forall i :: 0 <= i < |t| ==> t[i] in count && g[i] in count)
      && Total(g[..|t|], count) <= Total(t, count)
  {
    hide Pick, Total;
    PickAscending(order, hosts, own, count);
    var ix := Matching(order, hosts, own, count, t);
    LeastTotal(Pick(order, hosts, own), t, ix, count);
  }

  lemma Matching(order: seq<Id>, hosts: map<Id, string>, own: string, count: map<Id, nat>, t: seq<Id>) returns (ix: seq<nat>)
    requires Known(order, hosts) && Ascending(order, count) && Apart(t, hosts, own)
    requires forall i :: 0 <= i < |t| ==> t[i] in order
    ensures |ix| == |t| && Distinct(ix)
    ensures var g := Pick(order, hosts, own);
      forall i :: 0 <= i < |t| ==> ix[i] < |g| && g[ix[i]] in count && t[i] in count && count[g[ix[i]]] <= count[t[i]]
  {
    var g := Pick(order, hosts, own);
    ix := [];
    for i := 0 to |t|
      invariant |ix| == i
      invariant forall j :: 0 <= j < i ==> ix[j] < |g| && hosts[g[ix[j]]] == hosts[t[j]]
      invariant forall j :: 0 <= j < i ==> g[ix[j]] in count && t[j] in count && count[g[ix[j]]] <= count[t[j]]
    {
      assert t[i] in order;
      var k :| 0 <= k < |order| && order[k] == t[i];
      var at := PickCovers(order, hosts, own, count, k);
      ix := ix + [at];
    }
  }
}
