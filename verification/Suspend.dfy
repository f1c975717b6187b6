/**
 suspend_storage_node and resume_storage_node as programs, and the methods that issue them. A node
 has two parts: it is the primary of its own lvstore, and the secondary of the lvstores it serves.
 */
module Suspend {
  import opened Records
  import opened Fabric
  import opened Control

  datatype Partner = Partner(node: NodeId, nics: seq<string>, status: NodeStatus)

  /** A primary this node serves as secondary: its lvstore and its lvols. */
  datatype Served = Served(lvs: LvstoreName, lvols: seq<Lvol>)

  /** What one call reads from the database. `secondary` is None when the record is missing;
      `served` is empty unless the back pointer is set. */
  datatype Subject = Subject(
    node: NodeId,
    lvs: LvstoreName,
    lvols: seq<Lvol>,
    nics: seq<string>,
    secondary: Option<Partner>,
    served: seq<Served>)
  {
    function P(): Role { Role(node, lvs) }

    predicate PartnerOnline() { secondary.Some? && secondary.value.status.Online? }

    function S(): Role
      requires secondary.Some?
    {
      Role(secondary.value.node, lvs)
    }

    function OwnPaths(): seq<Path> { PathsOf(node, lvols, nics) }

    /** The secondary's listeners for this node's lvols, if it is online and so will be told. */
    function PartnerPaths(): seq<Path> {
      if PartnerOnline() then PathsOf(secondary.value.node, lvols, secondary.value.nics) else []
    }

    function ServedPaths(k: nat): seq<Path>
      requires k < |served|
    {
      PathsOf(node, served[k].lvols, nics)
    }

    /** One of the node's own listeners, as the records list them: one for each lvol and data NIC with an
        address. */
    ghost predicate IsOwn(p: Path) { p.node == node && p.lvol in lvols && p.ip in nics && p.ip != "" }

    /** One of the listeners its secondary has for the same lvols; only an online one is told anything. */
    ghost predicate IsPartners(p: Path) {
      && secondary.Some? && secondary.value.status.Online?
      && p.node == secondary.value.node && p.lvol in lvols && p.ip in secondary.value.nics && p.ip != ""
    }

    /** One of the listeners the node has for the lvols of a primary it serves. */
    ghost predicate IsServed(p: Path) {
      exists k :: 0 <= k < |served| && p.node == node && p.lvol in served[k].lvols && p.ip in nics && p.ip != ""
    }

    /** lvols belong to the lvstores they are listed under, and the node does not serve itself. */
    ghost predicate WellFormed() {
      && (forall l :: l in lvols ==> l.lvs == lvs)
      && (forall k, l :: 0 <= k < |served| && l in served[k].lvols ==> l.lvs == served[k].lvs)
      && (forall k :: 0 <= k < |served| ==> served[k].lvs != lvs)
      && (secondary.Some? ==> secondary.value.node != node)
    }

    // ---- suspension, part by part

    /** Stop serving the first k primaries: close their listeners here, then give up leadership. */
    function StopServing(k: nat): Program
      requires k <= |served|
    {
      if k == 0 then []
      else
        var r := Role(node, served[k - 1].lvs);
        StopServing(k - 1) + (Each(ToAna(Inaccessible), ServedPaths(k - 1)) + [Demote(r), Demote(r)])
    }

    function ClosePartner(): Program { Each(ToAna(Inaccessible), PartnerPaths()) }
    function DeleteOwn(): Program { Each(Delete, OwnPaths()) }
    function StepDown(): Program { [Demote(P()), Demote(P())] }
    function ReopenPartner(): Program { Each(ToAna(NonOptimized), PartnerPaths()) }

    function Suspending(): Program {
      StopServing(|served|) + (ClosePartner() + (DeleteOwn() + (StepDown() + (ReopenPartner() + [Mark(node, Suspended)]))))
    }

    // ---- resumption, part by part

    function DemotePartner(): Program { if PartnerOnline() then [Demote(S()), Demote(S())] else [] }
    function CreateOwn(): Program { Each(Create(Optimized), OwnPaths()) }

    function Serve(k: nat): Program
      requires k <= |served|
    {
      if k == 0 then [] else Serve(k - 1) + Each(ToAna(NonOptimized), ServedPaths(k - 1))
    }

    /** Without a secondary record the call gets no further than its own listeners: the variable
        for the secondary is unbound after the lookup failed. */
    function Resuming(): Program { Returning() + Reopening() }

    function Returning(): Program { ClosePartner() + (DemotePartner() + CreateOwn()) }

    function Reopening(): Program {
      if secondary.None? then [] else ReopenPartner() + (Serve(|served|) + [Mark(node, Online)])
    }
  }

  /** The lists of a call are what the records list. */
  lemma ListsAre(m: Subject, p: Path)
    ensures p in m.OwnPaths() <==> m.IsOwn(p)
    ensures p in m.PartnerPaths() <==> m.IsPartners(p)
    ensures m.IsServed(p) <==> exists k :: 0 <= k < |m.served| && p in m.ServedPaths(k)
  {
    PathsServe(m.node, m.lvols, m.nics);
    if m.PartnerOnline() { PathsServe(m.secondary.value.node, m.lvols, m.secondary.value.nics); }
    forall k | 0 <= k < |m.served|
      ensures p in m.ServedPaths(k) <==> p.node == m.node && p.lvol in m.served[k].lvols && p.ip in m.nics && p.ip != ""
    {
      PathsServe(m.node, m.served[k].lvols, m.nics);
    }
  }

  datatype Result = Refused | Done | Crashed

  class Operator {
    const c: Controller

    constructor (c: Controller)
      ensures this.c == c
    {
      this.c := c;
    }

    method StopServing(m: Subject)
      modifies c
      ensures c.issued == old(c.issued) + m.StopServing(|m.served|)
    {
      hide Each, PathsOf;
      for k := 0 to |m.served|
        invariant c.issued == old(c.issued) + m.StopServing(k)
      {
        var r := Role(m.node, m.served[k].lvs);
        c.ForPaths(ToAna(Inaccessible), m.node, m.served[k].lvols, m.nics);
        c.Issue(Demote(r));
        c.Issue(Demote(r));
      }
    }

    method SetPartner(m: Subject, ana: Ana)
      modifies c
      ensures c.issued == old(c.issued) + Each(ToAna(ana), m.PartnerPaths())
    {
      if m.PartnerOnline() {
        c.ForPaths(ToAna(ana), m.secondary.value.node, m.lvols, m.secondary.value.nics);
      }
    }

    method StepDown(m: Subject)
      modifies c
      ensures c.issued == old(c.issued) + (m.DeleteOwn() + m.StepDown())
    {
      c.ForPaths(Delete, m.node, m.lvols, m.nics);
      c.Issue(Demote(m.P()));
      c.Issue(Demote(m.P()));
    }

    method SuspendStorageNode(m: Subject, status: NodeStatus, restartTask: bool, ha: bool, cluster: ClusterStatus,
                              online: nat, force: bool) returns (done: bool)
      modifies c
      ensures done <==> force || (status == Online && !restartTask
                                  && !(ha && online < 3 && cluster == Active) && !(ha && cluster == Degraded))
      ensures c.issued == old(c.issued) + if done then m.Suspending() else []
    {
      if !status.Online? && !force {
        return false;
      }
      if restartTask && !force {
        return false;
      }
      if ha {
        if online < 3 && cluster.Active? && !force {
          return false;
        }
        if cluster.Degraded? && !force {
          return false;
        }
      }
      Suspend(m);
      return true;
    }

    method Suspend(m: Subject)
      modifies c
      ensures c.issued == old(c.issued) + m.Suspending()
    {
      hide Each, m.StopServing, m.OwnPaths, m.PartnerPaths;
      StopServing(m);
      SetPartner(m, Inaccessible);
      StepDown(m);
      SetPartner(m, NonOptimized);
      c.Issue(Mark(m.node, Suspended));
    }

    method DemotePartner(m: Subject)
      modifies c
      ensures c.issued == old(c.issued) + m.DemotePartner()
    {
      if m.PartnerOnline() {
        c.Issue(Demote(m.S()));
        c.Issue(Demote(m.S()));
      }
    }

    method Serve(m: Subject)
      modifies c
      ensures c.issued == old(c.issued) + m.Serve(|m.served|)
    {
      hide Each, PathsOf;
      for k := 0 to |m.served|
        invariant c.issued == old(c.issued) + m.Serve(k)
      {
        c.ForPaths(ToAna(NonOptimized), m.node, m.served[k].lvols, m.nics);
      }
    }

    method ResumeStorageNode(m: Subject, status: NodeStatus, connected: bool) returns (r: Result)
      modifies c
      ensures r == if !status.Suspended? || !connected || (m.secondary.Some? && m.secondary.value.status.Unreachable?) then Refused
                   else if m.secondary.None? then Crashed else Done
      ensures c.issued == old(c.issued) + if r.Refused? then [] else m.Resuming()
    {
      hide m.Returning, m.Reopening;
      if !status.Suspended? || !connected {
        return Refused;
      }
      if m.secondary.Some? && m.secondary.value.status.Unreachable? {
        return Refused;
      }
      Return(m);
      if m.secondary.None? {
        NothingReopened(m);
        return Crashed;
      }
      Reopen(m);
      return Done;
    }

    lemma NothingReopened(m: Subject)
      requires m.secondary.None?
      ensures m.Reopening() == [] && m.Returning() + m.Reopening() == m.Returning()
    {
    }

    method Return(m: Subject)
      modifies c
      ensures c.issued == old(c.issued) + m.Returning()
    {
      hide Each, m.PartnerPaths, m.DemotePartner;
      SetPartner(m, Inaccessible);
      DemotePartner(m);
      c.ForPaths(Create(Optimized), m.node, m.lvols, m.nics);
    }

    method Reopen(m: Subject)
      requires m.secondary.Some?
      modifies c
      ensures c.issued == old(c.issued) + m.Reopening()
    {
      hide Each, m.Serve, m.PartnerPaths;
      SetPartner(m, NonOptimized);
      Serve(m);
      c.Issue(Mark(m.node, Online));
    }
  }
}
