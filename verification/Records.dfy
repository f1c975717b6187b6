/** Vocabulary shared by every part of the model: statuses as the records store them. */
module Records {

  datatype Option<+T> = None | Some(value: T)

  /** StorageNode.STATUS_* */
  datatype NodeStatus =
    | Online | Offline | Suspended | InShutdown | NodeRemoved | Restarting
    | BeingCreated | Unreachable | Schedulable | Down

  /** NVMeDevice.STATUS_* */
  datatype DeviceStatus =
    | Journal | New | DevOnline | Unavailable | Removed | Failed | FailedAndMigrated
    | ReadOnly | CannotAllocate

  /** Cluster.STATUS_* */
  datatype ClusterStatus =
    | Active | ClusterReadOnly | Inactive | ClusterSuspended | Degraded | Unready
    | InActivation | InExpansion

  /** constants.HA_JM_COUNT: journals of one lvstore, the node's own included. */
  const HA_JM_COUNT: nat := 3

  /** The first element with this key. */
  function First<T>(s: seq<T>, key: T -> string, id: string): (r: Option<T>)
    ensures r.Some? ==> key(r.value) == id && r.value in s
    ensures r.None? ==> forall i :: 0 <= i < |s| ==> key(s[i]) != id
  {
    if s == [] then None else if key(s[0]) == id then Some(s[0]) else First(s[1..], key, id)
  }

  lemma {:induction false} FirstIs<T>(s: seq<T>, key: T -> string, i: nat)
    requires i < |s| && forall k :: 0 <= k < i ==> key(s[k]) != key(s[i])
    ensures First(s, key, key(s[i])) == Some(s[i])
  {
    if i > 0 { FirstIs(s[1..], key, i - 1); }
  }
}
