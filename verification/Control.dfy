/** The control plane's side of the RPCs: one object, to which commands are issued one by one. */
module Control {
  import opened Fabric

  class Controller {
    var issued: Program

    constructor () ensures issued == [] { issued := []; }

    method Issue(c: Command)
      modifies this
      ensures issued == old(issued) + [c]
    {
      issued := issued + [c];
    }

    /** The inner loop, over the data NICs of the node; an interface without an address is skipped. */
    method ForNics(op: PathOp, node: NodeId, lvol: Lvol, nics: seq<string>, ghost before: seq<Path>, ghost start: Program)
      requires issued == start + Each(op, before)
      modifies this
      ensures issued == start + Each(op, before + LvolPaths(node, lvol, nics))
    {
      assert before + [] == before;
      for j := 0 to |nics|
        invariant issued == start + Each(op, before + LvolPaths(node, lvol, nics[..j]))
      {
        assert nics[..j + 1][..j] == nics[..j];
        var done := before + LvolPaths(node, lvol, nics[..j]);
        if nics[j] != "" {
          var p := Path(node, lvol, nics[j]);
          EachMore(op, done, p);
          assert before + LvolPaths(node, lvol, nics[..j + 1]) == done + [p];
          Issue(CommandOn(op, p));
        }
      }
      assert nics[..|nics|] == nics;
    }

    /** One RPC for every listener of the given lvols on a node. */
    method ForPaths(op: PathOp, node: NodeId, lvols: seq<Lvol>, nics: seq<string>)
      modifies this
      ensures issued == old(issued) + Each(op, PathsOf(node, lvols, nics))
    {
      ghost var start := issued;
      for i := 0 to |lvols|
        invariant issued == start + Each(op, PathsOf(node, lvols[..i], nics))
      {
        assert lvols[..i + 1][..i] == lvols[..i];
        ForNics(op, node, lvols[i], nics, PathsOf(node, lvols[..i], nics), start);
      }
      assert lvols[..|lvols|] == lvols;
    }
  }
}
