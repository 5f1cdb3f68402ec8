/**
  Node resolution: the advertised address of every node that is ready and
  active, in the order the Docker API lists the nodes.
 */
module NodePipeline {
  import opened SwarmTypes
  import opened Naming

  /** A node is used when its status is ready and its availability active. */
  predicate Eligible(n: Node)
  {
    n.state == NodeStateReady && n.availability == NodeAvailabilityActive
  }

  /** Specification of the filter loop: the eligible nodes' addresses, in list order. */
  function EligibleAddrs(nodes: seq<Node>): (addrs: seq<string>)
    ensures |addrs| <= |nodes|
  {
    if |nodes| == 0 then []
    else
      var last := nodes[|nodes| - 1];
      EligibleAddrs(nodes[..|nodes| - 1]) + (if Eligible(last) then [last.addr] else [])
  }

  /**
    Specification of node resolution: the node list is requested with the
    role filter of the arguments (an upstream failure is wrapped), and the
    eligible addresses of the listed nodes are returned.
   */
  function NodeResolution(args: Args, nodeList: Option<string> -> Listing<seq<Node>>): (r: Result)
    ensures r.Err? <==> nodeList(RoleFilter(args)).ListFailed?
    ensures r.Err? ==> r.error == UpstreamFailed(nodeList(RoleFilter(args)).reason)
  {
    match nodeList(RoleFilter(args))
    case ListFailed(reason) => Err(UpstreamFailed(reason))
    case Listed(nodes) => Ok(EligibleAddrs(nodes))
  }

  /** The node pipeline; `nodeList` stands for the Docker API's node list call. */
  method NodeAddrs(args: Args, nodeList: Option<string> -> Listing<seq<Node>>) returns (r: Result)
    ensures r == NodeResolution(args, nodeList)
  {
    var listing := nodeList(RoleFilter(args));
    if listing.ListFailed? {
      return Err(UpstreamFailed(listing.reason));
    }
    var nodes := listing.items;
    var addrs: seq<string> := [];
    for i := 0 to |nodes|
      invariant addrs == EligibleAddrs(nodes[..i])
    {
      assert nodes[..i + 1][..i] == nodes[..i];
      var node := nodes[i];
      if node.state != NodeStateReady {
        continue;
      }
      if node.availability != NodeAvailabilityActive {
        continue;
      }
      addrs := addrs + [node.addr];
    }
    assert nodes[..|nodes|] == nodes;
    return Ok(addrs);
  }

  /** An address is returned exactly when some listed node is eligible and advertises it. */
  lemma {:induction false} EligibleAddrsMembership(nodes: seq<Node>)
    ensures forall a :: a in EligibleAddrs(nodes) <==>
              exists i :: 0 <= i < |nodes| && Eligible(nodes[i]) && nodes[i].addr == a
  {
    if |nodes| > 0 {
      var init := nodes[..|nodes| - 1];
      EligibleAddrsMembership(init);
      forall a | a in EligibleAddrs(nodes)
        ensures exists i :: 0 <= i < |nodes| && Eligible(nodes[i]) && nodes[i].addr == a
      {
        if a in EligibleAddrs(init) {
          var i :| 0 <= i < |init| && Eligible(init[i]) && init[i].addr == a;
          assert nodes[i] == init[i];
        } else {
          assert Eligible(nodes[|nodes| - 1]) && nodes[|nodes| - 1].addr == a;
        }
      }
      forall a | exists i :: 0 <= i < |nodes| && Eligible(nodes[i]) && nodes[i].addr == a
        ensures a in EligibleAddrs(nodes)
      {
        var i :| 0 <= i < |nodes| && Eligible(nodes[i]) && nodes[i].addr == a;
        if i < |init| {
          assert init[i] == nodes[i];
        }
      }
    }
  }

  /**
    Input order is kept: the result for a concatenated list is the result for
    its first part followed by the result for its second part.
   */
  lemma {:induction false} EligibleAddrsAppend(front: seq<Node>, back: seq<Node>)
    ensures EligibleAddrs(front + back) == EligibleAddrs(front) + EligibleAddrs(back)
  {
    if |back| == 0 {
      assert front + back == front;
    } else {
      var init := back[..|back| - 1];
      EligibleAddrsAppend(front, init);
      assert (front + back)[..|front + back| - 1] == front + init;
    }
  }

  /** When every node is eligible nothing is dropped: the result is their addresses, position by position. */
  lemma {:induction false} AllEligibleKept(nodes: seq<Node>)
    requires forall i :: 0 <= i < |nodes| ==> Eligible(nodes[i])
    ensures |EligibleAddrs(nodes)| == |nodes|
    ensures forall i :: 0 <= i < |nodes| ==> EligibleAddrs(nodes)[i] == nodes[i].addr
  {
    if |nodes| > 0 {
      AllEligibleKept(nodes[..|nodes| - 1]);
    }
  }

  /** An empty node list, or one without eligible nodes, is a success with no addresses. */
  lemma {:induction false} NoEligibleNodes(nodes: seq<Node>)
    requires forall i :: 0 <= i < |nodes| ==> !Eligible(nodes[i])
    ensures EligibleAddrs(nodes) == []
  {
    if |nodes| > 0 {
      NoEligibleNodes(nodes[..|nodes| - 1]);
    }
  }

  /** Of a ready+active, a ready+drain and a down+active node only the first is used. */
  lemma NodeExample()
    ensures EligibleAddrs([Node("a", "ready", "active", "10.0.0.1"),
                           Node("b", "ready", "drain", "10.0.0.2"),
                           Node("c", "down", "active", "10.0.0.3")]) == ["10.0.0.1"]
  {
    var nodes := [Node("a", "ready", "active", "10.0.0.1"),
                  Node("b", "ready", "drain", "10.0.0.2"),
                  Node("c", "down", "active", "10.0.0.3")];
    assert "drain" != NodeAvailabilityActive by { assert "drain"[0] != NodeAvailabilityActive[0]; }
    assert "down" != NodeStateReady by { assert "down"[1] != NodeStateReady[1]; }
    assert nodes[..3][..2] == nodes[..2] && nodes[..2][..1] == nodes[..1];
    assert EligibleAddrs(nodes[..1]) == ["10.0.0.1"];
    assert EligibleAddrs(nodes[..2]) == ["10.0.0.1"];
    assert nodes[..3] == nodes;
  }
}
