/**
  The provider's entry point: check that the request is addressed to this
  provider, build a Docker client for the host, and dispatch on the `type`
  argument to node or service resolution.
 */
module Provider {
  import opened SwarmTypes
  import opened Naming
  import opened NodePipeline
  import opened ServicePipeline
  import opened ServiceProperties

  /**
    The Docker daemon as the provider uses it: building a client for a host
    URL (URL parsing and client construction), the node list call with an
    optional role filter, and the task list call filtered by service name.
   */
  datatype Daemon = Daemon(
    connect: string -> Connection,
    nodeList: Option<string> -> Listing<seq<Node>>,
    taskList: string -> Listing<seq<Task>>)

  /** The two discovery types, and every other value of the `type` argument. */
  datatype DiscoveryType = NodeDiscovery | ServiceDiscovery | UnknownType(value: string)

  /** The `type` switch: "node" and "service" are the only values with a pipeline. */
  function ParseType(value: string): (t: DiscoveryType)
    ensures t.UnknownType? <==> value != "node" && value != "service"
    ensures t.UnknownType? ==> t.value == value
  {
    if value == "node" then NodeDiscovery
    else if value == "service" then ServiceDiscovery
    else UnknownType(value)
  }

  /** What `Addrs` needs: when it reaches the service pipeline, the listed tasks meet `TaskAddrs`'s requirement. */
  predicate AddrsInputOk(args: Args, daemon: Daemon)
  {
    Arg(args, "provider") == ProviderName && daemon.connect(Host(args)).Connected? && Arg(args, "type") == "service" ==>
      ServiceInputOk(args, daemon.taskList)
  }

  /**
    Specification of `Addrs`: the provider check comes first, then the
    client is built for the host (default: the local unix socket), then the
    `type` argument selects the pipeline.
   */
  function Resolution(args: Args, daemon: Daemon): (r: Result)
    requires AddrsInputOk(args, daemon)
    ensures r.Err? && r.error.InvalidProvider? <==> Arg(args, "provider") != ProviderName
    ensures r.Err? && r.error.InvalidType? ==> r.error.discoverType != "node" && r.error.discoverType != "service"
  {
    if Arg(args, "provider") != ProviderName then Err(InvalidProvider(Arg(args, "provider")))
    else
      match daemon.connect(Host(args))
      case BadHostUrl(reason) => Err(InvalidHostUrl(Host(args), reason))
      case ClientError(reason) => Err(ClientFailed(reason))
      case Connected =>
        match ParseType(Arg(args, "type"))
        case NodeDiscovery => NodeResolution(args, daemon.nodeList)
        case ServiceDiscovery => ServiceResolution(args, daemon.taskList)
        case UnknownType(value) => Err(InvalidType(value))
  }

  /** The provider's `Addrs`. */
  method Addrs(args: Args, daemon: Daemon) returns (r: Result)
    requires AddrsInputOk(args, daemon)
    ensures r == Resolution(args, daemon)
  {
    if Arg(args, "provider") != ProviderName {
      return Err(InvalidProvider(Arg(args, "provider")));
    }

    var host := Arg(args, "host");
    if host == "" {
      host := DefaultHost;
    }

    var connection := daemon.connect(host);
    match connection {
      case BadHostUrl(reason) => return Err(InvalidHostUrl(host, reason));
      case ClientError(reason) => return Err(ClientFailed(reason));
      case Connected =>
    }

    var discoverType := Arg(args, "type");
    if discoverType == "node" {
      r := NodeAddrs(args, daemon.nodeList);
    } else if discoverType == "service" {
      r := ServiceAddrs(args, daemon.taskList);
    } else {
      r := Err(InvalidType(discoverType));
    }
  }

  /**
    A request for another provider is refused with its provider value before
    any client is built: the daemon plays no part in the answer.
   */
  lemma ProviderCheckedFirst(args: Args, d1: Daemon, d2: Daemon)
    requires Arg(args, "provider") != ProviderName
    ensures AddrsInputOk(args, d1) && AddrsInputOk(args, d2)
    ensures Resolution(args, d1) == Resolution(args, d2) == Err(InvalidProvider(Arg(args, "provider")))
  {
  }

  /**
    A client that cannot be built for the host is reported whatever the
    `type` argument says.
   */
  lemma ConnectionCheckedBeforeType(args: Args, daemon: Daemon)
    requires Arg(args, "provider") == ProviderName
    requires !daemon.connect(Host(args)).Connected?
    ensures AddrsInputOk(args, daemon)
    ensures Resolution(args, daemon).Err?
    ensures Resolution(args, daemon).error.InvalidHostUrl? || Resolution(args, daemon).error.ClientFailed?
  {
  }

  /** With a client in hand, "node" and "service" select the pipelines and every other value, missing included, is refused. */
  lemma TypeDispatch(args: Args, daemon: Daemon)
    requires AddrsInputOk(args, daemon)
    requires Arg(args, "provider") == ProviderName && daemon.connect(Host(args)).Connected?
    ensures Arg(args, "type") == "node" ==> Resolution(args, daemon) == NodeResolution(args, daemon.nodeList)
    ensures Arg(args, "type") == "service" ==> Resolution(args, daemon) == ServiceResolution(args, daemon.taskList)
    ensures Arg(args, "type") != "node" && Arg(args, "type") != "service" ==>
              Resolution(args, daemon) == Err(InvalidType(Arg(args, "type")))
    ensures "type" !in args ==> Resolution(args, daemon) == Err(InvalidType(""))
  {
  }

  /**
    End to end, node discovery: the node list is requested with the role
    filter, and the answer is exactly the addresses of the ready and active
    nodes, in list order.
   */
  lemma NodeDiscoveryEndToEnd(args: Args, daemon: Daemon, nodes: seq<Node>)
    requires Arg(args, "provider") == ProviderName && daemon.connect(Host(args)).Connected?
    requires Arg(args, "type") == "node"
    requires daemon.nodeList(RoleFilter(args)) == Listed(nodes)
    ensures AddrsInputOk(args, daemon)
    ensures Resolution(args, daemon) == Ok(EligibleAddrs(nodes))
    ensures forall a :: a in Resolution(args, daemon).addrs <==>
              exists i :: 0 <= i < |nodes| && Eligible(nodes[i]) && nodes[i].addr == a
  {
    assert ParseType(Arg(args, "type")) == NodeDiscovery;
    EligibleAddrsMembership(nodes);
  }

  /**
    End to end, service discovery: the tasks of `{namespace}_{service}` are
    listed, and the answer holds no address twice and exactly the stripped
    addresses that running tasks hold on network `{namespace}_{network}`.
   */
  lemma ServiceDiscoveryEndToEnd(args: Args, daemon: Daemon, tasks: seq<Task>)
    requires Arg(args, "provider") == ProviderName && daemon.connect(Host(args)).Connected?
    requires Arg(args, "type") == "service" && Arg(args, "service") != ""
    requires daemon.taskList(Qualify(Namespace(args), Arg(args, "service"))) == Listed(tasks)
    requires Strippable(tasks, NetworkSelector(args))
    ensures AddrsInputOk(args, daemon)
    ensures Resolution(args, daemon) == Ok(ExtractAddrs(tasks, NetworkSelector(args)))
    ensures NoDuplicates(Resolution(args, daemon).addrs)
    ensures forall ip :: ip in Resolution(args, daemon).addrs <==> TasksYield(tasks, NetworkSelector(args), ip)
  {
    assert ParseType(Arg(args, "type")) == ServiceDiscovery;
    ExtractAddrsCharacterised(tasks, NetworkSelector(args));
  }

  /** An empty node or task list is a success with no addresses, not an error. */
  lemma EmptyListsSucceed(args: Args, daemon: Daemon)
    requires Arg(args, "provider") == ProviderName && daemon.connect(Host(args)).Connected?
    requires Arg(args, "type") == "node" ==> daemon.nodeList(RoleFilter(args)) == Listed([])
    requires Arg(args, "type") == "service" ==>
               Arg(args, "service") != "" && daemon.taskList(Qualify(Namespace(args), Arg(args, "service"))) == Listed([])
    requires Arg(args, "type") == "node" || Arg(args, "type") == "service"
    ensures AddrsInputOk(args, daemon)
    ensures Resolution(args, daemon) == Ok([])
  {
  }
}
