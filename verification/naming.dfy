/**
  Argument defaulting and name qualification shared by the dispatcher and
  the two resolution pipelines.
 */
module Naming {
  import opened SwarmTypes

  const ProviderName := "dockerswarm"
  const DefaultHost := "unix:///var/run/docker.sock"
  const DefaultNamespace := "default"
  const DefaultNetwork := "default"

  /** `{namespace}_{name}`: Docker stack naming of services and networks. */
  function Qualify(namespace: string, name: string): string
  {
    namespace + "_" + name
  }

  /** The `namespace` argument, or "default" when it is missing or empty. */
  function Namespace(args: Args): (ns: string)
    ensures ns != ""
    ensures Arg(args, "namespace") != "" ==> ns == Arg(args, "namespace")
    ensures Arg(args, "namespace") == "" ==> ns == DefaultNamespace
  {
    if Arg(args, "namespace") == "" then DefaultNamespace else Arg(args, "namespace")
  }

  /** The qualified service name, or None when the `service` argument is missing or empty. */
  function QualifiedService(args: Args): (name: Option<string>)
    ensures name.Some? ==>
              Arg(args, "service") != "" && |name.value| > |Namespace(args)| + 1 &&
              name.value[..|Namespace(args)| + 1] == Namespace(args) + "_" &&
              name.value[|Namespace(args)| + 1..] == Arg(args, "service")
  {
    if Arg(args, "service") == "" then None
    else Some(Qualify(Namespace(args), Arg(args, "service")))
  }

  /** `{namespace}_{network}`, the network name is "default" when missing or empty. */
  function NetworkSelector(args: Args): (selector: string)
    ensures |selector| > |Namespace(args)| + 1
    ensures selector[..|Namespace(args)| + 1] == Namespace(args) + "_"
    ensures Arg(args, "network") != "" ==> selector[|Namespace(args)| + 1..] == Arg(args, "network")
    ensures Arg(args, "network") == "" ==> selector[|Namespace(args)| + 1..] == DefaultNetwork
  {
    var network := if Arg(args, "network") == "" then DefaultNetwork else Arg(args, "network");
    Qualify(Namespace(args), network)
  }

  /** The Docker endpoint: the `host` argument, or the local unix socket. */
  function Host(args: Args): (h: string)
    ensures h != ""
    ensures Arg(args, "host") != "" ==> h == Arg(args, "host")
    ensures Arg(args, "host") == "" ==> h == DefaultHost
  {
    if Arg(args, "host") == "" then DefaultHost else Arg(args, "host")
  }

  /** The server-side role filter of the node list: only added when `role` is set. */
  function RoleFilter(args: Args): (filter: Option<string>)
    ensures filter.Some? ==> filter.value == Arg(args, "role") && filter.value != ""
    ensures Arg(args, "role") != "" ==> filter == Some(Arg(args, "role"))
  {
    if Arg(args, "role") == "" then None else Some(Arg(args, "role"))
  }

  /** A qualified name splits back into its namespace, the separator and the base name. */
  lemma QualifyParts(namespace: string, name: string)
    ensures var q := Qualify(namespace, name);
            |q| == |namespace| + 1 + |name| &&
            q[..|namespace|] == namespace && q[|namespace|] == '_' && q[|namespace| + 1..] == name
  {
  }

  /** Within one namespace, different base names give different qualified names. */
  lemma QualifyInjective(namespace: string, a: string, b: string)
    requires Qualify(namespace, a) == Qualify(namespace, b)
    ensures a == b
  {
    QualifyParts(namespace, a);
    QualifyParts(namespace, b);
  }

  /** Namespace and network both missing: tasks are matched on network "default_default". */
  lemma DefaultSelector(args: Args)
    requires Arg(args, "namespace") == "" && Arg(args, "network") == ""
    ensures NetworkSelector(args) == "default_default"
  {
  }

  /** Service and network selector are both scoped by the same namespace. */
  lemma SelectorSharesNamespace(args: Args)
    requires QualifiedService(args).Some?
    ensures var ns := Namespace(args);
            QualifiedService(args).value[..|ns| + 1] == ns + "_" &&
            NetworkSelector(args)[..|ns| + 1] == ns + "_"
  {
  }

  /** Namespace "ns" and service "web" give "ns_web"; no namespace and network "api" give "default_api". */
  lemma NamingExamples()
    ensures QualifiedService(map["namespace" := "ns", "service" := "web"]) == Some("ns_web")
    ensures NetworkSelector(map["network" := "api"]) == "default_api"
  {
    var args := map["namespace" := "ns", "service" := "web"];
    assert "service" != "namespace" by { assert "service"[0] != "namespace"[0]; }
    assert Arg(args, "namespace") == "ns" && Arg(args, "service") == "web";
    assert Qualify("ns", "web") == "ns_web";
  }
}
