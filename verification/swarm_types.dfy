/**
  The values the discovery provider reads and returns: the argument map, the
  snapshot of cluster state handed back by the Docker API (nodes, tasks and
  their network attachments), and the outcome of a resolution.
 */
module SwarmTypes {

  datatype Option<+T> = None | Some(value: T)

  /** The flat key/value argument set of one resolution call. */
  type Args = map<string, string>

  /** Go map lookup: a key that is not present reads as the empty string. */
  function Arg(args: Args, key: string): string
  {
    if key in args then args[key] else ""
  }

  // Docker's node, availability and task states are string types; only the
  // values the provider compares against are named here.
  const NodeStateReady := "ready"
  const NodeAvailabilityActive := "active"
  const TaskStateRunning := "running"

  /** A swarm node as far as the provider looks at it. */
  datatype Node = Node(hostname: string, state: string, availability: string, addr: string)

  /** One network attachment of a task: the network's name and its addresses in `ip/prefix` form. */
  datatype Attachment = Attachment(networkName: string, addresses: seq<string>)

  /** One task (replica) of a service. */
  datatype Task = Task(id: string, slot: int, state: string, attachments: seq<Attachment>)

  /** The failures a resolution call reports, each carrying the offending value or the wrapped reason. */
  datatype Error =
    | InvalidProvider(provider: string)
    | InvalidHostUrl(host: string, reason: string)
    | ClientFailed(reason: string)
    | InvalidType(discoverType: string)
    | MissingServiceName
    | UpstreamFailed(reason: string)

  /** The `([]string, error)` pair of the Go code: addresses, or an error and no addresses. */
  datatype Result = Ok(addrs: seq<string>) | Err(error: Error)

  /** The answer of one list call to the Docker API. */
  datatype Listing<+T> = Listed(items: T) | ListFailed(reason: string)

  /** Outcome of parsing the host URL and building the Docker client. */
  datatype Connection = Connected | BadHostUrl(reason: string) | ClientError(reason: string)

  /** Sequences without repeated elements. */
  predicate NoDuplicates<T(==)>(s: seq<T>)
  {
    forall i, j :: 0 <= i < j < |s| ==> s[i] != s[j]
  }
}
