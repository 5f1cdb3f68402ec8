# Docker Swarm discovery provider, modelled in Dafny

This project models the address resolution of the `dockerswarm` discovery provider. The provider is handed a flat argument map and asks the Docker daemon for a list of swarm nodes or of a service's tasks. It returns an ordered list of address strings, or an error.

- **Dispatcher** (`Provider.Addrs`). A `provider` other than `dockerswarm` is refused first. Then a client is built for `host`, which defaults to `unix:///var/run/docker.sock`. Finally the `type` argument selects `node` or `service` resolution; any other value is refused.
- **Node resolution** (`NodePipeline.NodeAddrs`). The node list is requested with the `role` argument as a filter when it is set. The result is the `Status.Addr` of every node that is both `ready` and `active`, in list order.
- **Service resolution** (`ServicePipeline.ServiceAddrs`, `ServicePipeline.TaskAddrs`). The namespace defaults to `default`. The service name is required and is qualified as `{namespace}_{service}`. The tasks of that service are listed. For every running task, the addresses of each attachment whose network is exactly `{namespace}_{network}` are collected; the network defaults to `default`. Each address loses its last three bytes, which for the ASCII addresses Docker reports are its last three characters (the `/NN` subnet suffix). An address is appended only if the list does not already hold it.

The Docker daemon is the `Provider.Daemon` value: three total functions that stand for client construction for a host, the node list call and the task list call. The loops of `NodeAddrs` and `TaskAddrs` are methods. Each is proved equal to a specification function (`EligibleAddrs`, `ExtractAddrs` = `Dedup(Visit(...))`), and the properties are lemmas about those functions. The Go `TaskAddrs` nests three loops in one function. Here the attachment loop and the address loop are the methods `AppendAttachmentAddrs` and `AppendAddrs`, which `TaskAddrs` calls in the same order.

The address stripping is modelled as written: it cuts exactly three bytes (characters, for ASCII). `StripTwoDigitMask` shows that this removes a `/NN` suffix exactly. `StripOneDigitMask` shows that a one-digit suffix such as `/8` also takes away the last character of the address.

Two behaviours of the code are worth stating:
- Only an empty `role` leaves the node list unfiltered. Any other value, `all` included, is passed to the daemon as a role filter.
- `host_network` appears only in the help text and is never read.

## Model

| member | source | states |
|---|---|---|
| `FirstSeen.Dedup` | dockerswarm_discover.go:185-188 | the value the append-if-unseen pattern reaches after a sequence of candidates; it is never longer than the candidates |
| `FirstSeen.DedupMembership` | dockerswarm_discover.go:185-188 | a value is in the deduplicated list exactly when it is among the candidates |
| `FirstSeen.DedupNoDuplicates` | dockerswarm_discover.go:185-188 | the deduplicated list never holds the same value twice |
| `FirstSeen.DedupPrefix` | dockerswarm_discover.go:185-188 | first-seen order: more candidates only extend the list, so earlier values keep their places |
| `FirstSeen.DedupAbsorbs` | dockerswarm_discover.go:185-188 | candidates that were all seen before leave the list unchanged |
| `Naming.Namespace` | dockerswarm_discover.go:152-156 | a set `namespace` is used as given; a missing or empty one becomes "default" |
| `Naming.QualifiedService` | dockerswarm_discover.go:158-162 | a qualified service name exists only for a non-empty `service`, and it is the namespace, an underscore, then that service name |
| `Naming.NetworkSelector` | dockerswarm_discover.go:164-169 | the selector starts with `{namespace}_` and ends with the `network` argument, or with "default" when that is missing or empty |
| `Naming.RoleFilter` | dockerswarm_discover.go:93-96 | a non-empty `role`, `all` included, is passed on verbatim as the filter; an empty one gives no filter |
| `Naming.Host` | dockerswarm_discover.go:43-46 | a set `host` is used as given; a missing or empty one becomes the unix socket `unix:///var/run/docker.sock` |
| `Naming.QualifyParts` | dockerswarm_discover.go:162 | `{namespace}_{name}` is the namespace, one underscore, then the name |
| `Naming.QualifyInjective` | dockerswarm_discover.go:169 | within one namespace, different network or service names give different qualified names |
| `Naming.DefaultSelector` | dockerswarm_discover.go:164-169 | with neither namespace nor network given, tasks are matched on network "default_default" |
| `Naming.SelectorSharesNamespace` | dockerswarm_discover.go:152-169 | the qualified service name and the network selector both start with `{namespace}_` |
| `Naming.NamingExamples` | dockerswarm_discover.go:162-169 | namespace "ns" with service "web" gives "ns_web"; no namespace with network "api" gives "default_api" |
| `NodePipeline.Eligible` | dockerswarm_discover.go:108-115 | a node is kept exactly when its state is ready and its availability active |
| `NodePipeline.EligibleAddrs` | dockerswarm_discover.go:105-117 | the filter loop's outcome: at most one address per listed node |
| `NodePipeline.NodeResolution` | dockerswarm_discover.go:93-119 | the node pipeline fails exactly when the role-filtered node list fails, and then with that failure wrapped as an upstream error |
| `NodePipeline.NodeAddrs` | dockerswarm_discover.go:88-120 | the node loop returns the eligible addresses of the listed nodes; the list is requested with the role filter; a list failure is wrapped as an upstream error |
| `NodePipeline.EligibleAddrsMembership` | dockerswarm_discover.go:105-119 | an address is returned exactly when some listed node is ready, active and advertises it |
| `NodePipeline.EligibleAddrsAppend` | dockerswarm_discover.go:105-117 | input order is kept: the result for a concatenated list is the first part's result followed by the second part's |
| `NodePipeline.AllEligibleKept` | dockerswarm_discover.go:107-117 | when every node is eligible, the result is their addresses position by position |
| `NodePipeline.NoEligibleNodes` | dockerswarm_discover.go:105-119 | an empty list, or one without eligible nodes, gives an empty result |
| `NodePipeline.NodeExample` | dockerswarm_discover.go:107-116 | of a ready+active, a ready+drain and a down+active node only the first address is kept |
| `ServicePipeline.StripMask` | dockerswarm_discover.go:184 | the cut address followed by the last three characters of the original gives the original back |
| `ServicePipeline.Visit` | dockerswarm_discover.go:171-192 | every address the task loop reaches, in visiting order with repeats; `VisitMembership` and `VisitAppend` state what it holds |
| `ServicePipeline.ExtractAddrs` | dockerswarm_discover.go:171-194 | the visited addresses deduplicated in first-seen order; `ExtractAddrsCharacterised` states what it holds |
| `ServicePipeline.TaskResolution` | dockerswarm_discover.go:149-195 | `TaskAddrs` fails exactly when `service` is empty, and then only with the missing-service error |
| `ServicePipeline.ServiceResolution` | dockerswarm_discover.go:122-147 | an empty `service` fails with the missing-service error; otherwise a failed task list of `{namespace}_{service}` is wrapped as an upstream error, and listed tasks go to `TaskAddrs`; no other failure occurs |
| `ServicePipeline.AppendAddrs` | dockerswarm_discover.go:183-189 | the address loop strips each address of an attachment and appends it only when unseen; the result is the deduplication of everything visited so far |
| `ServicePipeline.AppendAttachmentAddrs` | dockerswarm_discover.go:181-191 | the attachment loop adds exactly the stripped addresses of the attachments named like the selector, deduplicated in order |
| `ServicePipeline.TaskAddrs` | dockerswarm_discover.go:149-195 | empty `service` is an error; otherwise the result is the deduplicated, first-seen-ordered stripped addresses of running tasks on `{namespace}_{network}` |
| `ServicePipeline.ServiceAddrs` | dockerswarm_discover.go:122-147 | equals `ServiceResolution`: empty `service` fails before listing; otherwise the tasks of `{namespace}_{service}` are listed, a list failure is wrapped as an upstream error, and listed tasks give the result of `TaskAddrs` |
| `ServiceProperties.StripAllMembership` | dockerswarm_discover.go:183-184 | a stripped value comes from an attachment exactly when one of its addresses strips to it |
| `ServiceProperties.AttachmentsVisitMembership` | dockerswarm_discover.go:181-190 | a value is visited in a task's attachments exactly when an attachment on the selector network yields it |
| `ServiceProperties.VisitMembership` | dockerswarm_discover.go:171-192 | a value is visited exactly when some running task yields it on the selector network |
| `ServiceProperties.ExtractAddrsCharacterised` | dockerswarm_discover.go:171-194 | no address twice, and an address is in the result exactly when a running task has a matching attachment carrying it with its suffix |
| `ServiceProperties.ExtractAddrsComplete` | dockerswarm_discover.go:181-190 | every address of every matching attachment of every running task is at least 3 long and appears stripped in the result |
| `ServiceProperties.VisitAppend` | dockerswarm_discover.go:171-192 | visiting two task lists in a row is the first visit followed by the second |
| `ServiceProperties.ExtractAddrsPrefix` | dockerswarm_discover.go:171-192 | first-seen order: the result for some tasks is a prefix of the result with more tasks after them |
| `ServiceProperties.ExtractAddrsQuietTask` | dockerswarm_discover.go:171-192 | a further task whose addresses were all seen before leaves the result unchanged |
| `ServiceProperties.NonRunningTaskIgnored` | dockerswarm_discover.go:172-175 | a task that is not running leaves the result unchanged |
| `ServiceProperties.OffNetworkTaskIgnored` | dockerswarm_discover.go:177-182 | a task with no attachment on the selector network (or none at all) leaves the result unchanged |
| `ServiceProperties.TaskAddrsNeedsService` | dockerswarm_discover.go:158-161 | an empty `service` makes `TaskAddrs` fail whatever the tasks and other arguments |
| `ServiceProperties.TaskResolutionOk` | dockerswarm_discover.go:149-195 | with a service name, `TaskAddrs` succeeds with no duplicates and exactly the addresses on `{namespace}_{network}` |
| `ServiceProperties.NoTasksNoAddrs` | dockerswarm_discover.go:150-194 | an empty task list is a success with no addresses |
| `ServiceProperties.ServiceAddrsNeedsService` | dockerswarm_discover.go:130-133 | an empty `service` makes `ServiceAddrs` fail whatever the daemon would list |
| `ServiceProperties.ServiceAddrsQueriesQualifiedName` | dockerswarm_discover.go:134-141 | `ServiceAddrs` consults the task list only for `{namespace}_{service}` |
| `ServiceProperties.StripTwoDigitMask` | dockerswarm_discover.go:184 | an address with a two-digit `/NN` suffix loses exactly that suffix |
| `ServiceProperties.StripOneDigitMask` | dockerswarm_discover.go:184 | as written, a one-digit `/N` suffix also takes the last address character |
| `ServiceProperties.SharedAddressOnce` | dockerswarm_discover.go:183-189 | two running tasks reporting "10.0.0.9/24" on the selected network give "10.0.0.9" once |
| `Provider.ParseType` | dockerswarm_discover.go:76-85 | "node" and "service" are the only `type` values with a pipeline; every other value is kept as given, to be reported |
| `Provider.Resolution` | dockerswarm_discover.go:38-86 | an invalid-provider error occurs exactly when `provider` is not `dockerswarm`; an invalid-type error never names "node" or "service" |
| `Provider.Addrs` | dockerswarm_discover.go:38-86 | provider check, then client for the (defaulted) host, then the `type` switch, as `Resolution` specifies |
| `Provider.ProviderCheckedFirst` | dockerswarm_discover.go:39-41 | a foreign provider gives an invalid-provider error naming it, whatever the daemon would do |
| `Provider.ConnectionCheckedBeforeType` | dockerswarm_discover.go:43-73 | a client that cannot be built for the host is reported as a host or client error whatever the `type` |
| `Provider.TypeDispatch` | dockerswarm_discover.go:76-85 | "node" gives node resolution, "service" gives service resolution; any other value, missing included, gives an invalid-type error naming it |
| `Provider.NodeDiscoveryEndToEnd` | dockerswarm_discover.go:78-120 | a node request returns exactly the ready and active nodes' addresses of the role-filtered list |
| `Provider.ServiceDiscoveryEndToEnd` | dockerswarm_discover.go:81-195 | a service request returns, without duplicates, exactly the stripped addresses of running tasks on the selector network |
| `Provider.EmptyListsSucceed` | dockerswarm_discover.go:105-194 | an empty node or task list gives success with no addresses, not an error |

## Left out

- Client construction is one function, `Daemon.connect`, which either succeeds or fails as an invalid host URL or as a client error. Left out are `url.Parse`, the client options (host, API version negotiation), and the HTTP client with its 30-second timeout added for `http`/`https` hosts. These are library and transport configuration.
- `defer cli.Close()`: releasing the client is not modelled, because the model has no resources.
- `cli.NodeList` and `cli.TaskList` are the functions `Daemon.nodeList` and `Daemon.taskList`. They may return any list or failure. What the daemon's server-side role and service filters select is left out, because that is Docker's code, not the provider's.
- `context.Background()` and the `[DEBUG]` log lines are left out: they do not affect results. Node hostnames and task ids and slots appear only in log messages, so they are carried in the datatypes but never used.
- `Help()` is static documentation and is left out.
- Error message texts (the `discover-dockerswarm:` prefix and formatting) are not modelled. Each error is an `Error` kind that carries the offending value or the wrapped reason.
- Slicing an address shorter than three bytes panics in Go. This is not modelled as an outcome. `TasksInputOk`, `ServiceInputOk` and `AddrsInputOk` require that every address the loop actually cuts (running task, selected network, non-empty service) is at least three characters long (three bytes, for ASCII).
- Go measures and slices strings in bytes, and the model in characters. The two agree on ASCII strings, which is all Docker reports as task addresses (`ip/prefix` text). `StripMask` and the length requirements are stated in characters.
- Go returns a nil slice when nothing matches. The model returns `Ok([])`, which behaves the same for callers.
