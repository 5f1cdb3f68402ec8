/**
  Service resolution: the tasks of one service are reduced to the addresses
  they hold on the selected network, with the subnet suffix removed,
  duplicates dropped and first-seen order kept.
 */
module ServicePipeline {
  import opened SwarmTypes
  import opened Naming
  import opened FirstSeen

  /** `addr[:len(addr)-3]`: the address without its last three bytes, the "/NN" suffix (characters here; the two agree on ASCII). */
  function StripMask(addr: string): (ip: string)
    requires |addr| >= 3
    ensures ip + addr[|addr| - 3..] == addr
  {
    addr[..|addr| - 3]
  }

  /** `addr` is long enough to be cut and cutting it gives `ip`. */
  predicate StripsTo(addr: string, ip: string)
  {
    |addr| >= 3 && StripMask(addr) == ip
  }

  // Slicing a string shorter than three bytes panics in Go. Only the
  // addresses the loop reaches (running task, selected network) are cut, so
  // only those have to be long enough.

  predicate AddressesStrippable(addrs: seq<string>)
  {
    forall k :: 0 <= k < |addrs| ==> |addrs[k]| >= 3
  }

  predicate AttachmentsStrippable(atts: seq<Attachment>, selector: string)
  {
    forall j :: 0 <= j < |atts| && atts[j].networkName == selector ==> AddressesStrippable(atts[j].addresses)
  }

  predicate TaskStrippable(t: Task, selector: string)
  {
    t.state == TaskStateRunning ==> AttachmentsStrippable(t.attachments, selector)
  }

  predicate Strippable(tasks: seq<Task>, selector: string)
  {
    forall i :: 0 <= i < |tasks| ==> TaskStrippable(tasks[i], selector)
  }

  /** What `TaskAddrs` needs of its input: when it gets past the service check, every address it cuts is long enough. */
  predicate TasksInputOk(tasks: seq<Task>, args: Args)
  {
    Arg(args, "service") != "" ==> Strippable(tasks, NetworkSelector(args))
  }

  /** The stripped addresses of one attachment, in order. */
  function StripAll(addrs: seq<string>): seq<string>
    requires AddressesStrippable(addrs)
  {
    if |addrs| == 0 then []
    else StripAll(addrs[..|addrs| - 1]) + [StripMask(addrs[|addrs| - 1])]
  }

  /** The stripped addresses of the attachments on the selected network, in order. */
  function AttachmentsVisit(atts: seq<Attachment>, selector: string): seq<string>
    requires AttachmentsStrippable(atts, selector)
  {
    if |atts| == 0 then []
    else
      var last := atts[|atts| - 1];
      AttachmentsVisit(atts[..|atts| - 1], selector) +
      (if last.networkName == selector then StripAll(last.addresses) else [])
  }

  /** What one task contributes before deduplication: nothing unless it is running. */
  function TaskVisit(t: Task, selector: string): seq<string>
    requires TaskStrippable(t, selector)
  {
    if t.state != TaskStateRunning then [] else AttachmentsVisit(t.attachments, selector)
  }

  /** Every address the loop reaches, in visiting order, duplicates included. */
  function Visit(tasks: seq<Task>, selector: string): seq<string>
    requires Strippable(tasks, selector)
  {
    if |tasks| == 0 then []
    else Visit(tasks[..|tasks| - 1], selector) + TaskVisit(tasks[|tasks| - 1], selector)
  }

  /** The addresses of the tasks on network `selector`: each once, in first-seen order. */
  function ExtractAddrs(tasks: seq<Task>, selector: string): seq<string>
    requires Strippable(tasks, selector)
  {
    Dedup(Visit(tasks, selector))
  }

  /**
    Specification of `TaskAddrs`: an empty `service` argument is an error
    whatever the tasks; otherwise the addresses on `{namespace}_{network}`.
   */
  function TaskResolution(tasks: seq<Task>, args: Args): (r: Result)
    requires TasksInputOk(tasks, args)
    ensures r.Err? <==> Arg(args, "service") == ""
    ensures r.Err? ==> r.error == MissingServiceName
  {
    if QualifiedService(args).None? then Err(MissingServiceName)
    else Ok(ExtractAddrs(tasks, NetworkSelector(args)))
  }

  /** One more task of the loop: the prefix stays strippable and its visit grows by that task's. */
  lemma VisitStep(tasks: seq<Task>, i: nat, selector: string)
    requires Strippable(tasks, selector) && i < |tasks|
    ensures Strippable(tasks[..i], selector) && Strippable(tasks[..i + 1], selector)
    ensures Visit(tasks[..i + 1], selector) == Visit(tasks[..i], selector) + TaskVisit(tasks[i], selector)
    ensures tasks[i].state != TaskStateRunning || tasks[i].attachments == [] ==>
              Visit(tasks[..i + 1], selector) == Visit(tasks[..i], selector)
    ensures tasks[i].state == TaskStateRunning ==>
              Visit(tasks[..i + 1], selector) == Visit(tasks[..i], selector) + AttachmentsVisit(tasks[i].attachments, selector)
  {
    assert tasks[..i + 1][..i] == tasks[..i];
  }

  /** One more attachment of the loop: its stripped addresses are added when it is on the selected network. */
  lemma AttachmentsVisitStep(atts: seq<Attachment>, j: nat, selector: string)
    requires AttachmentsStrippable(atts, selector) && j < |atts|
    ensures AttachmentsStrippable(atts[..j], selector) && AttachmentsStrippable(atts[..j + 1], selector)
    ensures AttachmentsVisit(atts[..j + 1], selector) ==
              AttachmentsVisit(atts[..j], selector) + (if atts[j].networkName == selector then StripAll(atts[j].addresses) else [])
  {
    assert atts[..j + 1][..j] == atts[..j];
  }

  /** One more address of the loop, seen after the candidates `seen`. */
  lemma StripAllStep(seen: seq<string>, addrs: seq<string>, k: nat)
    requires AddressesStrippable(addrs) && k < |addrs|
    ensures seen + StripAll(addrs[..k + 1]) == (seen + StripAll(addrs[..k])) + [StripMask(addrs[k])]
  {
    assert addrs[..k + 1][..k] == addrs[..k];
  }

  /**
    The innermost loop of `TaskAddrs`: strips each address of one attachment
    and appends it unless the accumulated list already holds it. `seen` are
    the candidates the loop has visited before this attachment.
   */
  method AppendAddrs(addrs: seq<string>, ghost seen: seq<string>, addresses: seq<string>) returns (result: seq<string>)
    requires AddressesStrippable(addresses)
    requires addrs == Dedup(seen)
    ensures result == Dedup(seen + StripAll(addresses))
  {
    result := addrs;
    assert seen + StripAll(addresses[..0]) == seen;
    for k := 0 to |addresses|
      invariant result == Dedup(seen + StripAll(addresses[..k]))
    {
      var addr := addresses[k];
      StripAllStep(seen, addresses, k);
      addr := addr[..|addr| - 3];  // drop the subnet mask
      DedupSnoc(seen + StripAll(addresses[..k]), addr);
      if addr in result {
        continue;
      }
      result := result + [addr];
    }
    assert addresses[..|addresses|] == addresses;
  }

  /**
    The middle loop of `TaskAddrs`: walks the attachments of one running task
    and feeds the addresses of those on the selected network to `AppendAddrs`.
   */
  method AppendAttachmentAddrs(addrs: seq<string>, ghost seen: seq<string>, attachments: seq<Attachment>, selector: string)
    returns (result: seq<string>)
    requires AttachmentsStrippable(attachments, selector)
    requires addrs == Dedup(seen)
    ensures result == Dedup(seen + AttachmentsVisit(attachments, selector))
  {
    result := addrs;
    assert seen + AttachmentsVisit(attachments[..0], selector) == seen;
    for j := 0 to |attachments|
      invariant result == Dedup(seen + AttachmentsVisit(attachments[..j], selector))
    {
      var network := attachments[j];
      ghost var before := seen + AttachmentsVisit(attachments[..j], selector);
      AttachmentsVisitStep(attachments, j, selector);
      if network.networkName == selector {
        result := AppendAddrs(result, before, network.addresses);
        assert seen + AttachmentsVisit(attachments[..j + 1], selector) == before + StripAll(network.addresses);
      } else {
        assert seen + AttachmentsVisit(attachments[..j + 1], selector) == before;
      }
    }
    assert attachments[..|attachments|] == attachments;
  }

  /** The task loop: re-derives the names from the arguments, then walks tasks, attachments and addresses. */
  method TaskAddrs(tasks: seq<Task>, args: Args) returns (r: Result)
    requires TasksInputOk(tasks, args)
    ensures r == TaskResolution(tasks, args)
  {
    var addrs: seq<string> := [];

    var namespace := Arg(args, "namespace");
    if namespace == "" {
      namespace := DefaultNamespace;
    }

    var service := Arg(args, "service");
    if service == "" {
      return Err(MissingServiceName);
    }
    service := Qualify(namespace, service);

    var networkSelector := Arg(args, "network");
    if networkSelector == "" {
      networkSelector := DefaultNetwork;
    }
    networkSelector := Qualify(namespace, networkSelector);
    assert networkSelector == NetworkSelector(args);

    for i := 0 to |tasks|
      invariant addrs == Dedup(Visit(tasks[..i], networkSelector))
    {
      var task := tasks[i];
      ghost var done := Visit(tasks[..i], networkSelector);
      VisitStep(tasks, i, networkSelector);

      if task.state != TaskStateRunning {
        continue;
      }

      // A task without network attachments (a nil slice in Go).
      if task.attachments == [] {
        continue;
      }

      addrs := AppendAttachmentAddrs(addrs, done, task.attachments, networkSelector);
    }

    assert tasks[..|tasks|] == tasks;
    return Ok(addrs);
  }

  /** What `ServiceAddrs` needs of the task list call: the listed tasks meet `TaskAddrs`'s requirement. */
  predicate ServiceInputOk(args: Args, taskList: string -> Listing<seq<Task>>)
  {
    QualifiedService(args).Some? && taskList(QualifiedService(args).value).Listed? ==>
      TasksInputOk(taskList(QualifiedService(args).value).items, args)
  }

  /**
    Specification of `ServiceAddrs`: an empty `service` argument fails before
    any task is listed; otherwise the tasks of `{namespace}_{service}` are
    listed (an upstream failure is wrapped) and handed to `TaskAddrs`.
   */
  function ServiceResolution(args: Args, taskList: string -> Listing<seq<Task>>): (r: Result)
    requires ServiceInputOk(args, taskList)
    ensures r.Err? ==> r.error == MissingServiceName || r.error.UpstreamFailed?
    ensures Arg(args, "service") == "" ==> r == Err(MissingServiceName)
    ensures QualifiedService(args).Some? && taskList(QualifiedService(args).value).ListFailed? ==>
              r == Err(UpstreamFailed(taskList(QualifiedService(args).value).reason))
    ensures QualifiedService(args).Some? && taskList(QualifiedService(args).value).Listed? ==>
              r == TaskResolution(taskList(QualifiedService(args).value).items, args)
  {
    match QualifiedService(args)
    case None => Err(MissingServiceName)
    case Some(name) =>
      match taskList(name)
      case ListFailed(reason) => Err(UpstreamFailed(reason))
      case Listed(tasks) => TaskResolution(tasks, args)
  }

  /** The service pipeline; `taskList` stands for the Docker API's task list call filtered by service name. */
  method ServiceAddrs(args: Args, taskList: string -> Listing<seq<Task>>) returns (r: Result)
    requires ServiceInputOk(args, taskList)
    ensures r == ServiceResolution(args, taskList)
  {
    var namespace := Arg(args, "namespace");
    if namespace == "" {
      namespace := DefaultNamespace;
    }

    var service := Arg(args, "service");
    if service == "" {
      return Err(MissingServiceName);
    }
    service := Qualify(namespace, service);

    var listing := taskList(service);
    if listing.ListFailed? {
      return Err(UpstreamFailed(listing.reason));
    }
    r := TaskAddrs(listing.items, args);
  }
}
