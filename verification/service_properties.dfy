/**
  What the task extraction promises, stated against the specification
  functions of `TaskResolution` (and so, through its `ensures`, about the
  `TaskAddrs` method): no address twice, exactly the addresses that running
  tasks hold on the selected network, and first-seen order.
 */
module ServiceProperties {
  import opened SwarmTypes
  import opened Naming
  import opened FirstSeen
  import opened ServicePipeline

  /** Some address of the list strips to `ip`. */
  ghost predicate AddressYields(addrs: seq<string>, ip: string)
  {
    exists k :: 0 <= k < |addrs| && StripsTo(addrs[k], ip)
  }

  /** Some attachment on network `selector` holds an address that strips to `ip`. */
  ghost predicate AttachmentsYield(atts: seq<Attachment>, selector: string, ip: string)
  {
    exists j :: 0 <= j < |atts| && atts[j].networkName == selector && AddressYields(atts[j].addresses, ip)
  }

  /** The task is running and is attached to `selector` with an address that strips to `ip`. */
  ghost predicate TaskYields(t: Task, selector: string, ip: string)
  {
    t.state == TaskStateRunning && AttachmentsYield(t.attachments, selector, ip)
  }

  /** Some task of the list yields `ip`. */
  ghost predicate TasksYield(tasks: seq<Task>, selector: string, ip: string)
  {
    exists i :: 0 <= i < |tasks| && TaskYields(tasks[i], selector, ip)
  }

  lemma {:induction false} StripAllMembership(addrs: seq<string>)
    requires AddressesStrippable(addrs)
    ensures forall ip :: ip in StripAll(addrs) <==> AddressYields(addrs, ip)
  {
    if |addrs| > 0 {
      var init := addrs[..|addrs| - 1];
      StripAllMembership(init);
      forall ip
        ensures ip in StripAll(addrs) <==> AddressYields(addrs, ip)
      {
        if ip in StripAll(init) {
          var k :| 0 <= k < |init| && StripsTo(init[k], ip);
          assert addrs[k] == init[k];
        }
        if AddressYields(addrs, ip) {
          var k :| 0 <= k < |addrs| && StripsTo(addrs[k], ip);
          if k < |init| {
            assert init[k] == addrs[k];
          }
        }
      }
    }
  }

  lemma {:induction false} AttachmentsVisitMembership(atts: seq<Attachment>, selector: string)
    requires AttachmentsStrippable(atts, selector)
    ensures forall ip :: ip in AttachmentsVisit(atts, selector) <==> AttachmentsYield(atts, selector, ip)
  {
    if |atts| > 0 {
      var init := atts[..|atts| - 1];
      var last := atts[|atts| - 1];
      AttachmentsVisitMembership(init, selector);
      if last.networkName == selector {
        StripAllMembership(last.addresses);
      }
      forall ip
        ensures ip in AttachmentsVisit(atts, selector) <==> AttachmentsYield(atts, selector, ip)
      {
        if ip in AttachmentsVisit(init, selector) {
          var j :| 0 <= j < |init| && init[j].networkName == selector && AddressYields(init[j].addresses, ip);
          assert atts[j] == init[j];
        }
        if AttachmentsYield(atts, selector, ip) {
          var j :| 0 <= j < |atts| && atts[j].networkName == selector && AddressYields(atts[j].addresses, ip);
          if j < |init| {
            assert init[j] == atts[j];
          }
        }
      }
    }
  }

  lemma {:induction false} VisitMembership(tasks: seq<Task>, selector: string)
    requires Strippable(tasks, selector)
    ensures forall ip :: ip in Visit(tasks, selector) <==> TasksYield(tasks, selector, ip)
  {
    if |tasks| > 0 {
      var init := tasks[..|tasks| - 1];
      var last := tasks[|tasks| - 1];
      VisitMembership(init, selector);
      if last.state == TaskStateRunning {
        AttachmentsVisitMembership(last.attachments, selector);
      }
      forall ip
        ensures ip in Visit(tasks, selector) <==> TasksYield(tasks, selector, ip)
      {
        if ip in Visit(init, selector) {
          var i :| 0 <= i < |init| && TaskYields(init[i], selector, ip);
          assert tasks[i] == init[i];
        }
        if TasksYield(tasks, selector, ip) {
          var i :| 0 <= i < |tasks| && TaskYields(tasks[i], selector, ip);
          if i < |init| {
            assert init[i] == tasks[i];
          }
        }
      }
    }
  }

  /**
    The extraction result holds no address twice, and an address is in it
    exactly when some running task has an attachment on network `selector`
    carrying that address with its suffix.
   */
  lemma ExtractAddrsCharacterised(tasks: seq<Task>, selector: string)
    requires Strippable(tasks, selector)
    ensures NoDuplicates(ExtractAddrs(tasks, selector))
    ensures forall ip :: ip in ExtractAddrs(tasks, selector) <==> TasksYield(tasks, selector, ip)
  {
    DedupNoDuplicates(Visit(tasks, selector));
    DedupMembership(Visit(tasks, selector));
    VisitMembership(tasks, selector);
  }

  /** Completeness, position by position: every address the loop reaches ends up in the result, stripped. */
  lemma ExtractAddrsComplete(tasks: seq<Task>, selector: string)
    requires Strippable(tasks, selector)
    ensures forall i, j, k ::
              0 <= i < |tasks| && tasks[i].state == TaskStateRunning &&
              0 <= j < |tasks[i].attachments| && tasks[i].attachments[j].networkName == selector &&
              0 <= k < |tasks[i].attachments[j].addresses| ==>
                |tasks[i].attachments[j].addresses[k]| >= 3 &&
                StripMask(tasks[i].attachments[j].addresses[k]) in ExtractAddrs(tasks, selector)
  {
    ExtractAddrsCharacterised(tasks, selector);
    forall i, j, k |
      0 <= i < |tasks| && tasks[i].state == TaskStateRunning &&
      0 <= j < |tasks[i].attachments| && tasks[i].attachments[j].networkName == selector &&
      0 <= k < |tasks[i].attachments[j].addresses|
      ensures |tasks[i].attachments[j].addresses[k]| >= 3 &&
              StripMask(tasks[i].attachments[j].addresses[k]) in ExtractAddrs(tasks, selector)
    {
      assert TaskStrippable(tasks[i], selector);
      var addrs := tasks[i].attachments[j].addresses;
      var ip := StripMask(addrs[k]);
      assert AddressYields(addrs, ip);
      assert AttachmentsYield(tasks[i].attachments, selector, ip);
      assert TasksYield(tasks, selector, ip);
    }
  }

  /** Visiting one more task adds that task's contribution at the end. */
  lemma VisitSnoc(tasks: seq<Task>, t: Task, selector: string)
    requires Strippable(tasks + [t], selector)
    ensures Strippable(tasks, selector) && TaskStrippable(t, selector)
    ensures Visit(tasks + [t], selector) == Visit(tasks, selector) + TaskVisit(t, selector)
  {
    var all := tasks + [t];
    assert all[..|tasks|] == tasks && all[|tasks|] == t;
    assert forall i :: 0 <= i < |tasks| ==> tasks[i] == all[i];
  }

  /** The visit of two lists of tasks is the visit of the first followed by the visit of the second. */
  lemma {:induction false} VisitAppend(tasks: seq<Task>, more: seq<Task>, selector: string)
    requires Strippable(tasks, selector) && Strippable(more, selector)
    ensures Strippable(tasks + more, selector)
    ensures Visit(tasks + more, selector) == Visit(tasks, selector) + Visit(more, selector)
  {
    forall i | 0 <= i < |tasks + more|
      ensures TaskStrippable((tasks + more)[i], selector)
    {
      if i >= |tasks| {
        assert (tasks + more)[i] == more[i - |tasks|];
      }
    }
    if |more| == 0 {
      assert tasks + more == tasks;
    } else {
      var init, last := more[..|more| - 1], more[|more| - 1];
      assert more == init + [last];
      assert tasks + more == (tasks + init) + [last];
      VisitSnoc(init, last, selector);
      VisitSnoc(tasks + init, last, selector);
      VisitAppend(tasks, init, selector);
    }
  }

  /**
    First-seen order: the result for a list of tasks is a prefix of the
    result for that list with more tasks after it.
   */
  lemma ExtractAddrsPrefix(tasks: seq<Task>, more: seq<Task>, selector: string)
    requires Strippable(tasks, selector) && Strippable(more, selector)
    ensures Strippable(tasks + more, selector)
    ensures ExtractAddrs(tasks, selector) <= ExtractAddrs(tasks + more, selector)
  {
    VisitAppend(tasks, more, selector);
    DedupPrefix(Visit(tasks, selector), Visit(more, selector));
  }

  /** A further task whose addresses have all been seen already leaves the result unchanged. */
  lemma ExtractAddrsQuietTask(tasks: seq<Task>, t: Task, selector: string)
    requires Strippable(tasks, selector) && TaskStrippable(t, selector)
    requires forall ip :: TaskYields(t, selector, ip) ==> ip in ExtractAddrs(tasks, selector)
    ensures Strippable(tasks + [t], selector)
    ensures ExtractAddrs(tasks + [t], selector) == ExtractAddrs(tasks, selector)
  {
    assert Strippable([t], selector);
    VisitAppend(tasks, [t], selector);
    assert [t][..0] == [];
    assert Visit([t], selector) == TaskVisit(t, selector);
    DedupMembership(Visit(tasks, selector));
    if t.state == TaskStateRunning {
      AttachmentsVisitMembership(t.attachments, selector);
    }
    forall ip | ip in TaskVisit(t, selector)
      ensures ip in Visit(tasks, selector)
    {
      assert TaskYields(t, selector, ip);
    }
    DedupAbsorbs(Visit(tasks, selector), TaskVisit(t, selector));
  }

  /** A task that is not running contributes nothing. */
  lemma NonRunningTaskIgnored(tasks: seq<Task>, t: Task, selector: string)
    requires Strippable(tasks, selector) && t.state != TaskStateRunning
    ensures Strippable(tasks + [t], selector)
    ensures ExtractAddrs(tasks + [t], selector) == ExtractAddrs(tasks, selector)
  {
    ExtractAddrsQuietTask(tasks, t, selector);
  }

  /** A task without an attachment on the selected network (or without any) contributes nothing. */
  lemma OffNetworkTaskIgnored(tasks: seq<Task>, t: Task, selector: string)
    requires Strippable(tasks, selector)
    requires forall j :: 0 <= j < |t.attachments| ==> t.attachments[j].networkName != selector
    ensures Strippable(tasks + [t], selector)
    ensures ExtractAddrs(tasks + [t], selector) == ExtractAddrs(tasks, selector)
  {
    ExtractAddrsQuietTask(tasks, t, selector);
  }

  /** `TaskAddrs` with an empty `service` argument fails whatever the tasks and the other arguments. */
  lemma TaskAddrsNeedsService(tasks: seq<Task>, args: Args)
    requires Arg(args, "service") == ""
    ensures TaskResolution(tasks, args) == Err(MissingServiceName)
  {
  }

  /**
    A successful `TaskAddrs` result, in terms of the arguments: no duplicates,
    and exactly the addresses on network `{namespace}_{network}`.
   */
  lemma TaskResolutionOk(tasks: seq<Task>, args: Args)
    requires Arg(args, "service") != "" && Strippable(tasks, NetworkSelector(args))
    ensures TaskResolution(tasks, args).Ok?
    ensures NoDuplicates(TaskResolution(tasks, args).addrs)
    ensures forall ip :: ip in TaskResolution(tasks, args).addrs <==> TasksYield(tasks, NetworkSelector(args), ip)
  {
    ExtractAddrsCharacterised(tasks, NetworkSelector(args));
  }

  /** An empty task list is a success without addresses. */
  lemma NoTasksNoAddrs(args: Args)
    requires Arg(args, "service") != ""
    ensures TaskResolution([], args) == Ok([])
  {
  }

  /** `ServiceAddrs` with an empty `service` argument fails before it lists any task. */
  lemma ServiceAddrsNeedsService(args: Args, taskList: string -> Listing<seq<Task>>)
    requires Arg(args, "service") == ""
    ensures ServiceResolution(args, taskList) == Err(MissingServiceName)
  {
  }

  /** `ServiceAddrs` only consults the task list for the qualified service name `{namespace}_{service}`. */
  lemma ServiceAddrsQueriesQualifiedName(args: Args, list1: string -> Listing<seq<Task>>, list2: string -> Listing<seq<Task>>)
    requires ServiceInputOk(args, list1) && ServiceInputOk(args, list2)
    requires Arg(args, "service") != ""
    requires list1(Qualify(Namespace(args), Arg(args, "service"))) == list2(Qualify(Namespace(args), Arg(args, "service")))
    ensures ServiceResolution(args, list1) == ServiceResolution(args, list2)
  {
  }

  /** A two-digit CIDR suffix is removed exactly: "10.0.0.5/24" becomes "10.0.0.5". */
  lemma StripTwoDigitMask(ip: string, d1: char, d2: char)
    ensures StripMask(ip + ['/', d1, d2]) == ip
  {
  }

  /** As written, a one-digit suffix such as "/8" takes the last character of the address with it. */
  lemma StripOneDigitMask(ip: string, d: char)
    requires |ip| >= 1
    ensures StripMask(ip + ['/', d]) == ip[..|ip| - 1]
  {
  }

  /** Two running tasks that both report "10.0.0.9/24" on the selected network give that address once. */
  lemma SharedAddressOnce()
    ensures var t := Task("t1", 1, "running", [Attachment("default_default", ["10.0.0.9/24"])]);
            var u := Task("t2", 2, "running", [Attachment("default_default", ["10.0.0.9/24"])]);
            Strippable([t, u], "default_default") &&
            ExtractAddrs([t, u], "default_default") == ["10.0.0.9"]
  {
    var t := Task("t1", 1, "running", [Attachment("default_default", ["10.0.0.9/24"])]);
    var u := Task("t2", 2, "running", [Attachment("default_default", ["10.0.0.9/24"])]);
    StripTwoDigitMask("10.0.0.9", '2', '4');
    assert "10.0.0.9/24" == "10.0.0.9" + ['/', '2', '4'];
    assert Strippable([t], "default_default");
    assert [t, u][..1] == [t] && [t][..0] == [];
    assert StripAll(["10.0.0.9/24"]) == ["10.0.0.9"];
    assert TaskVisit(t, "default_default") == ["10.0.0.9"];
    assert Visit([t], "default_default") == ["10.0.0.9"];
    assert Visit([t, u], "default_default") == ["10.0.0.9", "10.0.0.9"];
    DedupSnoc(["10.0.0.9"], "10.0.0.9");
    DedupSnoc([], "10.0.0.9");
    assert ["10.0.0.9"] == [] + ["10.0.0.9"];
    assert ["10.0.0.9", "10.0.0.9"] == ["10.0.0.9"] + ["10.0.0.9"];
  }
}
