/**
 `cleanupAws` and `inspectRetainedResource` (src/cli-aws-deploy.ts) as runs against a world
 that may answer any command in any way.
 */
module AwsCleanup {
  import opened Wrappers
  import opened AwsParameters
  import opened StackPolicies
  import opened CloudFormation

  datatype Request = Request(
    stack: string, apply: bool, confirmStack: Option<string>, disableProtection: bool, purge: bool)

  /** Decisions that look at one answer at a time. */
  datatype Judge = Judge(
    roleOk: Option<StackInfo> -> bool,
    safe: string -> bool,
    ours: StackInfo -> bool,
    failedCreate: string -> bool,
    kept: seq<Resource> -> seq<Resource>,
    kindOf: string -> Option<Kind>)

  datatype Recovery = NotNeeded | Reenabled | NotReenabled

  datatype Reason =
    | NeedsApply | CommandFailed | BadRole | UnsafeStatus | NotOurs | NotFailedCreate
    | NotConfirmed | Protected | StillProtected | DeleteFailed(recovery: Recovery) | NotDeleted

  datatype Outcome = NothingToDo | Planned | Deleted(purged: seq<bool>) | Stopped(reason: Reason)

  // -------------------------------------------------------- retained resources

  /** What inspection says about a retained resource. */
  datatype Finding = Purgeable(kind: Kind, name: string) | Refused

  /** A table must report that it is empty; a bucket or vault must not report any content. */
  predicate FoundEmpty(kind: Kind, count: Option<nat>) {
    count == Some(0) || (count.None? && !kind.Table?)
  }

  function Inspection(j: Judge, x: Resource): Option<Command> {
    if x.physicalId.None? || x.physicalId.value == "" then None
    else
      match j.kindOf(x.kind)
      case None => None
      case Some(kind) => Some(CheckContents(kind, x.physicalId.value))
  }

  /** What an answer must say for the resource to count as empty. */
  predicate SaysEmpty(kind: Kind, reply: Reply) {
    match kind
    case Table => reply == Holds(Some(0))
    case Bucket => reply == Holds(Some(0)) || reply == Holds(None)
    case Vault => reply == Holds(Some(0)) || reply == Holds(None)
  }

  predicate SeenEmpty(e: Event) {
    e.command.CheckContents? && SaysEmpty(e.command.kind, e.reply)
  }

  // ------------------------------------------------------- what may be sent when

  /** The stack was described as one that this request may delete. */
  ghost predicate Approved(j: Judge, r: Request, log: Log, i: nat) {
    && i < |log| && log[i].command == DescribeStack(r.stack) && log[i].reply.StackIs?
    && j.safe(log[i].reply.info.status) && j.ours(log[i].reply.info)
    && r.apply && r.confirmStack == Some(r.stack)
    && (r.purge ==> j.failedCreate(log[i].reply.info.status))
  }

  /** The latest description of the stack in this run. */
  ghost predicate Latest(r: Request, log: Log, i: nat) {
    && i < |log| && log[i].command == DescribeStack(r.stack)
    && forall k :: i < k < |log| ==> !log[k].command.DescribeStack?
  }

  ghost predicate MayUnprotect(j: Judge, r: Request, log: Log) {
    && r.disableProtection
    && exists i: nat :: Approved(j, r, log, i) && Latest(r, log, i) && log[i].reply.info.protection == Some(true)
  }

  /** Nothing in the latest description says that the stack is protected. */
  ghost predicate NotProtected(r: Request, log: Log) {
    exists i: nat :: Latest(r, log, i) && log[i].reply.StackIs? && log[i].reply.info.protection != Some(true)
  }

  ghost predicate MayDelete(j: Judge, r: Request, log: Log) {
    && (exists i :: Approved(j, r, log, i)) && NotProtected(r, log)
    && forall i :: 0 <= i < |log| ==> !log[i].command.DeleteStack?
  }

  /** Protection is switched on only right after a failed deletion that it had been switched off for. */
  ghost predicate MayRecover(r: Request, log: Log) {
    && log != [] && log[|log| - 1].command.DeleteStack? && !log[|log| - 1].reply.Done?
    && Event(SetProtection(r.stack, false), Done) in log
  }

  /** A retained resource of the stack was listed, then inspected and found empty. */
  ghost predicate EmptiedAt(j: Judge, r: Request, log: Log, kind: Kind, name: string, listed: nat, x: Resource,
                            seen: nat) {
    && listed < seen < |log| && log[listed].command == ListResources(r.stack) && log[listed].reply.ResourcesAre?
    && x in j.kept(log[listed].reply.resources) && Inspection(j, x) == Some(CheckContents(kind, name))
    && log[seen].command == CheckContents(kind, name) && SeenEmpty(log[seen])
  }

  ghost predicate Emptied(j: Judge, r: Request, log: Log, kind: Kind, name: string) {
    exists listed: nat, x, seen: nat :: EmptiedAt(j, r, log, kind, name, listed, x, seen)
  }

  /** The stack was deleted and then looked for in vain. */
  ghost predicate VerifiedGone(r: Request, log: Log) {
    exists deleted: nat :: GoneAfter(r, log, deleted)
  }

  /** Deleted, awaited, looked for and not found. */
  predicate GoneAfter(r: Request, log: Log, deleted: nat) {
    && deleted + 2 < |log| && log[deleted] == Event(DeleteStack(r.stack), Done)
    && log[deleted + 1].command == WaitForStack(r.stack, DeleteComplete)
    && log[deleted + 2] == Event(DescribeStack(r.stack), NoSuchStack)
  }

  ghost predicate MayPurge(j: Judge, r: Request, log: Log, kind: Kind, name: string) {
    && r.purge && (exists i :: Approved(j, r, log, i)) && VerifiedGone(r, log) && Emptied(j, r, log, kind, name)
  }

  ghost predicate Justified(j: Judge, r: Request, log: Log, c: Command) {
    match c
    case SetProtection(stack, on) => stack == r.stack && if on then MayRecover(r, log) else MayUnprotect(j, r, log)
    case DeleteStack(stack) => stack == r.stack && MayDelete(j, r, log)
    case DeleteResource(kind, name) => MayPurge(j, r, log, kind, name)
    case CreateChangeSet(_, _, _, _, _) => false
    case ExecuteChangeSet(_) => false
    case SetStackPolicy(_, _) => false
    case _ => true
  }

  ghost function RuleOf(j: Judge, r: Request): Rule {
    (log, c) => Justified(j, r, log, c)
  }

  /** Every mutating command of the run was justified when it was sent. */
  ghost predicate Lawful(j: Judge, r: Request, log: Log) {
    Follows(RuleOf(j, r), log)
  }

  lemma ApprovedLater(j: Judge, r: Request, log: Log, longer: Log, i: nat)
    requires Approved(j, r, log, i) && log <= longer
    ensures Approved(j, r, longer, i)
  {
  }

  // -------------------------------------------------------------- consequences

  /** Nothing is changed without `--apply` and a confirmation of the stack's name. */
  lemma {:induction false} MutationConfirmed(j: Judge, r: Request, log: Log, i: nat)
    requires Lawful(j, r, log) && i < |log| && Mutating(log[i].command)
    ensures r.apply && r.confirmStack == Some(r.stack)
    decreases i
  {
    var past := log[..i];
    FollowsAt(RuleOf(j, r), log, i);
    if MayRecover(r, past) && log[i].command.SetProtection? && log[i].command.on {
      var k :| 0 <= k < |past| && past[k] == Event(SetProtection(r.stack, false), Done);
      MutationConfirmed(j, r, log, k);
    }
  }

  /** What every deletion of the stack has been through. */
  lemma DeletionApproved(j: Judge, r: Request, log: Log, i: nat)
    requires Lawful(j, r, log) && i < |log| && log[i].command.DeleteStack?
    ensures log[i].command.stack == r.stack
    ensures (exists k: nat :: Approved(j, r, log[..i], k)) && NotProtected(r, log[..i])
  {
    FollowsAt(RuleOf(j, r), log, i);
  }

  /** What every purged resource has been through. */
  lemma PurgeApproved(j: Judge, r: Request, log: Log, i: nat)
    requires Lawful(j, r, log) && i < |log| && log[i].command.DeleteResource?
    ensures MayPurge(j, r, log[..i], log[i].command.kind, log[i].command.name)
  {
    FollowsAt(RuleOf(j, r), log, i);
  }

  /** The stack is deleted at most once. */
  lemma DeletedOnce(j: Judge, r: Request, log: Log, early: nat, late: nat)
    requires Lawful(j, r, log) && early < late < |log|
    ensures !(log[early].command.DeleteStack? && log[late].command.DeleteStack?)
  {
    if log[late].command.DeleteStack? {
      FollowsAt(RuleOf(j, r), log, late);
      assert log[..late][early] == log[early];
    }
  }

  // ----------------------------------------------------------------- the run

  /** How the run accounts for termination protection that it switched off at `off`. */
  predicate Accounted(r: Request, log: Log, off: nat)
    requires off < |log|
  {
    if !log[off].reply.Done? then |log| == off + 1
    else
      && off + 1 < |log| && log[off + 1].command == DescribeStack(r.stack)
      && if !(log[off + 1].reply.StackIs? && log[off + 1].reply.info.protection == Some(false)) then |log| == off + 2
         else
           && off + 2 < |log| && log[off + 2].command == DeleteStack(r.stack)
           && if log[off + 2].reply.Done? then NoProtectionFrom(log, off + 3)
              else |log| == off + 4 && log[off + 3].command == SetProtection(r.stack, true)
  }

  /** Protection is not touched from here on. */
  predicate NoProtectionFrom(log: Log, from: nat) {
    forall i :: from <= i < |log| ==> !log[i].command.SetProtection?
  }

  /** Protection was never switched on, and was confirmed off wherever it was switched off. */
  predicate LeftOff(log: Log) {
    forall i :: 0 <= i < |log| && log[i].command.SetProtection? ==> !log[i].command.on && ConfirmedOff(log, i + 1)
  }

  predicate ConfirmedOff(log: Log, i: nat) {
    i < |log| && log[i].reply.StackIs? && log[i].reply.info.protection == Some(false)
  }

  lemma LeftOffLater(log: Log, longer: Log)
    requires LeftOff(log) && log <= longer && NoProtectionFrom(longer, |log|)
    ensures LeftOff(longer)
  {
    forall i | 0 <= i < |longer| && longer[i].command.SetProtection?
      ensures !longer[i].command.on && ConfirmedOff(longer, i + 1)
    {
      assert longer[i] == log[i] && ConfirmedOff(log, i + 1);
      assert longer[i + 1] == log[i + 1];
    }
  }

  /** The result of a failed deletion says what became of the protection. */
  predicate Reported(r: Request, log: Log, recovery: Recovery) {
    match recovery
    case NotNeeded => log != [] && log[|log| - 1].command == DeleteStack(r.stack) && !log[|log| - 1].reply.Done?
    case Reenabled => log != [] && log[|log| - 1] == Event(SetProtection(r.stack, true), Done)
    case NotReenabled =>
      log != [] && log[|log| - 1].command == SetProtection(r.stack, true) && !log[|log| - 1].reply.Done?
  }

  ghost predicate LastFailed(log: Log) {
    log != [] && !Succeeded(log[|log| - 1])
  }

  ghost predicate InspectionFailed(log: Log) {
    exists i :: 0 <= i < |log| && log[i].command.CheckContents? && !Succeeded(log[i])
  }

  /** The first three commands: the tool, the account and the stack. */
  predicate Opening(r: Request, log: Log) {
    && |log| >= 3 && log[0] == Event(Check(AwsVersion), Done) && log[1] == Event(Check(Identity), Done)
    && log[2].command == DescribeStack(r.stack)
  }

  /** The stack as first described speaks against going on. */
  predicate SpeaksAgainst(j: Judge, r: Request, reply: Reply, reason: Reason) {
    match reason
    case BadRole => Described(reply).Some? && !j.roleOk(Described(reply).value)
    case UnsafeStatus => reply.StackIs? && !j.safe(reply.info.status)
    case NotOurs => reply.StackIs? && !j.ours(reply.info)
    case NotFailedCreate => r.purge && reply.StackIs? && !j.failedCreate(reply.info.status)
    case Protected => !r.disableProtection && reply.StackIs? && reply.info.protection == Some(true)
    case _ => false
  }

  /** The protection was ordered off, and the stack then described as anything but unprotected. */
  predicate StaysProtected(r: Request, log: Log) {
    && |log| >= 2 && log[|log| - 2] == Event(SetProtection(r.stack, false), Done)
    && log[|log| - 1].command == DescribeStack(r.stack)
    && (Last(log).NoSuchStack? || (Last(log).StackIs? && Last(log).info.protection != Some(false)))
  }

  /** The stack was deleted, awaited and is still there. */
  predicate StillThere(r: Request, log: Log) {
    && |log| >= 4 && log[|log| - 4] == Event(DeleteStack(r.stack), Done)
    && log[|log| - 3].command == WaitForStack(r.stack, DeleteComplete)
    && log[|log| - 2].command == DescribeStack(r.stack) && log[|log| - 2].reply.StackIs?
    && log[|log| - 1].command == Check(FailureEvents)
  }

  /** Every stop is grounded in the request or in something the run observed. */
  ghost predicate Grounded(j: Judge, r: Request, log: Log, reason: Reason) {
    match reason
    case NeedsApply => r.disableProtection && !r.apply && log == []
    case NotConfirmed => r.apply && r.confirmStack != Some(r.stack) && ReadOnlyFrom(log, 0)
    case CommandFailed => LastFailed(log) || (InspectionFailed(log) && ReadOnlyFrom(log, 0))
    case DeleteFailed(recovery) => Reported(r, log, recovery)
    case StillProtected => StaysProtected(r, log)
    case NotDeleted => StillThere(r, log)
    case _ => Opening(r, log) && SpeaksAgainst(j, r, log[2].reply, reason) && ReadOnlyFrom(log, 0)
  }

  /** Inspects the tools and the stack. */
  method Preflight(j: Judge, r: Request, world: World) returns (log: Log, result: Result<Option<StackInfo>, Reason>)
    ensures ReadOnlyFrom(log, 0) && |log| <= 3
    ensures result.Ok? ==> Opening(r, log) && Described(log[2].reply) == Some(result.value) && j.roleOk(result.value)
    ensures result.Ok? && result.value.Some? ==> j.safe(result.value.value.status) && j.ours(result.value.value)
    ensures result.Err? ==>
      !result.error.DeleteFailed? && result.error != NeedsApply && Grounded(j, r, log, result.error)
  {
    log := Sent(world, [], Check(AwsVersion));
    if !Last(log).Done? {
      return log, Err(CommandFailed);
    }
    log := Sent(world, log, Check(Identity));
    if !Last(log).Done? {
      return log, Err(CommandFailed);
    }
    log := Sent(world, log, DescribeStack(r.stack));
    if Described(Last(log)).None? {
      return log, Err(CommandFailed);
    }
    var found := Described(Last(log)).value;
    if !j.roleOk(found) {
      return log, Err(BadRole);
    }
    if found.None? {
      return log, Ok(None);
    }
    if !j.safe(found.value.status) {
      return log, Err(UnsafeStatus);
    }
    if !j.ours(found.value) {
      return log, Err(NotOurs);
    }
    return log, Ok(found);
  }

  /** Where the inspection of a finding stands in the log. */
  ghost predicate FoundAt(j: Judge, log: Log, x: Resource, f: Finding, seen: nat) {
    && seen < |log| && log[seen].reply.Holds? && Inspection(j, x) == Some(log[seen].command)
    && match f
       case Purgeable(kind, name) => log[seen].command == CheckContents(kind, name) && SeenEmpty(log[seen])
       case Refused => !SeenEmpty(log[seen])
  }

  /** A finding follows from an inspection, unless there was nothing to inspect. */
  ghost predicate Backed(j: Judge, log: Log, from: nat, x: Resource, f: Finding) {
    (f.Refused? && Inspection(j, x).None?) || exists seen: nat :: from <= seen && FoundAt(j, log, x, f, seen)
  }

  lemma BackedLater(j: Judge, log: Log, longer: Log, from: nat, x: Resource, f: Finding)
    requires Backed(j, log, from, x, f) && log <= longer
    ensures Backed(j, longer, from, x, f)
  {
    if !(f.Refused? && Inspection(j, x).None?) {
      var seen: nat :| from <= seen && FoundAt(j, log, x, f, seen);
      assert FoundAt(j, longer, x, f, seen);
    }
  }

  /** `inspectRetainedResource`: None when the inspection itself fails. */
  method Inspect(j: Judge, world: World, log: Log, x: Resource) returns (longer: Log, finding: Option<Finding>)
    ensures log <= longer && ReadOnlyFrom(longer, |log|)
    ensures forall k :: |log| <= k < |longer| ==> !longer[k].command.DescribeStack?
    ensures finding.Some? ==> Backed(j, longer, |log|, x, finding.value)
    ensures finding.None? ==> InspectionFailed(longer)
  {
    var command := Inspection(j, x);
    if command.None? {
      return log, Some(Refused);
    }
    longer := Sent(world, log, command.value);
    if !Last(longer).Holds? {
      return longer, None;
    }
    if !FoundEmpty(command.value.kind, Last(longer).count) {
      assert FoundAt(j, longer, x, Refused, |log|);
      return longer, Some(Refused);
    }
    assert FoundAt(j, longer, x, Purgeable(command.value.kind, command.value.name), |log|);
    return longer, Some(Purgeable(command.value.kind, command.value.name));
  }

  lemma InspectionFailedLater(log: Log, longer: Log)
    requires InspectionFailed(log) && log <= longer
    ensures InspectionFailed(longer)
  {
    var i :| 0 <= i < |log| && log[i].command.CheckContents? && !Succeeded(log[i]);
    assert longer[i] == log[i];
  }

  /** All retained resources are inspected, even when one inspection fails. */
  method InspectAll(j: Judge, world: World, log: Log, kept: seq<Resource>)
    returns (longer: Log, findings: Option<seq<Finding>>)
    ensures log <= longer && ReadOnlyFrom(longer, |log|)
    ensures forall k :: |log| <= k < |longer| ==> !longer[k].command.DescribeStack?
    ensures findings.Some? ==> |findings.value| == |kept|
    ensures findings.Some? ==> forall i :: 0 <= i < |kept| ==> Backed(j, longer, |log|, kept[i], findings.value[i])
    ensures findings.None? ==> InspectionFailed(longer)
  {
    longer := log;
    var collected: seq<Finding> := [];
    var failed := false;
    for i := 0 to |kept|
      invariant log <= longer && ReadOnlyFrom(longer, |log|) && |collected| == i
      invariant forall k :: |log| <= k < |longer| ==> !longer[k].command.DescribeStack?
      invariant !failed ==> forall k :: 0 <= k < i ==> Backed(j, longer, |log|, kept[k], collected[k])
      invariant failed ==> InspectionFailed(longer)
    {
      ghost var before := longer;
      var finding;
      longer, finding := Inspect(j, world, longer, kept[i]);
      if failed {
        InspectionFailedLater(before, longer);
      }
      if finding.None? {
        failed := true;
        collected := collected + [Refused];
      } else {
        if !failed {
          forall k | 0 <= k < i
            ensures Backed(j, longer, |log|, kept[k], collected[k])
          {
            BackedLater(j, before, longer, |log|, kept[k], collected[k]);
          }
        }
        collected := collected + [finding.value];
      }
    }
    findings := if failed then None else Some(collected);
  }

  /** The run may go on to delete the stack that it described at `at`. */
  ghost predicate Cleared(j: Judge, r: Request, log: Log, at: nat) {
    ReadOnlyFrom(log, 0) && Lawful(j, r, log) && Approved(j, r, log, at) && Latest(r, log, at)
  }

  /** Every switching off of the protection is accounted for. */
  ghost predicate AllAccounted(r: Request, log: Log) {
    forall i :: 0 <= i < |log| && log[i].command == SetProtection(r.stack, false) ==> Accounted(r, log, i)
  }

  /** Switches the protection off and has that confirmed. */
  method Unprotect(j: Judge, r: Request, world: World, log: Log, ghost at: nat)
    returns (longer: Log, stop: Option<Reason>)
    requires Cleared(j, r, log, at) && r.disableProtection && log[at].reply.info.protection == Some(true)
    ensures log <= longer && Lawful(j, r, longer)
    ensures |longer| > |log| && longer[|log|].command == SetProtection(r.stack, false)
    ensures ReadOnlyFrom(longer, |log| + 1)
    ensures stop.None? ==> |longer| == |log| + 2 && longer[|log|].reply.Done? && Latest(r, longer, |log| + 1)
    ensures stop.None? ==> Last(longer).StackIs? && Last(longer).info.protection == Some(false)
    ensures stop.Some? ==>
      Accounted(r, longer, |log|) && !stop.value.DeleteFailed? && Grounded(j, r, longer, stop.value)
    ensures stop != Some(NotDeleted)
  {
    assert MayUnprotect(j, r, log);
    longer := Sent(world, log, SetProtection(r.stack, false));
    FollowsStep(RuleOf(j, r), world, log, SetProtection(r.stack, false));
    if !Last(longer).Done? {
      return longer, Some(CommandFailed);
    }
    ghost var off := longer;
    longer := Sent(world, longer, DescribeStack(r.stack));
    FollowsLook(RuleOf(j, r), off, longer);
    assert longer[|log|] == off[|log|];
    if Described(Last(longer)).None? {
      return longer, Some(CommandFailed);
    }
    if !(Last(longer).StackIs? && Last(longer).info.protection == Some(false)) {
      return longer, Some(StillProtected);
    }
    return longer, None;
  }

  /** Deletes a stack whose protection was never on. */
  method DeleteUnprotected(j: Judge, r: Request, world: World, log: Log, ghost at: nat)
    returns (longer: Log, stop: Option<Reason>)
    requires Cleared(j, r, log, at) && log[at].reply.info.protection != Some(true)
    ensures log <= longer && Lawful(j, r, longer) && AllAccounted(r, longer)
    ensures stop.None? ==> |longer| > |log| && longer[|longer| - 1] == Event(DeleteStack(r.stack), Done)
    ensures stop.Some? ==> stop.value == DeleteFailed(NotNeeded) && Reported(r, longer, NotNeeded)
    ensures stop.None? ==> LeftOff(longer)
  {
    assert MayDelete(j, r, log);
    longer := Sent(world, log, DeleteStack(r.stack));
    FollowsStep(RuleOf(j, r), world, log, DeleteStack(r.stack));
    assert forall i :: 0 <= i < |longer| ==> !longer[i].command.SetProtection?;
    stop := if Last(longer).Done? then None else Some(DeleteFailed(NotNeeded));
  }

  lemma DeleteAfterUnprotect(j: Judge, r: Request, log: Log, longer: Log, at: nat)
    requires Cleared(j, r, log, at) && log <= longer && |longer| == |log| + 2
    requires longer[|log|].command.SetProtection? && Latest(r, longer, |log| + 1)
    requires Last(longer).StackIs? && Last(longer).info.protection == Some(false)
    ensures MayDelete(j, r, longer)
  {
    ApprovedLater(j, r, log, longer, at);
    assert NotProtected(r, longer);
  }

  /** Deletes the stack and, if that fails, switches its protection on again. */
  method DeleteOrRecover(j: Judge, r: Request, world: World, log: Log) returns (longer: Log, stop: Option<Reason>)
    requires Lawful(j, r, log) && MayDelete(j, r, log) && Event(SetProtection(r.stack, false), Done) in log
    ensures log <= longer && Lawful(j, r, longer) && |longer| > |log| && longer[|log|].command == DeleteStack(r.stack)
    ensures stop.None? ==> |longer| == |log| + 1 && longer[|log|].reply.Done?
    ensures stop.Some? ==>
      && !longer[|log|].reply.Done? && |longer| == |log| + 2
      && longer[|log| + 1].command == SetProtection(r.stack, true)
      && stop == Some(DeleteFailed(if longer[|log| + 1].reply.Done? then Reenabled else NotReenabled))
  {
    FollowsStep(RuleOf(j, r), world, log, DeleteStack(r.stack));
    longer := Sent(world, log, DeleteStack(r.stack));
    if Last(longer).Done? {
      return longer, None;
    }
    ghost var refused := longer;
    assert MayRecover(r, longer);
    FollowsStep(RuleOf(j, r), world, longer, SetProtection(r.stack, true));
    longer := Sent(world, longer, SetProtection(r.stack, true));
    assert longer[|log|] == refused[|log|];
    stop := Some(DeleteFailed(if Last(longer).Done? then Reenabled else NotReenabled));
  }

  /** Deletes a stack after its protection has been switched off. */
  method DeleteProtected(j: Judge, r: Request, world: World, log: Log, ghost at: nat)
    returns (longer: Log, stop: Option<Reason>)
    requires Cleared(j, r, log, at) && r.disableProtection && log[at].reply.info.protection == Some(true)
    ensures log <= longer && Lawful(j, r, longer) && |longer| > |log| && Accounted(r, longer, |log|)
    ensures forall i :: 0 <= i < |longer| && longer[i].command == SetProtection(r.stack, false) ==> i == |log|
    ensures stop.None? ==> longer[|longer| - 1] == Event(DeleteStack(r.stack), Done) && LeftOff(longer)
    ensures stop.Some? ==> Grounded(j, r, longer, stop.value) && stop.value != DeleteFailed(NotNeeded)
    ensures stop != Some(NotDeleted)
  {
    longer, stop := Unprotect(j, r, world, log, at);
    if stop.Some? {
      SwitchedOffOnce(r, log, longer);
    } else {
      longer, stop := DeleteUnlocked(j, r, world, log, longer, at);
    }
  }

  /** Goes on after the protection of `log` was seen switched off. */
  method DeleteUnlocked(j: Judge, r: Request, world: World, ghost log: Log, off: Log, ghost at: nat)
    returns (longer: Log, stop: Option<Reason>)
    requires Cleared(j, r, log, at) && Lawful(j, r, off) && log <= off && |off| == |log| + 2
    requires off[|log|] == Event(SetProtection(r.stack, false), Done)
    requires Latest(r, off, |log| + 1) && ConfirmedOff(off, |log| + 1)
    ensures off <= longer && Lawful(j, r, longer) && |longer| > |off| && Accounted(r, longer, |log|)
    ensures forall i :: 0 <= i < |longer| && longer[i].command == SetProtection(r.stack, false) ==> i == |log|
    ensures stop.None? ==> longer[|longer| - 1] == Event(DeleteStack(r.stack), Done) && LeftOff(longer)
    ensures stop.Some? ==>
      stop.value.DeleteFailed? && stop.value.recovery != NotNeeded && Reported(r, longer, stop.value.recovery)
  {
    DeleteAfterUnprotect(j, r, log, off, at);
    longer, stop := DeleteOrRecover(j, r, world, off);
    DeletionAccounted(r, log, off, longer);
  }

  lemma SwitchedOffOnce(r: Request, log: Log, longer: Log)
    requires log <= longer && ReadOnlyFrom(log, 0) && ReadOnlyFrom(longer, |log| + 1)
    ensures forall i :: 0 <= i < |longer| && longer[i].command == SetProtection(r.stack, false) ==> i == |log|
  {
    forall i | 0 <= i < |log|
      ensures !longer[i].command.SetProtection?
    {
      assert longer[i] == log[i];
    }
  }

  /** A run that switched the protection off, saw it off and asked for the deletion. */
  lemma DeletionAccounted(r: Request, log: Log, off: Log, longer: Log)
    requires ReadOnlyFrom(log, 0) && log <= off <= longer && |off| == |log| + 2 < |longer|
    requires off[|log|] == Event(SetProtection(r.stack, false), Done)
    requires off[|log| + 1].command == DescribeStack(r.stack) && ConfirmedOff(off, |log| + 1)
    requires longer[|off|].command == DeleteStack(r.stack)
    requires if longer[|off|].reply.Done? then |longer| == |off| + 1
             else |longer| == |off| + 2 && longer[|off| + 1].command == SetProtection(r.stack, true)
    ensures Accounted(r, longer, |log|)
    ensures forall i :: 0 <= i < |longer| && longer[i].command == SetProtection(r.stack, false) ==> i == |log|
    ensures longer[|off|].reply.Done? ==> LeftOff(longer)
  {
    assert longer[|log|] == off[|log|] && longer[|log| + 1] == off[|log| + 1];
    forall i | 0 <= i < |log|
      ensures !longer[i].command.SetProtection?
    {
      assert longer[i] == log[i];
    }
    if longer[|off|].reply.Done? {
      SoleSwitchOff(longer, |log|);
    }
  }

  lemma SoleSwitchOff(log: Log, off: nat)
    requires off + 1 < |log| && !Mutating(log[off + 1].command) && ConfirmedOff(log, off + 1)
    requires forall i :: 0 <= i < |log| && log[i].command.SetProtection? ==> i == off && !log[i].command.on
    ensures LeftOff(log)
  {
  }

  method DeleteTheStack(j: Judge, r: Request, world: World, log: Log, info: StackInfo, ghost at: nat)
    returns (longer: Log, stop: Option<Reason>)
    requires Cleared(j, r, log, at) && log[at].reply == StackIs(info)
    requires info.protection == Some(true) ==> r.disableProtection
    ensures log <= longer && Lawful(j, r, longer) && AllAccounted(r, longer)
    ensures stop.None? ==>
      |longer| > |log| && longer[|longer| - 1] == Event(DeleteStack(r.stack), Done) && LeftOff(longer)
    ensures stop.Some? ==> Grounded(j, r, longer, stop.value)
    ensures stop.Some? && stop.value.DeleteFailed? ==>
      (stop.value.recovery == NotNeeded <==> info.protection != Some(true))
    ensures stop != Some(NotDeleted)
  {
    if info.protection == Some(true) {
      longer, stop := DeleteProtected(j, r, world, log, at);
    } else {
      longer, stop := DeleteUnprotected(j, r, world, log, at);
    }
  }

  /** Waits for the deletion and looks for the stack, whatever the waiter says. */
  method VerifyGone(j: Judge, r: Request, world: World, log: Log) returns (longer: Log, stop: Option<Reason>)
    requires Lawful(j, r, log) && log != [] && log[|log| - 1] == Event(DeleteStack(r.stack), Done)
    ensures log <= longer && Lawful(j, r, longer) && ReadOnlyFrom(longer, |log|)
    ensures stop.None? ==> VerifiedGone(r, longer)
    ensures stop.Some? ==> !stop.value.DeleteFailed? && Grounded(j, r, longer, stop.value)
  {
    longer := Sent(world, log, WaitForStack(r.stack, DeleteComplete));
    longer := Sent(world, longer, DescribeStack(r.stack));
    FollowsLook(RuleOf(j, r), log, longer);
    if Described(Last(longer)).None? {
      return longer, Some(CommandFailed);
    }
    if Last(longer).StackIs? {
      ghost var before := longer;
      longer := Sent(world, longer, Check(FailureEvents));
      FollowsLook(RuleOf(j, r), before, longer);
      return longer, Some(NotDeleted);
    }
    assert GoneAfter(r, longer, |log| - 1);
    return longer, None;
  }

  lemma GoneLater(r: Request, log: Log, longer: Log)
    requires VerifiedGone(r, log) && log <= longer
    ensures VerifiedGone(r, longer)
  {
    var deleted: nat :| GoneAfter(r, log, deleted);
    assert GoneAfter(r, longer, deleted);
  }

  lemma EmptiedLater(j: Judge, r: Request, log: Log, longer: Log, kind: Kind, name: string)
    requires Emptied(j, r, log, kind, name) && log <= longer
    ensures Emptied(j, r, longer, kind, name)
  {
    var listed: nat, x, seen: nat :| EmptiedAt(j, r, log, kind, name, listed, x, seen);
    assert EmptiedAt(j, r, longer, kind, name, listed, x, seen);
  }

  /** The purge may go on with every purgeable finding. */
  ghost predicate PurgeReady(j: Judge, r: Request, log: Log, at: nat, findings: seq<Finding>) {
    && Lawful(j, r, log) && VerifiedGone(r, log) && r.purge && Approved(j, r, log, at)
    && AllEmptied(j, r, log, findings)
  }

  lemma PurgeReadyLater(j: Judge, r: Request, world: World, log: Log, at: nat, findings: seq<Finding>, i: nat)
    requires PurgeReady(j, r, log, at, findings) && i < |findings| && findings[i].Purgeable?
    ensures PurgeReady(j, r, Sent(world, log, DeleteResource(findings[i].kind, findings[i].name)), at, findings)
  {
    var c := DeleteResource(findings[i].kind, findings[i].name);
    var longer := Sent(world, log, c);
    FollowsStep(RuleOf(j, r), world, log, c);
    assert log <= longer;
    GoneLater(r, log, longer);
    ApprovedLater(j, r, log, longer, at);
    AllEmptiedLater(j, r, log, longer, findings);
  }

  /** The purge from finding `i` on: the log it leaves and whether it got through. */
  function PurgeFrom(world: World, log: Log, findings: seq<Finding>, i: nat): (Log, bool)
    decreases |findings| - i
  {
    if i >= |findings| then (log, true)
    else if findings[i].Refused? then PurgeFrom(world, log, findings, i + 1)
    else
      var longer := Sent(world, log, DeleteResource(findings[i].kind, findings[i].name));
      if Last(longer).Done? then PurgeFrom(world, longer, findings, i + 1) else (longer, false)
  }

  function Marks(findings: seq<Finding>): seq<bool> {
    seq(|findings|, i requires 0 <= i < |findings| => findings[i].Purgeable?)
  }

  /** Deletes what was found empty; stops at the first failure. */
  method Purge(world: World, log: Log, findings: seq<Finding>) returns (longer: Log, purged: Option<seq<bool>>)
    ensures longer == PurgeFrom(world, log, findings, 0).0
    ensures purged.Some? <==> PurgeFrom(world, log, findings, 0).1
    ensures purged.Some? ==> purged.value == Marks(findings)
  {
    longer := log;
    var deleted: seq<bool> := [];
    for i := 0 to |findings|
      invariant PurgeFrom(world, longer, findings, i) == PurgeFrom(world, log, findings, 0)
      invariant deleted == Marks(findings)[..i]
    {
      if findings[i].Purgeable? {
        longer := Sent(world, longer, DeleteResource(findings[i].kind, findings[i].name));
        if !Last(longer).Done? {
          return longer, None;
        }
      }
      deleted := deleted + [findings[i].Purgeable?];
    }
    purged := Some(deleted);
  }

  /** The purge sends nothing but justified deletions. */
  lemma {:induction false} PurgeLawful(j: Judge, r: Request, world: World, log: Log, findings: seq<Finding>, i: nat,
                                       at: nat)
    requires PurgeReady(j, r, log, at, findings)
    ensures Lawful(j, r, PurgeFrom(world, log, findings, i).0)
    decreases |findings| - i
  {
    if i < |findings| {
      if findings[i].Refused? {
        PurgeLawful(j, r, world, log, findings, i + 1, at);
      } else {
        PurgeReadyLater(j, r, world, log, at, findings, i);
        var longer := Sent(world, log, DeleteResource(findings[i].kind, findings[i].name));
        PurgeLawful(j, r, world, longer, findings, i + 1, at);
      }
    }
  }

  ghost predicate OnlyPurges(log: Log, from: nat) {
    forall k :: from <= k < |log| ==> log[k].command.DeleteResource?
  }

  /** A purge that gets through has deleted every purgeable finding. */
  lemma {:induction false} PurgeComplete(world: World, log: Log, findings: seq<Finding>, i: nat, k: nat)
    requires PurgeFrom(world, log, findings, i).1 && i <= k < |findings| && findings[k].Purgeable?
    ensures log <= PurgeFrom(world, log, findings, i).0
    ensures Event(DeleteResource(findings[k].kind, findings[k].name), Done) in PurgeFrom(world, log, findings, i).0
    decreases |findings| - i
  {
    if findings[i].Refused? {
      PurgeComplete(world, log, findings, i + 1, k);
    } else {
      var longer := Sent(world, log, DeleteResource(findings[i].kind, findings[i].name));
      PurgeExtends(world, longer, findings, i + 1);
      if i == k {
        assert longer[|log|] == Event(DeleteResource(findings[k].kind, findings[k].name), Done);
      } else {
        PurgeComplete(world, longer, findings, i + 1, k);
      }
    }
  }

  lemma {:induction false} PurgeStops(world: World, log: Log, findings: seq<Finding>, i: nat)
    requires !PurgeFrom(world, log, findings, i).1
    ensures LastFailed(PurgeFrom(world, log, findings, i).0)
    decreases |findings| - i
  {
    if findings[i].Refused? {
      PurgeStops(world, log, findings, i + 1);
    } else {
      var longer := Sent(world, log, DeleteResource(findings[i].kind, findings[i].name));
      if Last(longer).Done? {
        PurgeStops(world, longer, findings, i + 1);
      }
    }
  }

  lemma {:induction false} PurgeExtends(world: World, log: Log, findings: seq<Finding>, i: nat)
    ensures log <= PurgeFrom(world, log, findings, i).0 && OnlyPurges(PurgeFrom(world, log, findings, i).0, |log|)
    decreases |findings| - i
  {
    if i < |findings| {
      if findings[i].Refused? {
        PurgeExtends(world, log, findings, i + 1);
      } else {
        PurgeExtends(world, Sent(world, log, DeleteResource(findings[i].kind, findings[i].name)), findings, i + 1);
      }
    }
  }

  /** Inspects, but changes nothing; findings are backed by inspections after the listing. */
  method PlanCleanup(j: Judge, r: Request, world: World)
    returns (log: Log, result: Result<Option<StackInfo>, Reason>, findings: seq<Finding>, ghost at: nat)
    ensures ReadOnlyFrom(log, 0)
    ensures result.Err? ==>
      !result.error.DeleteFailed? && result.error != NeedsApply && Grounded(j, r, log, result.error)
    ensures result.Ok? && result.value.None? ==>
      |log| == 3 && Opening(r, log) && log[2].reply.NoSuchStack? && j.roleOk(None)
    ensures result.Ok? && result.value.Some? ==> DescribedFit(j, r, log, result.value.value, at)
    ensures result.Ok? && result.value.Some? && r.purge ==> Findings(j, r, log, at + 1, findings)
    ensures !r.purge ==> findings == []
  {
    findings, at := [], 0;
    log, result := Preflight(j, r, world);
    if result.Err? || result.value.None? {
      return;
    }
    var info := result.value.value;
    at := |log| - 1;
    ghost var described := log;
    log := Sent(world, log, ListResources(r.stack));
    if !Last(log).ResourcesAre? {
      return log, Err(CommandFailed), [], at;
    }
    var kept := j.kept(Last(log).resources);
    if r.purge && !j.failedCreate(info.status) {
      return log, Err(NotFailedCreate), [], at;
    }
    if r.purge {
      ghost var listed := log;
      var found;
      log, found := InspectAll(j, world, log, kept);
      if found.None? {
        return log, Err(CommandFailed), [], at;
      }
      findings := found.value;
      assert log[|described|] == listed[|described|];
    }
    assert log[at] == described[at];
  }

  /** One finding for each retained resource that was listed. */
  ghost predicate Findings(j: Judge, r: Request, log: Log, listed: nat, findings: seq<Finding>) {
    && listed < |log| && log[listed].command == ListResources(r.stack) && log[listed].reply.ResourcesAre?
    && var kept := j.kept(log[listed].reply.resources);
       |findings| == |kept| && forall i :: 0 <= i < |kept| ==> Backed(j, log, listed + 1, kept[i], findings[i])
  }

  lemma FindingsLater(j: Judge, r: Request, log: Log, longer: Log, listed: nat, findings: seq<Finding>)
    requires Findings(j, r, log, listed, findings) && log <= longer
    ensures Findings(j, r, longer, listed, findings)
  {
    var kept := j.kept(log[listed].reply.resources);
    forall i | 0 <= i < |kept|
      ensures Backed(j, longer, listed + 1, kept[i], findings[i])
    {
      BackedLater(j, log, longer, listed + 1, kept[i], findings[i]);
    }
  }

  lemma FindingsEmptied(j: Judge, r: Request, log: Log, listed: nat, findings: seq<Finding>)
    requires Findings(j, r, log, listed, findings)
    ensures AllEmptied(j, r, log, findings)
  {
    var kept := j.kept(log[listed].reply.resources);
    forall i | 0 <= i < |findings| && findings[i].Purgeable?
      ensures Emptied(j, r, log, findings[i].kind, findings[i].name)
    {
      BackedIsEmptied(j, r, log, listed, kept[i], findings[i]);
    }
  }

  /** The run began by describing a stack that may be cleaned up, and by listing its resources. */
  ghost predicate Fit(j: Judge, r: Request, log: Log) {
    && Opening(r, log) && log[2].reply.StackIs?
    && j.roleOk(Some(log[2].reply.info)) && j.safe(log[2].reply.info.status) && j.ours(log[2].reply.info)
    && (r.purge ==> j.failedCreate(log[2].reply.info.status))
    && |log| > 3 && log[3].command == ListResources(r.stack) && log[3].reply.ResourcesAre?
  }

  /** The stack was last described, in this run, as one that may be cleaned up. */
  ghost predicate DescribedFit(j: Judge, r: Request, log: Log, info: StackInfo, at: nat) {
    && at == 2 && Fit(j, r, log) && Latest(r, log, at) && log[at].reply == StackIs(info)
  }

  lemma BackedIsEmptied(j: Judge, r: Request, log: Log, listed: nat, x: Resource, f: Finding)
    requires listed < |log| && log[listed].command == ListResources(r.stack) && log[listed].reply.ResourcesAre?
    requires x in j.kept(log[listed].reply.resources) && f.Purgeable? && Backed(j, log, listed + 1, x, f)
    ensures Emptied(j, r, log, f.kind, f.name)
  {
    var seen: nat :| listed + 1 <= seen && FoundAt(j, log, x, f, seen);
    assert EmptiedAt(j, r, log, f.kind, f.name, listed, x, seen);
  }

  lemma AccountedLater(r: Request, log: Log, longer: Log)
    requires AllAccounted(r, log) && log <= longer && log != [] && log[|log| - 1] == Event(DeleteStack(r.stack), Done)
    requires NoProtectionFrom(longer, |log|)
    ensures AllAccounted(r, longer)
  {
    forall i | 0 <= i < |longer| && longer[i].command == SetProtection(r.stack, false)
      ensures Accounted(r, longer, i)
    {
      assert longer[i] == log[i] && Accounted(r, log, i);
      assert log[i].reply.Done?;
    }
  }

  ghost predicate AllPurged(log: Log, findings: seq<Finding>) {
    forall i :: 0 <= i < |findings| && findings[i].Purgeable? ==>
      Event(DeleteResource(findings[i].kind, findings[i].name), Done) in log
  }

  /** What is reported as purged was found empty and deleted, and the rest was not found empty. */
  ghost predicate PurgedAsFound(j: Judge, r: Request, log: Log, purged: seq<bool>) {
    if !r.purge then purged == []
    else exists listed: nat, findings ::
      Findings(j, r, log, listed, findings) && AllPurged(log, findings) && purged == Marks(findings)
  }

  /** Carries out a confirmed plan. */
  method Carry(j: Judge, r: Request, world: World, log: Log, info: StackInfo, findings: seq<Finding>, ghost at: nat)
    returns (longer: Log, outcome: Outcome)
    requires Cleared(j, r, log, at) && log[at].reply == StackIs(info)
    requires info.protection == Some(true) ==> r.disableProtection
    requires findings != [] ==> r.purge
    requires AllEmptied(j, r, log, findings)
    ensures log <= longer && Lawful(j, r, longer) && AllAccounted(r, longer)
    ensures outcome.Deleted? ==> VerifiedGone(r, longer) && outcome.purged == Marks(findings)
    ensures outcome.Deleted? ==> AllPurged(longer, findings)
    ensures outcome.Stopped? ==> Grounded(j, r, longer, outcome.reason)
    ensures outcome.Stopped? && outcome.reason.DeleteFailed? ==>
      (outcome.reason.recovery == NotNeeded <==> info.protection != Some(true))
    ensures outcome.Deleted? || outcome == Stopped(NotDeleted) ==> LeftOff(longer)
    ensures outcome.Deleted? || (outcome.Stopped? && longer != [])
  {
    var stop;
    longer, stop := DeleteTheStack(j, r, world, log, info, at);
    if stop.Some? {
      return longer, Stopped(stop.value);
    }
    ghost var deleted := longer;
    longer, stop := VerifyGone(j, r, world, longer);
    AccountedLater(r, deleted, longer);
    LeftOffLater(deleted, longer);
    if stop.Some? {
      return longer, Stopped(stop.value);
    }
    ghost var gone := longer;
    var purged;
    longer, purged := Purge(world, longer, findings);
    PurgeSafe(j, r, world, log, gone, findings, at);
    GoneLater(r, gone, longer);
    AccountedLater(r, deleted, longer);
    LeftOffLater(gone, longer);
    if purged.None? {
      PurgeStops(world, gone, findings, 0);
      return longer, Stopped(CommandFailed);
    }
    forall i | 0 <= i < |findings| && findings[i].Purgeable?
      ensures Event(DeleteResource(findings[i].kind, findings[i].name), Done) in longer
    {
      PurgeComplete(world, gone, findings, 0, i);
    }
    return longer, Deleted(purged.value);
  }

  /** Findings of purgeable resources are backed by this log. */
  ghost predicate AllEmptied(j: Judge, r: Request, log: Log, findings: seq<Finding>) {
    forall i :: 0 <= i < |findings| && findings[i].Purgeable? ==> Emptied(j, r, log, findings[i].kind, findings[i].name)
  }

  lemma AllEmptiedLater(j: Judge, r: Request, log: Log, longer: Log, findings: seq<Finding>)
    requires AllEmptied(j, r, log, findings) && log <= longer
    ensures AllEmptied(j, r, longer, findings)
  {
    forall i | 0 <= i < |findings| && findings[i].Purgeable?
      ensures Emptied(j, r, longer, findings[i].kind, findings[i].name)
    {
      EmptiedLater(j, r, log, longer, findings[i].kind, findings[i].name);
    }
  }

  lemma PurgeSafe(j: Judge, r: Request, world: World, log: Log, gone: Log, findings: seq<Finding>, at: nat)
    requires log <= gone && Lawful(j, r, gone) && VerifiedGone(r, gone) && Approved(j, r, log, at)
    requires (findings != [] ==> r.purge) && AllEmptied(j, r, log, findings)
    ensures var after := PurgeFrom(world, gone, findings, 0).0;
      gone <= after && Lawful(j, r, after) && OnlyPurges(after, |gone|)
  {
    PurgeExtends(world, gone, findings, 0);
    if findings != [] {
      ApprovedLater(j, r, log, gone, at);
      AllEmptiedLater(j, r, log, gone, findings);
      PurgeLawful(j, r, world, gone, findings, 0, at);
    }
  }

  /** Carries out a plan that the operator has confirmed, unless the stack is protected. */
  method CleanupConfirmed(j: Judge, r: Request, world: World, log: Log, info: StackInfo, findings: seq<Finding>,
                          ghost at: nat)
    returns (longer: Log, outcome: Outcome)
    requires r.apply && r.confirmStack == Some(r.stack) && ReadOnlyFrom(log, 0) && Lawful(j, r, log)
    requires DescribedFit(j, r, log, info, at)
    requires if r.purge then Findings(j, r, log, at + 1, findings) else findings == []
    ensures log <= longer && Lawful(j, r, longer) && AllAccounted(r, longer) && Fit(j, r, longer)
    ensures outcome != Stopped(NeedsApply)
    ensures outcome.Deleted? ==> VerifiedGone(r, longer) && PurgedAsFound(j, r, longer, outcome.purged)
    ensures outcome.Stopped? ==> Grounded(j, r, longer, outcome.reason)
    ensures outcome == Stopped(NotDeleted) ==> LeftOff(longer)
    ensures outcome.Deleted? || outcome.Stopped?
  {
    if info.protection == Some(true) && !r.disableProtection {
      return log, Stopped(Protected);
    }
    if r.purge {
      FindingsEmptied(j, r, log, at + 1, findings);
    }
    longer, outcome := Carry(j, r, world, log, info, findings, at);
    assert forall i :: 0 <= i < 4 ==> longer[i] == log[i];
    if r.purge {
      FindingsLater(j, r, log, longer, at + 1, findings);
    }
  }

  /**
   Over all answers the world may give: every mutating command is justified by what the run
   observed before it; protection that was switched off is accounted for; a failed deletion
   reports what became of the protection; and a reported deletion was verified.
   */
  method CleanupAws(j: Judge, r: Request, world: World) returns (log: Log, outcome: Outcome)
    ensures Lawful(j, r, log) && AllAccounted(r, log)
    ensures !(r.apply && r.confirmStack == Some(r.stack)) ==> ReadOnlyFrom(log, 0)
    ensures outcome == Stopped(NeedsApply) <==> r.disableProtection && !r.apply
    ensures outcome.NothingToDo? ==>
      ReadOnlyFrom(log, 0) && |log| == 3 && Opening(r, log) && log[2].reply.NoSuchStack? && j.roleOk(None)
    ensures outcome.Planned? || outcome.Deleted? || !ReadOnlyFrom(log, 0) ==> Fit(j, r, log)
    ensures outcome.Planned? ==> ReadOnlyFrom(log, 0) && !r.apply
    ensures outcome.Planned? && r.purge ==> exists findings :: Findings(j, r, log, 3, findings)
    ensures outcome.Deleted? ==> VerifiedGone(r, log) && PurgedAsFound(j, r, log, outcome.purged)
    ensures outcome.Stopped? ==> Grounded(j, r, log, outcome.reason)
    ensures outcome == Stopped(NotDeleted) ==> LeftOff(log)
  {
    if r.disableProtection && !r.apply {
      return [], Stopped(NeedsApply);
    }
    var planned, findings;
    ghost var at;
    log, planned, findings, at := PlanCleanup(j, r, world);
    FollowsLook(RuleOf(j, r), [], log);
    if planned.Err? {
      return log, Stopped(planned.error);
    }
    if planned.value.None? {
      return log, NothingToDo;
    }
    if !r.apply {
      return log, Planned;
    }
    if r.confirmStack != Some(r.stack) {
      return log, Stopped(NotConfirmed);
    }
    log, outcome := CleanupConfirmed(j, r, world, log, planned.value.value, findings, at);
  }

  // ------------------------------------------------------- the tool's decisions

  const CLEANUP_SAFE_STACK_STATUSES: set<string> := STABLE_STACK_STATUSES + {FAILED_CREATE}

  predicate Tagged(tags: map<string, string>) {
    && "Project" in tags && tags["Project"] == "HayaSend"
    && "ManagedBy" in tags && tags["ManagedBy"] == "HayaSendCLI"
  }

  function KindOf(resourceType: string): Option<Kind> {
    match resourceType
    case "AWS::DynamoDB::Table" => Some(Table)
    case "AWS::S3::Bucket" => Some(Bucket)
    case "AWS::Backup::BackupVault" => Some(Vault)
    case _ => None
  }

  function JudgeOf(roleOk: Option<StackInfo> -> bool): Judge {
    Judge(roleOk,
          status => status in CLEANUP_SAFE_STACK_STATUSES,
          (info: StackInfo) => Tagged(info.tags),
          status => status == FAILED_CREATE,
          resources => Retained(resources),
          kind => KindOf(kind))
  }

  // --------------------------------------------- what the tool's decisions mean

  /** The statuses from which a stack may be deleted. */
  predicate Settled(status: string) {
    || status == "CREATE_COMPLETE" || status == "UPDATE_COMPLETE" || status == "UPDATE_ROLLBACK_COMPLETE"
    || status == "IMPORT_COMPLETE" || status == "ROLLBACK_COMPLETE"
  }

  predicate MadeByTool(tags: map<string, string>) {
    "Project" in tags && tags["Project"] == "HayaSend" && "ManagedBy" in tags && tags["ManagedBy"] == "HayaSendCLI"
  }

  /** The resource type that a kind of store has. */
  function TypeOf(kind: Kind): string {
    match kind
    case Table => "AWS::DynamoDB::Table"
    case Bucket => "AWS::S3::Bucket"
    case Vault => "AWS::Backup::BackupVault"
  }

  /** The stack as described may be cleaned up. */
  predicate Removable(roleOk: Option<StackInfo> -> bool, r: Request, reply: Reply) {
    && reply.StackIs? && roleOk(Some(reply.info)) && Settled(reply.info.status) && MadeByTool(reply.info.tags)
    && (r.purge ==> reply.info.status == "ROLLBACK_COMPLETE")
  }

  lemma KindMeans(resourceType: string)
    ensures forall kind :: KindOf(resourceType) == Some(kind) <==> resourceType == TypeOf(kind)
  {
    var table, bucket, vault := "AWS::DynamoDB::Table", "AWS::S3::Bucket", "AWS::Backup::BackupVault";
    assert |table| == 20 && |bucket| == 15 && |vault| == 24;
  }

  /**
   The stack is deleted only if it was described as tagged and in a cleanup-safe status, and not
   as protected since.
   */
  lemma DeletionMeans(roleOk: Option<StackInfo> -> bool, r: Request, log: Log, i: nat)
    requires Lawful(JudgeOf(roleOk), r, log) && i < |log| && log[i].command.DeleteStack?
    ensures r.apply && r.confirmStack == Some(r.stack) && NotProtected(r, log[..i])
    ensures exists k: nat ::
      && k < i && log[k].command == DescribeStack(r.stack) && log[k].reply.StackIs?
      && MadeByTool(log[k].reply.info.tags) && Settled(log[k].reply.info.status)
  {
    var j := JudgeOf(roleOk);
    DeletionApproved(j, r, log, i);
    var k: nat :| Approved(j, r, log[..i], k);
    assert log[..i][k] == log[k];
    assert j.ours(log[k].reply.info) && j.safe(log[k].reply.info.status);
  }

  /** A retained resource was listed, and the answer about its contents was that there are none. */
  ghost predicate ShownEmpty(r: Request, log: Log, kind: Kind, name: string, listed: nat, x: Resource, seen: nat) {
    && listed < seen < |log| && log[listed].command == ListResources(r.stack) && log[listed].reply.ResourcesAre?
    && x in log[listed].reply.resources && Precious(x) && x.physicalId == Some(name) && x.kind == TypeOf(kind)
    && log[seen].command == CheckContents(kind, name) && log[seen].reply.Holds?
    && (log[seen].reply.count == Some(0) || (log[seen].reply.count.None? && !kind.Table?))
  }

  lemma EmptiedMeans(roleOk: Option<StackInfo> -> bool, r: Request, log: Log, kind: Kind, name: string, listed: nat,
                     x: Resource, seen: nat)
    requires EmptiedAt(JudgeOf(roleOk), r, log, kind, name, listed, x, seen)
    ensures ShownEmpty(r, log, kind, name, listed, x, seen)
  {
    assert x in Retained(log[listed].reply.resources);
    KindMeans(x.kind);
  }

  /**
   A purged resource is a retained table, bucket or vault of a failed creation whose contents
   were answered for as none, and its stack was verified gone.
   */
  lemma PurgeMeans(roleOk: Option<StackInfo> -> bool, r: Request, log: Log, i: nat)
    requires Lawful(JudgeOf(roleOk), r, log) && i < |log| && log[i].command.DeleteResource?
    ensures r.purge && r.apply && r.confirmStack == Some(r.stack) && VerifiedGone(r, log[..i])
    ensures exists k: nat ::
      && k < i && log[k].command == DescribeStack(r.stack)
      && log[k].reply.StackIs? && log[k].reply.info.status == "ROLLBACK_COMPLETE"
    ensures exists listed: nat, x, seen: nat ::
      ShownEmpty(r, log[..i], log[i].command.kind, log[i].command.name, listed, x, seen)
  {
    var j, past, kind, name := JudgeOf(roleOk), log[..i], log[i].command.kind, log[i].command.name;
    PurgeApproved(j, r, log, i);
    var k: nat :| Approved(j, r, past, k);
    assert j.failedCreate(past[k].reply.info.status);
    assert past[k] == log[k];
    var listed: nat, x, seen: nat :| EmptiedAt(j, r, past, kind, name, listed, x, seen);
    EmptiedMeans(roleOk, r, past, kind, name, listed, x, seen);
  }

  /** A resource that the tool can look into. */
  predicate Inspectable(x: Resource) {
    && x.physicalId.Some? && x.physicalId.value != ""
    && (x.kind == TypeOf(Table) || x.kind == TypeOf(Bucket) || x.kind == TypeOf(Vault))
  }

  lemma InspectionMeans(roleOk: Option<StackInfo> -> bool, x: Resource)
    ensures Inspection(JudgeOf(roleOk), x).Some? <==> Inspectable(x)
    ensures forall kind, name :: Inspection(JudgeOf(roleOk), x) == Some(CheckContents(kind, name)) <==>
              x.physicalId == Some(name) && name != "" && x.kind == TypeOf(kind)
  {
    KindMeans(x.kind);
  }

  /**
   What is purgeable, in the words of the answers: a table with no items, or a bucket or vault
   without any content. Everything else is refused, whatever was answered.
   */
  lemma FindingMeans(roleOk: Option<StackInfo> -> bool, log: Log, from: nat, x: Resource, f: Finding)
    requires Backed(JudgeOf(roleOk), log, from, x, f)
    ensures !Inspectable(x) ==> f == Refused
    ensures Inspectable(x) ==> exists seen: nat :: from <= seen && AnsweredAt(log, x, f, seen)
  {
    InspectionMeans(roleOk, x);
    if Inspectable(x) {
      var seen: nat :| from <= seen && FoundAt(JudgeOf(roleOk), log, x, f, seen);
      assert AnsweredAt(log, x, f, seen);
    }
  }

  /** The contents of this resource were asked for, and the answer decides. */
  ghost predicate AnsweredAt(log: Log, x: Resource, f: Finding, seen: nat) {
    && seen < |log| && log[seen].command.CheckContents? && log[seen].reply.Holds?
    && x.kind == TypeOf(log[seen].command.kind) && x.physicalId == Some(log[seen].command.name)
    && f == Verdict(log[seen].command.kind, log[seen].command.name, log[seen].reply.count)
  }

  /** No content is empty; a table must say so, while a bucket or vault may say nothing. */
  function Verdict(kind: Kind, name: string, count: Option<nat>): Finding {
    match count
    case Some(n) => if n == 0 then Purgeable(kind, name) else Refused
    case None => if kind == Table then Refused else Purgeable(kind, name)
  }

  // ------------------------------------------------------ the run of the tool

  /** The first description of the stack, in the words of the answer, speaks against going on. */
  predicate RefusedFor(roleOk: Option<StackInfo> -> bool, r: Request, reply: Reply, reason: Reason) {
    match reason
    case BadRole => (reply.NoSuchStack? && !roleOk(None)) || (reply.StackIs? && !roleOk(Some(reply.info)))
    case UnsafeStatus => reply.StackIs? && !Settled(reply.info.status)
    case NotOurs => reply.StackIs? && !MadeByTool(reply.info.tags)
    case NotFailedCreate => r.purge && reply.StackIs? && reply.info.status != "ROLLBACK_COMPLETE"
    case Protected => !r.disableProtection && reply.StackIs? && reply.info.protection == Some(true)
    case _ => false
  }

  lemma RefusalMeans(roleOk: Option<StackInfo> -> bool, r: Request, log: Log, reason: Reason)
    requires Grounded(JudgeOf(roleOk), r, log, reason)
    requires reason in {BadRole, UnsafeStatus, NotOurs, NotFailedCreate, Protected}
    ensures Opening(r, log) && RefusedFor(roleOk, r, log[2].reply, reason) && ReadOnlyFrom(log, 0)
  {
  }

  /**
   The run with the tool's own decisions, in the words of the answers: nothing is planned or
   changed unless the stack was described as the tool's own and settled, and, for a purge, as a
   failed creation; on any other description the run stops without having changed anything.
   */
  method Cleanup(roleOk: Option<StackInfo> -> bool, r: Request, world: World) returns (log: Log, outcome: Outcome)
    ensures Lawful(JudgeOf(roleOk), r, log) && AllAccounted(r, log)
    ensures !(r.apply && r.confirmStack == Some(r.stack)) ==> ReadOnlyFrom(log, 0)
    ensures outcome == Stopped(NeedsApply) <==> r.disableProtection && !r.apply
    ensures outcome.NothingToDo? ==> Opening(r, log) && log[2].reply.NoSuchStack? && ReadOnlyFrom(log, 0)
    ensures outcome.Planned? || outcome.Deleted? || !ReadOnlyFrom(log, 0) ==>
      Opening(r, log) && Removable(roleOk, r, log[2].reply)
    ensures Opening(r, log) && !Removable(roleOk, r, log[2].reply) ==>
      (outcome.Stopped? || outcome.NothingToDo?) && ReadOnlyFrom(log, 0)
    ensures outcome.Planned? ==> !r.apply
    ensures outcome.Deleted? ==>
      r.apply && VerifiedGone(r, log) && PurgedAsFound(JudgeOf(roleOk), r, log, outcome.purged)
    ensures outcome.Stopped? ==> Grounded(JudgeOf(roleOk), r, log, outcome.reason)
    ensures outcome.Stopped? && outcome.reason in {BadRole, UnsafeStatus, NotOurs, NotFailedCreate, Protected} ==>
      Opening(r, log) && RefusedFor(roleOk, r, log[2].reply, outcome.reason)
    ensures outcome == Stopped(NotDeleted) ==> LeftOff(log)
  {
    log, outcome := CleanupAws(JudgeOf(roleOk), r, world);
    if outcome.Stopped? && outcome.reason in {BadRole, UnsafeStatus, NotOurs, NotFailedCreate, Protected} {
      RefusalMeans(roleOk, r, log, outcome.reason);
    }
    FitMeans(roleOk, r, log);
  }

  lemma FitMeans(roleOk: Option<StackInfo> -> bool, r: Request, log: Log)
    ensures Fit(JudgeOf(roleOk), r, log) ==> Opening(r, log) && Removable(roleOk, r, log[2].reply)
  {
  }
}
