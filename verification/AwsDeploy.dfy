/**
 `deployAws` and `enforceStackProtections` (src/cli-aws-deploy.ts) as runs against a world
 that may answer any command in any way. A run is the list of commands sent and answers
 received; `Lawful` says which mutating command may be sent after which observations.
 */
module AwsDeploy {
  import opened Wrappers
  import opened AwsOptions
  import opened AwsParameters
  import opened AwsTemplate
  import opened MarkerRewrite
  import opened StackPolicies
  import opened CloudFormation

  datatype Plan = Plan(text: string, tags: map<string, string>)

  /** The decisions of the tool that look at one answer at a time. */
  datatype Judge = Judge(
    role: Option<StackInfo> -> Option<string>,
    roleOk: Option<StackInfo> -> bool,
    stable: string -> bool,
    settle: (Option<StackInfo>, seq<Resource>) -> Option<Parameters>,
    finish: (Option<StackInfo>, seq<Resource>) -> Option<Plan>,
    mine: (string, ChangeSet) -> bool,
    ready: ChangeSet -> bool,
    harmless: ChangeSet -> bool,
    kept: seq<Resource> -> seq<Resource>,
    policyFor: seq<Resource> -> Policy,
    protects: (Policy, seq<Resource>) -> bool,
    outputsPresent: StackInfo -> bool,
    secretOk: StackInfo -> bool)

  datatype Request = Request(stack: string, upgrade: bool, apply: bool, allowDestructive: bool)

  datatype Reason =
    | CommandFailed | BadRole | NothingToUpgrade | UnstableStack | PlanRefused
    | Concurrent | Foreign | NotReady | Destructive | NotFinished
    | NothingRetained | Unprotected | OutputsMissing | BadSecret

  datatype Outcome = Planned | Finished(applied: bool, noChanges: bool) | Stopped(reason: Reason)

  /** What planning found and decided. */
  datatype Ground = Ground(found: Option<StackInfo>, resources: seq<Resource>)

  // ------------------------------------------------------- what may be sent when

  ghost predicate DescribedAs(r: Request, log: Log, found: Option<StackInfo>, i: nat) {
    i < |log| && log[i].command == DescribeStack(r.stack) && Described(log[i].reply) == Some(found)
  }

  ghost predicate ListedAs(r: Request, log: Log, resources: seq<Resource>, i: nat) {
    i < |log| && log[i].command == ListResources(r.stack) && log[i].reply == ResourcesAre(resources)
  }

  /** The stack and its resources as this run found them. */
  ghost predicate Basis(r: Request, log: Log, g: Ground) {
    && (exists i :: DescribedAs(r, log, g.found, i))
    && if g.found.None? then g.resources == [] else exists i :: ListedAs(r, log, g.resources, i)
  }

  /** The listing names this change set, and not as deleted. */
  predicate Lists(reply: Reply, id: string) {
    && reply.ChangeSetsAre?
    && exists i :: 0 <= i < |reply.summaries| && reply.summaries[i].id == Some(id)
                   && reply.summaries[i].status != "DELETE_COMPLETE"
  }

  /** The change set appeared between two listings. */
  predicate IsNew(before: Reply, after: Reply, id: string) {
    Lists(after, id) && !Lists(before, id)
  }

  ghost predicate NothingNew(before: Reply, after: Reply) {
    forall x :: !IsNew(before, after, x)
  }

  ghost predicate SoleNew(before: Reply, after: Reply, id: string) {
    forall x :: IsNew(before, after, x) <==> x == id
  }

  /** Listing, creation and listing, in this order, single out one change set. */
  ghost predicate CreatedHere(r: Request, log: Log, id: string, before: nat, created: nat, after: nat) {
    && before < created < after < |log|
    && log[before].command == log[after].command == ListChangeSets(r.stack)
    && log[created].command.CreateChangeSet? && log[created].reply.Done?
    && SoleNew(log[before].reply, log[after].reply, id)
  }

  predicate Clears(j: Judge, r: Request, id: string, reply: Reply) {
    && reply.ChangeSetIs? && j.mine(id, reply.changeSet) && j.ready(reply.changeSet)
    && (j.harmless(reply.changeSet) || r.allowDestructive)
  }

  /** The one change set created in this run was inspected and cleared afterwards. */
  ghost predicate Vetted(j: Judge, r: Request, log: Log, id: string, before: nat, created: nat, after: nat, seen: nat) {
    && CreatedHere(r, log, id, before, created, after)
    && after < seen < |log| && log[seen].command == DescribeChangeSet(id) && Clears(j, r, id, log[seen].reply)
  }

  /** The first four commands: two tools, the account and the stack. */
  predicate Opening(r: Request, log: Log) {
    && |log| >= 4 && log[0] == Event(Check(AwsVersion), Done) && log[1] == Event(Check(Identity), Done)
    && log[2] == Event(Check(SesAccount), Done) && log[3].command == DescribeStack(r.stack)
  }

  /** A stack as described that a plan may be made for. */
  predicate FitStack(j: Judge, r: Request, found: Option<StackInfo>) {
    && j.roleOk(found) && (r.upgrade ==> found.Some?)
    && (found.Some? ==> j.stable(found.value.status))
  }

  /** What is looked at between the description of the stack and the plan. */
  function SurveyOf(j: Judge, r: Request, g: Ground): Log {
    (if j.role(g.found).Some? then [Event(Check(Bootstrap), Done)] else [])
    + [Event(Check(SamVersion), Done), Event(Check(NpmVersion), Done)]
    + (if g.found.Some? then [Event(ListResources(r.stack), ResourcesAre(g.resources))] else [])
  }

  /** The rest of the planning pass once the parameters are settled. */
  function BuildOf(parameters: Parameters, text: string): Log {
    [Event(Check(LambdaConcurrency(parameters)), Done), Event(Check(NpmRoot), Done),
     Event(Check(ValidateTemplate(text)), Done), Event(Check(BuildTemplate(text)), Done)]
  }

  predicate Plannable(j: Judge, g: Ground) {
    j.settle(g.found, g.resources).Some? && j.finish(g.found, g.resources).Some?
  }

  function Planning(j: Judge, r: Request, g: Ground): Log
    requires Plannable(j, g)
  {
    SurveyOf(j, r, g) + BuildOf(j.settle(g.found, g.resources).value, j.finish(g.found, g.resources).value.text)
  }

  /** The run began with a complete and successful planning pass over a fit stack. */
  ghost predicate Prepared(j: Judge, r: Request, log: Log, g: Ground) {
    && Opening(r, log) && Described(log[3].reply) == Some(g.found) && FitStack(j, r, g.found)
    && (g.found.None? ==> g.resources == []) && Plannable(j, g) && Planning(j, r, g) <= log[4..]
  }

  /** The change sets were listed just before; a stack that exists must have a list. */
  predicate ListedBefore(r: Request, log: Log, g: Ground) {
    && log != [] && log[|log| - 1].command == ListChangeSets(r.stack)
    && (Last(log).ChangeSetsAre? || (Last(log).NoSuchStack? && g.found.None?))
  }

  function CreationFor(j: Judge, r: Request, g: Ground): Command
    requires Plannable(j, g)
  {
    var plan := j.finish(g.found, g.resources).value;
    CloudFormation.CreateChangeSet(r.stack, plan.text, j.role(g.found),
                                   Overrides(j.settle(g.found, g.resources).value), plan.tags)
  }

  ghost predicate MayCreate(j: Judge, r: Request, log: Log, c: Command) {
    exists g :: Prepared(j, r, log, g) && ListedBefore(r, log, g) && c == CreationFor(j, r, g)
  }

  ghost predicate MayExecute(j: Judge, r: Request, log: Log, id: string) {
    exists before, created, after, seen :: Vetted(j, r, log, id, before, created, after, seen)
  }

  ghost predicate MaySetPolicy(j: Judge, r: Request, log: Log, policy: Policy) {
    exists resources, i :: ListedAs(r, log, resources, i) && policy == j.policyFor(j.kept(resources))
  }

  predicate IsExecution(c: Command) {
    c.ExecuteChangeSet?
  }

  ghost predicate NoneSent(log: Log, kind: Command -> bool) {
    forall i :: 0 <= i < |log| ==> !kind(log[i].command)
  }

  /** A mutating command needs `--apply` and the observations that call for it. */
  ghost predicate Justified(j: Judge, r: Request, log: Log, c: Command) {
    match c
    case CreateChangeSet(_, _, _, _, _) => r.apply && NoneSent(log, Mutating) && MayCreate(j, r, log, c)
    case ExecuteChangeSet(id) => r.apply && NoneSent(log, IsExecution) && MayExecute(j, r, log, id)
    case SetStackPolicy(stack, policy) => r.apply && stack == r.stack && MaySetPolicy(j, r, log, policy)
    case SetProtection(stack, on) => r.apply && stack == r.stack && on
    case DeleteStack(_) => false
    case DeleteResource(_, _) => false
    case _ => true
  }

  ghost function RuleOf(j: Judge, r: Request): Rule {
    (log, c) => Justified(j, r, log, c)
  }

  /** Every mutating command of the run was justified when it was sent. */
  ghost predicate Lawful(j: Judge, r: Request, log: Log) {
    Follows(RuleOf(j, r), log)
  }

  /** Nothing is changed without `--apply`. */
  lemma PlanIsReadOnly(j: Judge, r: Request, log: Log)
    requires Lawful(j, r, log) && !r.apply
    ensures ReadOnlyFrom(log, 0)
  {
    forall i | 0 <= i < |log|
      ensures !Mutating(log[i].command)
    {
      if Mutating(log[i].command) {
        FollowsAt(RuleOf(j, r), log, i);
      }
    }
  }

  /** At most one change set is executed in a run. */
  lemma ExecutedOnce(j: Judge, r: Request, log: Log, early: nat, late: nat)
    requires Lawful(j, r, log) && early < late < |log|
    ensures !(IsExecution(log[early].command) && IsExecution(log[late].command))
  {
    if IsExecution(log[late].command) {
      FollowsAt(RuleOf(j, r), log, late);
      assert log[..late][early] == log[early];
    }
  }

  lemma VettedLater(j: Judge, r: Request, log: Log, longer: Log, id: string, before: nat, created: nat, after: nat,
                    seen: nat)
    requires log <= longer && Vetted(j, r, log, id, before, created, after, seen)
    ensures Vetted(j, r, longer, id, before, created, after, seen)
  {
  }

  /** What an executed change set has been through. */
  lemma ExecutionVetted(j: Judge, r: Request, log: Log, i: nat)
    requires Lawful(j, r, log) && i < |log| && log[i].command.ExecuteChangeSet?
    ensures r.apply
    ensures exists before: nat, created: nat, after: nat, seen: nat ::
      seen < i && Vetted(j, r, log, log[i].command.id, before, created, after, seen)
  {
    var id, past := log[i].command.id, log[..i];
    FollowsAt(RuleOf(j, r), log, i);
    var before, created, after, seen :| Vetted(j, r, past, id, before, created, after, seen);
    VettedLater(j, r, past, log, id, before, created, after, seen);
  }

  // ------------------------------------------------------------ protections

  /** After the last mutating command the policy and the protection were observed in force. */
  ghost predicate SecuredAt(j: Judge, r: Request, log: Log, listed: nat, policy: nat, stack: nat) {
    && listed < policy < stack < |log|
    && log[listed].command == ListResources(r.stack) && log[listed].reply.ResourcesAre?
    && log[policy].command == GetStackPolicy(r.stack) && log[policy].reply.PolicyIs? && log[policy].reply.policy.Some?
    && j.kept(log[listed].reply.resources) != []
    && j.protects(log[policy].reply.policy.value, j.kept(log[listed].reply.resources))
    && log[stack].command == DescribeStack(r.stack)
    && log[stack].reply.StackIs? && log[stack].reply.info.protection == Some(true)
    && ReadOnlyFrom(log, policy)
  }

  ghost predicate Secured(j: Judge, r: Request, log: Log) {
    exists listed, policy, stack :: SecuredAt(j, r, log, listed, policy, stack)
  }

  lemma SecuredLater(j: Judge, r: Request, log: Log, longer: Log)
    requires Secured(j, r, log) && log <= longer && ReadOnlyFrom(longer, |log|)
    ensures Secured(j, r, longer)
  {
    var listed, policy, stack :| SecuredAt(j, r, log, listed, policy, stack);
    assert SecuredAt(j, r, longer, listed, policy, stack);
  }

  predicate ProtectionObserved(j: Judge, resources: seq<Resource>, policy: Reply, stack: Reply) {
    && policy.PolicyIs? && policy.policy.Some? && j.protects(policy.policy.value, j.kept(resources))
    && stack.StackIs? && stack.info.protection == Some(true)
  }

  predicate UnprotectedSince(j: Judge, resources: Reply, policy: Reply, stack: Reply) {
    resources.ResourcesAre? && !ProtectionObserved(j, resources.resources, policy, stack)
  }

  /** The retained resources were listed, their policy was set and the protection switched on. */
  ghost predicate Ordered(j: Judge, r: Request, log: Log, n: nat) {
    && n + 2 < |log| && log[n].command == ListResources(r.stack) && log[n].reply.ResourcesAre?
    && j.kept(log[n].reply.resources) != []
    && log[n + 1] == Event(SetStackPolicy(r.stack, j.policyFor(j.kept(log[n].reply.resources))), Done)
    && log[n + 2] == Event(SetProtection(r.stack, true), Done)
  }

  /** Then the policy and the stack were read back and found as they should be. */
  ghost predicate Enforced(j: Judge, r: Request, log: Log, n: nat) {
    && Ordered(j, r, log, n) && n + 4 < |log|
    && log[n + 3].command == GetStackPolicy(r.stack) && log[n + 4].command == DescribeStack(r.stack)
    && ProtectionObserved(j, log[n].reply.resources, log[n + 3].reply, log[n + 4].reply)
  }

  /** Sets the policy for the resources listed at `listed` and switches the protection on. */
  method SwitchOn(j: Judge, r: Request, world: World, log: Log, resources: seq<Resource>, ghost listed: nat)
    returns (longer: Log, stop: Option<Reason>)
    requires r.apply && Lawful(j, r, log) && ListedAs(r, log, resources, listed) && j.kept(resources) != []
    ensures log <= longer && |log| < |longer| && Lawful(j, r, longer) && NoExecutionFrom(longer, |log|)
    ensures stop.None? ==> longer == log + [Event(SetStackPolicy(r.stack, j.policyFor(j.kept(resources))), Done),
                                            Event(SetProtection(r.stack, true), Done)]
    ensures stop.Some? ==> Excused(j, r, longer, stop.value)
  {
    var policy := SetStackPolicy(r.stack, j.policyFor(j.kept(resources)));
    FollowsStep(RuleOf(j, r), world, log, policy);
    longer := Sent(world, log, policy);
    if !Last(longer).Done? {
      return longer, Some(CommandFailed);
    }
    FollowsStep(RuleOf(j, r), world, longer, SetProtection(r.stack, true));
    longer := Sent(world, longer, SetProtection(r.stack, true));
    stop := if Last(longer).Done? then None else Some(CommandFailed);
  }

  /** The retained resources are listed, the policy is set and the protection is switched on. */
  method SetProtections(j: Judge, r: Request, world: World, log: Log)
    returns (longer: Log, stop: Option<Reason>)
    requires r.apply && Lawful(j, r, log)
    ensures log <= longer && |log| < |longer| && Lawful(j, r, longer) && NoExecutionFrom(longer, |log|)
    ensures stop.None? ==> |longer| == |log| + 3 && Ordered(j, r, longer, |log|)
    ensures stop.Some? ==> Excused(j, r, longer, stop.value)
  {
    longer := Sent(world, log, ListResources(r.stack));
    FollowsStep(RuleOf(j, r), world, log, ListResources(r.stack));
    if !Last(longer).ResourcesAre? {
      return longer, Some(CommandFailed);
    }
    if j.kept(Last(longer).resources) == [] {
      return longer, Some(NothingRetained);
    }
    ghost var seen := longer;
    assert ListedAs(r, longer, Last(longer).resources, |log|);
    longer, stop := SwitchOn(j, r, world, longer, Last(longer).resources, |log|);
    assert longer[|log|] == seen[|log|];
  }

  ghost predicate NoExecutionFrom(log: Log, from: nat) {
    forall i :: from <= i < |log| ==> !log[i].command.ExecuteChangeSet?
  }

  method EnforceStackProtections(j: Judge, r: Request, world: World, log: Log)
    returns (longer: Log, result: Result<StackInfo, Reason>)
    requires r.apply && Lawful(j, r, log)
    ensures log <= longer && |log| < |longer| && Lawful(j, r, longer) && NoExecutionFrom(longer, |log|)
    ensures result.Ok? ==> |longer| == |log| + 5 && Enforced(j, r, longer, |log|) && Secured(j, r, longer)
    ensures result.Ok? ==> longer[|log| + 4].reply == StackIs(result.value)
    ensures result.Err? ==> Excused(j, r, longer, result.error)
  {
    var stop;
    longer, stop := SetProtections(j, r, world, log);
    if stop.Some? {
      return longer, Err(stop.value);
    }
    ghost var ordered := longer;
    longer := Sent(world, longer, GetStackPolicy(r.stack));
    longer := Sent(world, longer, DescribeStack(r.stack));
    FollowsLook(RuleOf(j, r), ordered, longer);
    assert forall i :: |log| <= i < |ordered| ==> longer[i] == ordered[i];
    var inspected, described := longer[|longer| - 2].reply, Last(longer);
    if !ProtectionObserved(j, longer[|log|].reply.resources, inspected, described) {
      assert UnprotectedSince(j, longer[|log|].reply, inspected, described);
      return longer, Err(Unprotected);
    }
    assert SecuredAt(j, r, longer, |log|, |ordered|, |ordered| + 1);
    return longer, Ok(described.info);
  }

  // ------------------------------------------------------ reasons for stopping

  ghost predicate Unplannable(j: Judge, r: Request, log: Log) {
    exists g :: Basis(r, log, g) && (j.settle(g.found, g.resources).None? || j.finish(g.found, g.resources).None?)
  }

  ghost predicate SeveralBetween(before: Reply, after: Reply) {
    exists x, y :: x != y && IsNew(before, after, x) && IsNew(before, after, y)
  }

  /** More than one change set appeared between the listings around the creation. */
  ghost predicate SeveralAppeared(r: Request, log: Log) {
    && |log| >= 3 && log[|log| - 3].command == log[|log| - 1].command == ListChangeSets(r.stack)
    && log[|log| - 2].command.CreateChangeSet? && log[|log| - 2].reply.Done?
    && SeveralBetween(log[|log| - 3].reply, Last(log))
  }

  ghost predicate WaitFailed(r: Request, log: Log) {
    && |log| >= 3 && log[|log| - 3].command.WaitForStack? && log[|log| - 3].command.stack == r.stack
    && !log[|log| - 3].reply.Done?
    && log[|log| - 2].command == DescribeStack(r.stack) && log[|log| - 1].command == Check(FailureEvents)
  }

  /** The protections were ordered, then read back, and were not in force. */
  ghost predicate NotProtected(j: Judge, r: Request, log: Log) {
    && |log| >= 5 && Ordered(j, r, log, |log| - 5)
    && log[|log| - 2].command == GetStackPolicy(r.stack) && log[|log| - 1].command == DescribeStack(r.stack)
    && UnprotectedSince(j, log[|log| - 5].reply, log[|log| - 2].reply, Last(log))
  }

  /** The last command failed; that a stack which does not exist has no change sets is no failure. */
  predicate Hopeless(r: Request, log: Log)
    requires log != []
  {
    && !Succeeded(log[|log| - 1])
    && !(&& log[|log| - 1] == Event(ListChangeSets(r.stack), NoSuchStack)
         && ReadOnlyFrom(log, 0) && |log| > 3 && log[3].reply.NoSuchStack?)
  }

  /** Reasons that show in a change-set description. */
  predicate Objectionable(j: Judge, r: Request, e: Event, reason: Reason) {
    && e.command.DescribeChangeSet? && e.reply.ChangeSetIs?
    && var c := e.reply.changeSet;
       match reason
       case Foreign => !j.mine(e.command.id, c)
       case NotReady => j.mine(e.command.id, c) && !j.ready(c)
       case Destructive => j.mine(e.command.id, c) && j.ready(c) && !r.allowDestructive && !j.harmless(c)
       case _ => false
  }

  /** Reasons that show in a description of the stack. */
  predicate Unfit(j: Judge, r: Request, e: Event, reason: Reason) {
    && e.command == DescribeStack(r.stack)
    && match reason
       case BadRole => Described(e.reply).Some? && !j.roleOk(Described(e.reply).value)
       case NothingToUpgrade => r.upgrade && e.reply.NoSuchStack?
       case UnstableStack => e.reply.StackIs? && !j.stable(e.reply.info.status)
       case OutputsMissing => e.reply.StackIs? && !j.outputsPresent(e.reply.info)
       case BadSecret => e.reply.StackIs? && j.outputsPresent(e.reply.info) && !j.secretOk(e.reply.info)
       case _ => false
  }

  /** Every stop is grounded in something the run observed. */
  ghost predicate Excused(j: Judge, r: Request, log: Log, reason: Reason) {
    log != [] &&
    match reason
    case CommandFailed => Hopeless(r, log)
    case PlanRefused => Unplannable(j, r, log)
    case Concurrent => SeveralAppeared(r, log)
    case NotFinished => WaitFailed(r, log)
    case Unprotected => NotProtected(j, r, log)
    case NothingRetained =>
      log[|log| - 1].command == ListResources(r.stack) && Last(log).ResourcesAre? && j.kept(Last(log).resources) == []
    case _ => Objectionable(j, r, log[|log| - 1], reason) || Unfit(j, r, log[|log| - 1], reason)
  }

  // ----------------------------------------------------------------- the run

  /** Tools, account and stack are inspected before anything is planned. */
  method Preflight(j: Judge, r: Request, world: World) returns (log: Log, result: Result<Option<StackInfo>, Reason>)
    ensures ReadOnlyFrom(log, 0) && |log| <= 4
    ensures result.Ok? ==>
      Opening(r, log) && Described(log[3].reply) == Some(result.value) && FitStack(j, r, result.value)
    ensures result.Err? ==> Excused(j, r, log, result.error)
  {
    log := Sent(world, [], Check(AwsVersion));
    if !Last(log).Done? {
      return log, Err(CommandFailed);
    }
    log := Sent(world, log, Check(Identity));
    if !Last(log).Done? {
      return log, Err(CommandFailed);
    }
    log := Sent(world, log, Check(SesAccount));
    if !Last(log).Done? {
      return log, Err(CommandFailed);
    }
    log := Sent(world, log, DescribeStack(r.stack));
    if Described(Last(log)).None? {
      return log, Err(CommandFailed);
    }
    var found := Described(Last(log)).value;
    if !j.roleOk(found) {
      return log, Err(BadRole);
    }
    if r.upgrade && found.None? {
      return log, Err(NothingToUpgrade);
    }
    if found.Some? && !j.stable(found.value.status) {
      return log, Err(UnstableStack);
    }
    return log, Ok(found);
  }

  lemma BasisLater(r: Request, log: Log, longer: Log, g: Ground)
    requires Basis(r, log, g) && log <= longer
    ensures Basis(r, longer, g)
  {
    var i :| DescribedAs(r, log, g.found, i);
    assert DescribedAs(r, longer, g.found, i);
    if g.found.Some? {
      var k :| ListedAs(r, log, g.resources, k);
      assert ListedAs(r, longer, g.resources, k);
    }
  }

  /** The artifact bucket, the tools and the resources are inspected. */
  method Survey(j: Judge, r: Request, world: World, log: Log, found: Option<StackInfo>)
    returns (longer: Log, result: Option<seq<Resource>>)
    ensures log <= longer && ReadOnlyFrom(longer, |log|)
    ensures result.Some? ==>
      longer == log + SurveyOf(j, r, Ground(found, result.value)) && (found.None? ==> result.value == [])
    ensures result.None? ==> longer != [] && Hopeless(r, longer)
  {
    longer := log;
    if j.role(found).Some? {
      longer := Sent(world, longer, Check(Bootstrap));
      if !Last(longer).Done? {
        return longer, None;
      }
    }
    longer := Sent(world, longer, Check(SamVersion));
    if !Last(longer).Done? {
      return longer, None;
    }
    longer := Sent(world, longer, Check(NpmVersion));
    if !Last(longer).Done? {
      return longer, None;
    }
    if found.None? {
      return longer, Some([]);
    }
    longer := Sent(world, longer, ListResources(r.stack));
    if !Last(longer).ResourcesAre? {
      return longer, None;
    }
    return longer, Some(Last(longer).resources);
  }

  /** The template is validated and built. */
  method Build(world: World, log: Log, parameters: Parameters, text: string) returns (longer: Log, ok: bool)
    ensures log <= longer && ReadOnlyFrom(longer, |log|)
    ensures ok ==> longer == log + BuildOf(parameters, text)[1..]
    ensures !ok ==> longer != [] && !Succeeded(longer[|longer| - 1]) && longer[|longer| - 1].command.Check?
  {
    longer := Sent(world, log, Check(NpmRoot));
    if !Last(longer).Done? {
      return longer, false;
    }
    longer := Sent(world, longer, Check(ValidateTemplate(text)));
    if !Last(longer).Done? {
      return longer, false;
    }
    longer := Sent(world, longer, Check(BuildTemplate(text)));
    return longer, Last(longer).Done?;
  }

  datatype Decided = Decided(ground: Ground, parameters: Parameters, plan: Plan)

  /** A complete planning pass, and what it decided. */
  ghost predicate DecidedFrom(j: Judge, r: Request, log: Log, d: Decided) {
    && Prepared(j, r, log, d.ground)
    && j.settle(d.ground.found, d.ground.resources) == Some(d.parameters)
    && j.finish(d.ground.found, d.ground.resources) == Some(d.plan)
  }

  /** After the opening and the survey the ground is known. */
  lemma SurveyedBasis(j: Judge, r: Request, log: Log, g: Ground)
    requires Opening(r, log) && Described(log[3].reply) == Some(g.found) && (g.found.None? ==> g.resources == [])
    requires SurveyOf(j, r, g) <= log[4..]
    ensures Basis(r, log, g)
  {
    assert DescribedAs(r, log, g.found, 3);
    if g.found.Some? {
      var k := |SurveyOf(j, r, g)| - 1;
      assert log[4..][k] == SurveyOf(j, r, g)[k];
      assert ListedAs(r, log, g.resources, 4 + k);
    }
  }

  lemma PreparedBasis(j: Judge, r: Request, log: Log, g: Ground)
    requires Prepared(j, r, log, g)
    ensures Basis(r, log, g)
  {
    assert SurveyOf(j, r, g) <= Planning(j, r, g);
    SurveyedBasis(j, r, log, g);
  }

  lemma PreparedLater(j: Judge, r: Request, log: Log, longer: Log, g: Ground)
    requires Prepared(j, r, log, g) && log <= longer
    ensures Prepared(j, r, longer, g)
  {
    assert log[4..] <= longer[4..];
  }

  /** The opening, the survey and the build make up the planning pass. */
  lemma PreparedFrom(j: Judge, r: Request, opening: Log, g: Ground, log: Log)
    requires |opening| == 4 && Opening(r, opening) && Described(opening[3].reply) == Some(g.found)
    requires FitStack(j, r, g.found) && (g.found.None? ==> g.resources == []) && Plannable(j, g)
    requires log == opening + SurveyOf(j, r, g)
                  + BuildOf(j.settle(g.found, g.resources).value, j.finish(g.found, g.resources).value.text)
    ensures Prepared(j, r, log, g) && |log| == 4 + |Planning(j, r, g)|
  {
    assert log[4..] == Planning(j, r, g);
    assert forall i :: 0 <= i < 4 ==> log[i] == opening[i];
  }

  method MakePlan(j: Judge, r: Request, world: World) returns (log: Log, result: Result<Decided, Reason>)
    ensures ReadOnlyFrom(log, 0)
    ensures result.Ok? ==>
      DecidedFrom(j, r, log, result.value) && |log| == 4 + |Planning(j, r, result.value.ground)|
    ensures result.Err? ==> Excused(j, r, log, result.error)
  {
    var preflight;
    log, preflight := Preflight(j, r, world);
    if preflight.Err? {
      return log, Err(preflight.error);
    }
    ghost var opening := log;
    var surveyed;
    log, surveyed := Survey(j, r, world, log, preflight.value);
    if surveyed.None? {
      return log, Err(CommandFailed);
    }
    var ground := Ground(preflight.value, surveyed.value);
    assert log[4..] == SurveyOf(j, r, ground);
    SurveyedBasis(j, r, log, ground);
    log, result := Decide(j, r, world, log, ground);
    if result.Ok? {
      PreparedFrom(j, r, opening, ground, log);
    }
  }

  /** Settles the parameters, renders the template and has it built. */
  method Decide(j: Judge, r: Request, world: World, log: Log, ground: Ground)
    returns (longer: Log, result: Result<Decided, Reason>)
    requires log != [] && Basis(r, log, ground)
    ensures log <= longer && ReadOnlyFrom(longer, |log|)
    ensures result.Ok? ==>
      && result.value.ground == ground && longer == log + BuildOf(result.value.parameters, result.value.plan.text)
      && j.settle(ground.found, ground.resources) == Some(result.value.parameters)
      && j.finish(ground.found, ground.resources) == Some(result.value.plan)
    ensures result.Err? ==> Excused(j, r, longer, result.error)
  {
    longer := log;
    var parameters := j.settle(ground.found, ground.resources);
    if parameters.None? {
      return longer, Err(PlanRefused);
    }
    longer := Sent(world, longer, Check(LambdaConcurrency(parameters.value)));
    if !Last(longer).Done? {
      return longer, Err(CommandFailed);
    }
    BasisLater(r, log, longer, ground);
    var plan := j.finish(ground.found, ground.resources);
    if plan.None? {
      return longer, Err(PlanRefused);
    }
    var ok;
    longer, ok := Build(world, longer, parameters.value, plan.value.text);
    if !ok {
      return longer, Err(CommandFailed);
    }
    return longer, Ok(Decided(ground, parameters.value, plan.value));
  }

  /** The change set that this run created, if there was anything to change. */
  datatype Creation = Nothing | Sole(id: string) | Failure(reason: Reason)

  /** A listing, the creation that was planned, and another listing. */
  ghost predicate Bracketed(j: Judge, r: Request, log: Log, n: nat, g: Ground) {
    && n + 2 < |log| && ListedBefore(r, log[..n + 1], g)
    && Plannable(j, g) && log[n + 1] == Event(CreationFor(j, r, g), Done)
    && log[n + 2].command == ListChangeSets(r.stack) && log[n + 2].reply.ChangeSetsAre?
  }

  /** Lists the change sets and creates one. */
  method ListAndCreate(j: Judge, r: Request, world: World, log: Log, d: Decided)
    returns (longer: Log, before: Option<set<string>>)
    requires r.apply && ReadOnlyFrom(log, 0) && Lawful(j, r, log) && DecidedFrom(j, r, log, d)
    ensures log <= longer && Lawful(j, r, longer) && NoExecutionFrom(longer, 0)
    ensures before.Some? ==>
      && |longer| == |log| + 2 && ListedBefore(r, longer[..|log| + 1], d.ground)
      && ListedIds(longer[|log|].reply, d.ground.found.None?) == before
      && longer[|log| + 1] == Event(CreationFor(j, r, d.ground), Done)
    ensures before.None? ==> longer != [] && Hopeless(r, longer)
  {
    longer := Sent(world, log, ListChangeSets(r.stack));
    FollowsStep(RuleOf(j, r), world, log, ListChangeSets(r.stack));
    before := ListedIds(Last(longer), d.ground.found.None?);
    if before.None? {
      return;
    }
    var create := CloudFormation.CreateChangeSet(r.stack, d.plan.text, j.role(d.ground.found),
                                                 Overrides(d.parameters), d.plan.tags);
    PreparedLater(j, r, log, longer, d.ground);
    assert MayCreate(j, r, longer, create);
    FollowsStep(RuleOf(j, r), world, longer, create);
    longer := Sent(world, longer, create);
    if !Last(longer).Done? {
      return longer, None;
    }
  }

  method CreateChangeSet(j: Judge, r: Request, world: World, log: Log, d: Decided)
    returns (longer: Log, creation: Creation)
    requires r.apply && ReadOnlyFrom(log, 0) && Lawful(j, r, log) && DecidedFrom(j, r, log, d)
    ensures log <= longer && Lawful(j, r, longer) && NoExecutionFrom(longer, 0)
    ensures !creation.Failure? ==> |longer| == |log| + 3 && Bracketed(j, r, longer, |log|, d.ground)
    ensures creation.Sole? ==> CreatedHere(r, longer, creation.id, |log|, |log| + 1, |log| + 2)
    ensures creation.Nothing? ==> NothingNew(longer[|log|].reply, longer[|log| + 2].reply)
    ensures creation.Failure? ==> Excused(j, r, longer, creation.reason)
  {
    var before;
    longer, before := ListAndCreate(j, r, world, log, d);
    if before.None? {
      return longer, Failure(CommandFailed);
    }
    longer, creation := ListAgain(j, r, world, longer, d.ground, before.value, |log|);
  }

  /** Lists the change sets again and compares. */
  method ListAgain(j: Judge, r: Request, world: World, log: Log, g: Ground, before: set<string>, ghost n: nat)
    returns (longer: Log, creation: Creation)
    requires Lawful(j, r, log) && NoExecutionFrom(log, 0) && |log| == n + 2 && Plannable(j, g)
    requires ListedBefore(r, log[..n + 1], g) && ListedIds(log[n].reply, g.found.None?) == Some(before)
    requires log[n + 1] == Event(CreationFor(j, r, g), Done)
    ensures log <= longer && Lawful(j, r, longer) && NoExecutionFrom(longer, 0)
    ensures !creation.Failure? ==> |longer| == n + 3 && Bracketed(j, r, longer, n, g)
    ensures creation.Sole? ==> CreatedHere(r, longer, creation.id, n, n + 1, n + 2)
    ensures creation.Nothing? ==> NothingNew(longer[n].reply, longer[n + 2].reply)
    ensures creation.Failure? ==> Excused(j, r, longer, creation.reason)
  {
    longer := Sent(world, log, ListChangeSets(r.stack));
    FollowsLook(RuleOf(j, r), log, longer);
    var after := ListedIds(Last(longer), false);
    if after.None? {
      return longer, Failure(CommandFailed);
    }
    assert longer[n] == log[n] && longer[n + 1] == log[n + 1] && longer[..n + 1] == log[..n + 1];
    creation := Single(longer[n].reply, g.found.None?, Last(longer), before, after.value);
  }

  lemma NewIds(before: Reply, allowMissingStack: bool, after: Reply)
    requires ListedIds(before, allowMissingStack).Some? && ListedIds(after, false).Some?
    ensures forall x :: IsNew(before, after, x) <==>
              x in ListedIds(after, false).value - ListedIds(before, allowMissingStack).value
  {
    ListedMeans(before, allowMissingStack);
    ListedMeans(after, false);
  }

  lemma ListedMeans(reply: Reply, allowMissingStack: bool)
    requires ListedIds(reply, allowMissingStack).Some?
    ensures forall x :: x in ListedIds(reply, allowMissingStack).value <==> Lists(reply, x)
  {
    if reply.ChangeSetsAre? {
      forall x
        ensures x in ChangeSetIds(reply.summaries) <==> Lists(reply, x)
      {
      }
    }
  }

  lemma TwoAppeared(before: Reply, after: Reply, appeared: set<string>)
    requires |appeared| > 1 && forall x :: IsNew(before, after, x) <==> x in appeared
    ensures SeveralBetween(before, after)
  {
    var x :| x in appeared;
    assert |appeared - {x}| > 0;
    var y :| y in appeared - {x};
    assert IsNew(before, after, x) && IsNew(before, after, y);
  }

  /** `created`: none, one, or a sign of concurrent activity. */
  method Single(ghost before: Reply, ghost allowMissingStack: bool, ghost after: Reply, was: set<string>,
                now: set<string>)
    returns (creation: Creation)
    requires ListedIds(before, allowMissingStack) == Some(was) && ListedIds(after, false) == Some(now)
    ensures creation.Nothing? ==> NothingNew(before, after)
    ensures creation.Sole? ==> SoleNew(before, after, creation.id)
    ensures creation.Failure? ==> creation.reason == Concurrent && SeveralBetween(before, after)
  {
    var appeared := now - was;
    NewIds(before, allowMissingStack, after);
    if |appeared| == 0 {
      return Nothing;
    }
    if |appeared| != 1 {
      TwoAppeared(before, after, appeared);
      return Failure(Concurrent);
    }
    var id :| id in appeared;
    SoleMember(appeared, id);
    return Sole(id);
  }

  lemma SoleMember(s: set<string>, x: string)
    requires |s| == 1 && x in s
    ensures s == {x}
  {
    assert |s - {x}| == 0;
  }

  /** The change set was described, cleared and executed. */
  ghost predicate ExecutedAt(j: Judge, r: Request, log: Log, n: nat, id: string) {
    && n + 1 < |log| && log[n].command == DescribeChangeSet(id) && Clears(j, r, id, log[n].reply)
    && log[n + 1] == Event(ExecuteChangeSet(id), Done)
  }

  /** Inspects the change set and executes it if nothing speaks against it. */
  method VetAndExecute(j: Judge, r: Request, world: World, log: Log, id: string, ghost before: nat, ghost created: nat,
                       ghost after: nat)
    returns (longer: Log, stop: Option<Reason>)
    requires r.apply && Lawful(j, r, log) && CreatedHere(r, log, id, before, created, after)
    requires NoExecutionFrom(log, 0)
    ensures log <= longer && Lawful(j, r, longer)
    ensures stop.None? ==> |longer| == |log| + 2 && ExecutedAt(j, r, longer, |log|, id)
    ensures stop.Some? ==> Excused(j, r, longer, stop.value)
  {
    longer := Sent(world, log, DescribeChangeSet(id));
    FollowsStep(RuleOf(j, r), world, log, DescribeChangeSet(id));
    if !Last(longer).ChangeSetIs? {
      return longer, Some(CommandFailed);
    }
    var value := Last(longer).changeSet;
    if !j.mine(id, value) {
      return longer, Some(Foreign);
    }
    if !j.ready(value) {
      return longer, Some(NotReady);
    }
    if !j.harmless(value) && !r.allowDestructive {
      return longer, Some(Destructive);
    }
    assert Vetted(j, r, longer, id, before, created, after, |log|);
    FollowsStep(RuleOf(j, r), world, longer, ExecuteChangeSet(id));
    longer := Sent(world, longer, ExecuteChangeSet(id));
    if !Last(longer).Done? {
      return longer, Some(CommandFailed);
    }
    return longer, None;
  }

  /** The protections were enforced, the outputs are there and the resources were listed for the report. */
  ghost predicate Secure(j: Judge, r: Request, log: Log, n: nat) {
    && |log| == n + 6 && Enforced(j, r, log, n)
    && j.outputsPresent(log[n + 4].reply.info) && j.secretOk(log[n + 4].reply.info)
    && log[n + 5].command == ListResources(r.stack) && log[n + 5].reply.ResourcesAre?
  }

  /** Enforces the protections after a confirmed execution and reads the outputs. */
  method Conclude(j: Judge, r: Request, world: World, log: Log) returns (longer: Log, outcome: Outcome)
    requires r.apply && Lawful(j, r, log)
    ensures log <= longer && Lawful(j, r, longer)
    ensures outcome.Finished? ==> outcome == Finished(true, false) && Secure(j, r, longer, |log|)
    ensures outcome.Finished? ==> Secured(j, r, longer)
    ensures outcome.Stopped? ==> Excused(j, r, longer, outcome.reason)
    ensures !outcome.Planned?
  {
    var secured;
    longer, secured := EnforceStackProtections(j, r, world, log);
    if secured.Err? {
      return longer, Stopped(secured.error);
    }
    if !j.outputsPresent(secured.value) {
      return longer, Stopped(OutputsMissing);
    }
    if !j.secretOk(secured.value) {
      return longer, Stopped(BadSecret);
    }
    ghost var enforced := longer;
    longer, outcome := ReadOutputs(j, r, world, longer);
    assert forall i :: |log| <= i < |enforced| ==> longer[i] == enforced[i];
  }

  /** The resources are listed once more for the outputs; nothing that was secured changes. */
  method ReadOutputs(j: Judge, r: Request, world: World, log: Log) returns (longer: Log, outcome: Outcome)
    requires Lawful(j, r, log) && Secured(j, r, log)
    ensures log <= longer && Lawful(j, r, longer)
    ensures |longer| == |log| + 1 && longer[|log|].command == ListResources(r.stack)
    ensures outcome.Finished? ==>
      outcome == Finished(true, false) && longer[|log|].reply.ResourcesAre? && Secured(j, r, longer)
    ensures outcome.Stopped? ==> outcome.reason == CommandFailed && !Succeeded(longer[|log|])
    ensures !outcome.Planned?
  {
    longer := Sent(world, log, ListResources(r.stack));
    FollowsLook(RuleOf(j, r), log, longer);
    if !Last(longer).ResourcesAre? {
      return longer, Stopped(CommandFailed);
    }
    SecuredLater(j, r, log, longer);
    return longer, Finished(true, false);
  }

  /** What a deployment waits for. */
  function Goal(existed: bool): Milestone {
    if existed then UpdateComplete else CreateComplete
  }

  /** Waits for the stack; a failed wait is followed by a look at the stack and its events. */
  method Await(j: Judge, r: Request, world: World, log: Log, existed: bool) returns (longer: Log, ok: bool)
    requires Lawful(j, r, log)
    ensures log <= longer && Lawful(j, r, longer)
    ensures if ok then longer == log + [Event(WaitForStack(r.stack, Goal(existed)), Done)]
            else WaitFailed(r, longer) && |longer| == |log| + 3
  {
    longer := Sent(world, log, WaitForStack(r.stack, Goal(existed)));
    ok := Last(longer).Done?;
    if !ok {
      longer := Sent(world, longer, DescribeStack(r.stack));
      longer := Sent(world, longer, Check(FailureEvents));
    }
    FollowsLook(RuleOf(j, r), log, longer);
  }

  /** Waits for the stack and completes the deployment. */
  method Complete(j: Judge, r: Request, world: World, log: Log, existed: bool) returns (longer: Log, outcome: Outcome)
    requires r.apply && Lawful(j, r, log)
    ensures log <= longer && Lawful(j, r, longer)
    ensures outcome.Finished? ==>
      && outcome == Finished(true, false) && Secure(j, r, longer, |log| + 1)
      && longer[|log|] == Event(WaitForStack(r.stack, Goal(existed)), Done)
    ensures outcome.Finished? ==> Secured(j, r, longer)
    ensures outcome.Stopped? ==> Excused(j, r, longer, outcome.reason)
    ensures !outcome.Planned?
  {
    var ok;
    longer, ok := Await(j, r, world, log, existed);
    if !ok {
      return longer, Stopped(NotFinished);
    }
    ghost var confirmed := longer;
    longer, outcome := Conclude(j, r, world, longer);
    assert longer[|log|] == confirmed[|log|];
  }

  /** The run after its planning pass of length `n`, when a change set was executed. */
  ghost predicate AppliedBy(j: Judge, r: Request, log: Log, n: nat, g: Ground, id: string) {
    && Bracketed(j, r, log, n, g) && CreatedHere(r, log, id, n, n + 1, n + 2) && ExecutedAt(j, r, log, n + 3, id)
    && n + 5 < |log|
    && log[n + 5] == Event(WaitForStack(r.stack, if g.found.Some? then UpdateComplete else CreateComplete), Done)
    && Secure(j, r, log, n + 6)
  }

  /** The run after its planning pass when there was nothing to change: only an existing stack is protected. */
  ghost predicate UnchangedBy(j: Judge, r: Request, log: Log, n: nat, g: Ground) {
    && Bracketed(j, r, log, n, g) && NothingNew(log[n].reply, log[n + 2].reply)
    && if g.found.None? then |log| == n + 3 else |log| == n + 8 && Enforced(j, r, log, n + 3)
  }

  /** The whole log behind an outcome that is not a stop. */
  ghost predicate Behind(j: Judge, r: Request, log: Log, outcome: Outcome, g: Ground)
    requires Plannable(j, g)
  {
    var n := 4 + |Planning(j, r, g)|;
    match outcome
    case Planned => !r.apply && |log| == n
    case Finished(applied, noChanges) =>
      && r.apply
      && if noChanges then applied == g.found.Some? && UnchangedBy(j, r, log, n, g)
         else applied && exists id :: AppliedBy(j, r, log, n, g, id)
    case Stopped(_) => true
  }

  /**
   Over all answers the world may give: a run without `--apply` changes nothing; every
   mutating command is justified by what was observed before it and comes after a complete
   planning pass over a fit stack; an outcome that is not a stop tells the whole log behind
   it; success is reported as applied only after the policy and the protection have been
   observed in force; and every stop is grounded in an observation.
   */
  method DeployAws(j: Judge, r: Request, world: World) returns (log: Log, outcome: Outcome)
    ensures Lawful(j, r, log)
    ensures !r.apply ==> ReadOnlyFrom(log, 0)
    ensures !outcome.Stopped? || !ReadOnlyFrom(log, 0) ==>
      exists g :: Prepared(j, r, log, g) && Behind(j, r, log, outcome, g)
    ensures outcome.Finished? && outcome.applied ==> Secured(j, r, log)
    ensures outcome.Finished? && outcome.noChanges ==> NoneSent(log, IsExecution)
    ensures outcome.Stopped? ==> Excused(j, r, log, outcome.reason)
  {
    var planned;
    log, planned := MakePlan(j, r, world);
    FollowsLook(RuleOf(j, r), [], log);
    if planned.Err? {
      return log, Stopped(planned.error);
    }
    if !r.apply {
      assert Behind(j, r, log, Planned, planned.value.ground);
      return log, Planned;
    }
    ghost var plan := log;
    log, outcome := Apply(j, r, world, log, planned.value);
    PreparedLater(j, r, plan, log, planned.value.ground);
  }

  /** Creates the change set that was planned and carries it out. */
  method Apply(j: Judge, r: Request, world: World, log: Log, d: Decided) returns (longer: Log, outcome: Outcome)
    requires r.apply && ReadOnlyFrom(log, 0) && Lawful(j, r, log) && DecidedFrom(j, r, log, d)
    requires |log| == 4 + |Planning(j, r, d.ground)|
    ensures log <= longer && Lawful(j, r, longer) && Behind(j, r, longer, outcome, d.ground) && !outcome.Planned?
    ensures outcome.Finished? && outcome.applied ==> Secured(j, r, longer)
    ensures outcome.Finished? && outcome.noChanges ==> NoneSent(longer, IsExecution)
    ensures outcome.Stopped? ==> Excused(j, r, longer, outcome.reason)
  {
    var creation;
    longer, creation := CreateChangeSet(j, r, world, log, d);
    if creation.Failure? {
      return longer, Stopped(creation.reason);
    }
    if creation.Nothing? {
      longer, outcome := Unchanged(j, r, world, longer, d.ground, |log|);
    } else {
      longer, outcome := Carry(j, r, world, longer, d.ground, creation.id, |log|);
    }
  }

  /** Nothing had to change: an existing stack is protected all the same. */
  method Unchanged(j: Judge, r: Request, world: World, log: Log, g: Ground, ghost n: nat)
    returns (longer: Log, outcome: Outcome)
    requires r.apply && Lawful(j, r, log) && NoExecutionFrom(log, 0) && |log| == n + 3 && Bracketed(j, r, log, n, g)
    requires NothingNew(log[n].reply, log[n + 2].reply)
    ensures log <= longer && Lawful(j, r, longer) && NoneSent(longer, IsExecution) && !outcome.Planned?
    ensures outcome.Finished? ==> outcome == Finished(g.found.Some?, true) && UnchangedBy(j, r, longer, n, g)
    ensures outcome.Finished? && outcome.applied ==> Secured(j, r, longer)
    ensures outcome.Stopped? ==> Excused(j, r, longer, outcome.reason)
  {
    if g.found.None? {
      return log, Finished(false, true);
    }
    var secured;
    longer, secured := EnforceStackProtections(j, r, world, log);
    assert longer[..n + 1] == log[..n + 1];
    if secured.Err? {
      return longer, Stopped(secured.error);
    }
    return longer, Finished(true, true);
  }

  /** Has the created change set vetted, executed and awaited. */
  method Carry(j: Judge, r: Request, world: World, log: Log, g: Ground, id: string, ghost n: nat)
    returns (longer: Log, outcome: Outcome)
    requires r.apply && Lawful(j, r, log) && NoExecutionFrom(log, 0) && |log| == n + 3 && Bracketed(j, r, log, n, g)
    requires CreatedHere(r, log, id, n, n + 1, n + 2)
    ensures log <= longer && Lawful(j, r, longer) && !outcome.Planned?
    ensures outcome.Finished? ==> outcome == Finished(true, false) && AppliedBy(j, r, longer, n, g, id)
    ensures outcome.Finished? ==> Secured(j, r, longer)
    ensures outcome.Stopped? ==> Excused(j, r, longer, outcome.reason)
  {
    var stop;
    longer, stop := VetAndExecute(j, r, world, log, id, n, n + 1, n + 2);
    if stop.Some? {
      return longer, Stopped(stop.value);
    }
    ghost var executed := longer;
    longer, outcome := Complete(j, r, world, longer, g.found.Some?);
    AppliedLater(j, r, log, executed, longer, n, g, id);
  }

  lemma AppliedLater(j: Judge, r: Request, log: Log, executed: Log, longer: Log, n: nat, g: Ground, id: string)
    requires log <= executed <= longer && |log| == n + 3 && Bracketed(j, r, log, n, g)
    requires CreatedHere(r, log, id, n, n + 1, n + 2) && ExecutedAt(j, r, executed, n + 3, id)
    ensures Bracketed(j, r, longer, n, g) && CreatedHere(r, longer, id, n, n + 1, n + 2)
    ensures ExecutedAt(j, r, longer, n + 3, id)
  {
    assert longer[..n + 1] == log[..n + 1];
    assert forall i :: 0 <= i < |log| ==> longer[i] == log[i];
    assert forall i :: 0 <= i < |executed| ==> longer[i] == executed[i];
  }

  // ------------------------------------------------------- the tool's decisions

  datatype Place = Place(region: string, account: string)

  /** Decisions that rest on regular expressions: where a change set lives, and which roles are acceptable. */
  datatype Patterns = Patterns(rules: Rules, locate: string -> Option<Place>, roleOk: string -> bool)

  datatype Wishes = Wishes(
    account: string, region: string, planName: string,
    role: Option<string>, explicit: Choices, tags: map<string, string>, template: string)

  function StackOf(found: Option<StackInfo>): Stack {
    match found
    case None => Stack(false, p => None, map[])
    case Some(info) => Stack(true, p => if p in info.parameters then Some(info.parameters[p]) else None, info.tags)
  }

  function RoleOf(w: Wishes, found: Option<StackInfo>): Option<string> {
    if w.role.Some? then w.role else if found.Some? then found.value.roleArn else None
  }

  function Rendered(w: Wishes, resources: seq<Resource>): Option<string> {
    ApplicationDeploymentsTidy();
    EditsValid(APPLICATION_LAMBDA_DEPLOYMENTS, AvailableLambdaAliases(resources));
    Rewrite(w.template, EditsOf(APPLICATION_LAMBDA_DEPLOYMENTS, AvailableLambdaAliases(resources)), TAG)
  }

  function Settle(p: Patterns, w: Wishes, found: Option<StackInfo>, resources: seq<Resource>): Option<Parameters> {
    EffectiveParameters(p.rules, w.planName, w.explicit, StackOf(found), resources)
  }

  function Finish(w: Wishes, found: Option<StackInfo>, resources: seq<Resource>): Option<Plan> {
    match (Rendered(w, resources), EffectiveTags(w.tags, StackOf(found)))
    case (Some(text), Some(tags)) => Some(Plan(text, tags))
    case _ => None
  }

  predicate Identified(p: Patterns, w: Wishes, r: Request, id: string, c: ChangeSet) {
    && p.locate(id) == Some(Place(w.region, w.account))
    && c.id == id && c.stack == r.stack && c.executionStatus == "AVAILABLE"
  }

  predicate Ready(c: ChangeSet) {
    c.status == "CREATE_COMPLETE" && Summarized(c.changes).Some?
  }

  const REQUIRED_OUTPUTS: seq<string> :=
    ["ApiBaseUrl", "BootstrapSecretArn", "AlarmTopicArn", "OperationsDashboardName"]

  predicate OutputsPresent(info: StackInfo) {
    forall i :: 0 <= i < |REQUIRED_OUTPUTS| ==>
      REQUIRED_OUTPUTS[i] in info.outputs && info.outputs[REQUIRED_OUTPUTS[i]] != ""
  }

  predicate SecretReturned(p: Patterns, info: StackInfo) {
    "BootstrapSecretArn" in info.outputs && p.rules.secretOk(info.outputs["BootstrapSecretArn"])
  }

  function JudgeOf(p: Patterns, w: Wishes, r: Request): Judge {
    Judge(found => RoleOf(w, found),
          found => RoleOf(w, found).Some? ==> p.roleOk(RoleOf(w, found).value),
          status => status in STABLE_STACK_STATUSES,
          (found, resources) => Settle(p, w, found, resources),
          (found, resources) => Finish(w, found, resources),
          (id, c) => Identified(p, w, r, id, c),
          c => Ready(c),
          c => Passes(c),
          resources => Retained(resources),
          kept => StackPolicy(kept),
          (policy, kept) => ExpectedStackPolicy(policy, kept),
          info => OutputsPresent(info),
          info => SecretReturned(p, info))
  }

  predicate SaysHarmless(c: ChangeSet) {
    forall k :: 0 <= k < |c.changes| ==> c.changes[k].Some? && Harmless(c.changes[k].value)
  }

  /** This reply identified the change set as the run's own and reported nothing that could be lost. */
  predicate Cleared(p: Patterns, w: Wishes, r: Request, id: string, reply: Reply) {
    && reply.ChangeSetIs? && p.locate(id) == Some(Place(w.region, w.account))
    && reply.changeSet.id == id && reply.changeSet.stack == r.stack
    && reply.changeSet.executionStatus == "AVAILABLE" && reply.changeSet.status == "CREATE_COMPLETE"
    && (SaysHarmless(reply.changeSet) || r.allowDestructive)
  }

  lemma ClearsMeans(p: Patterns, w: Wishes, r: Request, id: string, reply: Reply)
    requires Clears(JudgeOf(p, w, r), r, id, reply)
    ensures Cleared(p, w, r, id, reply)
  {
    PassesExactly(reply.changeSet);
  }

  /**
   An executed change set is the only id that appeared between two listings around the
   creation, lives in the requested account, Region and stack, was ready, and without
   acknowledgement every one of its changes was reported as harmless.
   */
  lemma ExecutionCleared(p: Patterns, w: Wishes, r: Request, log: Log, i: nat)
    requires Lawful(JudgeOf(p, w, r), r, log) && i < |log| && log[i].command.ExecuteChangeSet?
    ensures exists before: nat, created: nat, after: nat, seen: nat ::
      && CreatedHere(r, log, log[i].command.id, before, created, after)
      && after < seen < i && log[seen].command == DescribeChangeSet(log[i].command.id)
      && Cleared(p, w, r, log[i].command.id, log[seen].reply)
  {
    var j, id := JudgeOf(p, w, r), log[i].command.id;
    ExecutionVetted(j, r, log, i);
    var before: nat, created: nat, after: nat, seen: nat :|
      seen < i && Vetted(j, r, log, id, before, created, after, seen);
    ClearsMeans(p, w, r, id, log[seen].reply);
    assert CreatedHere(r, log, id, before, created, after) && after < seen < i
      && log[seen].command == DescribeChangeSet(id) && Cleared(p, w, r, id, log[seen].reply);
  }

  /** The role given on the command line, or else the one the stack has. */
  function OwnRole(w: Wishes, found: Option<StackInfo>): Option<string> {
    match (w.role, found)
    case (Some(role), _) => Some(role)
    case (None, Some(info)) => info.roleArn
    case (None, None) => None
  }

  /** The stack that planning works on is the one that was described. */
  ghost predicate Mirrors(stack: Stack, found: Option<StackInfo>) {
    match found
    case None => !stack.present && stack.tags == map[] && forall q :: stack.parameters(q) == None
    case Some(info) =>
      && stack.present && stack.tags == info.tags
      && forall q :: stack.parameters(q) == if q in info.parameters then Some(info.parameters[q]) else None
  }

  /** The creation was planned from this ground: only an empty bootstrap secret is left to CloudFormation. */
  ghost predicate PlannedOn(p: Patterns, w: Wishes, r: Request, g: Ground, c: Command) {
    var parameters := EffectiveParameters(p.rules, w.planName, w.explicit, StackOf(g.found), g.resources);
    && Mirrors(StackOf(g.found), g.found)
    && c.CreateChangeSet? && c.stack == r.stack && c.role == OwnRole(w, g.found)
    && Rendered(w, g.resources) == Some(c.text) && EffectiveTags(w.tags, StackOf(g.found)) == Some(c.tags)
    && parameters.Some?
    && forall q :: c.overrides(q) == if q == BootstrapSecretArn && parameters.value(q) == "" then None
                                     else Some(parameters.value(q))
  }

  lemma CreationMeans(p: Patterns, w: Wishes, r: Request, g: Ground)
    requires Plannable(JudgeOf(p, w, r), g)
    ensures PlannedOn(p, w, r, g, CreationFor(JudgeOf(p, w, r), r, g))
  {
  }

  /**
   The change set is created, from the parameters, tags, template and role planned for the
   stack as found in this run, after a complete planning pass.
   */
  lemma CreationPlanned(p: Patterns, w: Wishes, r: Request, log: Log, i: nat)
    requires Lawful(JudgeOf(p, w, r), r, log) && i < |log| && log[i].command.CreateChangeSet?
    ensures exists g :: Basis(r, log[..i], g) && PlannedOn(p, w, r, g, log[i].command)
    ensures i > 3 && Deployable(p, w, r, log[3].reply)
  {
    FollowsAt(RuleOf(JudgeOf(p, w, r), r), log, i);
    MayCreateMeans(p, w, r, log[..i], log[i].command);
    assert log[..i][3] == log[3];
  }

  lemma MayCreateMeans(p: Patterns, w: Wishes, r: Request, past: Log, c: Command)
    requires MayCreate(JudgeOf(p, w, r), r, past, c)
    ensures exists g :: Basis(r, past, g) && PlannedOn(p, w, r, g, c)
    ensures |past| > 3 && Deployable(p, w, r, past[3].reply)
  {
    var j := JudgeOf(p, w, r);
    var g :| Prepared(j, r, past, g) && ListedBefore(r, past, g) && c == CreationFor(j, r, g);
    PreparedBasis(j, r, past, g);
    CreationMeans(p, w, r, g);
    FitMeans(p, w, r, g.found);
  }

  // --------------------------------------------- what the tool's decisions mean

  /** The status is one that a deployment may start from. */
  predicate Steady(status: string) {
    || status == "CREATE_COMPLETE" || status == "UPDATE_COMPLETE"
    || status == "UPDATE_ROLLBACK_COMPLETE" || status == "IMPORT_COMPLETE"
  }

  predicate RoleAccepted(p: Patterns, role: Option<string>) {
    role.Some? ==> p.roleOk(role.value)
  }

  /** The stack as described may be deployed to. */
  predicate Deployable(p: Patterns, w: Wishes, r: Request, reply: Reply) {
    match reply
    case NoSuchStack => !r.upgrade && RoleAccepted(p, w.role)
    case StackIs(info) => Steady(info.status) && RoleAccepted(p, if w.role.Some? then w.role else info.roleArn)
    case _ => false
  }

  lemma FitMeans(p: Patterns, w: Wishes, r: Request, found: Option<StackInfo>)
    ensures FitStack(JudgeOf(p, w, r), r, found) <==>
      Deployable(p, w, r, if found.Some? then StackIs(found.value) else NoSuchStack)
  {
  }

  /** The four outputs are there. */
  predicate AllOutputs(outputs: map<string, string>) {
    forall name :: name in {"ApiBaseUrl", "BootstrapSecretArn", "AlarmTopicArn", "OperationsDashboardName"} ==>
      name in outputs && outputs[name] != ""
  }

  lemma OutputsMean(info: StackInfo)
    ensures OutputsPresent(info) <==> AllOutputs(info.outputs)
  {
    var names := REQUIRED_OUTPUTS;
    assert names[0] == "ApiBaseUrl" && names[1] == "BootstrapSecretArn";
    assert names[2] == "AlarmTopicArn" && names[3] == "OperationsDashboardName";
  }

  /**
   What an inspected policy is worth for these resources: it keeps them all if and only if
   each one's type is covered, and in any case if it is the policy that the tool has set.
   */
  ghost predicate Judged(policy: Policy, resources: seq<Resource>) {
    && ExpectedStackPolicy(policy, Retained(resources))
    && (KeepsAll(policy, resources) <==>
          forall x :: x in resources && Precious(x) ==> Covered(policy, Retained(resources), x))
    && (policy == StackPolicy(Retained(resources)) ==> KeepsAll(policy, resources))
  }

  /** The last looks of a secured run, with nothing changed since. */
  ghost predicate LastSeen(r: Request, log: Log, listed: nat, policy: nat, stack: nat) {
    && listed < policy < stack < |log| && ReadOnlyFrom(log, policy)
    && log[listed].reply.ResourcesAre? && Retained(log[listed].reply.resources) != []
    && log[policy].reply.PolicyIs? && log[policy].reply.policy.Some?
    && Judged(log[policy].reply.policy.value, log[listed].reply.resources)
    && log[stack].command == DescribeStack(r.stack) && log[stack].reply.StackIs?
    && log[stack].reply.info.protection == Some(true)
  }

  /**
   A run that ends secured has last seen an inspected policy and termination protection
   switched on. The policy keeps the retained resources that were listed exactly as far as
   its conditions let it, and entirely if it is still the one that the tool has set.
   */
  lemma SecuredMeans(p: Patterns, w: Wishes, r: Request, log: Log)
    requires Secured(JudgeOf(p, w, r), r, log)
    ensures exists listed: nat, policy: nat, stack: nat :: LastSeen(r, log, listed, policy, stack)
  {
    var listed: nat, policy: nat, stack: nat :| SecuredAt(JudgeOf(p, w, r), r, log, listed, policy, stack);
    var resources, body := log[listed].reply.resources, log[policy].reply.policy.value;
    KeepsAllExactly(body, resources);
    OwnPolicyKeeps(resources);
    assert LastSeen(r, log, listed, policy, stack);
  }

  // ------------------------------------------------------ the run of the tool

  predicate NamesNone(resources: seq<Resource>) {
    forall i :: 0 <= i < |resources| ==>
      resources[i].logicalId !in {"DataTable", "PayloadBucket", "InboundKey", "InboundBucket", "BackupVault"}
  }

  predicate Readable(raw: Option<RawChange>) {
    raw.Some? && raw.value.action.Some? && raw.value.logicalId.Some? && raw.value.kind.Some?
  }

  predicate AllReadable(c: ChangeSet) {
    forall k :: 0 <= k < |c.changes| ==> Readable(c.changes[k])
  }

  predicate Protecting(resources: seq<Resource>, policy: Reply, stack: Reply) {
    && policy.PolicyIs? && policy.policy.Some? && PassesInspection(policy.policy.value, resources)
    && stack.StackIs? && stack.info.protection == Some(true)
  }

  predicate LeavesUnprotected(resources: Reply, policy: Reply, stack: Reply) {
    resources.ResourcesAre? && !Protecting(resources.resources, policy, stack)
  }

  /** What the last description of the stack has to show for a stop. */
  predicate StackSpeaksAgainst(p: Patterns, w: Wishes, r: Request, e: Event, reason: Reason) {
    && e.command == DescribeStack(r.stack)
    && match reason
       case BadRole =>
         || (e.reply.NoSuchStack? && !RoleAccepted(p, w.role))
         || (e.reply.StackIs? && !RoleAccepted(p, if w.role.Some? then w.role else e.reply.info.roleArn))
       case NothingToUpgrade => r.upgrade && e.reply.NoSuchStack?
       case UnstableStack => e.reply.StackIs? && !Steady(e.reply.info.status)
       case OutputsMissing => e.reply.StackIs? && !AllOutputs(e.reply.info.outputs)
       case BadSecret =>
         && e.reply.StackIs? && "BootstrapSecretArn" in e.reply.info.outputs
         && !p.rules.secretOk(e.reply.info.outputs["BootstrapSecretArn"])
       case _ => false
  }

  /** What the description of the change set has to show for a stop. */
  predicate ChangesSpeakAgainst(p: Patterns, w: Wishes, r: Request, e: Event, reason: Reason) {
    && e.command.DescribeChangeSet? && e.reply.ChangeSetIs?
    && var c, id := e.reply.changeSet, e.command.id;
       match reason
       case Foreign =>
         || p.locate(id) != Some(Place(w.region, w.account))
         || c.id != id || c.stack != r.stack || c.executionStatus != "AVAILABLE"
       case NotReady => c.status != "CREATE_COMPLETE" || !AllReadable(c)
       case Destructive => !r.allowDestructive && !SaysHarmless(c)
       case _ => false
  }

  /** Every reason to stop, in the words of the answers that were seen. */
  ghost predicate Reasoned(p: Patterns, w: Wishes, r: Request, log: Log, reason: Reason) {
    log != [] &&
    match reason
    case CommandFailed => Hopeless(r, log)
    case PlanRefused => exists g :: Basis(r, log, g) && Unsettled(p, w, g)
    case Concurrent => SeveralAppeared(r, log)
    case NotFinished => WaitFailed(r, log)
    case Unprotected =>
      && |log| >= 5 && log[|log| - 5].command == ListResources(r.stack)
      && log[|log| - 2].command == GetStackPolicy(r.stack) && log[|log| - 1].command == DescribeStack(r.stack)
      && LeavesUnprotected(log[|log| - 5].reply, log[|log| - 2].reply, Last(log))
    case NothingRetained =>
      log[|log| - 1].command == ListResources(r.stack) && Last(log).ResourcesAre? && NamesNone(Last(log).resources)
    case _ => || StackSpeaksAgainst(p, w, r, log[|log| - 1], reason)
              || ChangesSpeakAgainst(p, w, r, log[|log| - 1], reason)
  }

  ghost predicate Unsettled(p: Patterns, w: Wishes, g: Ground) {
    || EffectiveParameters(p.rules, w.planName, w.explicit, StackOf(g.found), g.resources).None?
    || EffectiveTags(w.tags, StackOf(g.found)).None? || Rendered(w, g.resources).None?
  }

  lemma ReadyMeans(c: ChangeSet)
    ensures Ready(c) <==> c.status == "CREATE_COMPLETE" && AllReadable(c)
  {
    assert forall k :: 0 <= k < |c.changes| ==> (Readable(c.changes[k]) <==> WellFormed(c.changes[k]));
  }

  lemma ObjectionMeans(p: Patterns, w: Wishes, r: Request, e: Event, reason: Reason)
    requires Objectionable(JudgeOf(p, w, r), r, e, reason)
    ensures ChangesSpeakAgainst(p, w, r, e, reason)
  {
    ReadyMeans(e.reply.changeSet);
    PassesExactly(e.reply.changeSet);
  }

  lemma UnfitMeans(p: Patterns, w: Wishes, r: Request, e: Event, reason: Reason)
    requires Unfit(JudgeOf(p, w, r), r, e, reason)
    ensures StackSpeaksAgainst(p, w, r, e, reason)
  {
    if e.reply.StackIs? {
      OutputsMean(e.reply.info);
    }
  }

  lemma UnprotectedMeans(p: Patterns, w: Wishes, r: Request, resources: Reply, policy: Reply, stack: Reply)
    requires UnprotectedSince(JudgeOf(p, w, r), resources, policy, stack)
    ensures LeavesUnprotected(resources, policy, stack)
  {
    if policy.PolicyIs? && policy.policy.Some? {
      InspectionExactly(policy.policy.value, resources.resources);
    }
  }

  lemma UnsettledMeans(p: Patterns, w: Wishes, r: Request, g: Ground)
    requires !Plannable(JudgeOf(p, w, r), g)
    ensures Unsettled(p, w, g)
  {
  }

  lemma NothingNamed(resources: seq<Resource>)
    requires Retained(resources) == []
    ensures NamesNone(resources)
  {
    forall i | 0 <= i < |resources|
      ensures !Precious(resources[i])
    {
      assert resources[i] !in Retained(resources);
    }
  }

  lemma StopMeans(p: Patterns, w: Wishes, r: Request, log: Log, reason: Reason)
    requires Excused(JudgeOf(p, w, r), r, log, reason)
    ensures Reasoned(p, w, r, log, reason)
  {
    var j, last := JudgeOf(p, w, r), log[|log| - 1];
    if reason == PlanRefused {
      var g :| Basis(r, log, g) && !Plannable(j, g);
      UnsettledMeans(p, w, r, g);
    } else if reason == Unprotected {
      UnprotectedMeans(p, w, r, log[|log| - 5].reply, log[|log| - 2].reply, Last(log));
    } else if reason == NothingRetained {
      NothingNamed(Last(log).resources);
    } else if Objectionable(j, r, last, reason) {
      ObjectionMeans(p, w, r, last, reason);
    } else if Unfit(j, r, last, reason) {
      UnfitMeans(p, w, r, last, reason);
    }
  }

  /** A finished deployment ends with a description that shows all outputs and a usable secret. */
  predicate OutputsShown(p: Patterns, r: Request, log: Log) {
    && |log| >= 2 && log[|log| - 1].command == ListResources(r.stack) && Last(log).ResourcesAre?
    && log[|log| - 2].command == DescribeStack(r.stack) && log[|log| - 2].reply.StackIs?
    && AllOutputs(log[|log| - 2].reply.info.outputs)
    && p.rules.secretOk(log[|log| - 2].reply.info.outputs["BootstrapSecretArn"])
  }

  /**
   The run with the tool's own decisions, in the words of the answers: nothing is planned or
   changed unless the stack was described as absent or steady and its role is accepted; on any
   other description the run stops without having changed anything; and every stop names what
   was seen.
   */
  method Deploy(p: Patterns, w: Wishes, r: Request, world: World) returns (log: Log, outcome: Outcome)
    ensures Lawful(JudgeOf(p, w, r), r, log) && (!r.apply ==> ReadOnlyFrom(log, 0))
    ensures !outcome.Stopped? || !ReadOnlyFrom(log, 0) ==>
      Opening(r, log) && Deployable(p, w, r, log[3].reply)
    ensures Opening(r, log) && !Deployable(p, w, r, log[3].reply) ==> outcome.Stopped? && ReadOnlyFrom(log, 0)
    ensures !outcome.Stopped? || !ReadOnlyFrom(log, 0) ==>
      exists g :: Prepared(JudgeOf(p, w, r), r, log, g) && Behind(JudgeOf(p, w, r), r, log, outcome, g)
    ensures outcome == Finished(true, false) ==> OutputsShown(p, r, log)
    ensures outcome.Finished? && outcome.applied ==>
      exists listed: nat, policy: nat, stack: nat :: LastSeen(r, log, listed, policy, stack)
    ensures outcome.Stopped? ==> Reasoned(p, w, r, log, outcome.reason)
  {
    log, outcome := DeployAws(JudgeOf(p, w, r), r, world);
    if outcome.Stopped? {
      StopMeans(p, w, r, log, outcome.reason);
    } else if outcome.Finished? && outcome.applied {
      SecuredMeans(p, w, r, log);
    }
    if !outcome.Stopped? || !ReadOnlyFrom(log, 0) {
      BehindMeans(p, w, r, log, outcome);
    }
  }

  lemma BehindMeans(p: Patterns, w: Wishes, r: Request, log: Log, outcome: Outcome)
    requires exists g :: Prepared(JudgeOf(p, w, r), r, log, g) && Behind(JudgeOf(p, w, r), r, log, outcome, g)
    ensures Opening(r, log) && Deployable(p, w, r, log[3].reply)
    ensures outcome == Finished(true, false) ==> OutputsShown(p, r, log)
  {
    var g :| Prepared(JudgeOf(p, w, r), r, log, g) && Behind(JudgeOf(p, w, r), r, log, outcome, g);
    PreparedMeans(p, w, r, log, g);
    if outcome == Finished(true, false) {
      BehindApplied(JudgeOf(p, w, r), r, log, g);
      AppliedMeans(p, w, r, log);
    }
  }

  lemma PreparedMeans(p: Patterns, w: Wishes, r: Request, log: Log, g: Ground)
    requires Prepared(JudgeOf(p, w, r), r, log, g)
    ensures Opening(r, log) && Deployable(p, w, r, log[3].reply)
  {
    FitMeans(p, w, r, g.found);
  }

  lemma BehindApplied(j: Judge, r: Request, log: Log, g: Ground)
    requires Plannable(j, g) && Behind(j, r, log, Finished(true, false), g)
    ensures exists n: nat :: Secure(j, r, log, n)
  {
    var n := 4 + |Planning(j, r, g)|;
    var id :| AppliedBy(j, r, log, n, g, id);
    assert Secure(j, r, log, n + 6);
  }

  lemma AppliedMeans(p: Patterns, w: Wishes, r: Request, log: Log)
    requires exists n: nat :: Secure(JudgeOf(p, w, r), r, log, n)
    ensures OutputsShown(p, r, log)
  {
    var n: nat :| Secure(JudgeOf(p, w, r), r, log, n);
    SecureShows(p, w, r, log, n);
  }

  lemma SecureShows(p: Patterns, w: Wishes, r: Request, log: Log, n: nat)
    requires Secure(JudgeOf(p, w, r), r, log, n)
    ensures OutputsShown(p, r, log)
  {
    OutputsMean(log[n + 4].reply.info);
  }
}
