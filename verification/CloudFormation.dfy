/**
 CloudFormation as the command-line tool meets it (src/cli-aws-deploy.ts): commands that
 are sent one after the other, and a world that may give any answer to any of them,
 depending on everything that happened before.
 */
module CloudFormation {
  import opened Wrappers
  import opened AwsOptions
  import opened AwsParameters
  import opened StackPolicies

  // --------------------------------------------------------------- messages

  /** Commands that only look at tools, accounts and local files. */
  datatype Probe =
    | AwsVersion | Identity | SesAccount | Bootstrap | SamVersion | NpmVersion
    | LambdaConcurrency(parameters: Parameters) | NpmRoot
    | ValidateTemplate(text: string) | BuildTemplate(text: string)
    | FailureEvents

  datatype Kind = Table | Bucket | Vault

  datatype Milestone = CreateComplete | UpdateComplete | DeleteComplete

  datatype Command =
    | Check(probe: Probe)
    | DescribeStack(stack: string)
    | ListResources(stack: string)
    | ListChangeSets(stack: string)
    | DescribeChangeSet(id: string)
    | GetStackPolicy(stack: string)
    | WaitForStack(stack: string, until: Milestone)
    | CheckContents(kind: Kind, name: string)
    | CreateChangeSet(stack: string, text: string, role: Option<string>, overrides: Choices, tags: map<string, string>)
    | ExecuteChangeSet(id: string)
    | SetStackPolicy(stack: string, policy: Policy)
    | SetProtection(stack: string, on: bool)
    | DeleteStack(stack: string)
    | DeleteResource(kind: Kind, name: string)

  predicate Mutating(c: Command) {
    || c.CreateChangeSet? || c.ExecuteChangeSet? || c.SetStackPolicy?
    || c.SetProtection? || c.DeleteStack? || c.DeleteResource?
  }

  datatype StackInfo = StackInfo(
    status: string,
    roleArn: Option<string>,
    protection: Option<bool>,
    parameters: map<Parameter, string>,
    tags: map<string, string>,
    outputs: map<string, string>)

  datatype Summary = Summary(id: Option<string>, status: string)

  /** A resource change as reported; a field that is not a string is None. */
  datatype RawChange = RawChange(
    action: Option<string>,
    logicalId: Option<string>,
    kind: Option<string>,
    replacement: Option<string>,
    policyAction: Option<string>)

  datatype ChangeSet = ChangeSet(
    id: string,
    stack: string,
    executionStatus: string,
    status: string,
    changes: seq<Option<RawChange>>)

  /** Failed stands for a failing command and for output that cannot be used. */
  datatype Reply =
    | Failed
    | NoSuchStack
    | Done
    | StackIs(info: StackInfo)
    | ResourcesAre(resources: seq<Resource>)
    | ChangeSetsAre(summaries: seq<Summary>)
    | ChangeSetIs(changeSet: ChangeSet)
    | PolicyIs(policy: Option<Policy>)
    | Holds(count: Option<nat>)

  // --------------------------------------------------------------- the record

  datatype Event = Event(command: Command, reply: Reply)

  type Log = seq<Event>

  type World = (Log, Command) -> Reply

  /** Sends one command and keeps its answer. */
  function Sent(world: World, log: Log, c: Command): (longer: Log)
    ensures |longer| == |log| + 1 && longer[..|log|] == log && longer[|log|].command == c
  {
    log + [Event(c, world(log, c))]
  }

  function Last(log: Log): Reply
    requires log != []
  {
    log[|log| - 1].reply
  }

  predicate ReadOnlyFrom(log: Log, from: nat) {
    forall i :: from <= i < |log| ==> !Mutating(log[i].command)
  }

  /** The answer is one that the tool can go on with. */
  predicate Succeeded(e: Event) {
    match e.command
    case DescribeStack(_) => e.reply.NoSuchStack? || e.reply.StackIs?
    case ListResources(_) => e.reply.ResourcesAre?
    case ListChangeSets(_) => e.reply.ChangeSetsAre?
    case DescribeChangeSet(_) => e.reply.ChangeSetIs?
    case GetStackPolicy(_) => e.reply.PolicyIs?
    case CheckContents(_, _) => e.reply.Holds?
    case _ => e.reply.Done?
  }

  /** Says which mutating command may be sent after which events. */
  type Rule = (Log, Command) -> bool

  /** Every mutating command of the run was allowed when it was sent. */
  ghost predicate Follows(rule: Rule, log: Log)
    decreases |log|
  {
    if log == [] then true
    else
      var past, c := log[..|log| - 1], log[|log| - 1].command;
      Follows(rule, past) && (Mutating(c) ==> rule(past, c))
  }

  lemma {:induction false} FollowsAt(rule: Rule, log: Log, i: nat)
    requires Follows(rule, log) && i < |log| && Mutating(log[i].command)
    ensures rule(log[..i], log[i].command)
    decreases |log|
  {
    if i < |log| - 1 {
      var past := log[..|log| - 1];
      FollowsAt(rule, past, i);
      assert past[..i] == log[..i];
    }
  }

  lemma FollowsStep(rule: Rule, world: World, log: Log, c: Command)
    requires Follows(rule, log) && (Mutating(c) ==> rule(log, c))
    ensures Follows(rule, Sent(world, log, c))
  {
  }

  /** Looking is always allowed. */
  lemma {:induction false} FollowsLook(rule: Rule, log: Log, longer: Log)
    requires Follows(rule, log) && log <= longer && ReadOnlyFrom(longer, |log|)
    ensures Follows(rule, longer)
    decreases |longer|
  {
    if |log| == |longer| {
      assert longer == log;
    } else {
      FollowsLook(rule, log, longer[..|longer| - 1]);
    }
  }

  /** `describeStack`: None when it throws, otherwise the stack or its absence. */
  function Described(reply: Reply): Option<Option<StackInfo>> {
    match reply
    case NoSuchStack => Some(None)
    case StackIs(info) => Some(Some(info))
    case _ => None
  }

  function ChangeSetIds(summaries: seq<Summary>): set<string> {
    set i | 0 <= i < |summaries| && summaries[i].id.Some? && summaries[i].status != "DELETE_COMPLETE" ::
      summaries[i].id.value
  }

  /** `listChangeSets`: a missing stack may stand for an empty list. */
  function ListedIds(reply: Reply, allowMissingStack: bool): Option<set<string>> {
    match reply
    case NoSuchStack => if allowMissingStack then Some({}) else None
    case ChangeSetsAre(summaries) => Some(ChangeSetIds(summaries))
    case _ => None
  }

  const STABLE_STACK_STATUSES: set<string> :=
    {"CREATE_COMPLETE", "UPDATE_COMPLETE", "UPDATE_ROLLBACK_COMPLETE", "IMPORT_COMPLETE"}

  const FAILED_CREATE: string := "ROLLBACK_COMPLETE"

  // ------------------------------------------------------------- change sets

  datatype Change = Change(action: string, logicalId: string, kind: string, replacement: string,
                           policyAction: Option<string>)

  predicate WellFormed(raw: Option<RawChange>) {
    raw.Some? && raw.value.action.Some? && raw.value.logicalId.Some? && raw.value.kind.Some?
  }

  /** A modification that does not say whether it replaces counts as unknown. */
  function Replacement(action: string, replacement: Option<string>): string {
    if replacement.Some? && replacement.value in {"True", "False", "Conditional"} then replacement.value
    else if action in {"Modify", "Dynamic"} then "Unknown"
    else "False"
  }

  function ChangeOf(raw: RawChange): Change
    requires WellFormed(Some(raw))
  {
    Change(raw.action.value, raw.logicalId.value, raw.kind.value,
           Replacement(raw.action.value, raw.replacement), raw.policyAction)
  }

  function Summarized(changes: seq<Option<RawChange>>): Option<seq<Change>> {
    if forall i :: 0 <= i < |changes| ==> WellFormed(changes[i])
    then Some(seq(|changes|, i requires 0 <= i < |changes| => ChangeOf(changes[i].value)))
    else None
  }

  /** `summarizeChanges`: refuses a change set that is not ready or holds an unreadable change. */
  method SummarizeChanges(value: ChangeSet) returns (changes: Option<seq<Change>>)
    ensures changes == if value.status != "CREATE_COMPLETE" then None else Summarized(value.changes)
  {
    if value.status != "CREATE_COMPLETE" {
      return None;
    }
    var collected: seq<Change> := [];
    for i := 0 to |value.changes|
      invariant forall k :: 0 <= k < i ==> WellFormed(value.changes[k])
      invariant |collected| == i
      invariant forall k :: 0 <= k < i ==> collected[k] == ChangeOf(value.changes[k].value)
    {
      if !WellFormed(value.changes[i]) {
        return None;
      }
      collected := collected + [ChangeOf(value.changes[i].value)];
    }
    assert collected == Summarized(value.changes).value;
    changes := Some(collected);
  }

  predicate IsDestructive(c: Change) {
    || c.action !in {"Add", "Modify", "Import", "SyncWithActual"}
    || c.replacement != "False"
    || (c.policyAction.Some? && c.policyAction.value !in {"Retain", "Snapshot"})
  }

  function DestructiveChanges(changes: seq<Change>): (destructive: seq<Change>)
    ensures forall c :: c in destructive <==> c in changes && IsDestructive(c)
    ensures destructive == [] <==> forall i :: 0 <= i < |changes| ==> !IsDestructive(changes[i])
  {
    if changes == [] then []
    else (if IsDestructive(changes[0]) then [changes[0]] else []) + DestructiveChanges(changes[1..])
  }

  /** A reported change that can lose nothing: it says so outright. */
  predicate Harmless(raw: RawChange) {
    && raw.action.Some? && raw.logicalId.Some? && raw.kind.Some?
    && (|| (raw.action.value == "Modify" && raw.replacement == Some("False"))
        || (&& raw.action.value in {"Add", "Import", "SyncWithActual"}
            && raw.replacement != Some("True") && raw.replacement != Some("Conditional")))
    && (raw.policyAction == None || raw.policyAction == Some("Retain") || raw.policyAction == Some("Snapshot"))
  }

  lemma HarmlessChange(raw: RawChange)
    ensures Harmless(raw) <==> WellFormed(Some(raw)) && !IsDestructive(ChangeOf(raw))
  {
    if WellFormed(Some(raw)) {
      ReplacementIsFalse(raw.action.value, raw.replacement);
    }
  }

  lemma ReplacementIsFalse(action: string, replacement: Option<string>)
    ensures Replacement(action, replacement) == "False" <==>
      || replacement == Some("False")
      || (action !in {"Modify", "Dynamic"} && replacement != Some("True") && replacement != Some("Conditional"))
  {
    assert |"True"| != |"False"| && |"Conditional"| != |"False"| && |"Unknown"| != |"False"|;
  }

  /** What a summary says about replacement: the report's own word, or unknown for a change in place, or false. */
  lemma ReplacementWord(action: string, replacement: Option<string>)
    ensures var known := replacement == Some("True") || replacement == Some("False")
                         || replacement == Some("Conditional");
      && (known ==> replacement == Some(Replacement(action, replacement)))
      && (!known && (action == "Modify" || action == "Dynamic") ==> Replacement(action, replacement) == "Unknown")
      && (!known && action != "Modify" && action != "Dynamic" ==> Replacement(action, replacement) == "False")
  {
  }

  /** The change set is executed without acknowledgement. */
  predicate Passes(value: ChangeSet) {
    && value.status == "CREATE_COMPLETE"
    && Summarized(value.changes).Some? && DestructiveChanges(Summarized(value.changes).value) == []
  }

  /**
   The check fails closed: a change set passes without acknowledgement exactly when it is
   ready and every single entry is readable and reports that nothing is lost.
   */
  lemma PassesExactly(value: ChangeSet)
    ensures Passes(value) <==>
      && value.status == "CREATE_COMPLETE"
      && forall i :: 0 <= i < |value.changes| ==> value.changes[i].Some? && Harmless(value.changes[i].value)
  {
    forall i | 0 <= i < |value.changes| && value.changes[i].Some?
      ensures Harmless(value.changes[i].value) <==>
        WellFormed(value.changes[i]) && !IsDestructive(ChangeOf(value.changes[i].value))
    {
      HarmlessChange(value.changes[i].value);
    }
    if Summarized(value.changes).Some? {
      SummarizedEach(value.changes);
    } else {
      assert exists i :: 0 <= i < |value.changes| && !WellFormed(value.changes[i]);
    }
  }

  lemma SummarizedEach(changes: seq<Option<RawChange>>)
    requires Summarized(changes).Some?
    ensures forall i :: 0 <= i < |changes| ==> WellFormed(changes[i])
    ensures DestructiveChanges(Summarized(changes).value) == [] <==>
              forall i :: 0 <= i < |changes| ==> !IsDestructive(ChangeOf(changes[i].value))
  {
    var all := Summarized(changes).value;
    assert forall i :: 0 <= i < |all| ==> all[i] == ChangeOf(changes[i].value);
  }
}
