/**
 Stack policies (src/cli-aws-deploy.ts): the policy the tool sets, the inspection of the
 policy it reads back, and what CloudFormation makes of such a policy.
 */
module StackPolicies {
  import opened Wrappers
  import opened AwsParameters

  const RETAINED_RESOURCE_LOGICAL_IDS: set<string> :=
    {"DataTable", "PayloadBucket", "InboundKey", "InboundBucket", "BackupVault"}

  predicate IsRetained(x: Resource) {
    x.logicalId in RETAINED_RESOURCE_LOGICAL_IDS
  }

  function Retained(resources: seq<Resource>): (kept: seq<Resource>)
    ensures forall x :: x in kept <==> x in resources && IsRetained(x)
  {
    if resources == [] then []
    else (if IsRetained(resources[0]) then [resources[0]] else []) + Retained(resources[1..])
  }

  // ------------------------------------------------------------- the documents

  /** A policy field is one text, a list of texts, or something else. */
  datatype Field = One(text: string) | Many(texts: seq<string>) | Other

  /** A condition says for which resource types the statement holds. */
  datatype Statement = Statement(
    effect: string,
    action: Field,
    principal: Field,
    resource: Field,
    condition: Option<string -> bool>)

  type Policy = seq<Statement>

  const REPLACE: string := "Update:Replace"
  const DELETE: string := "Update:Delete"

  function PolicyName(logicalId: string): string {
    "LogicalResourceId/" + logicalId
  }

  function PolicyNames(resources: seq<Resource>): seq<string> {
    seq(|resources|, i requires 0 <= i < |resources| => PolicyName(resources[i].logicalId))
  }

  function Allowance(): Statement {
    Statement("Allow", One("Update:*"), One("*"), One("*"), None)
  }

  function Denial(kept: seq<Resource>, condition: Option<string -> bool>): Statement {
    Statement("Deny", Many([REPLACE, DELETE]), One("*"), Many(PolicyNames(kept)), condition)
  }

  /** `stackPolicy` */
  function StackPolicy(kept: seq<Resource>): Policy {
    [Allowance(), Denial(kept, None)]
  }

  // ------------------------------------------------------------- the inspection

  predicate AllowsUpdates(s: Statement) {
    s.effect == "Allow" && s.action == One("Update:*") && s.principal == One("*") && s.resource == One("*")
  }

  predicate DeniesLoss(s: Statement, kept: seq<Resource>) {
    && s.effect == "Deny" && s.principal == One("*")
    && s.action.Many? && DELETE in s.action.texts && REPLACE in s.action.texts
    && s.resource.Many? && forall i :: 0 <= i < |kept| ==> PolicyName(kept[i].logicalId) in s.resource.texts
  }

  /** `expectedStackPolicy`, which looks at no condition. */
  predicate ExpectedStackPolicy(policy: Policy, kept: seq<Resource>) {
    && (exists i :: 0 <= i < |policy| && AllowsUpdates(policy[i]))
    && (exists i :: 0 <= i < |policy| && DeniesLoss(policy[i], kept))
  }

  /** The same, spelled out for the resources of a stack. */
  predicate PassesInspection(policy: Policy, resources: seq<Resource>) {
    && (exists i :: 0 <= i < |policy| && policy[i].effect == "Allow" && policy[i].action == One("Update:*")
                    && policy[i].principal == One("*") && policy[i].resource == One("*"))
    && (exists i :: 0 <= i < |policy| && DeniesEach(policy[i], resources))
  }

  predicate DeniesEach(s: Statement, resources: seq<Resource>) {
    && s.effect == "Deny" && s.principal == One("*")
    && s.action.Many? && "Update:Delete" in s.action.texts && "Update:Replace" in s.action.texts
    && s.resource.Many? && forall i :: 0 <= i < |resources| && Precious(resources[i]) ==>
         "LogicalResourceId/" + resources[i].logicalId in s.resource.texts
  }

  /** The resources that outlive their stack. */
  predicate Precious(x: Resource) {
    || x.logicalId == "DataTable" || x.logicalId == "PayloadBucket" || x.logicalId == "InboundKey"
    || x.logicalId == "InboundBucket" || x.logicalId == "BackupVault"
  }

  lemma DeniesEachExactly(s: Statement, resources: seq<Resource>)
    ensures DeniesLoss(s, Retained(resources)) <==> DeniesEach(s, resources)
  {
    var kept := Retained(resources);
    if s.resource.Many? {
      forall i | 0 <= i < |resources| && Precious(resources[i])
        ensures exists k :: 0 <= k < |kept| && kept[k] == resources[i]
      {
        assert resources[i] in kept;
      }
      forall k | 0 <= k < |kept|
        ensures exists i :: 0 <= i < |resources| && Precious(resources[i]) && resources[i] == kept[k]
      {
        assert kept[k] in resources;
      }
    }
  }

  lemma InspectionExactly(policy: Policy, resources: seq<Resource>)
    ensures ExpectedStackPolicy(policy, Retained(resources)) <==> PassesInspection(policy, resources)
  {
    forall i | 0 <= i < |policy|
      ensures DeniesLoss(policy[i], Retained(resources)) <==> DeniesEach(policy[i], resources)
    {
      DeniesEachExactly(policy[i], resources);
    }
  }

  // ------------------------------------------------------------- the evaluation

  /** Patterns of actions and resources: a star stands for any text, a question mark for any character. */
  predicate Glob(pattern: string, text: string)
    decreases |pattern| + |text|
  {
    if pattern == "" then text == ""
    else if pattern[0] == '*' then Glob(pattern[1..], text) || (text != "" && Glob(pattern, text[1..]))
    else text != "" && (pattern[0] == '?' || pattern[0] == text[0]) && Glob(pattern[1..], text[1..])
  }

  predicate Matches(field: Field, text: string) {
    match field
    case One(pattern) => Glob(pattern, text)
    case Many(patterns) => exists i :: 0 <= i < |patterns| && Glob(patterns[i], text)
    case Other => false
  }

  predicate Admits(s: Statement, kind: string) {
    s.condition.Some? ==> s.condition.value(kind)
  }

  /** A Deny statement that holds for this action on this resource. */
  predicate Applies(s: Statement, action: string, x: Resource) {
    && s.effect == "Deny" && Matches(s.principal, "*")
    && Matches(s.action, action) && Matches(s.resource, PolicyName(x.logicalId)) && Admits(s, x.kind)
  }

  /** CloudFormation refuses an action on a resource if some Deny statement applies. */
  predicate Forbids(policy: Policy, action: string, x: Resource) {
    exists i :: 0 <= i < |policy| && Applies(policy[i], action, x)
  }

  predicate Keeps(policy: Policy, x: Resource) {
    Forbids(policy, REPLACE, x) && Forbids(policy, DELETE, x)
  }

  /** Every retained resource among these is kept from being replaced and deleted. */
  ghost predicate KeepsAll(policy: Policy, resources: seq<Resource>) {
    forall x :: x in resources && Precious(x) ==> Keeps(policy, x)
  }

  // ---------------------------------------------- what the inspection is worth

  lemma {:induction false} GlobItself(text: string)
    ensures Glob(text, text)
  {
    if text != "" {
      GlobItself(text[1..]);
      if text[0] == '*' {
        assert Glob(text[1..], text[1..]);
        assert Glob(text, text[1..]);
      }
    }
  }

  lemma ListedMatches(texts: seq<string>, text: string)
    requires text in texts
    ensures Matches(Many(texts), text)
  {
    var i :| 0 <= i < |texts| && texts[i] == text;
    GlobItself(text);
    assert Glob(texts[i], text);
  }

  /** An inspected denial applies to a retained resource exactly when its condition admits the resource's type. */
  lemma DenialApplies(s: Statement, kept: seq<Resource>, action: string, x: Resource)
    requires DeniesLoss(s, kept) && x in kept && (action == REPLACE || action == DELETE)
    ensures Applies(s, action, x) <==> Admits(s, x.kind)
  {
    GlobItself("*");
    ListedMatches(s.action.texts, action);
    var k :| 0 <= k < |kept| && kept[k] == x;
    ListedMatches(s.resource.texts, PolicyName(x.logicalId));
  }

  /** Some inspected denial holds for this resource type. */
  predicate Admitted(policy: Policy, kept: seq<Resource>, kind: string) {
    exists i :: 0 <= i < |policy| && DeniesLoss(policy[i], kept) && Admits(policy[i], kind)
  }

  /** Some statement that the inspection does not count denies the action as well. */
  predicate DeniedElsewhere(policy: Policy, kept: seq<Resource>, action: string, x: Resource) {
    exists i :: 0 <= i < |policy| && !DeniesLoss(policy[i], kept) && Applies(policy[i], action, x)
  }

  lemma ForbidsExactly(policy: Policy, kept: seq<Resource>, action: string, x: Resource)
    requires x in kept && (action == REPLACE || action == DELETE)
    ensures Forbids(policy, action, x) <==> Admitted(policy, kept, x.kind) || DeniedElsewhere(policy, kept, action, x)
  {
    forall i | 0 <= i < |policy| && DeniesLoss(policy[i], kept)
      ensures Applies(policy[i], action, x) <==> Admits(policy[i], x.kind)
    {
      DenialApplies(policy[i], kept, action, x);
    }
  }

  /** The type is admitted by an inspected denial, or other statements deny both actions. */
  predicate Covered(policy: Policy, kept: seq<Resource>, x: Resource) {
    || Admitted(policy, kept, x.kind)
    || (DeniedElsewhere(policy, kept, REPLACE, x) && DeniedElsewhere(policy, kept, DELETE, x))
  }

  /**
   A policy keeps all retained resources if and only if each one's type is admitted by the
   condition of an inspected denial, or other statements deny its loss.
   */
  lemma KeepsAllExactly(policy: Policy, resources: seq<Resource>)
    ensures KeepsAll(policy, resources) <==>
      forall x :: x in resources && Precious(x) ==> Covered(policy, Retained(resources), x)
  {
    var kept := Retained(resources);
    forall x | x in resources && Precious(x)
      ensures Keeps(policy, x) <==> Covered(policy, kept, x)
    {
      ForbidsExactly(policy, kept, REPLACE, x);
      ForbidsExactly(policy, kept, DELETE, x);
    }
  }

  /** No Deny statement but inspected ones. */
  predicate OnlyInspectedDenials(policy: Policy, kept: seq<Resource>) {
    forall i :: 0 <= i < |policy| && policy[i].effect == "Deny" ==> DeniesLoss(policy[i], kept)
  }

  /**
   For an inspected policy without further denials the conditions decide alone: it keeps all
   retained resources if and only if each one's type is admitted by an inspected denial.
   */
  lemma ExpectedPolicyProtects(policy: Policy, resources: seq<Resource>)
    requires ExpectedStackPolicy(policy, Retained(resources)) && OnlyInspectedDenials(policy, Retained(resources))
    ensures KeepsAll(policy, resources) <==>
      forall x :: x in resources && Precious(x) ==> Admitted(policy, Retained(resources), x.kind)
  {
    KeepsAllExactly(policy, resources);
  }

  lemma DenialDeniesLoss(kept: seq<Resource>, condition: Option<string -> bool>)
    ensures DeniesLoss(Denial(kept, condition), kept)
  {
    forall i | 0 <= i < |kept|
      ensures PolicyName(kept[i].logicalId) in PolicyNames(kept)
    {
      assert PolicyNames(kept)[i] == PolicyName(kept[i].logicalId);
    }
    assert [REPLACE, DELETE][0] == REPLACE && [REPLACE, DELETE][1] == DELETE;
  }

  /** The tool's policy with any condition on its denial passes the inspection ... */
  lemma ConditionalPolicyExpected(kept: seq<Resource>, condition: Option<string -> bool>)
    ensures ExpectedStackPolicy([Allowance(), Denial(kept, condition)], kept)
    ensures OnlyInspectedDenials([Allowance(), Denial(kept, condition)], kept)
  {
    var policy := [Allowance(), Denial(kept, condition)];
    DenialDeniesLoss(kept, condition);
    assert AllowsUpdates(policy[0]) && DeniesLoss(policy[1], kept);
    assert |"Allow"| != |"Deny"|;
  }

  /**
   ... but a denial for one resource type only keeps exactly the retained resources of that
   type: the inspection does not tell it from the tool's own policy.
   */
  lemma ConditionalPolicyKeeps(resources: seq<Resource>, kind: string, x: Resource)
    requires x in resources && Precious(x)
    ensures var policy := [Allowance(), Denial(Retained(resources), Some(t => t == kind))];
      && ExpectedStackPolicy(policy, Retained(resources))
      && (Keeps(policy, x) <==> x.kind == kind)
  {
    var kept, condition := Retained(resources), Some(t => t == kind);
    var policy := [Allowance(), Denial(kept, condition)];
    ConditionalPolicyExpected(kept, condition);
    DenialDeniesLoss(kept, condition);
    SoleDenialKeeps(kept, condition, x);
  }

  lemma SoleDenialKeeps(kept: seq<Resource>, condition: Option<string -> bool>, x: Resource)
    requires x in kept
    ensures Keeps([Allowance(), Denial(kept, condition)], x) <==> Admits(Denial(kept, condition), x.kind)
  {
    var policy := [Allowance(), Denial(kept, condition)];
    ConditionalPolicyExpected(kept, condition);
    ForbidsExactly(policy, kept, REPLACE, x);
    ForbidsExactly(policy, kept, DELETE, x);
    DenialDeniesLoss(kept, condition);
    assert |"Allow"| != |"Deny"|;
    assert policy[1] == Denial(kept, condition);
  }

  /** The policy that the tool sets passes its own inspection and keeps every retained resource. */
  lemma OwnPolicyKeeps(resources: seq<Resource>)
    ensures ExpectedStackPolicy(StackPolicy(Retained(resources)), Retained(resources))
    ensures KeepsAll(StackPolicy(Retained(resources)), resources)
  {
    ConditionalPolicyExpected(Retained(resources), None);
    forall x | x in resources && Precious(x)
      ensures Keeps(StackPolicy(Retained(resources)), x)
    {
      SoleDenialKeeps(Retained(resources), None, x);
    }
  }
}
