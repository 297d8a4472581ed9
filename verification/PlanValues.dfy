/**
 What a plan of `deploy aws` holds (src/cli-aws-deploy.ts), value by value: which layer each
 parameter comes from, when planning refuses, when gradual deployments are switched on, and
 which tags the stack gets.
 */
module PlanValues {
  import opened Wrappers
  import opened AwsOptions
  import opened AwsTemplate
  import opened AwsParameters

  // --------------------------------------------------------------- the layers

  /** The flag if it is given, else the stack's own value, else the fallback. */
  function Layered(flag: Option<string>, own: Option<string>, fallback: string): string {
    match (flag, own)
    case (Some(value), _) => value
    case (None, Some(value)) => value
    case (None, None) => fallback
  }

  /** An existing stack without limits of its own keeps those it was created with; all else is the template's. */
  function Fallback(present: bool, p: Parameter): string {
    match p
    case ApiThrottlingRateLimit => if present then "50" else "10"
    case ApiThrottlingBurstLimit => if present then "100" else "20"
    case BootstrapSecretArn => ""
    case ConsoleAuthOrigin => ""
    case ConsoleAuthGoogleClientId => ""
    case ConsoleAuthAllowedEmails => ""
    case ConsoleAuthSecretArn => ""
    case EnableInbound => "false"
    case InboundRetentionDays => "7"
    case InboundMaxMessageSizeBytes => "26214400"
    case InboundRecipientSuffixes => "@example.invalid"
    case InboundTlsPolicy => "OPTIONAL"
    case InboundReservedConcurrency => "0"
    case LogRetentionDays => "30"
    case WebhookDeliveryRetentionDays => "7"
    case TemplateHistoryRetentionDays => "90"
    case TemplateHistoryLimit => "50"
    case WorkerReservedConcurrency => "0"
    case WorkerMaximumConcurrency => "10"
    case DeploymentPreferenceType => "Canary10Percent5Minutes"
    case EnableBackups => "true"
    case BackupRetentionDays => "35"
    case PayloadNoncurrentVersionRetentionDays => "7"
    case EnableRestoreTesting => "false"
    case EnableGradualDeployments => "false"
    case BackupVaultName => "HayaSendBackup"
    case RestoreTestingPlanName => "HayaSendRestoreTesting"
  }

  lemma MergedByValue(explicit: Choices, stack: Stack, p: Parameter)
    ensures Merged(explicit, stack, p) == Layered(explicit(p), stack.parameters(p), Fallback(stack.present, p))
  {
    FallbackByName(stack.present, p);
  }

  lemma FallbackByName(present: bool, p: Parameter)
    ensures Fallback(present, p)
         == if present && LegacyDefault(p).Some? then LegacyDefault(p).value else TemplateDefault(p)
  {
  }

  /**
   Every parameter of an accepted plan comes from the command line, the stack or the defaults,
   in this order. The only exceptions are the names of the vault and of the restore plan, which
   are the stack's own, and the switch of `SwitchByName`.
   */
  lemma PlanByValue(rules: Rules, name: string, explicit: Choices, stack: Stack, resources: seq<Resource>, p: Parameter)
    requires EffectiveParameters(rules, name, explicit, stack, resources).Some?
    ensures var plan := EffectiveParameters(rules, name, explicit, stack, resources).value;
      && (p == BackupVaultName || p == RestoreTestingPlanName ==> plan(p) == name)
      && (p !in {BackupVaultName, RestoreTestingPlanName, EnableGradualDeployments} ==>
            plan(p) == Layered(explicit(p), stack.parameters(p), Fallback(stack.present, p)))
  {
    MergedByValue(explicit, stack, p);
    assert EffectiveParameters(rules, name, explicit, stack, resources).value(p)
        == Effective(name, explicit, stack, resources, p);
  }

  /** A lambda alias of this name is there and in good order. */
  predicate AliasUp(resources: seq<Resource>, id: string) {
    exists i :: 0 <= i < |resources| && resources[i].logicalId == id && resources[i].kind == "AWS::Lambda::Alias"
                && (resources[i].status == "CREATE_COMPLETE" || resources[i].status == "UPDATE_COMPLETE"
                    || resources[i].status == "IMPORT_COMPLETE")
  }

  predicate FunctionsUp(resources: seq<Resource>, inbound: bool) {
    && AliasUp(resources, "ApiFunctionAliaslive") && AliasUp(resources, "WorkerFunctionAliaslive")
    && AliasUp(resources, "DispatcherFunctionAliaslive") && AliasUp(resources, "SesEventsFunctionAliaslive")
    && (inbound ==> AliasUp(resources, "InboundFunctionAliaslive"))
  }

  lemma AliasesByName(resources: seq<Resource>, inbound: bool)
    ensures AliasesComplete(resources, inbound) <==> FunctionsUp(resources, inbound)
  {
    var all := APPLICATION_LAMBDA_DEPLOYMENTS;
    assert all[0].aliasLogicalId == "ApiFunctionAliaslive" && all[1].aliasLogicalId == "WorkerFunctionAliaslive";
    assert all[2].aliasLogicalId == "DispatcherFunctionAliaslive";
    assert all[3].aliasLogicalId == "SesEventsFunctionAliaslive";
    assert all[4].aliasLogicalId == "InboundFunctionAliaslive";
    assert all[4].conditional && forall i :: 0 <= i < 4 ==> !all[i].conditional;
    forall id
      ensures id in AvailableLambdaAliases(resources) <==> AliasUp(resources, id)
    {
    }
  }

  /** The gradual-deployment switch of a plan is on exactly when the stack exists and every function's alias is up. */
  lemma SwitchByName(name: string, explicit: Choices, stack: Stack, resources: seq<Resource>)
    ensures var inbound := Layered(explicit(EnableInbound), stack.parameters(EnableInbound), "false");
      Effective(name, explicit, stack, resources, EnableGradualDeployments)
      == if stack.present && FunctionsUp(resources, inbound == "true") then "true" else "false"
  {
    var inbound := Merged(explicit, stack, EnableInbound);
    MergedByValue(explicit, stack, EnableInbound);
    AliasesByName(resources, inbound == "true");
    SwitchIs(name, explicit, stack, resources, inbound == "true");
  }

  lemma SwitchIs(name: string, explicit: Choices, stack: Stack, resources: seq<Resource>, inbound: bool)
    requires inbound == (Merged(explicit, stack, EnableInbound) == "true")
    ensures Effective(name, explicit, stack, resources, EnableGradualDeployments)
         == if stack.present && AliasesComplete(resources, inbound) then "true" else "false"
  {
  }

  /** Planning refuses these combinations and nothing else. */
  lemma PlanRefusedExactly(rules: Rules, name: string, explicit: Choices, stack: Stack, resources: seq<Resource>)
    ensures
      var value := (p: Parameter) => Layered(explicit(p), stack.parameters(p), Fallback(stack.present, p));
      EffectiveParameters(rules, name, explicit, stack, resources).None? <==>
        || (value(EnableRestoreTesting) == "true" && value(EnableBackups) != "true")
        || !rules.secretOk(value(BootstrapSecretArn)) || !rules.secretOk(value(ConsoleAuthSecretArn))
        || (value(EnableInbound) == "true" && !rules.receivable(value(InboundRecipientSuffixes)))
  {
    MergedByValue(explicit, stack, EnableRestoreTesting);
    MergedByValue(explicit, stack, EnableBackups);
    MergedByValue(explicit, stack, BootstrapSecretArn);
    MergedByValue(explicit, stack, ConsoleAuthSecretArn);
    MergedByValue(explicit, stack, EnableInbound);
    MergedByValue(explicit, stack, InboundRecipientSuffixes);
  }

  // ------------------------------------------------------------------ the tags

  /** The token is `KEY=VALUE` with a key. */
  predicate HasKey(token: string) {
    0 < Separator(token) < |token|
  }

  function KeyOf(token: string): string {
    token[..Separator(token)]
  }

  function ValueOf(token: string): string
    requires HasKey(token)
  {
    token[Separator(token) + 1..]
  }

  /** Every token has an acceptable key that no earlier tag has. */
  predicate Fresh(rules: Rules, tags: map<string, string>, tokens: seq<string>) {
    && (forall i :: 0 <= i < |tokens| ==>
          HasKey(tokens[i]) && rules.tagOk(KeyOf(tokens[i]), ValueOf(tokens[i])) && KeyOf(tokens[i]) !in tags)
    && (forall i, j :: 0 <= i < j < |tokens| ==> KeyOf(tokens[i]) != KeyOf(tokens[j]))
  }

  /** The result holds the earlier tags, those of the tokens, and no others. */
  predicate Extended(tags: map<string, string>, tokens: seq<string>, result: map<string, string>) {
    && (forall key :: key in tags ==> key in result && result[key] == tags[key])
    && (forall i :: 0 <= i < |tokens| && HasKey(tokens[i]) ==>
          KeyOf(tokens[i]) in result && result[KeyOf(tokens[i])] == ValueOf(tokens[i]))
    && (forall key :: key in result ==> key in tags || exists i :: 0 <= i < |tokens| && KeyOf(tokens[i]) == key)
  }

  lemma FreshSplits(rules: Rules, tags: map<string, string>, tokens: seq<string>)
    requires tokens != [] && HasKey(tokens[0])
    ensures Fresh(rules, tags, tokens) <==>
      && rules.tagOk(KeyOf(tokens[0]), ValueOf(tokens[0])) && KeyOf(tokens[0]) !in tags
      && Fresh(rules, tags[KeyOf(tokens[0]) := ValueOf(tokens[0])], tokens[1..])
  {
    var rest := tokens[1..];
    assert forall i :: 0 < i < |tokens| ==> tokens[i] == rest[i - 1];
    assert forall i :: 0 <= i < |rest| ==> rest[i] == tokens[i + 1];
  }

  lemma {:induction false} TagsAdded(rules: Rules, tags: map<string, string>, tokens: seq<string>)
    ensures TagsFrom(rules, tags, tokens).Some? <==> Fresh(rules, tags, tokens)
    ensures TagsFrom(rules, tags, tokens).Some? ==> Extended(tags, tokens, TagsFrom(rules, tags, tokens).value)
    decreases |tokens|
  {
    if tokens != [] && HasKey(tokens[0]) {
      FreshSplits(rules, tags, tokens);
      var more := tags[KeyOf(tokens[0]) := ValueOf(tokens[0])];
      TagsAdded(rules, more, tokens[1..]);
      if TagsFrom(rules, tags, tokens).Some? {
        ExtendedByOne(tags, tokens, TagsFrom(rules, tags, tokens).value);
      }
    }
  }

  lemma ExtendedByOne(tags: map<string, string>, tokens: seq<string>, result: map<string, string>)
    requires tokens != [] && HasKey(tokens[0]) && KeyOf(tokens[0]) !in tags
    requires Extended(tags[KeyOf(tokens[0]) := ValueOf(tokens[0])], tokens[1..], result)
    ensures Extended(tags, tokens, result)
  {
    var rest := tokens[1..];
    forall i | 0 <= i < |tokens| && HasKey(tokens[i])
      ensures KeyOf(tokens[i]) in result && result[KeyOf(tokens[i])] == ValueOf(tokens[i])
    {
      assert i > 0 ==> tokens[i] == rest[i - 1];
    }
    forall key | key in result && key !in tags
      ensures exists i :: 0 <= i < |tokens| && KeyOf(tokens[i]) == key
    {
      if key != KeyOf(tokens[0]) {
        var i :| 0 <= i < |rest| && KeyOf(rest[i]) == key;
        assert tokens[i + 1] == rest[i];
      }
    }
  }

  /**
   Tags are accepted exactly when every token has an acceptable key that is not one of the
   tool's two own and not named before; the tool's own tags are always among the result.
   */
  lemma TagsExactly(rules: Rules, tokens: seq<string>)
    ensures TagsFrom(rules, RESERVED_TAGS, tokens).Some? <==>
      && (forall i :: 0 <= i < |tokens| ==>
            && HasKey(tokens[i]) && rules.tagOk(KeyOf(tokens[i]), ValueOf(tokens[i]))
            && KeyOf(tokens[i]) != "Project" && KeyOf(tokens[i]) != "ManagedBy")
      && (forall i, j :: 0 <= i < j < |tokens| ==> KeyOf(tokens[i]) != KeyOf(tokens[j]))
    ensures TagsFrom(rules, RESERVED_TAGS, tokens).Some? ==>
      Extended(map["Project" := "HayaSend", "ManagedBy" := "HayaSendCLI"], tokens,
               TagsFrom(rules, RESERVED_TAGS, tokens).value)
  {
    TagsAdded(rules, RESERVED_TAGS, tokens);
  }

  /** The stack keeps its tags unless they are asked for anew, up to fifty in all. */
  lemma EffectiveTagsExactly(requested: map<string, string>, stack: Stack)
    ensures EffectiveTags(requested, stack).Some? <==> |stack.tags.Keys + requested.Keys| <= 50
    ensures EffectiveTags(requested, stack).Some? ==>
      var tags := EffectiveTags(requested, stack).value;
      && tags.Keys == stack.tags.Keys + requested.Keys
      && forall key :: key in tags ==> tags[key] == if key in requested then requested[key] else stack.tags[key]
  {
    assert (stack.tags + requested).Keys == stack.tags.Keys + requested.Keys;
  }
}
