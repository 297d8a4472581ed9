/**
 Parameter and tag planning of `deploy aws` (src/cli-aws-deploy.ts): template defaults,
 legacy defaults, the stack's own values and the command line are layered, and gradual
 deployments switch themselves on once every live alias exists.
 */
module AwsParameters {
  import opened Wrappers
  import opened AwsOptions
  import opened AwsTemplate
  import opened MarkerRewrite

  /**
   The validators of the source that rest on regular expressions, number formatting or URL
   parsing. `canonical` is the accepted form of a row's value, if it is accepted.
   */
  datatype Rules = Rules(
    canonical: (Parameter, string) -> Option<string>,
    suffixesOk: string -> bool,
    originOk: string -> bool,
    emails: string -> Option<string>,
    secretOk: string -> bool,
    receivable: string -> bool,
    tagOk: (string, string) -> bool)

  type Parameters = Parameter -> string

  type Choices = Parameter -> Option<string>

  datatype Stack = Stack(present: bool, parameters: Choices, tags: map<string, string>)

  datatype Resource = Resource(logicalId: string, kind: string, status: string, physicalId: Option<string>)

  // ------------------------------------------------------------ aliases

  predicate IsReady(r: Resource) {
    r.kind == "AWS::Lambda::Alias" && r.status in {"CREATE_COMPLETE", "UPDATE_COMPLETE", "IMPORT_COMPLETE"}
  }

  function AvailableLambdaAliases(resources: seq<Resource>): set<string> {
    set i | 0 <= i < |resources| && IsReady(resources[i]) :: resources[i].logicalId
  }

  /** The functions a deployment rolls out: the inbound one only when inbound mail is on. */
  predicate IsRequired(d: Deployment, inbound: bool) {
    d in APPLICATION_LAMBDA_DEPLOYMENTS && (d.conditional ==> inbound)
  }

  predicate AliasesComplete(resources: seq<Resource>, inbound: bool) {
    forall d :: d in APPLICATION_LAMBDA_DEPLOYMENTS && IsRequired(d, inbound) ==>
      d.aliasLogicalId in AvailableLambdaAliases(resources)
  }

  // ---------------------------------------------------------- parameters

  function Base(stack: Stack, p: Parameter): string {
    if stack.parameters(p).Some? then stack.parameters(p).value
    else if stack.present && LegacyDefault(p).Some? then LegacyDefault(p).value
    else TemplateDefault(p)
  }

  function Merged(explicit: Choices, stack: Stack, p: Parameter): string {
    if explicit(p).Some? then explicit(p).value else Base(stack, p)
  }

  function BoolText(b: bool): string {
    if b then "true" else "false"
  }

  /** `name` is the stack-specific name of the backup vault and of the restore-testing plan. */
  function Effective(name: string, explicit: Choices, stack: Stack, resources: seq<Resource>, p: Parameter): string {
    match p
    case RestoreTestingPlanName => name
    case BackupVaultName => name
    case EnableGradualDeployments =>
      BoolText(stack.present && AliasesComplete(resources, Merged(explicit, stack, EnableInbound) == "true"))
    case _ => Merged(explicit, stack, p)
  }

  /** Combinations that planning refuses. */
  predicate Refused(rules: Rules, parameters: Parameters) {
    || (parameters(EnableRestoreTesting) == "true" && parameters(EnableBackups) != "true")
    || !rules.secretOk(parameters(BootstrapSecretArn))
    || !rules.secretOk(parameters(ConsoleAuthSecretArn))
    || (parameters(EnableInbound) == "true" && !rules.receivable(parameters(InboundRecipientSuffixes)))
  }

  function EffectiveParameters(rules: Rules, name: string, explicit: Choices, stack: Stack, resources: seq<Resource>)
    : Option<Parameters>
  {
    var parameters := EffectiveOf(name, explicit, stack, resources);
    if Refused(rules, parameters) then None else Some(parameters)
  }

  function EffectiveOf(name: string, explicit: Choices, stack: Stack, resources: seq<Resource>): Parameters {
    p => Effective(name, explicit, stack, resources, p)
  }

  /** `--parameter-overrides`: every planned parameter but an empty bootstrap secret. */
  function Overrides(parameters: Parameters): Choices {
    p => if p == BootstrapSecretArn && parameters(p) == "" then None else Some(parameters(p))
  }

  /**
   What the stack holds after the plan has been executed. An empty bootstrap secret is left
   out of the overrides, so CloudFormation keeps the previous value or takes the default.
   */
  function Deployed(previous: Stack, parameters: Parameters, tags: map<string, string>): Stack {
    Stack(true,
          p => if Overrides(parameters)(p).Some? then Overrides(parameters)(p)
               else Some(if previous.parameters(p).Some? then previous.parameters(p).value else TemplateDefault(p)),
          tags)
  }

  function NoChoices(p: Parameter): Option<string> {
    None
  }

  /** Choices a command line can express: the bootstrap secret cannot be emptied, and some parameters have no option. */
  predicate Expressible(explicit: Choices) {
    && explicit(BootstrapSecretArn) != Some("")
    && explicit(EnableGradualDeployments).None?
    && explicit(BackupVaultName).None?
    && explicit(RestoreTestingPlanName).None?
  }

  lemma DeployedHolds(name: string, explicit: Choices, previous: Stack, resources: seq<Resource>,
                      tags: map<string, string>, p: Parameter)
    requires Expressible(explicit)
    ensures var parameters := q => Effective(name, explicit, previous, resources, q);
      Deployed(previous, parameters, tags).parameters(p) == Some(Effective(name, explicit, previous, resources, p))
  {
  }

  /** The stack after one deployment per entry of `history`, only the first with choices. */
  function Replanned(name: string, explicit: Choices, stack: Stack, tags: map<string, string>,
                     history: seq<seq<Resource>>): Stack
    requires history != []
    decreases |history|, 1
  {
    Deployed(if |history| == 1 then stack else Replanned(name, explicit, stack, tags, history[..|history| - 1]),
             p => LastPlan(name, explicit, stack, tags, history, p), tags)
  }

  /** The plan of the last of these deployments, made from the aliases found at that time. */
  function LastPlan(name: string, explicit: Choices, stack: Stack, tags: map<string, string>,
                    history: seq<seq<Resource>>, p: Parameter): string
    requires history != []
    decreases |history|, 0
  {
    if |history| == 1 then Effective(name, explicit, stack, history[0], p)
    else
      var before := Replanned(name, explicit, stack, tags, history[..|history| - 1]);
      Effective(name, NoChoices, before, history[|history| - 1], p)
  }

  lemma LastPlanHeld(name: string, explicit: Choices, stack: Stack, tags: map<string, string>,
                     history: seq<seq<Resource>>, p: Parameter)
    requires Expressible(explicit) && history != []
    ensures Replanned(name, explicit, stack, tags, history).parameters(p)
         == Some(LastPlan(name, explicit, stack, tags, history, p))
  {
    if |history| == 1 {
      DeployedHolds(name, explicit, stack, history[0], tags, p);
    } else {
      var before := Replanned(name, explicit, stack, tags, history[..|history| - 1]);
      DeployedHolds(name, NoChoices, before, history[|history| - 1], tags, p);
    }
  }

  lemma RefusedAgrees(rules: Rules, a: Parameters, b: Parameters)
    requires forall p :: p != EnableGradualDeployments ==> a(p) == b(p)
    ensures Refused(rules, a) == Refused(rules, b)
  {
  }

  lemma HeldIsPlanned(name: string, stack: Stack, held: Parameters, now: seq<Resource>, p: Parameter)
    requires forall q :: stack.parameters(q) == Some(held(q))
    requires held(BackupVaultName) == name && held(RestoreTestingPlanName) == name
    requires p != EnableGradualDeployments
    ensures Effective(name, NoChoices, stack, now, p) == held(p)
  {
    assert Merged(NoChoices, stack, p) == held(p);
  }

  lemma BoolTextIsTrue(b: bool)
    ensures BoolText(b) == "true" <==> b
  {
    assert |"true"| != |"false"|;
  }

  lemma SwitchIsAliases(name: string, stack: Stack, now: seq<Resource>)
    requires stack.present
    ensures Effective(name, NoChoices, stack, now, EnableGradualDeployments) == "true" <==>
              AliasesComplete(now, Merged(NoChoices, stack, EnableInbound) == "true")
  {
    BoolTextIsTrue(AliasesComplete(now, Merged(NoChoices, stack, EnableInbound) == "true"));
  }

  /** One plan without flags on a stack that holds `held`. */
  lemma PlanWithoutFlags(rules: Rules, name: string, stack: Stack, held: Parameters, now: seq<Resource>)
    requires stack.present && forall p :: stack.parameters(p) == Some(held(p))
    requires held(BackupVaultName) == name && held(RestoreTestingPlanName) == name
    requires !Refused(rules, held)
    ensures EffectiveParameters(rules, name, NoChoices, stack, now).Some?
    ensures forall p :: p != EnableGradualDeployments ==> Effective(name, NoChoices, stack, now, p) == held(p)
    ensures Effective(name, NoChoices, stack, now, EnableGradualDeployments) == "true" <==>
              AliasesComplete(now, held(EnableInbound) == "true")
  {
    var plan := EffectiveOf(name, NoChoices, stack, now);
    forall p | p != EnableGradualDeployments
      ensures plan(p) == held(p)
    {
      HeldIsPlanned(name, stack, held, now, p);
    }
    RefusedAgrees(rules, plan, held);
    SwitchIsAliases(name, stack, now);
    assert Merged(NoChoices, stack, EnableInbound) == held(EnableInbound);
  }

  lemma {:induction false} LastPlanIsFirst(name: string, explicit: Choices, stack: Stack, tags: map<string, string>,
                                           history: seq<seq<Resource>>, p: Parameter)
    requires Expressible(explicit) && history != [] && p != EnableGradualDeployments
    ensures LastPlan(name, explicit, stack, tags, history, p) == Effective(name, explicit, stack, history[0], p)
    decreases |history|
  {
    if |history| > 1 {
      var earlier := history[..|history| - 1];
      LastPlanIsFirst(name, explicit, stack, tags, earlier, p);
      LastPlanHeld(name, explicit, stack, tags, earlier, p);
      LastPlanUnfolds(name, explicit, stack, tags, history, p);
      FlaglessKeeps(name, Replanned(name, explicit, stack, tags, earlier), history[|history| - 1], p);
    }
  }

  lemma LastPlanUnfolds(name: string, explicit: Choices, stack: Stack, tags: map<string, string>,
                        history: seq<seq<Resource>>, p: Parameter)
    requires |history| > 1
    ensures LastPlan(name, explicit, stack, tags, history, p)
         == Effective(name, NoChoices, Replanned(name, explicit, stack, tags, history[..|history| - 1]),
                      history[|history| - 1], p)
  {
  }

  /** Without flags a parameter keeps its value, or is the stack's own name by construction. */
  lemma FlaglessKeeps(name: string, stack: Stack, now: seq<Resource>, p: Parameter)
    requires stack.parameters(p).Some? && p != EnableGradualDeployments
    ensures Effective(name, NoChoices, stack, now, p)
         == if p == BackupVaultName || p == RestoreTestingPlanName then name else stack.parameters(p).value
  {
  }

  lemma HistoryHolds(name: string, explicit: Choices, stack: Stack, tags: map<string, string>,
                     history: seq<seq<Resource>>)
    requires Expressible(explicit) && history != []
    ensures Replanned(name, explicit, stack, tags, history).present
    ensures forall p ::
      Replanned(name, explicit, stack, tags, history).parameters(p)
      == Some(LastPlan(name, explicit, stack, tags, history, p))
    ensures forall p :: p != EnableGradualDeployments ==>
              LastPlan(name, explicit, stack, tags, history, p) == Effective(name, explicit, stack, history[0], p)
  {
    forall p
      ensures Replanned(name, explicit, stack, tags, history).parameters(p)
           == Some(LastPlan(name, explicit, stack, tags, history, p))
    {
      LastPlanHeld(name, explicit, stack, tags, history, p);
    }
    forall p | p != EnableGradualDeployments
      ensures LastPlan(name, explicit, stack, tags, history, p) == Effective(name, explicit, stack, history[0], p)
    {
      LastPlanIsFirst(name, explicit, stack, tags, history, p);
    }
  }

  /**
   Planning is a fixed point over any number of deployments without flags: every parameter
   but the gradual-deployment switch keeps the value of the first plan, no later plan is
   refused, and the switch says whether the aliases are complete now.
   */
  lemma ReplanningIsStable(rules: Rules, name: string, explicit: Choices, stack: Stack,
                           tags: map<string, string>, history: seq<seq<Resource>>, now: seq<Resource>)
    requires Expressible(explicit) && history != []
    requires EffectiveParameters(rules, name, explicit, stack, history[0]).Some?
    ensures var later := Replanned(name, explicit, stack, tags, history);
      && EffectiveParameters(rules, name, NoChoices, later, now).Some?
      && (forall p :: p != EnableGradualDeployments ==>
            Effective(name, NoChoices, later, now, p) == Effective(name, explicit, stack, history[0], p))
      && (Effective(name, NoChoices, later, now, EnableGradualDeployments) == "true" <==>
            AliasesComplete(now, Effective(name, explicit, stack, history[0], EnableInbound) == "true"))
  {
    HistoryHolds(name, explicit, stack, tags, history);
    var held := p => LastPlan(name, explicit, stack, tags, history, p);
    var first := EffectiveOf(name, explicit, stack, history[0]);
    StableFrom(rules, name, Replanned(name, explicit, stack, tags, history), held, first, now);
  }

  lemma StableFrom(rules: Rules, name: string, later: Stack, held: Parameters, first: Parameters, now: seq<Resource>)
    requires later.present && forall p :: later.parameters(p) == Some(held(p))
    requires forall p :: p != EnableGradualDeployments ==> held(p) == first(p)
    requires first(BackupVaultName) == name && first(RestoreTestingPlanName) == name && !Refused(rules, first)
    ensures EffectiveParameters(rules, name, NoChoices, later, now).Some?
    ensures forall p :: p != EnableGradualDeployments ==> Effective(name, NoChoices, later, now, p) == first(p)
    ensures Effective(name, NoChoices, later, now, EnableGradualDeployments) == "true" <==>
              AliasesComplete(now, first(EnableInbound) == "true")
  {
    RefusedAgrees(rules, held, first);
    PlanWithoutFlags(rules, name, later, held, now);
  }

  /** The switch is never on for a stack that does not exist yet. */
  lemma FirstDeploymentBootstraps(name: string, explicit: Choices, stack: Stack, resources: seq<Resource>)
    requires !stack.present
    ensures Effective(name, explicit, stack, resources, EnableGradualDeployments) == "false"
  {
  }

  /** Aliases that persist keep the switch on. */
  lemma SwitchStaysOn(rules: Rules, name: string, explicit: Choices, stack: Stack, tags: map<string, string>,
                      history: seq<seq<Resource>>, now: seq<Resource>, next: seq<Resource>)
    requires Expressible(explicit) && history != []
    requires EffectiveParameters(rules, name, explicit, stack, history[0]).Some?
    requires AvailableLambdaAliases(now) <= AvailableLambdaAliases(next)
    ensures var later := Replanned(name, explicit, stack, tags, history);
      var after := Replanned(name, explicit, stack, tags, history + [now]);
      Effective(name, NoChoices, later, now, EnableGradualDeployments) == "true" ==>
      Effective(name, NoChoices, after, next, EnableGradualDeployments) == "true"
  {
    ReplanningIsStable(rules, name, explicit, stack, tags, history, now);
    assert (history + [now])[0] == history[0];
    ReplanningIsStable(rules, name, explicit, stack, tags, history + [now], next);
  }

  lemma BlockInPlace(source: string, edits: seq<Edit>, tag: string, block: string)
    requires ValidEdits(edits, tag) && FirmEdits(edits) && exists k :: 0 <= k < |edits| && edits[k].block == block
    ensures Rewrite(source, edits, tag).Some? ==> exists at :: At(Rewrite(source, edits, tag).value, at, block)
    ensures Rewrite(source, edits, tag).Some? ==> Rewrite(source, edits, tag).value == OnePass(source, edits)
  {
    var k :| 0 <= k < |edits| && edits[k].block == block;
    if Rewrite(source, edits, tag).Some? {
      FirmIsPresent(source, edits, tag);
      PresentIsOnce(source, edits, tag);
      RewriteIsOnePass(source, edits, tag);
      BlockInserted(source, edits, tag, k);
    }
  }

  lemma PreferenceAmongEdits(all: seq<Deployment>, aliases: set<string>, d: Deployment)
    requires d in all && d.aliasLogicalId in aliases
    ensures var edits := EditsOf(all, aliases); exists k :: 0 <= k < |edits| && edits[k].block == Preference(d)
  {
    var k :| 0 <= k < |all| && all[k] == d;
    assert EditsOf(all, aliases)[k] == EditOf(d, aliases);
  }

  lemma RequiredAliasReady(name: string, explicit: Choices, stack: Stack, resources: seq<Resource>, d: Deployment)
    requires Effective(name, explicit, stack, resources, EnableGradualDeployments) == "true"
    requires IsRequired(d, Effective(name, explicit, stack, resources, EnableInbound) == "true")
    ensures d.aliasLogicalId in AvailableLambdaAliases(resources)
  {
    BoolTextIsTrue(stack.present && AliasesComplete(resources, Merged(explicit, stack, EnableInbound) == "true"));
  }

  /** With the switch on, every function but the conditional last one has its alias. */
  lemma CoreAliasesReady(name: string, explicit: Choices, stack: Stack, resources: seq<Resource>)
    requires Effective(name, explicit, stack, resources, EnableGradualDeployments) == "true"
    ensures forall i :: 0 <= i < |APPLICATION_LAMBDA_DEPLOYMENTS| - 1 ==>
      APPLICATION_LAMBDA_DEPLOYMENTS[i].aliasLogicalId in AvailableLambdaAliases(resources)
  {
    forall i | 0 <= i < |APPLICATION_LAMBDA_DEPLOYMENTS| - 1
      ensures APPLICATION_LAMBDA_DEPLOYMENTS[i].aliasLogicalId in AvailableLambdaAliases(resources)
    {
      RequiredAliasReady(name, explicit, stack, resources, APPLICATION_LAMBDA_DEPLOYMENTS[i]);
    }
  }

  /**
   When the switch is on, every accepted template is rendered by plain substitution, and
   every function the deployment rolls out gets its deployment preference.
   */
  lemma SwitchRendersPreferences(name: string, explicit: Choices, stack: Stack, resources: seq<Resource>,
                                 source: string, d: Deployment)
    requires Effective(name, explicit, stack, resources, EnableGradualDeployments) == "true"
    requires IsRequired(d, Effective(name, explicit, stack, resources, EnableInbound) == "true")
    ensures var edits := EditsOf(APPLICATION_LAMBDA_DEPLOYMENTS, AvailableLambdaAliases(resources));
      && ValidEdits(edits, TAG)
      && (Rewrite(source, edits, TAG).Some? ==>
            && Rewrite(source, edits, TAG).value == OnePass(source, edits)
            && exists at :: At(Rewrite(source, edits, TAG).value, at, Preference(d)))
  {
    ApplicationDeploymentsTidy();
    RequiredAliasReady(name, explicit, stack, resources, d);
    CoreAliasesReady(name, explicit, stack, resources);
    PreferenceRendered(APPLICATION_LAMBDA_DEPLOYMENTS, AvailableLambdaAliases(resources), source, d);
  }

  lemma PreferenceRendered(all: seq<Deployment>, aliases: set<string>, source: string, d: Deployment)
    requires Tidy(all) && d in all && d.aliasLogicalId in aliases
    requires forall i :: 0 <= i < |all| - 1 ==> all[i].aliasLogicalId in aliases
    ensures var edits := EditsOf(all, aliases);
      && ValidEdits(edits, TAG)
      && (Rewrite(source, edits, TAG).Some? ==>
            && Rewrite(source, edits, TAG).value == OnePass(source, edits)
            && exists at :: At(Rewrite(source, edits, TAG).value, at, Preference(d)))
  {
    PreferenceAmongEdits(all, aliases, d);
    EditsValid(all, aliases);
    EditsFirm(all, aliases);
    BlockInPlace(source, EditsOf(all, aliases), TAG, Preference(d));
  }

  // ------------------------------------------------------------------ tags

  const RESERVED_TAGS: map<string, string> := map["Project" := "HayaSend", "ManagedBy" := "HayaSendCLI"]

  /** The position of the first equals sign, or the length. */
  function Separator(token: string): (i: nat)
    ensures i <= |token| && (i < |token| ==> token[i] == '=') && forall k :: 0 <= k < i ==> token[k] != '='
  {
    if token == "" || token[0] == '=' then 0 else 1 + Separator(token[1..])
  }

  /** One `--tag KEY=VALUE`: malformed, reserved and repeated keys are refused. */
  function AddTag(rules: Rules, tags: map<string, string>, token: string): Option<map<string, string>> {
    var i := Separator(token);
    if i == 0 || i == |token| then None
    else
      var key, value := token[..i], token[i + 1..];
      if !rules.tagOk(key, value) || key in tags then None else Some(tags[key := value])
  }

  function TagsFrom(rules: Rules, tags: map<string, string>, tokens: seq<string>): Option<map<string, string>>
    decreases |tokens|
  {
    if tokens == [] then Some(tags)
    else
      match AddTag(rules, tags, tokens[0])
      case None => None
      case Some(more) => TagsFrom(rules, more, tokens[1..])
  }

  method ParseTags(rules: Rules, values: seq<string>) returns (tags: Option<map<string, string>>)
    ensures tags == TagsFrom(rules, RESERVED_TAGS, values)
  {
    var collected := RESERVED_TAGS;
    for i := 0 to |values|
      invariant TagsFrom(rules, RESERVED_TAGS, values) == TagsFrom(rules, collected, values[i..])
    {
      var added := AddTag(rules, collected, values[i]);
      if added.None? {
        return None;
      }
      collected := added.value;
      assert values[i..][1..] == values[i + 1..];
    }
    tags := Some(collected);
  }

  /** The stack's tags, overwritten by the requested ones; at most fifty in all. */
  function EffectiveTags(requested: map<string, string>, stack: Stack): Option<map<string, string>> {
    var tags := stack.tags + requested;
    if |tags| > 50 then None else Some(tags)
  }
}
