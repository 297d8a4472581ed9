/**
 What any command line of `deploy aws` means for the plan (the wiring in src/cli.ts and
 `normalizeOptions` in src/cli-aws-deploy.ts), whether or not the tool printed it.
 */
module OptionMeaning {
  import opened Wrappers
  import opened AwsOptions
  import opened AwsParameters
  import opened AwsApplyCommand
  import opened AwsRoundTrip
  import opened PlanValues

  /** How many of the four options of the console login are given. */
  function AuthOptions(r: Reading): nat {
    (if r.given(AuthOrigin).Some? then 1 else 0) + (if r.given(AuthClientId).Some? then 1 else 0)
    + (if r.given(AuthEmails).Some? then 1 else 0) + (if r.given(AuthSecret).Some? then 1 else 0)
  }

  /**
   No switch is contradicted, restore tests are not asked for without backups, destructive
   changes are acknowledged only when applying, and the console login is given as a whole, or
   switched off and not given at all.
   */
  predicate Coherent(r: Reading) {
    && !(r.on(InboundOn) && r.on(InboundOff)) && !(r.on(BackupsOn) && r.on(BackupsOff))
    && !(r.on(RestoreTestingOn) && r.on(RestoreTestingOff)) && !(r.on(RestoreTestingOn) && r.on(BackupsOff))
    && (r.on(AllowDestructive) ==> r.on(Apply))
    && if r.on(AuthOff) then AuthOptions(r) == 0 else AuthOptions(r) == 0 || AuthOptions(r) == 4
  }

  /** The wiring refuses exactly the incoherent command lines. */
  lemma CoherentExactly(r: Reading)
    ensures Conflicting(r) <==> !Coherent(r)
  {
  }

  /** A switch sets its parameter either way; without it the stack's value or the default stays. */
  predicate Toggled(r: Reading, on: Opt, off: Opt, own: Option<string>, fallback: string, value: string) {
    && (r.on(on) ==> value == "true") && (r.on(off) ==> value == "false")
    && (!r.on(on) && !r.on(off) ==> value == Layered(None, own, fallback))
  }

  predicate SwitchesSet(r: Reading, stack: Stack, parameters: Parameters) {
    && Toggled(r, InboundOn, InboundOff, stack.parameters(EnableInbound), "false", parameters(EnableInbound))
    && Toggled(r, BackupsOn, BackupsOff, stack.parameters(EnableBackups), "true", parameters(EnableBackups))
    && Toggled(r, RestoreTestingOn, RestoreTestingOff, stack.parameters(EnableRestoreTesting), "false",
               parameters(EnableRestoreTesting))
  }

  /** The console login as a whole: switched off, set as given, or left as it is. */
  predicate AuthSet(rules: Rules, r: Reading, stack: Stack, parameters: Parameters) {
    if r.on(AuthOff) then
      && parameters(ConsoleAuthOrigin) == "" && parameters(ConsoleAuthGoogleClientId) == ""
      && parameters(ConsoleAuthAllowedEmails) == "" && parameters(ConsoleAuthSecretArn) == ""
    else if AuthOptions(r) == 4 then
      && r.given(AuthOrigin) == Some(parameters(ConsoleAuthOrigin)) && rules.originOk(parameters(ConsoleAuthOrigin))
      && r.given(AuthClientId) == Some(parameters(ConsoleAuthGoogleClientId))
      && r.given(AuthEmails).Some?
      && rules.emails(r.given(AuthEmails).value) == Some(parameters(ConsoleAuthAllowedEmails))
      && r.given(AuthSecret) == Some(parameters(ConsoleAuthSecretArn))
    else
      && parameters(ConsoleAuthOrigin) == Layered(None, stack.parameters(ConsoleAuthOrigin), "")
      && parameters(ConsoleAuthGoogleClientId) == Layered(None, stack.parameters(ConsoleAuthGoogleClientId), "")
      && parameters(ConsoleAuthAllowedEmails) == Layered(None, stack.parameters(ConsoleAuthAllowedEmails), "")
      && parameters(ConsoleAuthSecretArn) == Layered(None, stack.parameters(ConsoleAuthSecretArn), "")
  }

  predicate TextsSet(r: Reading, stack: Stack, parameters: Parameters) {
    && parameters(BootstrapSecretArn) == Layered(r.given(BootstrapSecret), stack.parameters(BootstrapSecretArn), "")
    && parameters(InboundRecipientSuffixes)
       == Layered(r.given(RecipientSuffixes), stack.parameters(InboundRecipientSuffixes), "@example.invalid")
  }

  lemma TextsMean(rules: Rules, name: string, stack: Stack, resources: seq<Resource>, r: Reading,
                  parameters: Parameters)
    requires PlansParameters(rules, name, stack, resources, r, parameters)
    ensures TextsSet(r, stack, parameters)
  {
    MeantByValue(rules, name, stack, resources, r, parameters, BootstrapSecretArn);
    MeantByValue(rules, name, stack, resources, r, parameters, InboundRecipientSuffixes);
  }

  /** A plain parameter is its validated option, or the stack's value, or the default. */
  predicate RowSet(rules: Rules, r: Reading, stack: Stack, parameters: Parameters, p: Parameter) {
    if r.given(Row(p)).Some? then rules.canonical(p, r.given(Row(p)).value) == Some(parameters(p))
    else parameters(p) == Layered(None, stack.parameters(p), Fallback(stack.present, p))
  }

  lemma MeantByValue(rules: Rules, name: string, stack: Stack, resources: seq<Resource>, r: Reading,
                     parameters: Parameters, p: Parameter)
    requires PlansParameters(rules, name, stack, resources, r, parameters)
    requires p !in {BackupVaultName, RestoreTestingPlanName, EnableGradualDeployments}
    ensures parameters(p) == Layered(Explicit(rules, r, p), stack.parameters(p), Fallback(stack.present, p))
  {
    assert Effective(name, Choose(rules, r), stack, resources, p) == Merged(Choose(rules, r), stack, p);
    MergedByValue(Choose(rules, r), stack, p);
  }

  lemma TogglesMean(rules: Rules, name: string, stack: Stack, resources: seq<Resource>, r: Reading,
                    parameters: Parameters)
    requires PlansParameters(rules, name, stack, resources, r, parameters)
    ensures SwitchesSet(r, stack, parameters)
  {
    CoherentExactly(r);
    MeantByValue(rules, name, stack, resources, r, parameters, EnableInbound);
    MeantByValue(rules, name, stack, resources, r, parameters, EnableBackups);
    MeantByValue(rules, name, stack, resources, r, parameters, EnableRestoreTesting);
  }

  lemma AuthMeans(rules: Rules, name: string, stack: Stack, resources: seq<Resource>, r: Reading,
                  parameters: Parameters)
    requires PlansParameters(rules, name, stack, resources, r, parameters)
    ensures AuthSet(rules, r, stack, parameters)
  {
    CoherentExactly(r);
    MeantByValue(rules, name, stack, resources, r, parameters, ConsoleAuthOrigin);
    MeantByValue(rules, name, stack, resources, r, parameters, ConsoleAuthGoogleClientId);
    MeantByValue(rules, name, stack, resources, r, parameters, ConsoleAuthAllowedEmails);
    MeantByValue(rules, name, stack, resources, r, parameters, ConsoleAuthSecretArn);
  }

  /**
   What a command line means: one that plans is coherent, its switches and options come
   through, validated, in the plan, and what it leaves open stays as the stack has it.
   */
  lemma OptionsMean(rules: Rules, name: string, stack: Stack, resources: seq<Resource>, r: Reading,
                    parameters: Parameters, p: Parameter)
    requires PlansParameters(rules, name, stack, resources, r, parameters)
    ensures Coherent(r) && AuthSet(rules, r, stack, parameters)
    ensures SwitchesSet(r, stack, parameters)
    ensures IsRow(p) ==> RowSet(rules, r, stack, parameters, p)
    ensures TextsSet(r, stack, parameters)
  {
    CoherentExactly(r);
    TogglesMean(rules, name, stack, resources, r, parameters);
    AuthMeans(rules, name, stack, resources, r, parameters);
    TextsMean(rules, name, stack, resources, r, parameters);
    if IsRow(p) {
      RowMeans(rules, name, stack, resources, r, parameters, p);
    }
  }

  lemma RowMeans(rules: Rules, name: string, stack: Stack, resources: seq<Resource>, r: Reading,
                 parameters: Parameters, p: Parameter)
    requires PlansParameters(rules, name, stack, resources, r, parameters) && IsRow(p)
    ensures RowSet(rules, r, stack, parameters, p)
  {
    MeantByValue(rules, name, stack, resources, r, parameters, p);
    RowExplicit(rules, r, p);
  }

  lemma RowExplicit(rules: Rules, r: Reading, p: Parameter)
    requires IsRow(p)
    ensures Explicit(rules, r, p) == Through(r.given(Row(p)), x => rules.canonical(p, x))
  {
  }
}
