/**
 The options of `hayasend deploy aws` and the template parameters behind them: the names
 wired up in src/cli.ts and the tables of src/cli-aws-deploy.ts.
 */
module AwsOptions {
  import opened Wrappers
  import opened OptionScan

  /** The parameters of the packaged template; any other stack parameter is filtered out. */
  datatype Parameter =
    | BootstrapSecretArn
    | ConsoleAuthOrigin
    | ConsoleAuthGoogleClientId
    | ConsoleAuthAllowedEmails
    | ConsoleAuthSecretArn
    | ApiThrottlingRateLimit
    | ApiThrottlingBurstLimit
    | LogRetentionDays
    | EnableInbound
    | InboundRetentionDays
    | InboundMaxMessageSizeBytes
    | InboundRecipientSuffixes
    | InboundTlsPolicy
    | WebhookDeliveryRetentionDays
    | TemplateHistoryRetentionDays
    | TemplateHistoryLimit
    | WorkerReservedConcurrency
    | WorkerMaximumConcurrency
    | InboundReservedConcurrency
    | EnableGradualDeployments
    | DeploymentPreferenceType
    | EnableBackups
    | BackupRetentionDays
    | BackupVaultName
    | PayloadNoncurrentVersionRetentionDays
    | EnableRestoreTesting
    | RestoreTestingPlanName

  function TemplateDefault(p: Parameter): string {
    match p
    case BootstrapSecretArn => ""
    case ConsoleAuthOrigin => ""
    case ConsoleAuthGoogleClientId => ""
    case ConsoleAuthAllowedEmails => ""
    case ConsoleAuthSecretArn => ""
    case ApiThrottlingRateLimit => "10"
    case ApiThrottlingBurstLimit => "20"
    case LogRetentionDays => "30"
    case EnableInbound => "false"
    case InboundRetentionDays => "7"
    case InboundMaxMessageSizeBytes => "26214400"
    case InboundRecipientSuffixes => "@example.invalid"
    case InboundTlsPolicy => "OPTIONAL"
    case WebhookDeliveryRetentionDays => "7"
    case TemplateHistoryRetentionDays => "90"
    case TemplateHistoryLimit => "50"
    case WorkerReservedConcurrency => "0"
    case WorkerMaximumConcurrency => "10"
    case InboundReservedConcurrency => "0"
    case EnableGradualDeployments => "false"
    case DeploymentPreferenceType => "Canary10Percent5Minutes"
    case EnableBackups => "true"
    case BackupRetentionDays => "35"
    case BackupVaultName => "HayaSendBackup"
    case PayloadNoncurrentVersionRetentionDays => "7"
    case EnableRestoreTesting => "false"
    case RestoreTestingPlanName => "HayaSendRestoreTesting"
  }

  /** Limits of stacks that were created before the parameters existed. */
  function LegacyDefault(p: Parameter): Option<string> {
    match p
    case ApiThrottlingRateLimit => Some("50")
    case ApiThrottlingBurstLimit => Some("100")
    case _ => None
  }

  /** Parameters that are always printed as one option with one value. */
  predicate IsRow(p: Parameter) {
    p in {ApiThrottlingRateLimit, ApiThrottlingBurstLimit, LogRetentionDays, InboundRetentionDays,
          InboundMaxMessageSizeBytes, InboundTlsPolicy, WebhookDeliveryRetentionDays, TemplateHistoryRetentionDays,
          TemplateHistoryLimit, WorkerReservedConcurrency, WorkerMaximumConcurrency, InboundReservedConcurrency,
          DeploymentPreferenceType, BackupRetentionDays, PayloadNoncurrentVersionRetentionDays}
  }

  datatype Opt =
    | Account | Region | StackName | Profile | RoleArn | ArtifactBucket
    | Row(parameter: Parameter)
    | InboundOn | InboundOff | RecipientSuffixes
    | BackupsOn | BackupsOff
    | RestoreTestingOn | RestoreTestingOff
    | BootstrapSecret
    | AuthOrigin | AuthClientId | AuthEmails | AuthSecret | AuthOff
    | Tag
    | Apply | AllowDestructive

  /** Every option but rows of parameters that have no option of their own. */
  predicate Exists(o: Opt) {
    o.Row? ==> IsRow(o.parameter)
  }

  function Name(o: Opt): string
    requires Exists(o)
  {
    match o
    case Account => "account"
    case Region => "region"
    case StackName => "stack"
    case Profile => "profile"
    case RoleArn => "cloudformation-role-arn"
    case ArtifactBucket => "artifact-bucket"
    case Row(ApiThrottlingRateLimit) => "api-rate-limit"
    case Row(ApiThrottlingBurstLimit) => "api-burst-limit"
    case Row(LogRetentionDays) => "log-retention-days"
    case Row(InboundRetentionDays) => "inbound-retention-days"
    case Row(InboundMaxMessageSizeBytes) => "inbound-max-message-bytes"
    case Row(InboundTlsPolicy) => "inbound-tls-policy"
    case Row(WebhookDeliveryRetentionDays) => "webhook-retention-days"
    case Row(TemplateHistoryRetentionDays) => "template-history-retention-days"
    case Row(TemplateHistoryLimit) => "template-history-limit"
    case Row(WorkerReservedConcurrency) => "worker-reserved-concurrency"
    case Row(WorkerMaximumConcurrency) => "worker-maximum-concurrency"
    case Row(InboundReservedConcurrency) => "inbound-reserved-concurrency"
    case Row(DeploymentPreferenceType) => "deployment-preference-type"
    case Row(BackupRetentionDays) => "backup-retention-days"
    case Row(PayloadNoncurrentVersionRetentionDays) => "payload-noncurrent-version-retention-days"
    case InboundOn => "enable-inbound"
    case InboundOff => "disable-inbound"
    case RecipientSuffixes => "inbound-recipient-suffixes"
    case BackupsOn => "enable-backups"
    case BackupsOff => "disable-backups"
    case RestoreTestingOn => "enable-restore-testing"
    case RestoreTestingOff => "disable-restore-testing"
    case BootstrapSecret => "bootstrap-secret-arn"
    case AuthOrigin => "console-auth-origin"
    case AuthClientId => "console-auth-google-client-id"
    case AuthEmails => "console-auth-allowed-emails"
    case AuthSecret => "console-auth-secret-arn"
    case AuthOff => "disable-console-auth"
    case Tag => "tag"
    case Apply => "apply"
    case AllowDestructive => "allow-destructive-changes"
  }

  predicate IsSwitch(o: Opt) {
    o in {InboundOn, InboundOff, BackupsOn, BackupsOff, RestoreTestingOn, RestoreTestingOff, AuthOff, Apply,
          AllowDestructive}
  }

  /** The position of an option in the printed command. */
  function Rank(o: Opt): nat
    requires Exists(o)
  {
    match o
    case Account => 0
    case Region => 1
    case StackName => 2
    case Row(ApiThrottlingRateLimit) => 3
    case Row(ApiThrottlingBurstLimit) => 4
    case Profile => 5
    case RoleArn => 6
    case ArtifactBucket => 7
    case InboundOn => 8
    case InboundOff => 9
    case RecipientSuffixes => 10
    case Row(LogRetentionDays) => 11
    case Row(InboundRetentionDays) => 12
    case Row(InboundMaxMessageSizeBytes) => 13
    case Row(InboundTlsPolicy) => 14
    case Row(WebhookDeliveryRetentionDays) => 15
    case Row(TemplateHistoryRetentionDays) => 16
    case Row(TemplateHistoryLimit) => 17
    case Row(WorkerReservedConcurrency) => 18
    case Row(WorkerMaximumConcurrency) => 19
    case Row(InboundReservedConcurrency) => 20
    case Row(DeploymentPreferenceType) => 21
    case BackupsOn => 22
    case BackupsOff => 23
    case Row(BackupRetentionDays) => 24
    case Row(PayloadNoncurrentVersionRetentionDays) => 25
    case RestoreTestingOn => 26
    case RestoreTestingOff => 27
    case BootstrapSecret => 28
    case AuthOrigin => 29
    case AuthClientId => 30
    case AuthEmails => 31
    case AuthSecret => 32
    case AuthOff => 33
    case Tag => 34
    case Apply => 35
    case AllowDestructive => 36
  }

  /** Reads the rank off a name: its length and three of its characters tell the options apart. */
  function RankOfName(name: string): int {
    if |name| < 3 then -1
    else
      var first, second, last := name[0], name[1], name[|name| - 1];
      match |name|
      case 3 => 34
      case 5 => if first == 's' then 2 else 35
      case 6 => 1
      case 7 => if first == 'a' then 0 else 5
      case 14 => if first == 'a' then 3 else if last == 'd' then 8 else 22
      case 15 => if last == 'd' then 9 else if last == 's' then 23 else if second == 'r' then 7 else 4
      case 18 => if first == 'l' then 11 else 14
      case 19 => 29
      case 20 => if first == 'b' then 28 else 33
      case 21 => 24
      case 22 => if first == 'i' then 12 else if first == 'w' then 15 else if first == 't' then 17 else 26
      case 23 => if first == 'd' then 27 else if second == 'l' then 6 else 32
      case 25 => if first == 'i' then 13 else 36
      case 26 => if first == 'i' then 10 else if first == 'w' then 19 else 21
      case 27 => if first == 'c' then 31 else 18
      case 28 => 20
      case 29 => 30
      case 31 => 16
      case 41 => 25
      case _ => -1
  }

  lemma FirstRowNames(o: Opt)
    requires Exists(o) && o.Row? && Rank(o) < 16
    ensures RankOfName(Name(o)) == Rank(o)
  {
  }

  lemma LastRowNames(o: Opt)
    requires Exists(o) && o.Row? && Rank(o) >= 16
    ensures RankOfName(Name(o)) == Rank(o)
  {
  }

  lemma FirstNames(o: Opt)
    requires Exists(o) && !o.Row? && Rank(o) < 23
    ensures RankOfName(Name(o)) == Rank(o)
  {
  }

  lemma LastNames(o: Opt)
    requires Exists(o) && !o.Row? && Rank(o) >= 23
    ensures RankOfName(Name(o)) == Rank(o)
  {
  }

  lemma NameTellsRank(o: Opt)
    requires Exists(o)
    ensures RankOfName(Name(o)) == Rank(o)
  {
    if o.Row? && Rank(o) < 16 {
      FirstRowNames(o);
    } else if o.Row? {
      LastRowNames(o);
    } else if Rank(o) < 23 {
      FirstNames(o);
    } else {
      LastNames(o);
    }
  }

  lemma RankTellsOption(a: Opt, b: Opt)
    requires Exists(a) && Exists(b) && Rank(a) == Rank(b)
    ensures a == b
  {
  }

  /** No two options share a name. */
  lemma NamesDiffer(a: Opt, b: Opt)
    requires Exists(a) && Exists(b) && Name(a) == Name(b)
    ensures a == b
  {
    NameTellsRank(a);
    NameTellsRank(b);
    RankTellsOption(a, b);
  }
}
