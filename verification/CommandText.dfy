/**
 The `apply_command` of src/cli-aws-deploy.ts option by option, under the names of
 `deploy aws` and in the order in which they are printed.
 */
module CommandText {
  import opened Wrappers
  import opened OptionScan
  import opened AwsOptions
  import opened AwsParameters
  import opened AwsApplyCommand
  import opened AwsRoundTrip

  function Set(name: string, value: string): Item {
    Valued(name, Some(value))
  }

  function SetIf(name: string, value: Option<string>): seq<Item> {
    if value.Some? then [Set(name, value.value)] else []
  }

  function TargetText(target: Target): seq<Item> {
    [Set("account", target.account), Set("region", target.region), Set("stack", target.stack)]
  }

  function LimitsText(p: Parameters): seq<Item> {
    [Set("api-rate-limit", p(ApiThrottlingRateLimit)), Set("api-burst-limit", p(ApiThrottlingBurstLimit))]
  }

  function ExtrasText(target: Target): seq<Item> {
    SetIf("profile", target.profile) + SetIf("cloudformation-role-arn", target.roleArn)
    + SetIf("artifact-bucket", target.artifactBucket)
  }

  function InboundText(p: Parameters): seq<Item> {
    if p(EnableInbound) == "true"
    then [Switch("enable-inbound"), Set("inbound-recipient-suffixes", p(InboundRecipientSuffixes))]
    else [Switch("disable-inbound")]
  }

  function ServiceText(p: Parameters): seq<Item> {
    [Set("log-retention-days", p(LogRetentionDays)), Set("inbound-retention-days", p(InboundRetentionDays)),
     Set("inbound-max-message-bytes", p(InboundMaxMessageSizeBytes)), Set("inbound-tls-policy", p(InboundTlsPolicy)),
     Set("webhook-retention-days", p(WebhookDeliveryRetentionDays)),
     Set("template-history-retention-days", p(TemplateHistoryRetentionDays)),
     Set("template-history-limit", p(TemplateHistoryLimit)),
     Set("worker-reserved-concurrency", p(WorkerReservedConcurrency)),
     Set("worker-maximum-concurrency", p(WorkerMaximumConcurrency)),
     Set("inbound-reserved-concurrency", p(InboundReservedConcurrency)),
     Set("deployment-preference-type", p(DeploymentPreferenceType))]
  }

  function BackupsText(p: Parameters): seq<Item> {
    [Switch(if p(EnableBackups) == "true" then "enable-backups" else "disable-backups")]
  }

  function RetentionText(p: Parameters): seq<Item> {
    [Set("backup-retention-days", p(BackupRetentionDays)),
     Set("payload-noncurrent-version-retention-days", p(PayloadNoncurrentVersionRetentionDays))]
  }

  function RestoreText(p: Parameters): seq<Item> {
    [Switch(if p(EnableRestoreTesting) == "true" then "enable-restore-testing" else "disable-restore-testing")]
  }

  function BootstrapText(p: Parameters): seq<Item> {
    if p(BootstrapSecretArn) == "" then [] else [Set("bootstrap-secret-arn", p(BootstrapSecretArn))]
  }

  function AuthText(p: Parameters): seq<Item> {
    if p(ConsoleAuthSecretArn) == "" then [Switch("disable-console-auth")]
    else
      [Set("console-auth-origin", p(ConsoleAuthOrigin)),
       Set("console-auth-google-client-id", p(ConsoleAuthGoogleClientId)),
       Set("console-auth-allowed-emails", p(ConsoleAuthAllowedEmails)),
       Set("console-auth-secret-arn", p(ConsoleAuthSecretArn))]
  }

  function TagsText(tokens: seq<string>): seq<Item> {
    seq(|tokens|, i requires 0 <= i < |tokens| => Set("tag", tokens[i]))
  }

  // -------------------------------------------------------------- the proof

  function Text(entries: seq<Entry>): seq<Item> {
    Items(DeployVocabulary(), entries)
  }

  lemma TextAppend(a: seq<Entry>, b: seq<Entry>)
    ensures Text(a + b) == Text(a) + Text(b)
  {
  }

  lemma MaybeText(o: Opt, value: Option<string>)
    ensures Text(Maybe(o, value)) == SetIf(NameOf(o), value)
  {
  }

  lemma PlaceText(target: Target)
    ensures Text(TargetEntries(target)) == TargetText(target)
  {
  }

  lemma ExtraText(target: Target)
    ensures Text(TargetExtras(target)) == ExtrasText(target)
  {
    MaybeText(Profile, target.profile);
    MaybeText(RoleArn, target.roleArn);
    MaybeText(ArtifactBucket, target.artifactBucket);
    TextAppend(Maybe(Profile, target.profile), Maybe(RoleArn, target.roleArn));
    TextAppend(Maybe(Profile, target.profile) + Maybe(RoleArn, target.roleArn),
               Maybe(ArtifactBucket, target.artifactBucket));
  }

  lemma RowText(p: Parameters, rows: seq<Parameter>, i: nat)
    requires i < |rows|
    ensures |Text(Rows(p, rows))| == |rows| && Text(Rows(p, rows))[i] == Set(NameOf(Row(rows[i])), p(rows[i]))
  {
  }

  lemma LimitText(p: Parameters)
    ensures Text(Rows(p, LIMIT_ROWS)) == LimitsText(p)
  {
    forall i | 0 <= i < 2
      ensures Text(Rows(p, LIMIT_ROWS))[i] == LimitsText(p)[i]
    {
      RowText(p, LIMIT_ROWS, i);
    }
  }

  lemma RetentionRowText(p: Parameters)
    ensures Text(Rows(p, BACKUP_ROWS)) == RetentionText(p)
  {
    forall i | 0 <= i < 2
      ensures Text(Rows(p, BACKUP_ROWS))[i] == RetentionText(p)[i]
    {
      RowText(p, BACKUP_ROWS, i);
    }
  }

  lemma EarlyServiceText(p: Parameters, i: nat)
    requires i < 6
    ensures Set(NameOf(Row(MIDDLE_ROWS[i])), p(MIDDLE_ROWS[i])) == ServiceText(p)[i]
  {
  }

  lemma LateServiceText(p: Parameters, i: nat)
    requires 6 <= i < 11
    ensures Set(NameOf(Row(MIDDLE_ROWS[i])), p(MIDDLE_ROWS[i])) == ServiceText(p)[i]
  {
  }

  lemma ServiceRowText(p: Parameters)
    ensures Text(Rows(p, MIDDLE_ROWS)) == ServiceText(p)
  {
    forall i | 0 <= i < 11
      ensures Text(Rows(p, MIDDLE_ROWS))[i] == ServiceText(p)[i]
    {
      RowText(p, MIDDLE_ROWS, i);
      if i < 6 {
        EarlyServiceText(p, i);
      } else {
        LateServiceText(p, i);
      }
    }
  }

  lemma SwitchText(p: Parameters)
    ensures Text(InboundEntries(p)) == InboundText(p)
    ensures Text(BackupsEntries(p)) == BackupsText(p)
    ensures Text(RestoreEntries(p)) == RestoreText(p)
    ensures Text(BootstrapEntries(p)) == BootstrapText(p)
  {
  }

  lemma ConsoleText(p: Parameters)
    ensures Text(AuthEntries(p)) == AuthText(p)
  {
  }

  /** The first half of the twelve parts of the printed command, in order. */
  lemma FirstPartsText(target: Target, p: Parameters, tokens: seq<string>)
    ensures var parts := Parts(target, p, tokens);
      && ApplyEntries(target, p, tokens) == Flat(parts) && |parts| == 12
      && Text(parts[0]) == TargetText(target) && Text(parts[1]) == LimitsText(p)
      && Text(parts[2]) == ExtrasText(target) && Text(parts[3]) == InboundText(p)
      && Text(parts[4]) == ServiceText(p) && Text(parts[5]) == BackupsText(p)
  {
    PlaceText(target);
    ExtraText(target);
    LimitText(p);
    ServiceRowText(p);
    SwitchText(p);
  }

  /** The second half. */
  lemma LastPartsText(target: Target, p: Parameters, tokens: seq<string>)
    ensures var parts := Parts(target, p, tokens);
      && Text(parts[6]) == RetentionText(p) && Text(parts[7]) == RestoreText(p)
      && Text(parts[8]) == BootstrapText(p) && Text(parts[9]) == AuthText(p)
      && Text(parts[10]) == TagsText(tokens) && Text(parts[11]) == [Switch("apply")]
  {
    RetentionRowText(p);
    SwitchText(p);
    ConsoleText(p);
    TagText(tokens);
  }

  lemma TagText(tokens: seq<string>)
    ensures Text(TagEntries(tokens)) == TagsText(tokens) && Text([On(Apply)]) == [Switch("apply")]
  {
  }
}
