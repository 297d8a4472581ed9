/**
 The fail-closed go/no-go decision for migrating a workload from Resend
 (src/cli-resend-migration.ts): the refinements of the two schemas, the assessment of the
 inventory and the report that combines it with operational evidence.
 */
module MigrationGate {
  import opened Wrappers

  // ------------------------------------------------------------------ inputs

  datatype Transport = Transport(smtp: bool, applicationChange: bool, providerManaged: bool, rollbackUnverified: bool)

  datatype Inspection = Inspection(sourceReviewed: bool, accountReviewed: bool)

  datatype Stream = Stream(name: string, requiredCanaryMessages: nat, features: seq<string>)

  datatype Features = Features(
    sendFields: seq<string>,
    templatesUsed: bool, templatesCount: nat,
    webhookEvents: seq<string>, verifiesSignatures: bool,
    suppressionsUsed: bool, suppressionsCount: nat,
    schedulesUsed: bool, maximumHorizonDays: real,
    inboundUsed: bool,
    marketingUsed: bool, marketingApis: seq<string>)

  datatype Inventory = Inventory(
    schemaVersion: nat,
    transport: Option<Transport>,
    inspection: Option<Inspection>,
    otherLanguages: bool,
    features: Features,
    streams: seq<Stream>)

  datatype StreamEvidence = StreamEvidence(
    name: string,
    comparisonMessages: nat, terminalEventMatches: nat, mailboxReceipts: nat,
    rollbackRehearsed: bool, verifiedFeatures: seq<string>)

  datatype Evidence = Evidence(
    observedAt: int,
    productionAccess: bool, sendingEnabled: bool,
    calendarDays: nat, controlledNotifications: nat,
    sdkContractVerified: bool,
    sourceTemplates: nat, targetTemplates: nat,
    sourceSuppressions: nat, targetSuppressions: nat,
    webhooksVerified: bool, inboundVerified: bool,
    streams: seq<StreamEvidence>)

  // ----------------------------------------------------------------- schemas

  /** The features that a workload uses by name. */
  function UsedFeatures(f: Features): set<string> {
    (set i | 0 <= i < |f.sendFields| :: f.sendFields[i])
    + (if f.templatesUsed then {"templates"} else {})
    + (if f.webhookEvents != [] then {"webhooks"} else {})
    + (if f.suppressionsUsed then {"suppressions"} else {})
    + (if f.schedulesUsed then {"schedules"} else {})
    + (if f.inboundUsed then {"inbound"} else {})
  }

  predicate Assigned(streams: seq<Stream>, feature: string) {
    exists i :: 0 <= i < |streams| && feature in streams[i].features
  }

  /** The shape and the refinements that every accepted inventory satisfies. */
  predicate ValidInventory(inv: Inventory) {
    && (inv.schemaVersion == 1 || inv.schemaVersion == 2)
    && (inv.schemaVersion == 2 ==> inv.transport.Some? && inv.inspection.Some?)
    && (!inv.features.templatesUsed ==> inv.features.templatesCount == 0)
    && (!inv.features.suppressionsUsed ==> inv.features.suppressionsCount == 0)
    && inv.features.maximumHorizonDays >= 0.0
    && (!inv.features.schedulesUsed ==> inv.features.maximumHorizonDays == 0.0)
    && (!inv.features.marketingUsed ==> inv.features.marketingApis == [])
    && inv.streams != []
    && (forall i :: 0 <= i < |inv.streams| ==>
          inv.streams[i].requiredCanaryMessages > 0 && inv.streams[i].features != [])
    && (forall i, j :: 0 <= i < j < |inv.streams| ==> inv.streams[i].name != inv.streams[j].name)
    && (forall f :: f in UsedFeatures(inv.features) ==> Assigned(inv.streams, f))
  }

  predicate ValidEvidence(ev: Evidence) {
    && (forall i, j :: 0 <= i < j < |ev.streams| ==> ev.streams[i].name != ev.streams[j].name)
    && (forall i :: 0 <= i < |ev.streams| ==>
          && ev.streams[i].terminalEventMatches <= ev.streams[i].comparisonMessages
          && ev.streams[i].mailboxReceipts <= ev.streams[i].comparisonMessages)
  }

  // -------------------------------------------------------------- assessment

  datatype Blocker =
    | OldSchema | SourceNotReviewed | AccountNotReviewed | SmtpTransport
    | UnsupportedFields | UnsupportedEvents | HorizonTooLong | MarketingUsed | SignaturesNotVerified
    | GateFailed(gate: Gate)

  datatype Warning =
    | ApplicationChange | ProviderManaged | RollbackUnverified | SuppressionMigration | InboundSeparate | OtherLanguages

  /** What the tool supports. */
  datatype Support = Support(sendFields: set<string>, webhookEvents: set<string>)

  const RESEND_SUPPORT: Support := Support(
    {"attachments", "batch", "bcc", "cc", "from", "headers", "html", "idempotency_key", "react", "reply_to",
     "scheduled_at", "subject", "tags", "template", "text", "to"},
    {"email.bounced", "email.clicked", "email.complained", "email.delivered", "email.delivery_delayed", "email.failed",
     "email.opened", "email.received", "email.scheduled", "email.sent", "email.suppressed"})

  predicate AllIn(names: seq<string>, known: set<string>) {
    forall i :: 0 <= i < |names| ==> names[i] in known
  }

  /** The reasons to turn an inventory down, each on its own. */
  predicate Blocks(support: Support, inv: Inventory, b: Blocker) {
    match b
    case OldSchema => inv.schemaVersion == 1
    case SourceNotReviewed => inv.schemaVersion == 2 && !(inv.inspection.Some? && inv.inspection.value.sourceReviewed)
    case AccountNotReviewed => inv.schemaVersion == 2 && !(inv.inspection.Some? && inv.inspection.value.accountReviewed)
    case SmtpTransport => inv.schemaVersion == 2 && inv.transport.Some? && inv.transport.value.smtp
    case UnsupportedFields => !AllIn(inv.features.sendFields, support.sendFields)
    case UnsupportedEvents => !AllIn(inv.features.webhookEvents, support.webhookEvents)
    case HorizonTooLong => inv.features.schedulesUsed && inv.features.maximumHorizonDays > 30.0
    case MarketingUsed => inv.features.marketingUsed
    case SignaturesNotVerified => inv.features.webhookEvents != [] && !inv.features.verifiesSignatures
    case GateFailed(_) => false
  }

  function Unsupported(names: seq<string>, known: set<string>): seq<string> {
    if names == [] then [] else (if names[0] in known then [] else [names[0]]) + Unsupported(names[1..], known)
  }

  lemma {:induction false} UnsupportedEmpty(names: seq<string>, known: set<string>)
    ensures Unsupported(names, known) == [] <==> AllIn(names, known)
  {
    if names != [] {
      UnsupportedEmpty(names[1..], known);
      assert forall i :: 0 < i < |names| ==> names[i] == names[1..][i - 1];
      assert forall i :: 0 <= i < |names[1..]| ==> names[1..][i] == names[i + 1];
    }
  }

  /** `if (when) list.push(item)` */
  function PushIf<T(!new)>(list: seq<T>, when: bool, item: T): (longer: seq<T>)
    ensures forall x :: x in longer <==> x in list || (when && x == item)
    ensures list <= longer
  {
    if when then list + [item] else list
  }

  predicate AboutReview(b: Blocker) {
    b.OldSchema? || b.SourceNotReviewed? || b.AccountNotReviewed? || b.SmtpTransport?
  }

  predicate AboutTransport(w: Warning) {
    w.ApplicationChange? || w.ProviderManaged? || w.RollbackUnverified?
  }

  /** What the review and the transport attest. */
  method AssessReview(support: Support, inv: Inventory) returns (blockers: seq<Blocker>, warnings: seq<Warning>)
    ensures forall b :: b in blockers <==> AboutReview(b) && Blocks(support, inv, b)
    ensures forall w :: w in warnings <==> AboutTransport(w) && Warns(inv, w)
  {
    var second, reviewed := inv.schemaVersion == 2, inv.inspection;
    var transport := if second then inv.transport else None;
    blockers := PushIf([], inv.schemaVersion == 1, OldSchema);
    blockers := PushIf(blockers, second && !(reviewed.Some? && reviewed.value.sourceReviewed), SourceNotReviewed);
    blockers := PushIf(blockers, second && !(reviewed.Some? && reviewed.value.accountReviewed), AccountNotReviewed);
    blockers := PushIf(blockers, transport.Some? && transport.value.smtp, SmtpTransport);
    warnings := PushIf([], transport.Some? && transport.value.applicationChange, ApplicationChange);
    warnings := PushIf(warnings, transport.Some? && transport.value.providerManaged, ProviderManaged);
    warnings := PushIf(warnings, transport.Some? && transport.value.rollbackUnverified, RollbackUnverified);
  }

  method AnyUnsupported(names: seq<string>, known: set<string>) returns (any: bool)
    ensures any <==> !AllIn(names, known)
  {
    UnsupportedEmpty(names, known);
    any := Unsupported(names, known) != [];
  }

  /** The blockers that the used features add. */
  method AssessFeatures(support: Support, inv: Inventory, review: seq<Blocker>) returns (blockers: seq<Blocker>)
    requires forall b :: b in review <==> AboutReview(b) && Blocks(support, inv, b)
    ensures forall b :: b in blockers <==> Blocks(support, inv, b)
  {
    var fields := AnyUnsupported(inv.features.sendFields, support.sendFields);
    var events := AnyUnsupported(inv.features.webhookEvents, support.webhookEvents);
    blockers := PushIf(review, fields, UnsupportedFields);
    blockers := PushIf(blockers, events, UnsupportedEvents);
    blockers := PushIf(blockers, inv.features.schedulesUsed && inv.features.maximumHorizonDays > 30.0, HorizonTooLong);
    blockers := PushIf(blockers, inv.features.marketingUsed, MarketingUsed);
    blockers := PushIf(blockers, inv.features.webhookEvents != [] && !inv.features.verifiesSignatures,
                       SignaturesNotVerified);
  }

  /** `assessResendInventory` */
  method AssessResendInventory(support: Support, inv: Inventory)
    returns (blockers: seq<Blocker>, warnings: seq<Warning>)
    ensures forall b :: b in blockers <==> Blocks(support, inv, b)
    ensures forall w :: w in warnings <==> Warns(inv, w)
  {
    blockers, warnings := AssessReview(support, inv);
    blockers := AssessFeatures(support, inv, blockers);
    warnings := PushIf(warnings, inv.features.suppressionsCount > 0, SuppressionMigration);
    warnings := PushIf(warnings, inv.features.inboundUsed, InboundSeparate);
    warnings := PushIf(warnings, inv.otherLanguages, OtherLanguages);
  }

  predicate Warns(inv: Inventory, w: Warning) {
    var transport := if inv.schemaVersion == 2 then inv.transport else None;
    match w
    case ApplicationChange => transport.Some? && transport.value.applicationChange
    case ProviderManaged => transport.Some? && transport.value.providerManaged
    case RollbackUnverified => transport.Some? && transport.value.rollbackUnverified
    case SuppressionMigration => inv.features.suppressionsCount > 0
    case InboundSeparate => inv.features.inboundUsed
    case OtherLanguages => inv.otherLanguages
  }

  // ------------------------------------------------------------------- report

  datatype Gate =
    | Freshness | SesProductionAccess | Dogfood | SdkContract
    | TemplateCounts | SuppressionCounts | WebhookPaths | InboundPaths
    | StreamGate(name: string)

  datatype Check = Check(gate: Gate, passed: bool)

  datatype Report = Report(go: bool, checks: seq<Check>, blockers: seq<Blocker>)

  /** `new Map(...)`: the last entry of a name wins. */
  function EvidenceByStream(streams: seq<StreamEvidence>): map<string, StreamEvidence> {
    if streams == [] then map[]
    else
      var last := streams[|streams| - 1];
      EvidenceByStream(streams[..|streams| - 1])[last.name := last]
  }

  function Missing(features: seq<string>, verified: seq<string>): seq<string> {
    if features == [] then []
    else (if features[0] in verified then [] else [features[0]]) + Missing(features[1..], verified)
  }

  /** This evidence carries the stream. */
  predicate Carries(stream: Stream, e: StreamEvidence) {
    && e.comparisonMessages >= stream.requiredCanaryMessages
    && e.terminalEventMatches == e.comparisonMessages
    && e.mailboxReceipts > 0
    && e.rollbackRehearsed
    && forall i :: 0 <= i < |stream.features| ==> stream.features[i] in e.verifiedFeatures
  }

  predicate StreamPassed(stream: Stream, evidence: map<string, StreamEvidence>) {
    stream.name in evidence && Carries(stream, evidence[stream.name])
  }

  predicate Fresh(ev: Evidence, now: int) {
    -5 * 60000 <= now - ev.observedAt <= 24 * 60 * 60000
  }

  predicate CountsMatch(used: bool, inventory: nat, source: nat, target: nat) {
    !used || (source == inventory && target == inventory)
  }

  /** Whether a gate of the fixed list is passed. */
  predicate Passed(inv: Inventory, ev: Evidence, now: int, gate: Gate) {
    match gate
    case Freshness => Fresh(ev, now)
    case SesProductionAccess => ev.productionAccess && ev.sendingEnabled
    case Dogfood => ev.calendarDays >= 14 && ev.controlledNotifications >= 1000
    case SdkContract => ev.sdkContractVerified
    case TemplateCounts =>
      CountsMatch(inv.features.templatesUsed, inv.features.templatesCount, ev.sourceTemplates, ev.targetTemplates)
    case SuppressionCounts =>
      CountsMatch(inv.features.suppressionsUsed, inv.features.suppressionsCount, ev.sourceSuppressions,
                  ev.targetSuppressions)
    case WebhookPaths => inv.features.webhookEvents == [] || ev.webhooksVerified
    case InboundPaths => !inv.features.inboundUsed || ev.inboundVerified
    case StreamGate(_) => true
  }

  const FIXED_GATES: seq<Gate> :=
    [Freshness, SesProductionAccess, Dogfood, SdkContract, TemplateCounts, SuppressionCounts, WebhookPaths,
     InboundPaths]

  lemma {:induction false} MissingEmpty(features: seq<string>, verified: seq<string>)
    ensures Missing(features, verified) == [] <==> forall i :: 0 <= i < |features| ==> features[i] in verified
  {
    if features != [] {
      var rest := features[1..];
      MissingEmpty(rest, verified);
      assert forall i :: 0 < i < |features| ==> features[i] == rest[i - 1];
      assert forall i :: 0 <= i < |rest| ==> rest[i] == features[i + 1];
    }
  }

  /** Checks and blockers grow together: every failed check, and only a failed check, adds its blocker. */
  ghost predicate Kept(assessed: seq<Blocker>, checks: seq<Check>, blockers: seq<Blocker>) {
    && assessed <= blockers
    && |blockers| == |assessed| + Count(checks)
    && forall b :: b in blockers <==> b in assessed || (b.GateFailed? && Check(b.gate, false) in checks)
  }

  function Count(checks: seq<Check>): nat {
    if checks == [] then 0 else Count(checks[..|checks| - 1]) + if checks[|checks| - 1].passed then 0 else 1
  }

  /** The closure `addCheck`. */
  method AddCheck(checks: seq<Check>, blockers: seq<Blocker>, gate: Gate, passed: bool, ghost assessed: seq<Blocker>)
    returns (moreChecks: seq<Check>, moreBlockers: seq<Blocker>)
    requires Kept(assessed, checks, blockers)
    ensures moreChecks == checks + [Check(gate, passed)] && Kept(assessed, moreChecks, moreBlockers)
  {
    moreChecks := checks + [Check(gate, passed)];
    assert moreChecks[..|checks|] == checks;
    moreBlockers := PushIf(blockers, !passed, GateFailed(gate));
  }

  /** What the checks of a report are. */
  function FixedChecks(inv: Inventory, ev: Evidence, now: int, n: nat): seq<Check>
    requires n <= |FIXED_GATES|
  {
    seq(n, i requires 0 <= i < n => Check(FIXED_GATES[i], Passed(inv, ev, now, FIXED_GATES[i])))
  }

  function StreamChecks(inv: Inventory, ev: Evidence, n: nat): seq<Check>
    requires n <= |inv.streams|
  {
    seq(n, i requires 0 <= i < n =>
        Check(StreamGate(inv.streams[i].name), StreamPassed(inv.streams[i], EvidenceByStream(ev.streams))))
  }

  function AllChecks(inv: Inventory, ev: Evidence, now: int): seq<Check> {
    FixedChecks(inv, ev, now, |FIXED_GATES|) + StreamChecks(inv, ev, |inv.streams|)
  }

  /** The fixed gates. */
  method CheckFixed(inv: Inventory, ev: Evidence, now: int, assessed: seq<Blocker>)
    returns (checks: seq<Check>, blockers: seq<Blocker>)
    ensures checks == FixedChecks(inv, ev, now, |FIXED_GATES|) && Kept(assessed, checks, blockers)
  {
    checks, blockers := [], assessed;
    for i := 0 to |FIXED_GATES|
      invariant checks == FixedChecks(inv, ev, now, i) && Kept(assessed, checks, blockers)
    {
      checks, blockers := AddCheck(checks, blockers, FIXED_GATES[i], Passed(inv, ev, now, FIXED_GATES[i]), assessed);
    }
  }

  /** The gate of one stream. */
  method CheckStream(stream: Stream, evidence: map<string, StreamEvidence>) returns (passed: bool)
    ensures passed <==> StreamPassed(stream, evidence)
  {
    if stream.name !in evidence {
      return false;
    }
    var result := evidence[stream.name];
    var missing := Missing(stream.features, result.verifiedFeatures);
    MissingEmpty(stream.features, result.verifiedFeatures);
    passed := result.comparisonMessages >= stream.requiredCanaryMessages
      && result.terminalEventMatches == result.comparisonMessages
      && result.mailboxReceipts > 0 && result.rollbackRehearsed && missing == [];
  }

  /** The gates of the canary streams. */
  method CheckStreams(inv: Inventory, ev: Evidence, checks: seq<Check>, blockers: seq<Blocker>,
                      ghost assessed: seq<Blocker>)
    returns (allChecks: seq<Check>, allBlockers: seq<Blocker>)
    requires Kept(assessed, checks, blockers)
    ensures allChecks == checks + StreamChecks(inv, ev, |inv.streams|) && Kept(assessed, allChecks, allBlockers)
  {
    allChecks, allBlockers := checks, blockers;
    var evidence := EvidenceByStream(ev.streams);
    for i := 0 to |inv.streams|
      invariant allChecks == checks + StreamChecks(inv, ev, i) && Kept(assessed, allChecks, allBlockers)
    {
      var passed := CheckStream(inv.streams[i], evidence);
      allChecks, allBlockers := AddCheck(allChecks, allBlockers, StreamGate(inv.streams[i].name), passed, assessed);
    }
  }

  /** `buildResendMigrationReport`: GO exactly when nothing blocks the inventory and every check passed. */
  method BuildResendMigrationReport(support: Support, inv: Inventory, ev: Evidence, now: int) returns (report: Report)
    ensures report.checks == AllChecks(inv, ev, now)
    ensures report.go <==> Go(support, inv, ev, now)
    ensures report.go <==> report.blockers == []
    ensures forall b :: b in report.blockers <==>
      Blocks(support, inv, b) || (b.GateFailed? && Check(b.gate, false) in report.checks)
  {
    var assessed, _ := AssessResendInventory(support, inv);
    var checks, blockers := CheckFixed(inv, ev, now, assessed);
    checks, blockers := CheckStreams(inv, ev, checks, blockers, assessed);
    NoneFailed(checks);
    Nothing(assessed);
    report := Report(blockers == [], checks, blockers);
  }

  lemma {:induction false} NoneFailed(checks: seq<Check>)
    ensures Count(checks) == 0 <==> forall i :: 0 <= i < |checks| ==> checks[i].passed
  {
    if checks != [] {
      NoneFailed(checks[..|checks| - 1]);
    }
  }

  lemma Nothing(blockers: seq<Blocker>)
    ensures blockers == [] <==> forall b :: b !in blockers
  {
    if blockers != [] {
      assert blockers[0] in blockers;
    }
  }

  /** The decision: the inventory is eligible and all checks pass. */
  ghost predicate Go(support: Support, inv: Inventory, ev: Evidence, now: int) {
    && (forall b :: !Blocks(support, inv, b))
    && (forall i :: 0 <= i < |AllChecks(inv, ev, now)| ==> AllChecks(inv, ev, now)[i].passed)
  }

  // ---------------------------------------------------------- what GO stands for

  lemma {:induction false} EvidenceListed(streams: seq<StreamEvidence>, name: string)
    requires name in EvidenceByStream(streams)
    ensures EvidenceByStream(streams)[name] in streams && EvidenceByStream(streams)[name].name == name
  {
    var rest, last := streams[..|streams| - 1], streams[|streams| - 1];
    if name != last.name {
      EvidenceListed(rest, name);
    }
  }

  lemma {:induction false} EvidenceFound(streams: seq<StreamEvidence>, i: nat)
    requires i < |streams| && forall a, b :: 0 <= a < b < |streams| ==> streams[a].name != streams[b].name
    ensures streams[i].name in EvidenceByStream(streams) && EvidenceByStream(streams)[streams[i].name] == streams[i]
    decreases |streams|
  {
    var rest := streams[..|streams| - 1];
    if i < |rest| {
      EvidenceFound(rest, i);
      assert streams[i].name != streams[|streams| - 1].name;
    }
  }

  lemma GoStreams(support: Support, inv: Inventory, ev: Evidence, now: int, i: nat)
    requires Go(support, inv, ev, now) && i < |inv.streams|
    ensures StreamPassed(inv.streams[i], EvidenceByStream(ev.streams))
  {
    var at := |FIXED_GATES| + i;
    assert AllChecks(inv, ev, now)[at] == StreamChecks(inv, ev, |inv.streams|)[i];
  }

  lemma GoFixed(support: Support, inv: Inventory, ev: Evidence, now: int, i: nat)
    requires Go(support, inv, ev, now) && i < |FIXED_GATES|
    ensures Passed(inv, ev, now, FIXED_GATES[i])
  {
    assert AllChecks(inv, ev, now)[i] == FixedChecks(inv, ev, now, |FIXED_GATES|)[i];
  }

  /** This stream was rehearsed with complete evidence. */
  predicate Rehearsed(stream: Stream, e: StreamEvidence) {
    && e.name == stream.name && e.rollbackRehearsed && e.mailboxReceipts > 0
    && e.terminalEventMatches == e.comparisonMessages >= stream.requiredCanaryMessages > 0
  }

  /**
   For every inventory that the schema accepts, GO means that each used feature was verified
   in the evidence of some canary stream that carries it, with all terminal events matched,
   at least the required number of comparisons and a rehearsed rollback.
   */
  lemma GoMeansVerified(support: Support, inv: Inventory, ev: Evidence, now: int, feature: string)
    requires ValidInventory(inv) && Go(support, inv, ev, now) && feature in UsedFeatures(inv.features)
    ensures Verified(inv, ev, feature)
  {
    assert Assigned(inv.streams, feature);
    var i :| 0 <= i < |inv.streams| && feature in inv.streams[i].features;
    GoStreams(support, inv, ev, now, i);
    var stream := inv.streams[i];
    EvidenceListed(ev.streams, stream.name);
    var e := EvidenceByStream(ev.streams)[stream.name];
    var k :| 0 <= k < |stream.features| && stream.features[k] == feature;
    assert Carries(stream, e);
    assert e in ev.streams && feature in e.verifiedFeatures && Rehearsed(stream, e);
  }

  /** The feature was verified in the evidence of a stream that carries it. */
  ghost predicate Verified(inv: Inventory, ev: Evidence, feature: string) {
    exists i, e ::
      && 0 <= i < |inv.streams| && e in ev.streams
      && feature in inv.streams[i].features && feature in e.verifiedFeatures && Rehearsed(inv.streams[i], e)
  }

  /** The same by name: what the workload uses has been verified. */
  lemma GoVerifiesByName(support: Support, inv: Inventory, ev: Evidence, now: int)
    requires ValidInventory(inv) && Go(support, inv, ev, now)
    ensures forall i :: 0 <= i < |inv.features.sendFields| ==> Verified(inv, ev, inv.features.sendFields[i])
    ensures inv.features.templatesUsed ==> Verified(inv, ev, "templates")
    ensures inv.features.webhookEvents != [] ==> Verified(inv, ev, "webhooks")
    ensures inv.features.suppressionsUsed ==> Verified(inv, ev, "suppressions")
    ensures inv.features.schedulesUsed ==> Verified(inv, ev, "schedules")
    ensures inv.features.inboundUsed ==> Verified(inv, ev, "inbound")
  {
    forall i | 0 <= i < |inv.features.sendFields|
      ensures Verified(inv, ev, inv.features.sendFields[i])
    {
      GoMeansVerified(support, inv, ev, now, inv.features.sendFields[i]);
    }
    UsedByName(inv.features);
    if inv.features.templatesUsed {
      GoMeansVerified(support, inv, ev, now, "templates");
    }
    if inv.features.webhookEvents != [] {
      GoMeansVerified(support, inv, ev, now, "webhooks");
    }
    if inv.features.suppressionsUsed {
      GoMeansVerified(support, inv, ev, now, "suppressions");
    }
    if inv.features.schedulesUsed {
      GoMeansVerified(support, inv, ev, now, "schedules");
    }
    if inv.features.inboundUsed {
      GoMeansVerified(support, inv, ev, now, "inbound");
    }
  }

  lemma UsedByName(f: Features)
    ensures f.templatesUsed ==> "templates" in UsedFeatures(f)
    ensures f.webhookEvents != [] ==> "webhooks" in UsedFeatures(f)
    ensures f.suppressionsUsed ==> "suppressions" in UsedFeatures(f)
    ensures f.schedulesUsed ==> "schedules" in UsedFeatures(f)
    ensures f.inboundUsed ==> "inbound" in UsedFeatures(f)
  {
  }

  /**
   With unique names the decision does not depend on the order of the evidence: GO holds
   exactly when nothing blocks the inventory, the fixed gates pass and every stream is
   carried by the evidence of its name.
   */
  lemma GoExactly(support: Support, inv: Inventory, ev: Evidence, now: int)
    requires ValidEvidence(ev)
    ensures Go(support, inv, ev, now) <==>
      && (forall b :: !Blocks(support, inv, b))
      && (forall i :: 0 <= i < |FIXED_GATES| ==> Passed(inv, ev, now, FIXED_GATES[i]))
      && (forall i :: 0 <= i < |inv.streams| ==> CarriedBySome(inv.streams[i], ev.streams))
  {
    forall i | 0 <= i < |inv.streams|
      ensures StreamPassed(inv.streams[i], EvidenceByStream(ev.streams)) <==> CarriedBySome(inv.streams[i], ev.streams)
    {
      PassedIsCarried(inv.streams[i], ev);
    }
    if Go(support, inv, ev, now) {
      forall i | 0 <= i < |FIXED_GATES|
        ensures Passed(inv, ev, now, FIXED_GATES[i])
      {
        GoFixed(support, inv, ev, now, i);
      }
      forall i | 0 <= i < |inv.streams|
        ensures CarriedBySome(inv.streams[i], ev.streams)
      {
        GoStreams(support, inv, ev, now, i);
      }
    }
  }

  /** The eight fixed gates in the evidence's own numbers; ages are in milliseconds. */
  predicate GatesOpen(inv: Inventory, ev: Evidence, now: int) {
    && ev.observedAt - 300000 <= now <= ev.observedAt + 86400000
    && ev.productionAccess && ev.sendingEnabled
    && ev.calendarDays >= 14 && ev.controlledNotifications >= 1000 && ev.sdkContractVerified
    && (inv.features.templatesUsed ==> ev.sourceTemplates == ev.targetTemplates == inv.features.templatesCount)
    && (inv.features.suppressionsUsed ==>
          ev.sourceSuppressions == ev.targetSuppressions == inv.features.suppressionsCount)
    && (inv.features.webhookEvents != [] ==> ev.webhooksVerified)
    && (inv.features.inboundUsed ==> ev.inboundVerified)
  }

  lemma GatesExactly(inv: Inventory, ev: Evidence, now: int)
    ensures GatesOpen(inv, ev, now) <==>
      forall i :: 0 <= i < |FIXED_GATES| ==> Passed(inv, ev, now, FIXED_GATES[i])
  {
    var gates := FIXED_GATES;
    assert gates[0] == Freshness && gates[1] == SesProductionAccess && gates[2] == Dogfood && gates[3] == SdkContract;
    assert gates[4] == TemplateCounts && gates[5] == SuppressionCounts;
    assert gates[6] == WebhookPaths && gates[7] == InboundPaths;
  }

  /** The decision in the evidence's own numbers. */
  lemma GoByNumbers(support: Support, inv: Inventory, ev: Evidence, now: int)
    requires ValidEvidence(ev)
    ensures Go(support, inv, ev, now) <==>
      && (forall b :: !Blocks(support, inv, b)) && GatesOpen(inv, ev, now)
      && (forall i :: 0 <= i < |inv.streams| ==> CarriedBySome(inv.streams[i], ev.streams))
  {
    GoExactly(support, inv, ev, now);
    GatesExactly(inv, ev, now);
  }

  ghost predicate CarriedBySome(stream: Stream, streams: seq<StreamEvidence>) {
    exists k :: 0 <= k < |streams| && streams[k].name == stream.name && Carries(stream, streams[k])
  }

  lemma PassedIsCarried(stream: Stream, ev: Evidence)
    requires ValidEvidence(ev)
    ensures StreamPassed(stream, EvidenceByStream(ev.streams)) <==> CarriedBySome(stream, ev.streams)
  {
    if stream.name in EvidenceByStream(ev.streams) {
      EvidenceListed(ev.streams, stream.name);
      var e := EvidenceByStream(ev.streams)[stream.name];
      var k :| 0 <= k < |ev.streams| && ev.streams[k] == e;
    }
    if CarriedBySome(stream, ev.streams) {
      var k :| 0 <= k < |ev.streams| && ev.streams[k].name == stream.name && Carries(stream, ev.streams[k]);
      EvidenceFound(ev.streams, k);
    }
  }

  /**
   GO for the tool's own support table: only supported fields and events are in use, and nothing
   else stands in the way.
   */
  lemma GoMeansSupported(inv: Inventory, ev: Evidence, now: int)
    requires ValidInventory(inv) && Go(RESEND_SUPPORT, inv, ev, now)
    ensures inv.schemaVersion == 2 && inv.inspection.value == Inspection(true, true) && !inv.transport.value.smtp
    ensures AllIn(inv.features.sendFields,
                  {"attachments", "batch", "bcc", "cc", "from", "headers", "html", "idempotency_key", "react",
                   "reply_to", "scheduled_at", "subject", "tags", "template", "text", "to"})
    ensures AllIn(inv.features.webhookEvents,
                  {"email.bounced", "email.clicked", "email.complained", "email.delivered",
                   "email.delivery_delayed", "email.failed", "email.opened", "email.received", "email.scheduled",
                   "email.sent", "email.suppressed"})
    ensures inv.features.maximumHorizonDays <= 30.0 && inv.features.marketingApis == []
    ensures inv.features.webhookEvents != [] ==> inv.features.verifiesSignatures && ev.webhooksVerified
  {
    assert forall b :: !Blocks(RESEND_SUPPORT, inv, b);
    assert !Blocks(RESEND_SUPPORT, inv, OldSchema) && !Blocks(RESEND_SUPPORT, inv, SourceNotReviewed);
    assert !Blocks(RESEND_SUPPORT, inv, AccountNotReviewed) && !Blocks(RESEND_SUPPORT, inv, SmtpTransport);
    assert !Blocks(RESEND_SUPPORT, inv, UnsupportedFields) && !Blocks(RESEND_SUPPORT, inv, UnsupportedEvents);
    assert !Blocks(RESEND_SUPPORT, inv, HorizonTooLong) && !Blocks(RESEND_SUPPORT, inv, MarketingUsed);
    assert !Blocks(RESEND_SUPPORT, inv, SignaturesNotVerified);
    GoFixed(RESEND_SUPPORT, inv, ev, now, 6);
  }
}
