/**
 The `apply_command` that a deployment plan prints (src/cli-aws-deploy.ts) and its way back
 through the argument scanners and the option wiring of src/cli.ts and `normalizeOptions`.
 */
module AwsApplyCommand {
  import opened Wrappers
  import opened OptionScan
  import opened AwsOptions
  import opened AwsParameters

  // ----------------------------------------------------------- vocabulary

  /** How options are spelled, and the specification handed to `validateOptions`. */
  datatype Vocabulary = Vocabulary(name: Opt -> string, spec: Specification)

  /** Options are told apart by their spelling, and the specification knows each one's kind. */
  ghost predicate Faithful(v: Vocabulary) {
    && (forall a, b :: Exists(a) && Exists(b) && v.name(a) == v.name(b) ==> a == b)
    && (forall o :: Exists(o) ==>
          && (v.name(o) in v.spec.booleans <==> IsSwitch(o))
          && (v.name(o) in v.spec.values <==> !IsSwitch(o) && o != Tag)
          && (v.name(o) in v.spec.repeatable <==> o == Tag))
    && v.spec.positionals == 0
  }

  // --------------------------------------------------------- printed options

  datatype Entry = On(o: Opt) | With(o: Opt, value: string)

  predicate ValidEntry(e: Entry) {
    Exists(e.o) && (e.On? <==> IsSwitch(e.o))
  }

  predicate ValidEntries(entries: seq<Entry>) {
    forall i :: 0 <= i < |entries| ==> ValidEntry(entries[i])
  }

  function ItemOf(v: Vocabulary, e: Entry): Item {
    match e
    case On(o) => Switch(v.name(o))
    case With(o, value) => Valued(v.name(o), Some(value))
  }

  function Items(v: Vocabulary, entries: seq<Entry>): seq<Item> {
    seq(|entries|, i requires 0 <= i < |entries| => ItemOf(v, entries[i]))
  }

  type Ranking = Opt -> int

  ghost predicate Within(rank: Ranking, entries: seq<Entry>, lo: int, hi: int) {
    forall i :: 0 <= i < |entries| ==> lo <= rank(entries[i].o) < hi
  }

  /** Options come in strict order, but for tags. */
  ghost predicate Ordered(rank: Ranking, entries: seq<Entry>) {
    forall i, j :: 0 <= i < j < |entries| ==>
      rank(entries[i].o) < rank(entries[j].o) || (entries[i].o == Tag && entries[j].o == Tag)
  }

  /** A stretch of the printed command between two ranks. */
  ghost predicate Stretch(rank: Ranking, entries: seq<Entry>, lo: int, hi: int) {
    ValidEntries(entries) && Within(rank, entries, lo, hi) && Ordered(rank, entries)
  }

  lemma Joined(rank: Ranking, a: seq<Entry>, b: seq<Entry>, lo: int, mid: int, hi: int)
    requires lo <= mid <= hi && Stretch(rank, a, lo, mid) && Stretch(rank, b, mid, hi)
    ensures Stretch(rank, a + b, lo, hi)
  {
  }

  function Flat(parts: seq<seq<Entry>>): seq<Entry> {
    if parts == [] then [] else parts[0] + Flat(parts[1..])
  }

  /** Parts that follow each other in rank. */
  ghost predicate Laid(rank: Ranking, parts: seq<seq<Entry>>, bounds: seq<int>) {
    && |bounds| == |parts| + 1
    && (forall k :: 0 <= k < |parts| ==>
          bounds[k] <= bounds[k + 1] && Stretch(rank, parts[k], bounds[k], bounds[k + 1]))
  }

  lemma {:induction false} FlatStretch(rank: Ranking, parts: seq<seq<Entry>>, bounds: seq<int>)
    requires Laid(rank, parts, bounds)
    ensures bounds[0] <= bounds[|parts|] && Stretch(rank, Flat(parts), bounds[0], bounds[|parts|])
    decreases |parts|
  {
    if parts != [] {
      LaidRest(rank, parts, bounds);
      FlatStretch(rank, parts[1..], bounds[1..]);
      Joined(rank, parts[0], Flat(parts[1..]), bounds[0], bounds[1], bounds[|parts|]);
    }
  }

  lemma LaidRest(rank: Ranking, parts: seq<seq<Entry>>, bounds: seq<int>)
    requires Laid(rank, parts, bounds) && parts != []
    ensures Laid(rank, parts[1..], bounds[1..])
    ensures bounds[1..][|parts| - 1] == bounds[|parts|]
    ensures bounds[0] <= bounds[1] && Stretch(rank, parts[0], bounds[0], bounds[1])
  {
    forall k | 0 <= k < |parts[1..]|
      ensures bounds[1..][k] <= bounds[1..][k + 1]
      ensures Stretch(rank, parts[1..][k], bounds[1..][k], bounds[1..][k + 1])
    {
      assert Stretch(rank, parts[k + 1], bounds[k + 1], bounds[k + 2]);
    }
    assert Stretch(rank, parts[0], bounds[0], bounds[0 + 1]);
  }

  // ------------------------------------------------ reading the printed options

  /** The values printed for one option, in order. */
  function ValuesFor(entries: seq<Entry>, o: Opt): seq<string> {
    if entries == [] then []
    else (if entries[0].With? && entries[0].o == o then [entries[0].value] else []) + ValuesFor(entries[1..], o)
  }

  predicate Switched(entries: seq<Entry>, o: Opt) {
    On(o) in entries
  }

  predicate AllUsable(entries: seq<Entry>) {
    forall i :: 0 <= i < |entries| && entries[i].With? ==> Usable(entries[i].value)
  }

  function Arguments(v: Vocabulary, entries: seq<Entry>): seq<string> {
    ["aws"] + PrintItems(Items(v, entries))
  }

  lemma ItemsRead(v: Vocabulary, entries: seq<Entry>)
    requires Faithful(v) && ValidEntries(entries)
    ensures Structured(Arguments(v, entries), 1, v.spec) == Items(v, entries)
  {
    forall i | 0 <= i < |entries|
      ensures Printable(Items(v, entries)[i], v.spec)
    {
      assert ValidEntry(entries[i]);
    }
    StructuredOfPrinted(["aws"], Items(v, entries), v.spec);
  }

  lemma {:induction false} NoPositionals(items: seq<Item>)
    requires forall i :: 0 <= i < |items| ==> !items[i].Positional?
    ensures Positionals(items) == []
  {
    if items != [] {
      NoPositionals(items[1..]);
    }
  }

  /** `validateOptions` accepts a printed stretch exactly when every value is usable. */
  lemma AcceptedExactly(v: Vocabulary, rank: Ranking, entries: seq<Entry>, hi: int)
    requires Faithful(v) && Stretch(rank, entries, 0, hi)
    ensures Accepted(Items(v, entries), v.spec) <==> AllUsable(entries)
  {
    var items := Items(v, entries);
    NoPositionals(items);
    forall i | 0 <= i < |entries|
      ensures GoodItem(items[i], v.spec) <==> (entries[i].With? ==> Usable(entries[i].value))
    {
      assert ValidEntry(entries[i]);
    }
    forall i, j | 0 <= i < j < |items|
      ensures CompatibleItems(items[i], items[j], v.spec)
    {
      assert ValidEntry(entries[i]) && ValidEntry(entries[j]);
    }
  }

  lemma {:induction false} AssignedIsValues(v: Vocabulary, entries: seq<Entry>, o: Opt)
    requires Faithful(v) && ValidEntries(entries) && Exists(o)
    ensures Assigned(Items(v, entries), v.name(o)) == ValuesFor(entries, o)
  {
    if entries != [] {
      var rest := entries[1..];
      assert Items(v, entries)[1..] == Items(v, rest);
      assert ValidEntry(entries[0]);
      AssignedIsValues(v, rest, o);
    }
  }

  lemma NamedIsSwitched(v: Vocabulary, entries: seq<Entry>, o: Opt)
    requires Faithful(v) && ValidEntries(entries) && Exists(o) && IsSwitch(o)
    ensures v.name(o) in OptionNames(Items(v, entries)) <==> Switched(entries, o)
  {
    var items := Items(v, entries);
    if v.name(o) in OptionNames(items) {
      var i :| 0 <= i < |items| && !items[i].Positional? && items[i].name == v.name(o);
      assert ValidEntry(entries[i]);
      assert entries[i] == On(o);
    }
    if Switched(entries, o) {
      var i :| 0 <= i < |entries| && entries[i] == On(o);
      assert !items[i].Positional? && items[i].name == v.name(o);
    }
  }

  /** What the wiring reads with `flag`, `flags` and `hasFlag`. */
  function Given(v: Vocabulary, args: seq<string>, o: Opt): Option<string> {
    if !Exists(o) then None
    else match Flag(args, v.name(o)) case Some(value) => value case None => None
  }

  function TagTokens(v: Vocabulary, args: seq<string>): seq<string> {
    match FlagsFrom(args, v.name(Tag), 1) case Some(values) => values case None => []
  }

  lemma ReadsValue(v: Vocabulary, rank: Ranking, entries: seq<Entry>, hi: int, o: Opt)
    requires Faithful(v) && Stretch(rank, entries, 0, hi) && AllUsable(entries) && !IsSwitch(o) && o != Tag
    ensures Given(v, Arguments(v, entries), o) == First(ValuesFor(entries, o))
  {
    if Exists(o) {
      ItemsRead(v, entries);
      AcceptedExactly(v, rank, entries, hi);
      ScansAgree(Arguments(v, entries), v.spec, v.name(o));
      AssignedIsValues(v, entries, o);
    } else {
      NeverPrinted(entries, o);
    }
  }

  lemma ReadsSwitch(v: Vocabulary, rank: Ranking, entries: seq<Entry>, hi: int, o: Opt)
    requires Faithful(v) && Stretch(rank, entries, 0, hi) && AllUsable(entries) && IsSwitch(o)
    ensures HasFlag(Arguments(v, entries), v.name(o)) <==> Switched(entries, o)
  {
    var args := Arguments(v, entries);
    ItemsRead(v, entries);
    AcceptedExactly(v, rank, entries, hi);
    ScansAgree(args, v.spec, v.name(o));
    NamedIsSwitched(v, entries, o);
    assert args[0] == "aws" && args[0][0] != Dashed(v.name(o))[0];
  }

  lemma ReadsTags(v: Vocabulary, rank: Ranking, entries: seq<Entry>, hi: int)
    requires Faithful(v) && Stretch(rank, entries, 0, hi) && AllUsable(entries)
    ensures TagTokens(v, Arguments(v, entries)) == ValuesFor(entries, Tag)
  {
    ItemsRead(v, entries);
    AcceptedExactly(v, rank, entries, hi);
    ScansAgree(Arguments(v, entries), v.spec, v.name(Tag));
    AssignedIsValues(v, entries, Tag);
  }

  lemma {:induction false} NeverPrinted(entries: seq<Entry>, o: Opt)
    requires ValidEntries(entries) && !Exists(o)
    ensures ValuesFor(entries, o) == []
  {
    if entries != [] {
      NeverPrinted(entries[1..], o);
    }
  }

  // --------------------------------------------------------- the apply command

  datatype Target = Target(account: string, region: string, stack: string,
                           profile: Option<string>, roleArn: Option<string>, artifactBucket: Option<string>)

  function Maybe(o: Opt, value: Option<string>): seq<Entry> {
    if value.Some? then [With(o, value.value)] else []
  }

  function Rows(parameters: Parameters, rows: seq<Parameter>): seq<Entry> {
    seq(|rows|, i requires 0 <= i < |rows| => With(Row(rows[i]), parameters(rows[i])))
  }

  const LIMIT_ROWS: seq<Parameter> := [ApiThrottlingRateLimit, ApiThrottlingBurstLimit]

  const MIDDLE_ROWS: seq<Parameter> := [
    LogRetentionDays, InboundRetentionDays, InboundMaxMessageSizeBytes, InboundTlsPolicy, WebhookDeliveryRetentionDays,
    TemplateHistoryRetentionDays, TemplateHistoryLimit, WorkerReservedConcurrency, WorkerMaximumConcurrency,
    InboundReservedConcurrency, DeploymentPreferenceType]

  const BACKUP_ROWS: seq<Parameter> := [BackupRetentionDays, PayloadNoncurrentVersionRetentionDays]

  function TargetEntries(target: Target): seq<Entry> {
    [With(Account, target.account), With(Region, target.region), With(StackName, target.stack)]
  }

  function TargetExtras(target: Target): seq<Entry> {
    Maybe(Profile, target.profile) + Maybe(RoleArn, target.roleArn) + Maybe(ArtifactBucket, target.artifactBucket)
  }

  function InboundEntries(parameters: Parameters): seq<Entry> {
    if parameters(EnableInbound) == "true"
    then [On(InboundOn), With(RecipientSuffixes, parameters(InboundRecipientSuffixes))]
    else [On(InboundOff)]
  }

  function BackupsEntries(parameters: Parameters): seq<Entry> {
    [On(if parameters(EnableBackups) == "true" then BackupsOn else BackupsOff)]
  }

  function RestoreEntries(parameters: Parameters): seq<Entry> {
    [On(if parameters(EnableRestoreTesting) == "true" then RestoreTestingOn else RestoreTestingOff)]
  }

  function BootstrapEntries(parameters: Parameters): seq<Entry> {
    if parameters(BootstrapSecretArn) != "" then [With(BootstrapSecret, parameters(BootstrapSecretArn))] else []
  }

  function AuthEntries(parameters: Parameters): seq<Entry> {
    if parameters(ConsoleAuthSecretArn) != "" then
      [With(AuthOrigin, parameters(ConsoleAuthOrigin)), With(AuthClientId, parameters(ConsoleAuthGoogleClientId)),
       With(AuthEmails, parameters(ConsoleAuthAllowedEmails)), With(AuthSecret, parameters(ConsoleAuthSecretArn))]
    else [On(AuthOff)]
  }

  function TagEntries(tokens: seq<string>): seq<Entry> {
    seq(|tokens|, i requires 0 <= i < |tokens| => With(Tag, tokens[i]))
  }

  /** The parts of the printed command, in the order of the source. */
  function Parts(target: Target, parameters: Parameters, tokens: seq<string>): seq<seq<Entry>> {
    [TargetEntries(target), Rows(parameters, LIMIT_ROWS), TargetExtras(target), InboundEntries(parameters),
     Rows(parameters, MIDDLE_ROWS), BackupsEntries(parameters), Rows(parameters, BACKUP_ROWS),
     RestoreEntries(parameters),
     BootstrapEntries(parameters), AuthEntries(parameters), TagEntries(tokens), [On(Apply)]]
  }

  const BOUNDS: seq<int> := [0, 3, 5, 8, 11, 22, 24, 26, 28, 29, 34, 35, 36]

  function RankOf(o: Opt): int {
    if Exists(o) then Rank(o) else -1
  }

  /** `applyCommand`, from `--account` on. */
  function ApplyEntries(target: Target, parameters: Parameters, tokens: seq<string>): seq<Entry> {
    Flat(Parts(target, parameters, tokens))
  }

  lemma RowsStretch(parameters: Parameters, rows: seq<Parameter>, lo: int, hi: int)
    requires forall i :: 0 <= i < |rows| ==> IsRow(rows[i]) && lo <= RankOf(Row(rows[i])) < hi
    requires forall i, j :: 0 <= i < j < |rows| ==> RankOf(Row(rows[i])) < RankOf(Row(rows[j]))
    ensures Stretch(RankOf, Rows(parameters, rows), lo, hi)
  {
  }

  lemma RowPartsLaid(parameters: Parameters)
    ensures Stretch(RankOf, Rows(parameters, LIMIT_ROWS), 3, 5)
    ensures Stretch(RankOf, Rows(parameters, MIDDLE_ROWS), 11, 22)
    ensures Stretch(RankOf, Rows(parameters, BACKUP_ROWS), 24, 26)
  {
    RowsStretch(parameters, LIMIT_ROWS, 3, 5);
    forall i | 0 <= i < |MIDDLE_ROWS|
      ensures IsRow(MIDDLE_ROWS[i]) && RankOf(Row(MIDDLE_ROWS[i])) == 11 + i
    {
    }
    RowsStretch(parameters, MIDDLE_ROWS, 11, 22);
    RowsStretch(parameters, BACKUP_ROWS, 24, 26);
  }

  lemma MaybeLaid(o: Opt, value: Option<string>, rank: int)
    requires Exists(o) && !IsSwitch(o) && RankOf(o) == rank
    ensures Stretch(RankOf, Maybe(o, value), rank, rank + 1)
  {
  }

  lemma ExtrasLaid(target: Target)
    ensures Stretch(RankOf, TargetExtras(target), 5, 8)
  {
    var a, b := Maybe(Profile, target.profile), Maybe(RoleArn, target.roleArn);
    MaybeLaid(Profile, target.profile, 5);
    MaybeLaid(RoleArn, target.roleArn, 6);
    MaybeLaid(ArtifactBucket, target.artifactBucket, 7);
    Joined(RankOf, a, b, 5, 6, 7);
    Joined(RankOf, a + b, Maybe(ArtifactBucket, target.artifactBucket), 5, 7, 8);
  }

  lemma PlaceLaid(target: Target)
    ensures Stretch(RankOf, TargetEntries(target), 0, 3)
  {
    var entries := TargetEntries(target);
    assert ValidEntry(entries[0]) && ValidEntry(entries[1]) && ValidEntry(entries[2]);
    assert RankOf(entries[0].o) == 0 && RankOf(entries[1].o) == 1 && RankOf(entries[2].o) == 2;
    Ascending(RankOf, entries, 0, 3);
  }

  lemma TargetPartsLaid(target: Target)
    ensures Stretch(RankOf, TargetEntries(target), 0, 3)
    ensures Stretch(RankOf, TargetExtras(target), 5, 8)
  {
    PlaceLaid(target);
    ExtrasLaid(target);
  }

  /** Entries whose ranks go up by one. */
  lemma Ascending(rank: Ranking, entries: seq<Entry>, lo: int, hi: int)
    requires ValidEntries(entries) && lo + |entries| <= hi
    requires forall i :: 0 <= i < |entries| ==> rank(entries[i].o) == lo + i
    ensures Stretch(rank, entries, lo, hi)
  {
  }

  lemma SwitchPartsLaid(parameters: Parameters)
    ensures Stretch(RankOf, InboundEntries(parameters), 8, 11)
    ensures Stretch(RankOf, BackupsEntries(parameters), 22, 24)
    ensures Stretch(RankOf, RestoreEntries(parameters), 26, 28)
  {
  }

  lemma AuthPartLaid(parameters: Parameters)
    ensures Stretch(RankOf, AuthEntries(parameters), 29, 34)
  {
    var entries := AuthEntries(parameters);
    if parameters(ConsoleAuthSecretArn) == "" {
      assert ValidEntry(entries[0]) && RankOf(entries[0].o) == 33;
      SoleEntry(RankOf, entries, 29, 34);
    } else {
      assert ValidEntry(entries[0]) && ValidEntry(entries[1]) && ValidEntry(entries[2]) && ValidEntry(entries[3]);
      assert RankOf(entries[0].o) == 29 && RankOf(entries[1].o) == 30;
      assert RankOf(entries[2].o) == 31 && RankOf(entries[3].o) == 32;
      Ascending(RankOf, entries, 29, 34);
    }
  }

  lemma SoleEntry(rank: Ranking, entries: seq<Entry>, lo: int, hi: int)
    requires |entries| == 1 && ValidEntry(entries[0]) && lo <= rank(entries[0].o) < hi
    ensures Stretch(rank, entries, lo, hi)
  {
  }

  lemma LastPartsLaid(parameters: Parameters, tokens: seq<string>)
    ensures Stretch(RankOf, BootstrapEntries(parameters), 28, 29)
    ensures Stretch(RankOf, TagEntries(tokens), 34, 35)
    ensures Stretch(RankOf, [On(Apply)], 35, 36)
  {
  }

  lemma LaidOut(rank: Ranking, parts: seq<seq<Entry>>, bounds: seq<int>)
    requires |parts| == 12 && |bounds| == 13 && forall k :: 0 <= k < 12 ==> bounds[k] <= bounds[k + 1]
    requires Stretch(rank, parts[0], bounds[0], bounds[1]) && Stretch(rank, parts[1], bounds[1], bounds[2])
    requires Stretch(rank, parts[2], bounds[2], bounds[3]) && Stretch(rank, parts[3], bounds[3], bounds[4])
    requires Stretch(rank, parts[4], bounds[4], bounds[5]) && Stretch(rank, parts[5], bounds[5], bounds[6])
    requires Stretch(rank, parts[6], bounds[6], bounds[7]) && Stretch(rank, parts[7], bounds[7], bounds[8])
    requires Stretch(rank, parts[8], bounds[8], bounds[9]) && Stretch(rank, parts[9], bounds[9], bounds[10])
    requires Stretch(rank, parts[10], bounds[10], bounds[11]) && Stretch(rank, parts[11], bounds[11], bounds[12])
    ensures Laid(rank, parts, bounds)
  {
  }

  lemma PartsLaid(target: Target, parameters: Parameters, tokens: seq<string>)
    ensures Laid(RankOf, Parts(target, parameters, tokens), BOUNDS)
  {
    RowPartsLaid(parameters);
    TargetPartsLaid(target);
    SwitchPartsLaid(parameters);
    AuthPartLaid(parameters);
    LastPartsLaid(parameters, tokens);
    PartsAre(target, parameters, tokens);
    RowPartsAre(target, parameters, tokens);
    LaidOut(RankOf, Parts(target, parameters, tokens), BOUNDS);
  }

  lemma {:induction false} ValuesAppend(a: seq<Entry>, b: seq<Entry>, o: Opt)
    ensures ValuesFor(a + b, o) == ValuesFor(a, o) + ValuesFor(b, o)
  {
    if a == [] {
      assert a + b == b;
    } else {
      assert (a + b)[1..] == a[1..] + b;
      ValuesAppend(a[1..], b, o);
    }
  }

  lemma {:induction false} OutOfRange(rank: Ranking, entries: seq<Entry>, lo: int, hi: int, o: Opt)
    requires Within(rank, entries, lo, hi) && !(lo <= rank(o) < hi)
    ensures ValuesFor(entries, o) == [] && !Switched(entries, o)
  {
    if entries != [] {
      var rest := entries[1..];
      assert forall i :: 0 <= i < |rest| ==> rest[i] == entries[i + 1];
      OutOfRange(rank, rest, lo, hi, o);
      assert entries == [entries[0]] + rest;
    }
  }

  lemma FlatStep(parts: seq<seq<Entry>>, o: Opt)
    requires parts != []
    ensures ValuesFor(Flat(parts), o) == ValuesFor(parts[0], o) + ValuesFor(Flat(parts[1..]), o)
    ensures Switched(Flat(parts), o) <==> Switched(parts[0], o) || Switched(Flat(parts[1..]), o)
  {
    ValuesAppend(parts[0], Flat(parts[1..]), o);
  }

  /** An option is printed by the one part whose ranks it falls into. */
  lemma {:induction false} PrintedByPart(rank: Ranking, parts: seq<seq<Entry>>, bounds: seq<int>, j: nat, o: Opt)
    requires Laid(rank, parts, bounds) && j < |parts| && bounds[j] <= rank(o) < bounds[j + 1]
    ensures ValuesFor(Flat(parts), o) == ValuesFor(parts[j], o)
    ensures Switched(Flat(parts), o) <==> Switched(parts[j], o)
    decreases |parts|
  {
    var first, rest := parts[0], parts[1..];
    FlatStep(parts, o);
    LaidRest(rank, parts, bounds);
    if j == 0 {
      FlatStretch(rank, rest, bounds[1..]);
      OutOfRange(rank, Flat(rest), bounds[1], bounds[|parts|], o);
    } else {
      BoundsGrow(rank, parts, bounds, 1, j);
      OutOfRange(rank, first, bounds[0], bounds[1], o);
      PrintedByPart(rank, rest, bounds[1..], j - 1, o);
    }
  }

  lemma {:induction false} BoundsGrow(rank: Ranking, parts: seq<seq<Entry>>, bounds: seq<int>, k: nat, j: nat)
    requires Laid(rank, parts, bounds) && k <= j <= |parts|
    ensures bounds[k] <= bounds[j]
    decreases j - k
  {
    if k < j {
      BoundsGrow(rank, parts, bounds, k + 1, j);
    }
  }

  // ------------------------------------------------------ what is read back

  lemma {:induction false} RowValues(parameters: Parameters, rows: seq<Parameter>, p: Parameter)
    requires p in rows && forall i, j :: 0 <= i < j < |rows| ==> rows[i] != rows[j]
    ensures ValuesFor(Rows(parameters, rows), Row(p)) == [parameters(p)]
  {
    var entries, rest := Rows(parameters, rows), rows[1..];
    assert entries[1..] == Rows(parameters, rest);
    if rows[0] == p {
      RowValuesAbsent(parameters, rest, p);
    } else {
      RowValues(parameters, rest, p);
    }
  }

  lemma {:induction false} RowValuesAbsent(parameters: Parameters, rows: seq<Parameter>, p: Parameter)
    requires p !in rows
    ensures ValuesFor(Rows(parameters, rows), Row(p)) == []
  {
    if rows != [] {
      assert Rows(parameters, rows)[1..] == Rows(parameters, rows[1..]);
      RowValuesAbsent(parameters, rows[1..], p);
    }
  }

  lemma {:induction false} TagValues(tokens: seq<string>)
    ensures ValuesFor(TagEntries(tokens), Tag) == tokens
  {
    if tokens != [] {
      assert TagEntries(tokens)[1..] == TagEntries(tokens[1..]);
      TagValues(tokens[1..]);
      assert tokens == [tokens[0]] + tokens[1..];
    }
  }

  /** The part that prints a row. */
  lemma RowPart(p: Parameter) returns (j: nat)
    requires IsRow(p)
    ensures j in {1, 4, 6} && BOUNDS[j] <= RankOf(Row(p)) < BOUNDS[j + 1]
    ensures p in (if j == 1 then LIMIT_ROWS else if j == 4 then MIDDLE_ROWS else BACKUP_ROWS)
  {
    var r := RankOf(Row(p));
    j := if r < 5 then 1 else if r < 22 then 4 else 6;
    if j == 1 {
      assert LIMIT_ROWS[r - 3] == p;
    } else if j == 4 {
      assert MIDDLE_ROWS[r - 11] == p;
    } else {
      assert BACKUP_ROWS[r - 24] == p;
    }
  }

  lemma PartsAre(target: Target, parameters: Parameters, tokens: seq<string>)
    ensures var parts := Parts(target, parameters, tokens);
      && |parts| == 12
      && parts[0] == TargetEntries(target) && parts[2] == TargetExtras(target) && parts[3] == InboundEntries(parameters)
      && parts[5] == BackupsEntries(parameters) && parts[7] == RestoreEntries(parameters)
      && parts[8] == BootstrapEntries(parameters) && parts[9] == AuthEntries(parameters)
      && parts[10] == TagEntries(tokens) && parts[11] == [On(Apply)]
  {
  }

  lemma RowPartsAre(target: Target, parameters: Parameters, tokens: seq<string>)
    ensures var parts := Parts(target, parameters, tokens);
      && |parts| == 12 && parts[1] == Rows(parameters, LIMIT_ROWS)
      && parts[4] == Rows(parameters, MIDDLE_ROWS) && parts[6] == Rows(parameters, BACKUP_ROWS)
  {
  }

  /** The part that prints a switch. */
  lemma SwitchPart(o: Opt) returns (j: nat)
    requires IsSwitch(o) && o != AllowDestructive
    ensures j < 12 && BOUNDS[j] <= RankOf(o) < BOUNDS[j + 1]
    ensures o == InboundOn || o == InboundOff ==> j == 3
    ensures o == BackupsOn || o == BackupsOff ==> j == 5
    ensures o == RestoreTestingOn || o == RestoreTestingOff ==> j == 7
    ensures o == AuthOff ==> j == 9
    ensures o == Apply ==> j == 11
  {
    var r := RankOf(o);
    j := if r < 11 then 3 else if r < 24 then 5 else if r < 28 then 7 else if r < 34 then 9 else 11;
  }

  /** The part whose ranks an option falls into says all about it. */
  lemma InPart(target: Target, parameters: Parameters, tokens: seq<string>, j: nat, o: Opt)
    requires j < 12 && BOUNDS[j] <= RankOf(o) < BOUNDS[j + 1]
    ensures ValuesFor(ApplyEntries(target, parameters, tokens), o) == ValuesFor(Parts(target, parameters, tokens)[j], o)
    ensures Switched(ApplyEntries(target, parameters, tokens), o) <==> Switched(Parts(target, parameters, tokens)[j], o)
  {
    PartsLaid(target, parameters, tokens);
    PrintedByPart(RankOf, Parts(target, parameters, tokens), BOUNDS, j, o);
  }

  lemma RowsDistinct()
    ensures forall i, j :: 0 <= i < j < |LIMIT_ROWS| ==> LIMIT_ROWS[i] != LIMIT_ROWS[j]
    ensures forall i, j :: 0 <= i < j < |MIDDLE_ROWS| ==> MIDDLE_ROWS[i] != MIDDLE_ROWS[j]
    ensures forall i, j :: 0 <= i < j < |BACKUP_ROWS| ==> BACKUP_ROWS[i] != BACKUP_ROWS[j]
  {
  }

  lemma PrintedRow(target: Target, parameters: Parameters, tokens: seq<string>, p: Parameter)
    requires IsRow(p)
    ensures ValuesFor(ApplyEntries(target, parameters, tokens), Row(p)) == [parameters(p)]
  {
    var j := RowPart(p);
    RowPartsAre(target, parameters, tokens);
    InPart(target, parameters, tokens, j, Row(p));
    RowsDistinct();
    RowValues(parameters, if j == 1 then LIMIT_ROWS else if j == 4 then MIDDLE_ROWS else BACKUP_ROWS, p);
  }

  function Only(value: Option<string>): seq<string> {
    if value.Some? then [value.value] else []
  }

  /** What the printed command says about the options that are not rows. */
  function PrintedValue(target: Target, parameters: Parameters, o: Opt): Option<string> {
    match o
    case Account => Some(target.account)
    case Region => Some(target.region)
    case StackName => Some(target.stack)
    case Profile => target.profile
    case RoleArn => target.roleArn
    case ArtifactBucket => target.artifactBucket
    case RecipientSuffixes =>
      if parameters(EnableInbound) == "true" then Some(parameters(InboundRecipientSuffixes)) else None
    case BootstrapSecret =>
      if parameters(BootstrapSecretArn) != "" then Some(parameters(BootstrapSecretArn)) else None
    case AuthOrigin => if parameters(ConsoleAuthSecretArn) != "" then Some(parameters(ConsoleAuthOrigin)) else None
    case AuthClientId =>
      if parameters(ConsoleAuthSecretArn) != "" then Some(parameters(ConsoleAuthGoogleClientId)) else None
    case AuthEmails =>
      if parameters(ConsoleAuthSecretArn) != "" then Some(parameters(ConsoleAuthAllowedEmails)) else None
    case AuthSecret => if parameters(ConsoleAuthSecretArn) != "" then Some(parameters(ConsoleAuthSecretArn)) else None
    case Row(p) => if IsRow(p) then Some(parameters(p)) else None
    case _ => None
  }

  predicate PrintedSwitch(parameters: Parameters, o: Opt) {
    match o
    case InboundOn => parameters(EnableInbound) == "true"
    case InboundOff => parameters(EnableInbound) != "true"
    case BackupsOn => parameters(EnableBackups) == "true"
    case BackupsOff => parameters(EnableBackups) != "true"
    case RestoreTestingOn => parameters(EnableRestoreTesting) == "true"
    case RestoreTestingOff => parameters(EnableRestoreTesting) != "true"
    case AuthOff => parameters(ConsoleAuthSecretArn) == ""
    case Apply => true
    case _ => false
  }

  lemma {:induction false} NoValue(entries: seq<Entry>, o: Opt)
    requires forall i :: 0 <= i < |entries| ==> entries[i].o != o
    ensures ValuesFor(entries, o) == []
  {
    if entries != [] {
      NoValue(entries[1..], o);
    }
  }

  /** An option that is printed once has that one value. */
  lemma {:induction false} SoleValue(entries: seq<Entry>, k: nat)
    requires k < |entries| && entries[k].With?
    requires forall i :: 0 <= i < |entries| && i != k ==> entries[i].o != entries[k].o
    ensures ValuesFor(entries, entries[k].o) == [entries[k].value]
  {
    var rest := entries[1..];
    assert forall i :: 0 <= i < |rest| ==> rest[i] == entries[i + 1];
    if k == 0 {
      NoValue(rest, entries[0].o);
    } else {
      SoleValue(rest, k - 1);
    }
  }

  lemma TargetValues(target: Target, o: Opt)
    requires o in {Account, Region, StackName}
    ensures ValuesFor(TargetEntries(target), o)
         == [if o == Account then target.account else if o == Region then target.region else target.stack]
  {
    SoleValue(TargetEntries(target), if o == Account then 0 else if o == Region then 1 else 2);
  }

  lemma MaybeValues(o: Opt, value: Option<string>, other: Opt)
    ensures ValuesFor(Maybe(o, value), other) == if o == other then Only(value) else []
  {
  }

  lemma ExtraValues(target: Target, o: Opt)
    requires o in {Profile, RoleArn, ArtifactBucket}
    ensures ValuesFor(TargetExtras(target), o)
         == Only(if o == Profile then target.profile
                 else if o == RoleArn then target.roleArn
                 else target.artifactBucket)
  {
    var a, b := Maybe(Profile, target.profile), Maybe(RoleArn, target.roleArn);
    var c := Maybe(ArtifactBucket, target.artifactBucket);
    ValuesAppend(a + b, c, o);
    ValuesAppend(a, b, o);
    MaybeValues(Profile, target.profile, o);
    MaybeValues(RoleArn, target.roleArn, o);
    MaybeValues(ArtifactBucket, target.artifactBucket, o);
  }

  lemma PrintedPlace(target: Target, parameters: Parameters, tokens: seq<string>, o: Opt)
    requires o in {Account, Region, StackName}
    ensures ValuesFor(ApplyEntries(target, parameters, tokens), o) == Only(PrintedValue(target, parameters, o))
  {
    assert 0 <= RankOf(o) < 3;
    PartsAre(target, parameters, tokens);
    InPart(target, parameters, tokens, 0, o);
    TargetValues(target, o);
  }

  lemma PrintedExtra(target: Target, parameters: Parameters, tokens: seq<string>, o: Opt)
    requires o in {Profile, RoleArn, ArtifactBucket}
    ensures ValuesFor(ApplyEntries(target, parameters, tokens), o) == Only(PrintedValue(target, parameters, o))
  {
    assert 5 <= RankOf(o) < 8;
    PartsAre(target, parameters, tokens);
    InPart(target, parameters, tokens, 2, o);
    ExtraValues(target, o);
  }

  lemma InboundValues(parameters: Parameters)
    ensures ValuesFor(InboundEntries(parameters), RecipientSuffixes)
         == if parameters(EnableInbound) == "true" then [parameters(InboundRecipientSuffixes)] else []
  {
    var e := InboundEntries(parameters);
    if |e| == 2 {
      assert e == [e[0]] + [e[1]];
      ValuesAppend([e[0]], [e[1]], RecipientSuffixes);
    }
  }

  lemma PrintedOther(target: Target, parameters: Parameters, tokens: seq<string>, o: Opt)
    requires o in {RecipientSuffixes, BootstrapSecret}
    ensures ValuesFor(ApplyEntries(target, parameters, tokens), o) == Only(PrintedValue(target, parameters, o))
  {
    assert RankOf(o) == if o == RecipientSuffixes then 10 else 28;
    PartsAre(target, parameters, tokens);
    InPart(target, parameters, tokens, if o == RecipientSuffixes then 3 else 8, o);
    InboundValues(parameters);
  }

  lemma AuthValues(parameters: Parameters, o: Opt, k: nat)
    requires k < 4 && o == [AuthOrigin, AuthClientId, AuthEmails, AuthSecret][k]
    ensures ValuesFor(AuthEntries(parameters), o)
         == if parameters(ConsoleAuthSecretArn) == "" then [] else [AuthEntries(parameters)[k].value]
  {
    if parameters(ConsoleAuthSecretArn) == "" {
      NoValue(AuthEntries(parameters), o);
    } else {
      SoleValue(AuthEntries(parameters), k);
    }
  }

  lemma AuthPlace(o: Opt) returns (k: nat)
    requires o in {AuthOrigin, AuthClientId, AuthEmails, AuthSecret}
    ensures k < 4 && o == [AuthOrigin, AuthClientId, AuthEmails, AuthSecret][k] && RankOf(o) == 29 + k
  {
    k := RankOf(o) - 29;
  }

  lemma AuthIsPrinted(target: Target, parameters: Parameters, o: Opt, k: nat)
    requires k < 4 && o == [AuthOrigin, AuthClientId, AuthEmails, AuthSecret][k]
    ensures Only(PrintedValue(target, parameters, o))
         == if parameters(ConsoleAuthSecretArn) == "" then [] else [AuthEntries(parameters)[k].value]
  {
  }

  lemma PrintedAuth(target: Target, parameters: Parameters, tokens: seq<string>, o: Opt)
    requires o in {AuthOrigin, AuthClientId, AuthEmails, AuthSecret}
    ensures ValuesFor(ApplyEntries(target, parameters, tokens), o) == Only(PrintedValue(target, parameters, o))
  {
    var k := AuthPlace(o);
    PartsAre(target, parameters, tokens);
    InPart(target, parameters, tokens, 9, o);
    AuthValues(parameters, o, k);
    AuthIsPrinted(target, parameters, o, k);
  }

  lemma PrintedTags(target: Target, parameters: Parameters, tokens: seq<string>)
    ensures ValuesFor(ApplyEntries(target, parameters, tokens), Tag) == tokens
  {
    PartsAre(target, parameters, tokens);
    InPart(target, parameters, tokens, 10, Tag);
    TagValues(tokens);
  }

  lemma SwitchInPart(target: Target, parameters: Parameters, tokens: seq<string>, j: nat, o: Opt)
    requires IsSwitch(o) && o != AllowDestructive
    requires j == if o in {InboundOn, InboundOff} then 3 else if o in {BackupsOn, BackupsOff} then 5
                  else if o in {RestoreTestingOn, RestoreTestingOff} then 7 else if o == AuthOff then 9 else 11
    ensures j < |Parts(target, parameters, tokens)|
    ensures Switched(Parts(target, parameters, tokens)[j], o) <==> PrintedSwitch(parameters, o)
  {
    PartsAre(target, parameters, tokens);
    AuthSwitched(parameters);
  }

  lemma AuthSwitched(parameters: Parameters)
    ensures Switched(AuthEntries(parameters), AuthOff) <==> parameters(ConsoleAuthSecretArn) == ""
  {
  }

  lemma PrintedSwitches(target: Target, parameters: Parameters, tokens: seq<string>, o: Opt)
    requires IsSwitch(o)
    ensures Switched(ApplyEntries(target, parameters, tokens), o) <==> PrintedSwitch(parameters, o)
  {
    if o == AllowDestructive {
      PartsLaid(target, parameters, tokens);
      FlatStretch(RankOf, Parts(target, parameters, tokens), BOUNDS);
      OutOfRange(RankOf, ApplyEntries(target, parameters, tokens), 0, 36, o);
    } else {
      var j := SwitchPart(o);
      InPart(target, parameters, tokens, j, o);
      SwitchInPart(target, parameters, tokens, j, o);
    }
  }
}
