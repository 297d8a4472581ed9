/**
 A reviewed plan is applied by running the command it printed. This module takes the
 printed command back through `validateOptions`, the option wiring of src/cli.ts,
 `normalizeOptions`, `effectiveParameters` and `effectiveTags`, and says exactly when the
 reviewed parameters and tags come back.
 */
module AwsRoundTrip {
  import opened Wrappers
  import opened OptionScan
  import opened AwsOptions
  import opened AwsParameters
  import opened AwsApplyCommand

  // -------------------------------------------------- the vocabulary of deploy

  const VALUE_OPTIONS: seq<Opt> := [
    Account, Region, StackName, Profile, RoleArn, ArtifactBucket, BootstrapSecret, AuthOrigin, AuthClientId, AuthEmails,
    AuthSecret, Row(ApiThrottlingRateLimit), Row(ApiThrottlingBurstLimit), Row(LogRetentionDays),
    Row(InboundRetentionDays), Row(InboundMaxMessageSizeBytes), RecipientSuffixes, Row(InboundTlsPolicy),
    Row(WebhookDeliveryRetentionDays), Row(TemplateHistoryRetentionDays), Row(TemplateHistoryLimit),
    Row(WorkerReservedConcurrency), Row(WorkerMaximumConcurrency), Row(InboundReservedConcurrency),
    Row(DeploymentPreferenceType), Row(BackupRetentionDays), Row(PayloadNoncurrentVersionRetentionDays)]

  const SWITCH_OPTIONS: seq<Opt> := [
    Apply, AllowDestructive, InboundOn, InboundOff, BackupsOn, BackupsOff, RestoreTestingOn, RestoreTestingOff, AuthOff]

  function NameOf(o: Opt): string {
    if Exists(o) then Name(o) else ""
  }

  function NamesOf(options: seq<Opt>): set<string> {
    set i | 0 <= i < |options| :: NameOf(options[i])
  }

  /** The specification that `deployCommand` hands to `validateOptions`. */
  function DeployVocabulary(): Vocabulary {
    Vocabulary(NameOf, Specification(NamesOf(VALUE_OPTIONS), NamesOf(SWITCH_OPTIONS), NamesOf([Tag]), 0))
  }

  lemma NamedAmong(options: seq<Opt>, o: Opt)
    requires Exists(o) && forall i :: 0 <= i < |options| ==> Exists(options[i])
    ensures NameOf(o) in NamesOf(options) <==> o in options
  {
    if NameOf(o) in NamesOf(options) {
      var i :| 0 <= i < |options| && NameOf(options[i]) == NameOf(o);
      NamesDiffer(options[i], o);
    }
  }

  /** Where `deployCommand` lists an option that takes one value. */
  function ValueIndex(o: Opt): int {
    match o
    case Account => 0 case Region => 1 case StackName => 2 case Profile => 3 case RoleArn => 4 case ArtifactBucket => 5
    case BootstrapSecret => 6 case AuthOrigin => 7 case AuthClientId => 8 case AuthEmails => 9 case AuthSecret => 10
    case Row(ApiThrottlingRateLimit) => 11 case Row(ApiThrottlingBurstLimit) => 12 case Row(LogRetentionDays) => 13
    case Row(InboundRetentionDays) => 14 case Row(InboundMaxMessageSizeBytes) => 15 case RecipientSuffixes => 16
    case Row(InboundTlsPolicy) => 17 case Row(WebhookDeliveryRetentionDays) => 18
    case Row(TemplateHistoryRetentionDays) => 19 case Row(TemplateHistoryLimit) => 20
    case Row(WorkerReservedConcurrency) => 21 case Row(WorkerMaximumConcurrency) => 22
    case Row(InboundReservedConcurrency) => 23 case Row(DeploymentPreferenceType) => 24
    case Row(BackupRetentionDays) => 25 case Row(PayloadNoncurrentVersionRetentionDays) => 26
    case _ => -1
  }

  lemma ValueListed(o: Opt)
    requires Exists(o) && !IsSwitch(o) && o != Tag
    ensures o in VALUE_OPTIONS
  {
    assert VALUE_OPTIONS[ValueIndex(o)] == o;
  }

  lemma ListedIsValue(i: nat)
    requires i < |VALUE_OPTIONS|
    ensures Exists(VALUE_OPTIONS[i]) && !IsSwitch(VALUE_OPTIONS[i]) && VALUE_OPTIONS[i] != Tag
  {
  }

  lemma SwitchesListed(o: Opt)
    ensures IsSwitch(o) <==> o in SWITCH_OPTIONS
  {
  }

  /** Names tell the options of `deploy aws` apart, and the specification knows each one's kind. */
  lemma DeployVocabularyFaithful()
    ensures Faithful(DeployVocabulary())
  {
    forall a, b | Exists(a) && Exists(b) && NameOf(a) == NameOf(b)
      ensures a == b
    {
      NamesDiffer(a, b);
    }
    forall i | 0 <= i < |VALUE_OPTIONS|
      ensures Exists(VALUE_OPTIONS[i]) && !IsSwitch(VALUE_OPTIONS[i]) && VALUE_OPTIONS[i] != Tag
    {
      ListedIsValue(i);
    }
    forall o | Exists(o)
      ensures NameOf(o) in NamesOf(SWITCH_OPTIONS) <==> IsSwitch(o)
      ensures NameOf(o) in NamesOf(VALUE_OPTIONS) <==> !IsSwitch(o) && o != Tag
      ensures NameOf(o) in NamesOf([Tag]) <==> o == Tag
    {
      SwitchesListed(o);
      forall i | 0 <= i < |SWITCH_OPTIONS|
        ensures Exists(SWITCH_OPTIONS[i])
      {
      }
      NamedAmong(SWITCH_OPTIONS, o);
      NamedAmong(VALUE_OPTIONS, o);
      NamedAmong([Tag], o);
      if !IsSwitch(o) && o != Tag {
        ValueListed(o);
      }
    }
  }

  // ------------------------------------------------------- from options to a plan

  /** What the wiring has read off the command line. */
  datatype Reading = Reading(given: Opt -> Option<string>, on: Opt -> bool, tokens: seq<string>)

  function ReadingOf(v: Vocabulary, args: seq<string>): Reading {
    Reading(o => Given(v, args, o), o => HasFlag(args, v.name(o)), TagTokens(v, args))
  }

  /** Option combinations that the wiring and `normalizeOptions` refuse. */
  predicate Conflicting(r: Reading) {
    var origin, id := r.given(AuthOrigin).Some?, r.given(AuthClientId).Some?;
    var emails, secret := r.given(AuthEmails).Some?, r.given(AuthSecret).Some?;
    var some, all := origin || id || emails || secret, origin && id && emails && secret;
    || (r.on(InboundOn) && r.on(InboundOff))
    || (r.on(BackupsOn) && r.on(BackupsOff))
    || (r.on(RestoreTestingOn) && r.on(RestoreTestingOff))
    || (r.on(RestoreTestingOn) && r.on(BackupsOff))
    || (r.on(AllowDestructive) && !r.on(Apply))
    || (r.on(AuthOff) && some)
    || (!r.on(AuthOff) && some && !all)
  }

  /** Values that fail their validator. */
  ghost predicate Rejected(rules: Rules, r: Reading) {
    || (exists p :: IsRow(p) && r.given(Row(p)).Some? && rules.canonical(p, r.given(Row(p)).value).None?)
    || (r.given(RecipientSuffixes).Some? && !rules.suffixesOk(r.given(RecipientSuffixes).value))
    || (!r.on(AuthOff) && r.given(AuthOrigin).Some? && !rules.originOk(r.given(AuthOrigin).value))
    || (!r.on(AuthOff) && r.given(AuthEmails).Some? && rules.emails(r.given(AuthEmails).value).None?)
  }

  function Toggle(on: bool, off: bool): Option<string> {
    if on then Some("true") else if off then Some("false") else None
  }

  function Through(value: Option<string>, accept: string -> Option<string>): Option<string> {
    if value.Some? then accept(value.value) else None
  }

  /** `explicitParameters` of `normalizeOptions`. */
  function Explicit(rules: Rules, r: Reading, p: Parameter): Option<string> {
    match p
    case EnableInbound => Toggle(r.on(InboundOn), r.on(InboundOff))
    case EnableBackups => Toggle(r.on(BackupsOn), r.on(BackupsOff))
    case EnableRestoreTesting => Toggle(r.on(RestoreTestingOn), r.on(RestoreTestingOff))
    case BootstrapSecretArn => r.given(BootstrapSecret)
    case InboundRecipientSuffixes => r.given(RecipientSuffixes)
    case ConsoleAuthOrigin => if r.on(AuthOff) then Some("") else r.given(AuthOrigin)
    case ConsoleAuthGoogleClientId => if r.on(AuthOff) then Some("") else r.given(AuthClientId)
    case ConsoleAuthAllowedEmails => if r.on(AuthOff) then Some("") else Through(r.given(AuthEmails), rules.emails)
    case ConsoleAuthSecretArn => if r.on(AuthOff) then Some("") else r.given(AuthSecret)
    case _ => if IsRow(p) then Through(r.given(Row(p)), x => rules.canonical(p, x)) else None
  }

  function Choose(rules: Rules, r: Reading): Choices {
    p => Explicit(rules, r, p)
  }

  /** Planning from this reading yields these parameters. */
  ghost predicate PlansParameters(rules: Rules, name: string, stack: Stack, resources: seq<Resource>,
                                  r: Reading, parameters: Parameters)
  {
    && !Conflicting(r) && !Rejected(rules, r)
    && EffectiveParameters(rules, name, Choose(rules, r), stack, resources).Some?
    && forall p :: Effective(name, Choose(rules, r), stack, resources, p) == parameters(p)
  }

  predicate PlansTags(rules: Rules, own: map<string, string>, stack: Stack, tokens: seq<string>,
                      tags: map<string, string>) {
    match TagsFrom(rules, own, tokens)
    case None => false
    case Some(requested) => EffectiveTags(requested, stack) == Some(tags)
  }

  /** Running `deploy aws` with these arguments plans for this target with these parameters and tags. */
  ghost predicate Plans(v: Vocabulary, rules: Rules, name: string, stack: Stack, resources: seq<Resource>,
                        args: seq<string>, target: Target, parameters: Parameters, tags: map<string, string>)
  {
    var r := ReadingOf(v, args);
    && Accepted(Structured(args, 1, v.spec), v.spec)
    && target == Target(Text(r.given(Account)), Text(r.given(Region)), Text(r.given(StackName)),
                        r.given(Profile), r.given(RoleArn), r.given(ArtifactBucket))
    && PlansParameters(rules, name, stack, resources, r, parameters)
    && PlansTags(rules, RESERVED_TAGS, stack, r.tokens, tags)
  }

  function Text(value: Option<string>): string {
    if value.Some? then value.value else ""
  }

  // ---------------------------------------------------- tokens of printed tags

  datatype TagPair = TagPair(key: string, value: string)

  function Token(tag: TagPair): string {
    tag.key + "=" + tag.value
  }

  function PrintTags(own: map<string, string>, tags: seq<TagPair>): seq<string> {
    if tags == [] then []
    else (if tags[0].key in own then [] else [Token(tags[0])]) + PrintTags(own, tags[1..])
  }

  /** Lists a tag map: every tag once, in some order. */
  ghost predicate Lists(tags: seq<TagPair>, m: map<string, string>) {
    && (forall i :: 0 <= i < |tags| ==> tags[i].key in m && m[tags[i].key] == tags[i].value)
    && (forall k :: k in m ==> TagPair(k, m[k]) in tags)
    && (forall i, j :: 0 <= i < j < |tags| ==> tags[i].key != tags[j].key)
  }

  /** The tool's own tags are always set. */
  predicate Reserves(own: map<string, string>, m: map<string, string>) {
    forall k :: k in own ==> k in m && m[k] == own[k]
  }

  /** A tag that reads back from its own token. */
  predicate CleanTag(rules: Rules, tag: TagPair) {
    tag.key != "" && '=' !in tag.key && rules.tagOk(tag.key, tag.value)
  }

  predicate ReadsAs(token: string, tag: TagPair) {
    var i := Separator(token);
    0 < i < |token| && token[..i] == tag.key && token[i + 1..] == tag.value
  }

  lemma {:induction false} SeparatorOf(key: string, value: string)
    requires '=' !in key
    ensures Separator(key + "=" + value) == |key|
  {
    var token := key + "=" + value;
    assert token[|key|] == '=';
    assert forall k :: 0 <= k < |key| ==> token[k] == key[k];
  }

  lemma CleanReads(tag: TagPair)
    requires '=' !in tag.key
    ensures tag.key != "" ==> ReadsAs(Token(tag), tag)
  {
    SeparatorOf(tag.key, tag.value);
  }

  lemma ReadingIsToken(token: string, tag: TagPair)
    requires ReadsAs(token, tag)
    ensures token == Token(tag) && '=' !in tag.key && tag.key != ""
  {
  }

  /** Every accepted token puts its own key and value into the map; nothing else is added. */
  lemma {:induction false} AcceptedTokens(rules: Rules, from: map<string, string>, tokens: seq<string>)
    requires TagsFrom(rules, from, tokens).Some?
    ensures var m := TagsFrom(rules, from, tokens).value;
      && (forall k :: k in from ==> k in m && m[k] == from[k])
      && (forall i :: 0 <= i < |tokens| ==> Taken(rules, from, m, tokens[i]))
      && (forall i, j :: 0 <= i < j < |tokens| ==> tokens[i] != tokens[j])
    decreases |tokens|
  {
    if tokens != [] {
      var more := AddTag(rules, from, tokens[0]).value;
      var rest := tokens[1..];
      AcceptedTokens(rules, more, rest);
      FirstTag(rules, from, tokens[0]);
      var m := TagsFrom(rules, more, rest).value;
      forall i | 0 <= i < |tokens|
        ensures Taken(rules, from, m, tokens[i])
        ensures i > 0 ==> tokens[i] != tokens[0]
      {
        assert i > 0 ==> tokens[i] == rest[i - 1] && Taken(rules, more, m, rest[i - 1]);
      }
      forall i, j | 0 < i < j < |tokens|
        ensures tokens[i] != tokens[j]
      {
        assert tokens[i] == rest[i - 1] && tokens[j] == rest[j - 1];
      }
    }
  }

  /** The token's own key and value are in the map, and its key is new. */
  predicate Taken(rules: Rules, from: map<string, string>, m: map<string, string>, token: string) {
    var s := Separator(token);
    && 0 < s < |token|
    && var k := token[..s];
       k !in from && k in m && m[k] == token[s + 1..] && rules.tagOk(k, m[k])
  }

  lemma FirstTag(rules: Rules, from: map<string, string>, token: string)
    requires AddTag(rules, from, token).Some?
    ensures Taken(rules, from, AddTag(rules, from, token).value, token)
    ensures forall k :: k in from ==>
      k in AddTag(rules, from, token).value && AddTag(rules, from, token).value[k] == from[k]
  {
  }

  lemma {:induction false} CleanTokens(rules: Rules, own: map<string, string>, from: map<string, string>,
                                       tags: seq<TagPair>)
    requires forall i :: 0 <= i < |tags| && tags[i].key !in own ==> CleanTag(rules, tags[i]) && tags[i].key !in from
    requires forall i, j :: 0 <= i < j < |tags| ==> tags[i].key != tags[j].key
    ensures TagsFrom(rules, from, PrintTags(own, tags)).Some?
    ensures var m := TagsFrom(rules, from, PrintTags(own, tags)).value;
      forall k :: k in m <==> k in from || (k !in own && HasKey(tags, k))
    decreases |tags|
  {
    if tags != [] {
      var rest := tags[1..];
      assert forall i :: 0 <= i < |rest| ==> rest[i] == tags[i + 1];
      if tags[0].key in own {
        CleanTokens(rules, own, from, rest);
        TokensSkip(own, tags);
      } else {
        CleanReads(tags[0]);
        var more := from[tags[0].key := tags[0].value];
        CleanTokens(rules, own, more, rest);
        TokensStep(rules, own, from, tags);
      }
      KeysStep(tags);
    }
  }

  lemma TokensSkip(own: map<string, string>, tags: seq<TagPair>)
    requires tags != [] && tags[0].key in own
    ensures PrintTags(own, tags) == PrintTags(own, tags[1..])
  {
  }

  lemma TokensStep(rules: Rules, own: map<string, string>, from: map<string, string>, tags: seq<TagPair>)
    requires tags != [] && tags[0].key !in own && CleanTag(rules, tags[0]) && tags[0].key !in from
    ensures TagsFrom(rules, from, PrintTags(own, tags))
         == TagsFrom(rules, from[tags[0].key := tags[0].value], PrintTags(own, tags[1..]))
  {
    CleanReads(tags[0]);
    assert PrintTags(own, tags)[1..] == PrintTags(own, tags[1..]);
    assert AddTag(rules, from, Token(tags[0])) == Some(from[tags[0].key := tags[0].value]);
  }

  predicate HasKey(tags: seq<TagPair>, k: string) {
    exists i :: 0 <= i < |tags| && tags[i].key == k
  }

  lemma KeysStep(tags: seq<TagPair>)
    requires tags != []
    ensures forall k :: HasKey(tags, k) <==> tags[0].key == k || HasKey(tags[1..], k)
  {
    forall k | HasKey(tags, k)
      ensures tags[0].key == k || HasKey(tags[1..], k)
    {
      var i :| 0 <= i < |tags| && tags[i].key == k;
      assert i > 0 ==> tags[1..][i - 1].key == k;
    }
    assert forall i :: 0 <= i < |tags[1..]| ==> tags[1..][i] == tags[i + 1];
  }

  /** A tag outside the reserved ones is printed. */
  lemma {:induction false} TokenPrinted(own: map<string, string>, tags: seq<TagPair>, i: nat) returns (at: nat)
    requires i < |tags| && tags[i].key !in own
    ensures at < |PrintTags(own, tags)| && PrintTags(own, tags)[at] == Token(tags[i])
  {
    if i == 0 {
      at := 0;
    } else {
      at := TokenPrinted(own, tags[1..], i - 1);
      at := if tags[0].key in own then at else at + 1;
    }
  }

  /** Two printed tags stand at two places. */
  lemma {:induction false} TokensPrinted(own: map<string, string>, tags: seq<TagPair>, i: nat, j: nat)
    returns (a: nat, b: nat)
    requires i < j < |tags| && tags[i].key !in own && tags[j].key !in own
    ensures a < b < |PrintTags(own, tags)|
    ensures PrintTags(own, tags)[a] == Token(tags[i]) && PrintTags(own, tags)[b] == Token(tags[j])
  {
    if i == 0 {
      a := 0;
      b := TokenPrinted(own, tags[1..], j - 1);
      b := b + 1;
    } else {
      a, b := TokensPrinted(own, tags[1..], i - 1, j - 1);
      var skip := if tags[0].key in own then 0 else 1;
      a, b := a + skip, b + skip;
    }
  }

  lemma CleanTokenHeld(rules: Rules, own: map<string, string>, tags: seq<TagPair>, i: nat)
    requires TagsFrom(rules, own, PrintTags(own, tags)).Some?
    requires i < |tags| && tags[i].key !in own && CleanTag(rules, tags[i])
    ensures var m := TagsFrom(rules, own, PrintTags(own, tags)).value;
      tags[i].key in m && m[tags[i].key] == tags[i].value
  {
    AcceptedTokens(rules, own, PrintTags(own, tags));
    var at := TokenPrinted(own, tags, i);
    CleanReads(tags[i]);
  }

  lemma CleanTagsRequested(rules: Rules, own: map<string, string>, tags: seq<TagPair>, m: map<string, string>)
    requires Lists(tags, m) && Reserves(own, m)
    requires forall i :: 0 <= i < |tags| && tags[i].key !in own ==> CleanTag(rules, tags[i])
    ensures TagsFrom(rules, own, PrintTags(own, tags)) == Some(m)
  {
    CleanTokens(rules, own, own, tags);
    var requested := TagsFrom(rules, own, PrintTags(own, tags)).value;
    forall k | k in m
      ensures k in requested && requested[k] == m[k]
    {
      if k in own {
        AcceptedTokens(rules, own, PrintTags(own, tags));
      } else {
        var i :| 0 <= i < |tags| && tags[i] == TagPair(k, m[k]);
        CleanTokenHeld(rules, own, tags, i);
      }
    }
    assert requested == m;
  }

  /** The tag part of the plan comes back when every tag is clean. */
  lemma CleanTagsComeBack(rules: Rules, own: map<string, string>, stack: Stack, tags: seq<TagPair>,
                          m: map<string, string>)
    requires Lists(tags, m) && |m| <= 50
    requires Reserves(own, m) && forall k :: k in stack.tags ==> k in m
    requires forall i :: 0 <= i < |tags| && tags[i].key !in own ==> CleanTag(rules, tags[i])
    ensures PlansTags(rules, own, stack, PrintTags(own, tags), m)
  {
    CleanTagsRequested(rules, own, tags, m);
    Overwritten(stack.tags, m);
    assert EffectiveTags(m, stack) == Some(m);
  }

  lemma Overwritten(was: map<string, string>, m: map<string, string>)
    requires forall k :: k in was ==> k in m
    ensures was + m == m
  {
  }

  /**
   Conversely, a tag that is not clean is refused or comes back as something else: its
   token reads as a shorter key, and the tag of that key would have printed the same token.
   */
  lemma BackMeansClean(rules: Rules, own: map<string, string>, stack: Stack, tags: seq<TagPair>, m: map<string, string>,
                       i: nat)
    requires Lists(tags, m) && PlansTags(rules, own, stack, PrintTags(own, tags), m)
    requires i < |tags| && tags[i].key !in own
    ensures CleanTag(rules, tags[i])
  {
    var tokens := PrintTags(own, tags);
    AcceptedTokens(rules, own, tokens);
    var at := TokenPrinted(own, tags, i);
    var token := tokens[at];
    var s := Separator(token);
    var read := TagPair(token[..s], token[s + 1..]);
    ReadingIsToken(token, read);
    assert m[read.key] == read.value;
    var j :| 0 <= j < |tags| && tags[j] == read;
    if j != i {
      var a, b := TokensPrinted(own, tags, if i < j then i else j, if i < j then j else i);
      assert false;
    }
  }

  // --------------------------------------------------------- usable arguments

  lemma {:induction false} ValueListedFor(entries: seq<Entry>, i: nat)
    requires i < |entries| && entries[i].With?
    ensures entries[i].value in ValuesFor(entries, entries[i].o)
  {
    if i > 0 {
      assert entries[1..][i - 1] == entries[i];
      ValueListedFor(entries[1..], i - 1);
    }
  }

  lemma {:induction false} ListedValueFrom(entries: seq<Entry>, o: Opt, x: string) returns (i: nat)
    requires x in ValuesFor(entries, o)
    ensures i < |entries| && entries[i] == With(o, x)
  {
    if entries[0] == With(o, x) {
      i := 0;
    } else {
      i := ListedValueFrom(entries[1..], o, x);
      i := i + 1;
    }
  }

  predicate IsValueOption(o: Opt) {
    Exists(o) && !IsSwitch(o) && o != Tag
  }

  lemma PrintedAny(target: Target, parameters: Parameters, tokens: seq<string>, o: Opt)
    requires IsValueOption(o)
    ensures ValuesFor(ApplyEntries(target, parameters, tokens), o) == Only(PrintedValue(target, parameters, o))
  {
    match o
    case Row(p) => PrintedRow(target, parameters, tokens, p);
    case RecipientSuffixes => PrintedOther(target, parameters, tokens, o);
    case BootstrapSecret => PrintedOther(target, parameters, tokens, o);
    case AuthOrigin => PrintedAuth(target, parameters, tokens, o);
    case AuthClientId => PrintedAuth(target, parameters, tokens, o);
    case AuthEmails => PrintedAuth(target, parameters, tokens, o);
    case AuthSecret => PrintedAuth(target, parameters, tokens, o);
    case Account => PrintedPlace(target, parameters, tokens, o);
    case Region => PrintedPlace(target, parameters, tokens, o);
    case StackName => PrintedPlace(target, parameters, tokens, o);
    case _ => PrintedExtra(target, parameters, tokens, o);
  }

  ghost predicate UsableValues(target: Target, parameters: Parameters) {
    forall o :: IsValueOption(o) && PrintedValue(target, parameters, o).Some? ==>
      Usable(PrintedValue(target, parameters, o).value)
  }

  /** The printed command is accepted exactly when each option's value and each tag is usable. */
  lemma UsableExactly(target: Target, parameters: Parameters, tokens: seq<string>)
    ensures AllUsable(ApplyEntries(target, parameters, tokens)) <==>
              UsableValues(target, parameters) && forall t :: t in tokens ==> Usable(t)
  {
    var entries := ApplyEntries(target, parameters, tokens);
    ApplyStretch(target, parameters, tokens);
    PrintedTags(target, parameters, tokens);
    forall o | IsValueOption(o)
      ensures ValuesFor(entries, o) == Only(PrintedValue(target, parameters, o))
    {
      PrintedAny(target, parameters, tokens, o);
    }
    if AllUsable(entries) {
      forall o | IsValueOption(o) && PrintedValue(target, parameters, o).Some?
        ensures Usable(PrintedValue(target, parameters, o).value)
      {
        var i := ListedValueFrom(entries, o, PrintedValue(target, parameters, o).value);
      }
      forall t | t in tokens
        ensures Usable(t)
      {
        var i := ListedValueFrom(entries, Tag, t);
      }
    }
    if UsableValues(target, parameters) && forall t :: t in tokens ==> Usable(t) {
      forall i | 0 <= i < |entries| && entries[i].With?
        ensures Usable(entries[i].value)
      {
        ValueListedFor(entries, i);
        assert ValidEntry(entries[i]);
      }
    }
  }

  lemma ApplyStretch(target: Target, parameters: Parameters, tokens: seq<string>)
    ensures Stretch(RankOf, ApplyEntries(target, parameters, tokens), 0, 36)
  {
    PartsLaid(target, parameters, tokens);
    FlatStretch(RankOf, Parts(target, parameters, tokens), BOUNDS);
  }

  // ------------------------------------------------- parameters that come back

  /** What the printed command says about each option. */
  function PrintedReading(target: Target, parameters: Parameters, tokens: seq<string>): Reading {
    Reading(o => PrintedValue(target, parameters, o), o => PrintedSwitch(parameters, o), tokens)
  }

  ghost predicate SameReading(a: Reading, b: Reading) {
    && (forall o :: IsValueOption(o) ==> a.given(o) == b.given(o))
    && (forall o :: IsSwitch(o) ==> a.on(o) == b.on(o))
  }

  lemma SameChoice(rules: Rules, a: Reading, b: Reading, p: Parameter)
    requires SameReading(a, b)
    ensures Explicit(rules, a, p) == Explicit(rules, b, p)
  {
    if IsRow(p) {
      SameRowChoice(rules, a, b, p);
    } else {
      SameOtherChoice(rules, a, b, p);
    }
  }

  lemma SameRowChoice(rules: Rules, a: Reading, b: Reading, p: Parameter)
    requires SameReading(a, b) && IsRow(p)
    ensures Explicit(rules, a, p) == Explicit(rules, b, p)
  {
    assert a.given(Row(p)) == b.given(Row(p));
  }

  lemma SameOtherChoice(rules: Rules, a: Reading, b: Reading, p: Parameter)
    requires SameReading(a, b) && !IsRow(p)
    ensures Explicit(rules, a, p) == Explicit(rules, b, p)
  {
  }

  lemma SameRefusals(rules: Rules, a: Reading, b: Reading)
    requires SameReading(a, b)
    ensures Conflicting(a) == Conflicting(b) && Rejected(rules, a) == Rejected(rules, b)
  {
    forall p | IsRow(p)
      ensures a.given(Row(p)) == b.given(Row(p))
    {
      assert IsValueOption(Row(p));
    }
  }

  /** The effect of planning, option by option. */
  ghost predicate Settles(rules: Rules, name: string, stack: Stack, resources: seq<Resource>,
                          explicit: Choices, parameters: Parameters)
  {
    && EffectiveParameters(rules, name, explicit, stack, resources).Some?
    && forall p :: Effective(name, explicit, stack, resources, p) == parameters(p)
  }

  lemma SettlesPointwise(rules: Rules, name: string, stack: Stack, resources: seq<Resource>,
                         explicit: Choices, parameters: Parameters)
    requires !Refused(rules, parameters)
    ensures Settles(rules, name, stack, resources, explicit, parameters) <==>
              forall p :: Effective(name, explicit, stack, resources, p) == parameters(p)
  {
    if forall p :: Effective(name, explicit, stack, resources, p) == parameters(p) {
      RefusedAgrees(rules, p => Effective(name, explicit, stack, resources, p), parameters);
    }
  }

  lemma SameEffect(name: string, stack: Stack, resources: seq<Resource>, a: Choices, b: Choices, p: Parameter)
    requires forall q :: a(q) == b(q)
    ensures Effective(name, a, stack, resources, p) == Effective(name, b, stack, resources, p)
  {
  }

  lemma SamePlan(rules: Rules, name: string, stack: Stack, resources: seq<Resource>,
                 a: Reading, b: Reading, parameters: Parameters)
    requires SameReading(a, b) && !Refused(rules, parameters)
    ensures PlansParameters(rules, name, stack, resources, a, parameters)
       <==> PlansParameters(rules, name, stack, resources, b, parameters)
  {
    SameRefusals(rules, a, b);
    forall p
      ensures Choose(rules, a)(p) == Choose(rules, b)(p)
    {
      SameChoice(rules, a, b, p);
    }
    forall p
      ensures Effective(name, Choose(rules, a), stack, resources, p)
           == Effective(name, Choose(rules, b), stack, resources, p)
    {
      SameEffect(name, stack, resources, Choose(rules, a), Choose(rules, b), p);
    }
    SettlesPointwise(rules, name, stack, resources, Choose(rules, a), parameters);
    SettlesPointwise(rules, name, stack, resources, Choose(rules, b), parameters);
  }

  ghost predicate RowsClean(rules: Rules, parameters: Parameters) {
    forall p :: IsRow(p) ==> rules.canonical(p, parameters(p)) == Some(parameters(p))
  }

  predicate IsToggle(p: Parameter) {
    p in {EnableInbound, EnableBackups, EnableRestoreTesting}
  }

  ghost predicate TogglesClean(parameters: Parameters) {
    forall p :: IsToggle(p) ==> parameters(p) == "true" || parameters(p) == "false"
  }

  /** Suffixes are printed only with inbound mail on; otherwise the stack's own must be the planned ones. */
  predicate InboundClean(rules: Rules, stack: Stack, parameters: Parameters) {
    if parameters(EnableInbound) == "true" then rules.suffixesOk(parameters(InboundRecipientSuffixes))
    else parameters(InboundRecipientSuffixes) == Base(stack, InboundRecipientSuffixes)
  }

  /** Console authentication is on with acceptable values, or off with all four values empty. */
  predicate AuthClean(rules: Rules, parameters: Parameters) {
    if parameters(ConsoleAuthSecretArn) == "" then
      && parameters(ConsoleAuthOrigin) == "" && parameters(ConsoleAuthGoogleClientId) == ""
      && parameters(ConsoleAuthAllowedEmails) == ""
    else
      rules.originOk(parameters(ConsoleAuthOrigin)) &&
      rules.emails(parameters(ConsoleAuthAllowedEmails)) == Some(parameters(ConsoleAuthAllowedEmails))
  }

  ghost predicate CleanParameters(rules: Rules, stack: Stack, parameters: Parameters) {
    && RowsClean(rules, parameters) && TogglesClean(parameters)
    && InboundClean(rules, stack, parameters) && AuthClean(rules, parameters)
  }

  /** These parameters are what some command line planned. */
  ghost predicate Planned(rules: Rules, name: string, explicit: Choices, stack: Stack, resources: seq<Resource>,
                          parameters: Parameters)
  {
    && Expressible(explicit) && !Refused(rules, parameters)
    && forall p :: parameters(p) == Effective(name, explicit, stack, resources, p)
  }

  lemma NothingConflicts(rules: Rules, target: Target, parameters: Parameters, tokens: seq<string>)
    requires !Refused(rules, parameters)
    ensures !Conflicting(PrintedReading(target, parameters, tokens))
  {
    TogglesAgree(parameters);
    AuthAllOrNone(target, parameters, tokens);
  }

  lemma TogglesAgree(parameters: Parameters)
    ensures !(PrintedSwitch(parameters, InboundOn) && PrintedSwitch(parameters, InboundOff))
    ensures !(PrintedSwitch(parameters, BackupsOn) && PrintedSwitch(parameters, BackupsOff))
    ensures !(PrintedSwitch(parameters, RestoreTestingOn) && PrintedSwitch(parameters, RestoreTestingOff))
    ensures PrintedSwitch(parameters, RestoreTestingOn) <==> parameters(EnableRestoreTesting) == "true"
    ensures PrintedSwitch(parameters, BackupsOff) <==> parameters(EnableBackups) != "true"
    ensures PrintedSwitch(parameters, Apply)
  {
  }

  lemma AuthAllOrNone(target: Target, parameters: Parameters, tokens: seq<string>)
    ensures var r := PrintedReading(target, parameters, tokens);
      && r.given(AuthOrigin).Some? == r.given(AuthClientId).Some? == r.given(AuthEmails).Some?
      && r.given(AuthOrigin).Some? == r.given(AuthSecret).Some?
      && r.on(AuthOff) == r.given(AuthSecret).None?
  {
  }

  lemma RowChoice(rules: Rules, target: Target, parameters: Parameters, tokens: seq<string>, p: Parameter)
    requires IsRow(p)
    ensures Explicit(rules, PrintedReading(target, parameters, tokens), p) == rules.canonical(p, parameters(p))
  {
  }

  lemma NothingRejected(rules: Rules, stack: Stack, target: Target, parameters: Parameters, tokens: seq<string>)
    requires CleanParameters(rules, stack, parameters)
    ensures !Rejected(rules, PrintedReading(target, parameters, tokens))
  {
  }

  /** A clean parameter is planned again. */
  lemma CleanComesBack(rules: Rules, name: string, explicit: Choices, stack: Stack, resources: seq<Resource>,
                       target: Target, parameters: Parameters, tokens: seq<string>, p: Parameter)
    requires Planned(rules, name, explicit, stack, resources, parameters)
    requires CleanParameters(rules, stack, parameters)
    ensures var again := Choose(rules, PrintedReading(target, parameters, tokens));
      Effective(name, again, stack, resources, p) == parameters(p)
  {
    var again := Choose(rules, PrintedReading(target, parameters, tokens));
    assert parameters(p) == Effective(name, explicit, stack, resources, p);
    if p == EnableGradualDeployments {
      ToggleComesBack(rules, stack, target, parameters, tokens, EnableInbound);
      GradualComesBack(name, explicit, again, stack, resources, parameters);
    } else if p == RestoreTestingPlanName || p == BackupVaultName {
      NameIsPlanned(name, explicit, again, stack, resources, p);
    } else {
      EffectiveIsMerged(name, again, stack, resources, p);
      EffectiveIsMerged(name, explicit, stack, resources, p);
      MergedComesBack(rules, explicit, stack, target, parameters, tokens, p);
    }
  }

  lemma NameIsPlanned(name: string, explicit: Choices, again: Choices, stack: Stack, resources: seq<Resource>,
                      p: Parameter)
    requires p == RestoreTestingPlanName || p == BackupVaultName
    ensures Effective(name, again, stack, resources, p) == Effective(name, explicit, stack, resources, p)
  {
  }

  predicate IsMerged(p: Parameter) {
    p != EnableGradualDeployments && p != RestoreTestingPlanName && p != BackupVaultName
  }

  lemma EffectiveIsMerged(name: string, explicit: Choices, stack: Stack, resources: seq<Resource>, p: Parameter)
    requires IsMerged(p)
    ensures Effective(name, explicit, stack, resources, p) == Merged(explicit, stack, p)
  {
  }

  lemma MergedComesBack(rules: Rules, explicit: Choices, stack: Stack, target: Target, parameters: Parameters,
                        tokens: seq<string>, p: Parameter)
    requires IsMerged(p) && Expressible(explicit) && parameters(p) == Merged(explicit, stack, p)
    requires CleanParameters(rules, stack, parameters)
    ensures Merged(Choose(rules, PrintedReading(target, parameters, tokens)), stack, p) == parameters(p)
  {
    if IsRow(p) {
      RowChoice(rules, target, parameters, tokens, p);
    } else if IsToggle(p) {
      ToggleComesBack(rules, stack, target, parameters, tokens, p);
    } else if p == BootstrapSecretArn {
      BootstrapComesBack(rules, explicit, stack, target, parameters, tokens);
    } else {
      OtherComesBack(rules, stack, target, parameters, tokens, p);
    }
  }

  lemma GradualComesBack(name: string, explicit: Choices, again: Choices, stack: Stack, resources: seq<Resource>,
                         parameters: Parameters)
    requires forall p :: parameters(p) == Effective(name, explicit, stack, resources, p)
    requires Merged(again, stack, EnableInbound) == parameters(EnableInbound)
    ensures Effective(name, again, stack, resources, EnableGradualDeployments) == parameters(EnableGradualDeployments)
  {
    assert parameters(EnableInbound) == Effective(name, explicit, stack, resources, EnableInbound);
  }

  lemma ToggleComesBack(rules: Rules, stack: Stack, target: Target, parameters: Parameters, tokens: seq<string>,
                        p: Parameter)
    requires IsToggle(p) && TogglesClean(parameters)
    ensures Merged(Choose(rules, PrintedReading(target, parameters, tokens)), stack, p) == parameters(p)
  {
  }

  predicate IsAuth(p: Parameter) {
    p in {ConsoleAuthOrigin, ConsoleAuthGoogleClientId, ConsoleAuthAllowedEmails, ConsoleAuthSecretArn}
  }

  lemma AuthChoice(rules: Rules, target: Target, parameters: Parameters, tokens: seq<string>, p: Parameter)
    requires IsAuth(p)
    ensures Explicit(rules, PrintedReading(target, parameters, tokens), p)
         == if parameters(ConsoleAuthSecretArn) == "" then Some("")
            else if p == ConsoleAuthAllowedEmails then rules.emails(parameters(p)) else Some(parameters(p))
  {
  }

  lemma InboundChoice(rules: Rules, target: Target, parameters: Parameters, tokens: seq<string>)
    ensures Explicit(rules, PrintedReading(target, parameters, tokens), InboundRecipientSuffixes)
         == if parameters(EnableInbound) == "true" then Some(parameters(InboundRecipientSuffixes)) else None
  {
  }

  lemma BootstrapChoice(rules: Rules, target: Target, parameters: Parameters, tokens: seq<string>)
    ensures Explicit(rules, PrintedReading(target, parameters, tokens), BootstrapSecretArn)
         == if parameters(BootstrapSecretArn) == "" then None else Some(parameters(BootstrapSecretArn))
  {
  }

  lemma BootstrapComesBack(rules: Rules, explicit: Choices, stack: Stack, target: Target, parameters: Parameters,
                           tokens: seq<string>)
    requires explicit(BootstrapSecretArn) != Some("")
    requires parameters(BootstrapSecretArn) == Merged(explicit, stack, BootstrapSecretArn)
    ensures Merged(Choose(rules, PrintedReading(target, parameters, tokens)), stack, BootstrapSecretArn)
         == parameters(BootstrapSecretArn)
  {
    BootstrapChoice(rules, target, parameters, tokens);
  }

  lemma OtherComesBack(rules: Rules, stack: Stack, target: Target, parameters: Parameters, tokens: seq<string>,
                       p: Parameter)
    requires InboundClean(rules, stack, parameters) && AuthClean(rules, parameters)
    requires p == InboundRecipientSuffixes || IsAuth(p)
    ensures Merged(Choose(rules, PrintedReading(target, parameters, tokens)), stack, p) == parameters(p)
  {
    if IsAuth(p) {
      AuthChoice(rules, target, parameters, tokens, p);
    } else {
      InboundChoice(rules, target, parameters, tokens);
    }
  }

  /** Only three parameters are not simply merged. */
  lemma PlansMerged(rules: Rules, name: string, stack: Stack, resources: seq<Resource>,
                    r: Reading, parameters: Parameters, p: Parameter)
    requires PlansParameters(rules, name, stack, resources, r, parameters)
    requires p !in {EnableGradualDeployments, BackupVaultName, RestoreTestingPlanName}
    ensures Merged(Choose(rules, r), stack, p) == parameters(p)
  {
    assert Effective(name, Choose(rules, r), stack, resources, p) == parameters(p);
  }

  /** A row that is planned again is in its accepted form. */
  lemma BackMeansCleanRow(rules: Rules, stack: Stack, target: Target, parameters: Parameters, tokens: seq<string>,
                          p: Parameter)
    requires IsRow(p) && !Rejected(rules, PrintedReading(target, parameters, tokens))
    requires Merged(Choose(rules, PrintedReading(target, parameters, tokens)), stack, p) == parameters(p)
    ensures rules.canonical(p, parameters(p)) == Some(parameters(p))
  {
    RowChoice(rules, target, parameters, tokens, p);
    assert PrintedReading(target, parameters, tokens).given(Row(p)) == Some(parameters(p));
  }

  lemma BackMeansCleanToggle(rules: Rules, stack: Stack, target: Target, parameters: Parameters, tokens: seq<string>,
                             p: Parameter)
    requires IsToggle(p)
    requires Merged(Choose(rules, PrintedReading(target, parameters, tokens)), stack, p) == parameters(p)
    ensures parameters(p) == "true" || parameters(p) == "false"
  {
  }

  lemma BackMeansCleanInbound(rules: Rules, stack: Stack, target: Target, parameters: Parameters, tokens: seq<string>)
    requires !Rejected(rules, PrintedReading(target, parameters, tokens))
    requires var p := InboundRecipientSuffixes;
      Merged(Choose(rules, PrintedReading(target, parameters, tokens)), stack, p) == parameters(p)
    ensures InboundClean(rules, stack, parameters)
  {
    InboundChoice(rules, target, parameters, tokens);
  }

  lemma BackMeansCleanAuth(rules: Rules, stack: Stack, target: Target, parameters: Parameters, tokens: seq<string>)
    requires !Rejected(rules, PrintedReading(target, parameters, tokens))
    requires forall p :: IsAuth(p) ==>
      Merged(Choose(rules, PrintedReading(target, parameters, tokens)), stack, p) == parameters(p)
    ensures AuthClean(rules, parameters)
  {
    forall p | IsAuth(p)
      ensures parameters(ConsoleAuthSecretArn) == "" ==> parameters(p) == ""
      ensures p == ConsoleAuthAllowedEmails && parameters(ConsoleAuthSecretArn) != ""
              && rules.emails(parameters(p)).Some? ==>
                rules.emails(parameters(p)) == Some(parameters(p))
    {
      AuthChoice(rules, target, parameters, tokens, p);
    }
    assert IsAuth(ConsoleAuthOrigin) && IsAuth(ConsoleAuthGoogleClientId) && IsAuth(ConsoleAuthAllowedEmails);
    AuthNotRejected(rules, target, parameters, tokens);
  }

  lemma AuthNotRejected(rules: Rules, target: Target, parameters: Parameters, tokens: seq<string>)
    requires !Rejected(rules, PrintedReading(target, parameters, tokens))
    ensures parameters(ConsoleAuthSecretArn) != "" ==>
      rules.originOk(parameters(ConsoleAuthOrigin)) && rules.emails(parameters(ConsoleAuthAllowedEmails)).Some?
  {
  }

  lemma BackMeansCleanParameters(rules: Rules, name: string, stack: Stack, resources: seq<Resource>,
                                 target: Target, parameters: Parameters, tokens: seq<string>)
    requires PlansParameters(rules, name, stack, resources, PrintedReading(target, parameters, tokens), parameters)
    ensures CleanParameters(rules, stack, parameters)
  {
    var r := PrintedReading(target, parameters, tokens);
    forall p | p !in {EnableGradualDeployments, BackupVaultName, RestoreTestingPlanName}
      ensures Merged(Choose(rules, r), stack, p) == parameters(p)
    {
      PlansMerged(rules, name, stack, resources, r, parameters, p);
    }
    forall p | IsRow(p)
      ensures rules.canonical(p, parameters(p)) == Some(parameters(p))
    {
      BackMeansCleanRow(rules, stack, target, parameters, tokens, p);
    }
    forall p | IsToggle(p)
      ensures parameters(p) == "true" || parameters(p) == "false"
    {
      BackMeansCleanToggle(rules, stack, target, parameters, tokens, p);
    }
    BackMeansCleanInbound(rules, stack, target, parameters, tokens);
    BackMeansCleanAuth(rules, stack, target, parameters, tokens);
  }

  /** Planned parameters are planned again from the printed options exactly when they are clean. */
  lemma ParametersComeBack(rules: Rules, name: string, explicit: Choices, stack: Stack, resources: seq<Resource>,
                           target: Target, parameters: Parameters, tokens: seq<string>)
    requires Planned(rules, name, explicit, stack, resources, parameters)
    ensures PlansParameters(rules, name, stack, resources, PrintedReading(target, parameters, tokens), parameters)
       <==> CleanParameters(rules, stack, parameters)
  {
    var r := PrintedReading(target, parameters, tokens);
    if CleanParameters(rules, stack, parameters) {
      NothingConflicts(rules, target, parameters, tokens);
      NothingRejected(rules, stack, target, parameters, tokens);
      forall p
        ensures Effective(name, Choose(rules, r), stack, resources, p) == parameters(p)
      {
        CleanComesBack(rules, name, explicit, stack, resources, target, parameters, tokens, p);
      }
      SettlesPointwise(rules, name, stack, resources, Choose(rules, r), parameters);
    }
    if PlansParameters(rules, name, stack, resources, r, parameters) {
      BackMeansCleanParameters(rules, name, stack, resources, target, parameters, tokens);
    }
  }

  // ----------------------------------------------------------- the round trip

  /** The arguments of the printed command, from the target word `aws` on. */
  function ApplyArguments(v: Vocabulary, target: Target, parameters: Parameters, tags: seq<TagPair>): seq<string> {
    Arguments(v, ApplyEntries(target, parameters, PrintTags(RESERVED_TAGS, tags)))
  }

  /** These tags are what some command line planned for the stack. */
  ghost predicate PlannedTags(stack: Stack, requested: map<string, string>, tags: seq<TagPair>,
                              m: map<string, string>) {
    Lists(tags, m) && Reserves(RESERVED_TAGS, requested) && EffectiveTags(requested, stack) == Some(m)
  }

  /** The condition, on the plan and the stack alone, under which a plan survives printing. */
  ghost predicate Survives(rules: Rules, stack: Stack, target: Target, parameters: Parameters, tags: seq<TagPair>) {
    && UsableValues(target, parameters)
    && CleanParameters(rules, stack, parameters)
    && UsableTags(tags)
    && (forall i :: 0 <= i < |tags| && tags[i].key !in RESERVED_TAGS ==> CleanTag(rules, tags[i]))
  }

  /** Printed arguments are read as what was printed. */
  lemma PrintedIsRead(v: Vocabulary, target: Target, parameters: Parameters, tokens: seq<string>)
    requires Faithful(v) && AllUsable(ApplyEntries(target, parameters, tokens))
    ensures var r := ReadingOf(v, Arguments(v, ApplyEntries(target, parameters, tokens)));
      SameReading(r, PrintedReading(target, parameters, tokens)) && r.tokens == tokens
  {
    var entries := ApplyEntries(target, parameters, tokens);
    ApplyStretch(target, parameters, tokens);
    forall o | IsValueOption(o)
      ensures Given(v, Arguments(v, entries), o) == PrintedValue(target, parameters, o)
    {
      ReadsValue(v, RankOf, entries, 36, o);
      PrintedAny(target, parameters, tokens, o);
    }
    forall o | IsSwitch(o)
      ensures HasFlag(Arguments(v, entries), v.name(o)) <==> PrintedSwitch(parameters, o)
    {
      ReadsSwitch(v, RankOf, entries, 36, o);
      PrintedSwitches(target, parameters, tokens, o);
    }
    ReadsTags(v, RankOf, entries, 36);
    PrintedTags(target, parameters, tokens);
  }

  lemma {:induction false} TokensUsable(own: map<string, string>, tags: seq<TagPair>)
    ensures (forall t :: t in PrintTags(own, tags) ==> Usable(t))
       <==> (forall i :: 0 <= i < |tags| && tags[i].key !in own ==> Usable(Token(tags[i])))
  {
    if tags != [] {
      var rest := tags[1..];
      TokensUsable(own, rest);
      assert forall i :: 0 <= i < |rest| ==> rest[i] == tags[i + 1];
      assert forall i :: 0 < i < |tags| ==> tags[i] == rest[i - 1];
    }
  }

  lemma TagsComeBack(rules: Rules, stack: Stack, requested: map<string, string>, tags: seq<TagPair>,
                     m: map<string, string>)
    requires PlannedTags(stack, requested, tags, m)
    ensures PlansTags(rules, RESERVED_TAGS, stack, PrintTags(RESERVED_TAGS, tags), m)
       <==> forall i :: 0 <= i < |tags| && tags[i].key !in RESERVED_TAGS ==> CleanTag(rules, tags[i])
  {
    if PlansTags(rules, RESERVED_TAGS, stack, PrintTags(RESERVED_TAGS, tags), m) {
      forall i | 0 <= i < |tags| && tags[i].key !in RESERVED_TAGS
        ensures CleanTag(rules, tags[i])
      {
        BackMeansClean(rules, RESERVED_TAGS, stack, tags, m, i);
      }
    }
    if forall i :: 0 <= i < |tags| && tags[i].key !in RESERVED_TAGS ==> CleanTag(rules, tags[i]) {
      CleanTagsComeBack(rules, RESERVED_TAGS, stack, tags, m);
    }
  }

  ghost predicate UsableTags(tags: seq<TagPair>) {
    forall i :: 0 <= i < |tags| && tags[i].key !in RESERVED_TAGS ==> Usable(Token(tags[i]))
  }

  lemma AcceptedIfUsable(v: Vocabulary, target: Target, parameters: Parameters, tags: seq<TagPair>)
    requires Faithful(v)
    ensures Accepted(Structured(ApplyArguments(v, target, parameters, tags), 1, v.spec), v.spec)
       <==> AllUsable(ApplyEntries(target, parameters, PrintTags(RESERVED_TAGS, tags)))
    ensures AllUsable(ApplyEntries(target, parameters, PrintTags(RESERVED_TAGS, tags)))
       <==> UsableValues(target, parameters) && UsableTags(tags)
  {
    var tokens := PrintTags(RESERVED_TAGS, tags);
    var entries := ApplyEntries(target, parameters, tokens);
    ApplyStretch(target, parameters, tokens);
    ItemsRead(v, entries);
    AcceptedExactly(v, RankOf, entries, 36);
    UsableExactly(target, parameters, tokens);
    TokensUsable(RESERVED_TAGS, tags);
  }

  lemma AcceptedIsPlanned(v: Vocabulary, rules: Rules, name: string, explicit: Choices, stack: Stack,
                          resources: seq<Resource>, target: Target, parameters: Parameters, tags: seq<TagPair>)
    requires Faithful(v)
    requires Planned(rules, name, explicit, stack, resources, parameters)
    requires AllUsable(ApplyEntries(target, parameters, PrintTags(RESERVED_TAGS, tags)))
    ensures var r := ReadingOf(v, ApplyArguments(v, target, parameters, tags));
      && r.tokens == PrintTags(RESERVED_TAGS, tags)
      && target == Target(Text(r.given(Account)), Text(r.given(Region)), Text(r.given(StackName)),
                          r.given(Profile), r.given(RoleArn), r.given(ArtifactBucket))
      && (PlansParameters(rules, name, stack, resources, r, parameters) <==> CleanParameters(rules, stack, parameters))
  {
    var tokens := PrintTags(RESERVED_TAGS, tags);
    PrintedIsRead(v, target, parameters, tokens);
    var r := ReadingOf(v, ApplyArguments(v, target, parameters, tags));
    TargetIsRead(r, target, parameters, tokens);
    SamePlan(rules, name, stack, resources, r, PrintedReading(target, parameters, tokens), parameters);
    ParametersComeBack(rules, name, explicit, stack, resources, target, parameters, tokens);
  }

  /**
   Running the printed command against the unchanged stack plans for the same target with
   the same parameters and the same tags exactly when the plan survives printing.
   */
  lemma ApplyCommandRoundTrip(v: Vocabulary, rules: Rules, name: string, explicit: Choices, stack: Stack,
                              resources: seq<Resource>, target: Target, parameters: Parameters,
                              requested: map<string, string>, tags: seq<TagPair>, m: map<string, string>)
    requires Faithful(v)
    requires Planned(rules, name, explicit, stack, resources, parameters)
    requires PlannedTags(stack, requested, tags, m)
    ensures Plans(v, rules, name, stack, resources, ApplyArguments(v, target, parameters, tags), target, parameters, m)
       <==> Survives(rules, stack, target, parameters, tags)
  {
    AcceptedIfUsable(v, target, parameters, tags);
    if Accepted(Structured(ApplyArguments(v, target, parameters, tags), 1, v.spec), v.spec) {
      AcceptedIsPlanned(v, rules, name, explicit, stack, resources, target, parameters, tags);
      TagsComeBack(rules, stack, requested, tags, m);
    }
  }

  lemma TargetIsRead(r: Reading, target: Target, parameters: Parameters, tokens: seq<string>)
    requires SameReading(r, PrintedReading(target, parameters, tokens))
    ensures target == Target(Text(r.given(Account)), Text(r.given(Region)), Text(r.given(StackName)),
                             r.given(Profile), r.given(RoleArn), r.given(ArtifactBucket))
  {
    forall o | o in {Account, Region, StackName, Profile, RoleArn, ArtifactBucket}
      ensures r.given(o) == PrintedValue(target, parameters, o)
    {
    }
  }

  /**
   The round trip is not unconditional: any stack tag whose key holds an equals sign is
   lost, although the stack may carry it.
   */
  lemma EqualsSignInKeyIsLost(v: Vocabulary, rules: Rules, name: string, explicit: Choices, stack: Stack,
                              resources: seq<Resource>, target: Target, parameters: Parameters,
                              requested: map<string, string>, tags: seq<TagPair>, m: map<string, string>, k: string)
    requires Faithful(v)
    requires Planned(rules, name, explicit, stack, resources, parameters)
    requires PlannedTags(stack, requested, tags, m)
    requires k in stack.tags && '=' in k && k !in RESERVED_TAGS
    ensures !Plans(v, rules, name, stack, resources, ApplyArguments(v, target, parameters, tags), target, parameters, m)
  {
    ApplyCommandRoundTrip(v, rules, name, explicit, stack, resources, target, parameters, requested, tags, m);
    assert k in m;
    var i :| 0 <= i < |tags| && tags[i] == TagPair(k, m[k]);
    assert !CleanTag(rules, tags[i]);
  }

  /** The round trip in the words of `deploy aws` itself. */
  lemma DeployCommandRoundTrip(rules: Rules, name: string, explicit: Choices, stack: Stack,
                               resources: seq<Resource>, target: Target, parameters: Parameters,
                               requested: map<string, string>, tags: seq<TagPair>, m: map<string, string>)
    requires Planned(rules, name, explicit, stack, resources, parameters)
    requires PlannedTags(stack, requested, tags, m)
    ensures var v := DeployVocabulary();
      Plans(v, rules, name, stack, resources, ApplyArguments(v, target, parameters, tags), target, parameters, m)
      <==> Survives(rules, stack, target, parameters, tags)
  {
    DeployVocabularyFaithful();
    ApplyCommandRoundTrip(DeployVocabulary(), rules, name, explicit, stack, resources, target, parameters, requested,
                          tags, m);
  }

  lemma DeployLosesEqualsSign(rules: Rules, name: string, explicit: Choices, stack: Stack,
                              resources: seq<Resource>, target: Target, parameters: Parameters,
                              requested: map<string, string>, tags: seq<TagPair>, m: map<string, string>, k: string)
    requires Planned(rules, name, explicit, stack, resources, parameters)
    requires PlannedTags(stack, requested, tags, m)
    requires k in stack.tags && '=' in k && k !in RESERVED_TAGS
    ensures var v := DeployVocabulary();
      !Plans(v, rules, name, stack, resources, ApplyArguments(v, target, parameters, tags), target, parameters, m)
  {
    DeployVocabularyFaithful();
    EqualsSignInKeyIsLost(DeployVocabulary(), rules, name, explicit, stack, resources, target, parameters, requested,
                          tags, m, k);
  }
}
