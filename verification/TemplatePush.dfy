/**
 `hayasend templates push` (src/cli.ts, src/cli-templates.ts): the tool reads every
 template of its manifest, creates or updates drafts, reads them again and publishes with
 an If-Match version id, while other writers use the same server between any two requests.
 */
module TemplatePush {
  import opened Wrappers
  import opened TemplateServer

  // --------------------------------------------------------------- the tool

  datatype RemoteTemplate = RemoteTemplate(
    id: nat,
    currentVersion: nat,
    content: Content,
    isPublished: bool,
    hasUnpublishedVersions: bool)

  /** `parseRemoteTemplate`: a template without an alias is refused, absent variables become empty. */
  function ParseRemote(shown: PublicTemplate): Option<RemoteTemplate> {
    if shown.alias.None? then None
    else
      Some(RemoteTemplate(
             shown.id, shown.currentVersion,
             Content(shown.alias, shown.name, shown.html, shown.text, shown.from, shown.subject, shown.replyTo,
                     if shown.variables.Some? then shown.variables.value else []),
             shown.isPublished, shown.hasUnpublishedVersions))
  }

  /** Both sides are serialised with the same keys in the same order, so equal text is equal content. */
  predicate TemplatesMatch(desired: Content, remote: RemoteTemplate) {
    desired == remote.content
  }

  /** `templatePayload` as a PATCH body: all eight fields are present. */
  function FullPatch(desired: Content): Patch {
    Patch(Replace(desired.alias), Replace(desired.name), Replace(desired.html), Replace(desired.text),
          Replace(desired.from), Replace(desired.subject), Replace(desired.replyTo), Replace(desired.variables))
  }

  datatype Action = CreateDraft | UpdateDraft | PublishDraft

  datatype Plan = Plan(desired: Content, remote: Option<RemoteTemplate>, actions: seq<Action>)

  function ActionsFor(desired: Content, remote: Option<RemoteTemplate>, publish: bool): seq<Action> {
    var edits :=
      if remote.None? then [CreateDraft]
      else if !TemplatesMatch(desired, remote.value) then [UpdateDraft]
      else [];
    if publish
       && (remote.None? || UpdateDraft in edits || !remote.value.isPublished || remote.value.hasUnpublishedVersions)
    then edits + [PublishDraft] else edits
  }

  datatype Failure = RequestFailed | ChangedDuringReconciliation

  // ------------------------------------------- requests among other writers

  datatype Fate = Delivered | NeverArrived | ReplyLost

  /** What happens before and to one request of the tool: others go first, the network decides. */
  datatype Turn = Turn(others: seq<Request>, fate: Fate)

  type Schedule = nat -> Turn

  /** `answer` is what the server did with the request, `reply` what the tool got to see of it. */
  datatype Exchange = Exchange(request: Request, before: Store, after: Store, answer: Option<Response>,
                               reply: Option<Response>)

  datatype World = World(store: Store, log: seq<Exchange>)

  /** What the others, the network and the server make of request number `n`. */
  function Exchanged(schedule: Schedule, n: nat, store: Store, request: Request): Exchange {
    var turn := schedule(n);
    var before := ServeAll(store, turn.others);
    if turn.fate == NeverArrived then Exchange(request, before, before, None, None)
    else
      var (after, answer) := Serve(before, request);
      Exchange(request, before, after, Some(answer), if turn.fate == Delivered then Some(answer) else None)
  }

  function Send(schedule: Schedule, world: World, request: Request): (World, Option<Response>) {
    var exchange := Exchanged(schedule, |world.log|, world.store, request);
    (World(exchange.after, world.log + [exchange]), exchange.reply)
  }

  /** No other writer and no lost message. */
  ghost predicate Quiet(schedule: Schedule) {
    forall n :: schedule(n) == Turn([], Delivered)
  }

  // ----------------------------------------------------- what is to be shown

  function StoreAt(start: World, log: seq<Exchange>, i: nat): Store
    requires |start.log| <= i <= |log|
  {
    if i == |start.log| then start.store else log[i - 1].after
  }

  ghost predicate GenuineAt(schedule: Schedule, start: World, log: seq<Exchange>, i: nat)
    requires |start.log| <= i < |log|
  {
    log[i] == Exchanged(schedule, i, StoreAt(start, log, i), log[i].request)
  }

  /** The log grew by requests that were really sent, one after the other. */
  ghost predicate Genuine(schedule: Schedule, start: World, world: World) {
    && start.log <= world.log && world.store == StoreAt(start, world.log, |world.log|)
    && forall i :: |start.log| <= i < |world.log| ==> GenuineAt(schedule, start, world.log, i)
  }

  lemma GenuineTransitive(schedule: Schedule, a: World, b: World, c: World)
    requires Genuine(schedule, a, b) && Genuine(schedule, b, c)
    ensures Genuine(schedule, a, c)
  {
    forall i | |a.log| <= i < |c.log|
      ensures GenuineAt(schedule, a, c.log, i)
    {
      GenuineLater(schedule, a, b, c, i);
    }
  }

  lemma GenuineLater(schedule: Schedule, a: World, b: World, c: World, i: nat)
    requires Genuine(schedule, a, b) && Genuine(schedule, b, c) && |a.log| <= i < |c.log|
    ensures GenuineAt(schedule, a, c.log, i)
  {
    if i < |b.log| {
      assert GenuineAt(schedule, a, b.log, i);
      assert c.log[i] == b.log[i] && StoreAt(a, c.log, i) == StoreAt(a, b.log, i);
    } else {
      assert GenuineAt(schedule, b, c.log, i);
    }
  }

  /** What the tool makes of the reply to a read: only a 404 means that there is no template. */
  function ReadAs(reply: Option<Response>): Result<Option<RemoteTemplate>, Failure> {
    if reply == Some(NotFound) then Ok(None)
    else if reply.Some? && reply.value.Shown? && ParseRemote(reply.value.template).Some?
    then Ok(ParseRemote(reply.value.template))
    else Err(RequestFailed)
  }

  // ------------------------------------------------- what a reported entry means

  /** The reply to a write or a publication names this id, or is not a success. */
  predicate Tells(reply: Option<Response>, id: Option<nat>) {
    if id.Some? then reply == Some(Done(id.value)) else !(reply.Some? && reply.value.Done?)
  }

  /** The draft was not there or was different when the tool planned. */
  predicate Due(desired: Content, read: Option<RemoteTemplate>) {
    read.None? || read.value.content != desired
  }

  predicate Unpublished(desired: Content, read: Option<RemoteTemplate>) {
    Due(desired, read) || !read.value.isPublished || read.value.hasUnpublishedVersions
  }

  function Write(desired: Content, read: Option<RemoteTemplate>): Request {
    if read.None? then Create(desired) else Update(ById(read.value.id), FullPatch(desired))
  }

  /** The server carried the draft out and said so, for the template `id`. */
  ghost predicate DraftConfirmed(log: seq<Exchange>, i: nat, desired: Content, read: Option<RemoteTemplate>, id: nat) {
    i < |log| && log[i].request == Write(desired, read) && log[i].reply == Some(Done(id))
  }

  /** The desired content was read back, its very version was published, and the server said so. */
  ghost predicate PublicationConfirmed(log: seq<Exchange>, i: nat, desired: Content, seen: RemoteTemplate, id: nat) {
    && i < |log| && seen.content == desired
    && log[i].request == Publish(ById(seen.id), Some(seen.currentVersion))
    && log[i].reply == Some(Done(id)) && PublishedAs(log[i].after, id, desired)
  }

  predicate ReadBack(log: seq<Exchange>, i: nat, desired: Content) {
    && i < |log| && desired.alias.Some? && log[i].request == Get(ByAlias(desired.alias.value))
    && ReadAs(log[i].reply).Ok? && ReadAs(log[i].reply).value.Some?
  }

  /** The draft was written if it had to be; without publication that is all. */
  ghost predicate DraftDone(log: seq<Exchange>, from: nat, to: nat, desired: Content, read: Option<RemoteTemplate>,
                            id: nat) {
    if Due(desired, read) then to == from + 1 && DraftConfirmed(log, from, desired, read, id)
    else to == from && id == read.value.id
  }

  /** What was published is the draft that was read back after writing it, or the one planning had read. */
  ghost predicate PublicationDone(log: seq<Exchange>, from: nat, to: nat, desired: Content,
                                  read: Option<RemoteTemplate>, id: nat) {
    if Due(desired, read) then
      && to == from + 3 && (exists draft :: DraftConfirmed(log, from, desired, read, draft))
      && ReadBack(log, from + 1, desired)
      && PublicationConfirmed(log, from + 2, desired, ReadAs(log[from + 1].reply).value.value, id)
    else to == from + 1 && PublicationConfirmed(log, from, desired, read.value, id)
  }

  /** The exchanges from `from` to `to` are all that was done for an entry, and all of it was confirmed. */
  ghost predicate Accomplished(log: seq<Exchange>, from: nat, to: nat, desired: Content, read: Option<RemoteTemplate>,
                               publish: bool, id: Option<nat>) {
    && from <= to <= |log| && id.Some?
    && if publish && Unpublished(desired, read) then PublicationDone(log, from, to, desired, read, id.value)
       else DraftDone(log, from, to, desired, read, id.value)
  }

  lemma DraftDoneLater(log: seq<Exchange>, longer: seq<Exchange>, from: nat, desired: Content,
                       read: Option<RemoteTemplate>, id: nat)
    requires log <= longer && DraftDone(log, from, |log|, desired, read, id)
    ensures DraftDone(longer, from, |log|, desired, read, id)
  {
  }

  lemma {:induction false} AccomplishedLater(log: seq<Exchange>, longer: seq<Exchange>, from: nat, to: nat,
                                             desired: Content, read: Option<RemoteTemplate>, publish: bool,
                                             id: Option<nat>)
    requires log <= longer && Accomplished(log, from, to, desired, read, publish, id)
    ensures Accomplished(longer, from, to, desired, read, publish, id)
  {
    assert forall i :: from <= i < to ==> longer[i] == log[i];
    if publish && Unpublished(desired, read) && Due(desired, read) {
      var draft :| DraftConfirmed(log, from, desired, read, draft);
      assert DraftConfirmed(longer, from, desired, read, draft);
    }
  }

  /** The last exchange is one the tool cannot go on from. */
  predicate Defeated(last: Exchange, desired: Content, error: Failure) {
    match error
    case ChangedDuringReconciliation =>
      && last.request.Get? && ReadAs(last.reply).Ok? && ReadAs(last.reply).value.Some?
      && ReadAs(last.reply).value.value.content != desired
    case RequestFailed =>
      if last.request.Get? then ReadAs(last.reply).Err? || ReadAs(last.reply) == Ok(None)
      else !(last.reply.Some? && last.reply.value.Done?)
  }

  /** The tool has seen `remote` in the reply to one of its first `n` requests. */
  ghost predicate Seen(log: seq<Exchange>, n: nat, remote: RemoteTemplate)
    requires n <= |log|
  {
    exists j :: 0 <= j < n && log[j].reply.Some? && log[j].reply.value.Shown?
                && ParseRemote(log[j].reply.value.template) == Some(remote)
  }

  /** The tool has compared `desired` with the content behind `version`, and they were equal. */
  ghost predicate Compared(log: seq<Exchange>, n: nat, version: nat, desired: Content)
    requires n <= |log|
  {
    exists remote :: Seen(log, n, remote) && remote.currentVersion == version && TemplatesMatch(desired, remote)
  }

  /** The template the server answered about is published with this content. */
  predicate PublishedAs(after: Store, id: nat, content: Content) {
    && id in after.templates
    && after.templates[id].published.Some? && after.templates[id].published.value.content == content
  }

  /**
   A publication request is conditional on a version that was compared with the desired
   content, and if the server carried it out, the desired content is what got published.
   */
  ghost predicate Justified(log: seq<Exchange>, i: nat, desired: Content)
    requires i < |log|
  {
    log[i].request.Publish? ==>
      && log[i].request.ifMatch.Some?
      && Compared(log, i, log[i].request.ifMatch.value, desired)
      && (log[i].answer.Some? && log[i].answer.value.Done? ==>
            PublishedAs(log[i].after, log[i].answer.value.id, desired))
  }

  /** What the tool would read for a manifest entry now. */
  function RemoteOf(store: Store, desired: Content): Option<RemoteTemplate>
    requires desired.alias.Some?
  {
    match Lookup(store, ByAlias(desired.alias.value))
    case None => None
    case Some(record) => ParseRemote(Show(record))
  }

  /** A planning pass has nothing to do for this entry. */
  predicate Reconciled(store: Store, desired: Content, publish: bool)
    requires desired.alias.Some?
  {
    ActionsFor(desired, RemoteOf(store, desired), publish) == []
  }

  /** Reconciled for publication means: the desired content is both draft and published version. */
  lemma ReconciledMeans(store: Store, desired: Content)
    requires Valid(store) && desired.alias.Some?
    ensures Reconciled(store, desired, true) <==>
      exists id :: id in store.templates && store.templates[id].draft.content == desired
                   && store.templates[id].published == Some(store.templates[id].draft)
  {
    var who := ByAlias(desired.alias.value);
    if Lookup(store, who).Some? {
      LookupValid(store, who);
      var record := Lookup(store, who).value;
      ShowParses(record);
      assert ValidRecord(store, record.id);
      assert record.id in store.templates;
    }
    forall id | id in store.templates && store.templates[id].draft.content == desired
      ensures Lookup(store, who) == Some(store.templates[id])
    {
      assert DraftAliases(store)[id] == desired.alias;
    }
  }

  /** Showing a draft and parsing it gives back the content, unless it has no alias. */
  lemma ShowParses(record: Record)
    ensures var remote := ParseRemote(Show(record));
      if record.draft.content.alias.Some?
      then remote.Some? && remote.value.content == record.draft.content
           && remote.value.currentVersion == record.draft.id
           && remote.value.id == record.id
      else remote.None?
  {
  }

  /** Replies of the past still describe the versions they named. */
  ghost predicate ValidWorld(world: World) {
    && Valid(world.store)
    && forall j :: 0 <= j < |world.log| ==> Truthful(world.store, world.log[j])
  }

  predicate Truthful(store: Store, exchange: Exchange) {
    (exchange.reply.Some? ==> exchange.answer == exchange.reply) &&
    (exchange.reply.Some? && exchange.reply.value.Shown? && ParseRemote(exchange.reply.value.template).Some? ==>
      var remote := ParseRemote(exchange.reply.value.template).value;
      remote.currentVersion in store.minted && store.minted[remote.currentVersion] == remote.content)
  }

  lemma SendValid(schedule: Schedule, world: World, request: Request)
    requires ValidWorld(world)
    ensures var world' := Send(schedule, world, request).0;
      && ValidWorld(world')
      && |world'.log| == |world.log| + 1 && world'.log[..|world.log|] == world.log
      && world'.log[|world.log|].request == request && world'.log[|world.log|].reply == Send(schedule, world, request).1
      && Genuine(schedule, world, world')
  {
    var turn := schedule(|world.log|);
    var before := ServeAll(world.store, turn.others);
    var world' := Send(schedule, world, request).0;
    ServeAllValid(world.store, turn.others);
    ServeValid(before, request);
    assert Remembers(world'.store, before);
    forall j | 0 <= j < |world'.log|
      ensures Truthful(world'.store, world'.log[j])
    {
      if j < |world.log| {
        assert world'.log[j] == world.log[j] && Truthful(world.store, world.log[j]);
      } else if request.Get? && Lookup(before, request.who).Some? {
        LookupValid(before, request.who);
        ShowParses(Lookup(before, request.who).value);
      }
    }
  }

  lemma SeenLater(log: seq<Exchange>, n: nat, log': seq<Exchange>, m: nat, remote: RemoteTemplate)
    requires n <= |log| && n <= m <= |log'| && log'[..n] == log[..n]
    requires Seen(log, n, remote)
    ensures Seen(log', m, remote)
  {
    var j :| 0 <= j < n && log[j].reply.Some? && log[j].reply.value.Shown?
             && ParseRemote(log[j].reply.value.template) == Some(remote);
    assert log'[j] == log'[..n][j] == log[..n][j] == log[j];
  }

  lemma SeenIsMinted(world: World, remote: RemoteTemplate)
    requires ValidWorld(world) && Seen(world.log, |world.log|, remote)
    ensures remote.currentVersion in world.store.minted && world.store.minted[remote.currentVersion] == remote.content
  {
    var j :| 0 <= j < |world.log| && world.log[j].reply.Some? && world.log[j].reply.value.Shown?
             && ParseRemote(world.log[j].reply.value.template) == Some(remote);
    assert Truthful(world.store, world.log[j]);
  }

  lemma PublishTells(store: Store, who: Identifier, version: nat, desired: Content)
    requires Valid(store) && version in store.minted && store.minted[version] == desired
    ensures var (after, response) := ServePublish(store, who, Some(version));
      response.Done? ==> PublishedAs(after, response.id, desired)
  {
    PublishIsCompareAndSwap(store, who, version);
  }

  /** The compare-and-swap seen from the tool: a compared version publishes the compared content. */
  lemma PublicationJustified(schedule: Schedule, world: World, who: Identifier, remote: RemoteTemplate,
                             desired: Content)
    requires ValidWorld(world)
    requires Seen(world.log, |world.log|, remote) && TemplatesMatch(desired, remote)
    ensures var world' := Send(schedule, world, Publish(who, Some(remote.currentVersion))).0;
      |world.log| < |world'.log| && Justified(world'.log, |world.log|, desired)
  {
    var request := Publish(who, Some(remote.currentVersion));
    var world' := Send(schedule, world, request).0;
    SendValid(schedule, world, request);
    SeenLater(world.log, |world.log|, world'.log, |world.log|, remote);
    SeenIsMinted(world, remote);
    var turn := schedule(|world.log|);
    var before := ServeAll(world.store, turn.others);
    ServeAllValid(world.store, turn.others);
    PublishTells(before, who, remote.currentVersion, desired);
  }

  // -------------------------------------------------------------- the loops

  predicate ValidManifest(templates: seq<Content>) {
    && (forall i :: 0 <= i < |templates| ==> templates[i].alias.Some?)
    && (forall i, j :: 0 <= i < j < |templates| ==> templates[i].alias != templates[j].alias)
  }

  /** The manifest's uniqueness rule, as its schema checks it. */
  method AliasesUnique(templates: seq<Content>) returns (ok: bool)
    requires forall i :: 0 <= i < |templates| ==> templates[i].alias.Some?
    ensures ok <==> ValidManifest(templates)
  {
    ok := true;
    var aliases: set<string> := {};
    for i := 0 to |templates|
      invariant forall alias :: alias in aliases <==> exists k :: 0 <= k < i && templates[k].alias == Some(alias)
      invariant ok <==> forall j, k :: 0 <= j < k < i ==> templates[j].alias != templates[k].alias
    {
      if templates[i].alias.value in aliases {
        ok := false;
      }
      aliases := aliases + {templates[i].alias.value};
    }
  }

  /** Every request so far respects the publication rule for some manifest entry. */
  ghost predicate Lawful(log: seq<Exchange>, templates: seq<Content>) {
    forall i :: 0 <= i < |log| ==>
      && !log[i].request.Delete?
      && (log[i].request.Publish? ==> exists k :: 0 <= k < |templates| && Justified(log, i, templates[k]))
  }

  predicate ReadOnly(log: seq<Exchange>) {
    forall i :: 0 <= i < |log| ==> log[i].request.Get?
  }

  /** The first requests are one read per entry, in the order of the manifest. */
  predicate AskedInOrder(log: seq<Exchange>, templates: seq<Content>) {
    forall k :: 0 <= k < |log| && k < |templates| ==>
      templates[k].alias.Some? && log[k].request == Get(ByAlias(templates[k].alias.value))
  }

  /** Each plan rests on the reply to its own read. */
  predicate PlannedFrom(log: seq<Exchange>, templates: seq<Content>, plans: seq<Plan>, publish: bool) {
    && |plans| <= |log| && |plans| <= |templates|
    && forall k :: 0 <= k < |plans| ==>
         && plans[k].desired == templates[k] && ReadAs(log[k].reply) == Ok(plans[k].remote)
         && plans[k].actions == ActionsFor(templates[k], plans[k].remote, publish)
  }

  lemma PlannedIsSeen(log: seq<Exchange>, templates: seq<Content>, plans: seq<Plan>, publish: bool, k: nat)
    requires PlannedFrom(log, templates, plans, publish) && k < |plans| && plans[k].remote.Some?
    ensures Seen(log, |log|, plans[k].remote.value)
  {
    assert ReadAs(log[k].reply) == Ok(plans[k].remote);
  }

  lemma AskedOneMore(log: seq<Exchange>, longer: seq<Exchange>, templates: seq<Content>)
    requires log <= longer && |longer| == |log| + 1 && AskedInOrder(log, templates) && |log| < |templates|
    requires templates[|log|].alias.Some? && longer[|log|].request == Get(ByAlias(templates[|log|].alias.value))
    ensures AskedInOrder(longer, templates)
  {
  }

  lemma PlannedOneMore(log: seq<Exchange>, longer: seq<Exchange>, templates: seq<Content>, plans: seq<Plan>, plan: Plan,
                       publish: bool)
    requires log <= longer && |longer| == |log| + 1 && |plans| == |log| < |templates|
    requires PlannedFrom(log, templates, plans, publish) && plan.desired == templates[|log|]
    requires ReadAs(longer[|log|].reply) == Ok(plan.remote)
    requires plan.actions == ActionsFor(plan.desired, plan.remote, publish)
    ensures PlannedFrom(longer, templates, plans + [plan], publish)
  {
    assert forall k :: 0 <= k < |plans| ==> longer[k] == log[k] && (plans + [plan])[k] == plans[k];
  }

  method PlanTemplatePush(schedule: Schedule, start: World, templates: seq<Content>, publish: bool)
    returns (world: World, plans: Result<seq<Plan>, Failure>)
    requires ValidWorld(start) && start.log == []
    requires forall i :: 0 <= i < |templates| ==> templates[i].alias.Some?
    ensures ValidWorld(world) && Genuine(schedule, start, world)
    ensures |world.log| <= |templates| && AskedInOrder(world.log, templates)
    ensures plans.Ok? ==> |plans.value| == |templates| == |world.log|
    ensures plans.Ok? ==> PlannedFrom(world.log, templates, plans.value, publish)
    ensures plans.Err? ==>
      world.log != [] && ReadAs(world.log[|world.log| - 1].reply).Err? && plans.error == RequestFailed
    ensures Quiet(schedule) ==> plans.Ok? && world.store == start.store
    ensures Quiet(schedule) ==>
      forall k :: 0 <= k < |templates| ==> plans.value[k].remote == RemoteOf(start.store, templates[k])
  {
    world := start;
    var list: seq<Plan> := [];
    for i := 0 to |templates|
      invariant ValidWorld(world) && Genuine(schedule, start, world)
      invariant |list| == |world.log| == i
      invariant AskedInOrder(world.log, templates) && PlannedFrom(world.log, templates, list, publish)
      invariant Quiet(schedule) ==> world.store == start.store
      invariant Quiet(schedule) ==> forall k :: 0 <= k < i ==> list[k].remote == RemoteOf(start.store, templates[k])
    {
      var desired := templates[i];
      ghost var earlier := world;
      var read: Result<Option<RemoteTemplate>, Failure>;
      world, read := ReadTemplate(schedule, world, desired);
      GenuineTransitive(schedule, start, earlier, world);
      AskedOneMore(earlier.log, world.log, templates);
      if read.Err? {
        return world, Err(read.error);
      }
      var plan := Plan(desired, read.value, ActionsFor(desired, read.value, publish));
      PlannedOneMore(earlier.log, world.log, templates, list, plan, publish);
      list := list + [plan];
    }
    plans := Ok(list);
  }

  /** One read of the planning pass: only a 404 means that the template does not exist. */
  method ReadTemplate(schedule: Schedule, start: World, desired: Content)
    returns (world: World, remote: Result<Option<RemoteTemplate>, Failure>)
    requires ValidWorld(start) && desired.alias.Some?
    ensures Extends(schedule, start, world, Get(ByAlias(desired.alias.value)))
    ensures remote == ReadAs(world.log[|start.log|].reply)
    ensures remote.Ok? && remote.value.Some? ==> Seen(world.log, |world.log|, remote.value.value)
    ensures Quiet(schedule) ==> remote == Ok(RemoteOf(start.store, desired)) && world.store == start.store
  {
    var request := Get(ByAlias(desired.alias.value));
    SendValid(schedule, start, request);
    var sent := Send(schedule, start, request);
    world := sent.0;
    if sent.1 == Some(NotFound) {
      return world, Ok(None);
    }
    if sent.1.None? || !sent.1.value.Shown? {
      return world, Err(RequestFailed);
    }
    var parsed := ParseRemote(sent.1.value.template);
    if parsed.None? {
      ghost var who := ByAlias(desired.alias.value);
      if Quiet(schedule) {
        LookupValid(start.store, who);
      }
      return world, Err(RequestFailed);
    }
    assert world.log[|start.log|].reply == sent.1;
    remote := Ok(parsed);
  }

  // ------------------------------------------------ effects without interference

  /** The draft alias of the template that is published under `alias`, if there is one. */
  function Holder(store: Store, alias: string): Option<Option<string>> {
    if alias in store.publishedAliases && store.publishedAliases[alias] in store.templates
    then Some(store.templates[store.publishedAliases[alias]].draft.content.alias) else None
  }

  /** No template is published under `alias`, or the one is that also drafts under it. */
  predicate AliasFree(store: Store, alias: string) {
    Holder(store, alias) == None || Holder(store, alias) == Some(Some(alias))
  }

  /** Requests made for one alias leave the drafts of every other alias as they were. */
  ghost predicate OnlyAffects(before: Store, after: Store, alias: string) {
    && after.accepts == before.accepts
    && forall other :: other != alias ==> Lookup(after, ByAlias(other)) == Lookup(before, ByAlias(other))
  }

  /** The draft of the entry needs no write, or the server accepts the content to be written. */
  predicate Acceptable(store: Store, desired: Content)
    requires desired.alias.Some?
  {
    || (RemoteOf(store, desired).Some? && TemplatesMatch(desired, RemoteOf(store, desired).value))
    || store.accepts(desired)
  }

  ghost predicate HoldersKept(before: Store, after: Store) {
    forall other :: Holder(after, other) == Holder(before, other)
  }

  /** Publishing under `alias` gives up the alias under which the same template was published before. */
  ghost predicate HolderMoved(before: Store, after: Store, alias: string) {
    forall other :: other != alias ==>
      Holder(after, other) == if Holder(before, other) == Some(Some(alias)) then None else Holder(before, other)
  }

  /** The alias now shows the desired draft, and nothing else has moved. */
  ghost predicate DraftSettled(before: Store, after: Store, desired: Content)
    requires desired.alias.Some?
  {
    && OnlyAffects(before, after, desired.alias.value)
    && HoldersKept(before, after)
    && RemoteOf(after, desired).Some?
    && TemplatesMatch(desired, RemoteOf(after, desired).value)
  }

  lemma IndexedExists(store: Store)
    requires Valid(store)
    ensures forall alias :: alias in store.aliases ==> store.aliases[alias] in store.templates
    ensures forall alias :: alias in store.publishedAliases ==> store.publishedAliases[alias] in store.templates
    ensures forall id :: id in store.templates ==> id < store.next
  {
    forall alias | alias in store.publishedAliases
      ensures store.publishedAliases[alias] in store.templates
    {
      assert store.publishedAliases[alias] in PublishedAliases(store);
    }
    forall alias | alias in store.aliases
      ensures store.aliases[alias] in store.templates
    {
      assert store.aliases[alias] in DraftAliases(store);
    }
    forall id | id in store.templates
      ensures id < store.next
    {
      assert ValidRecord(store, id);
    }
  }

  /** The store after the draft of one template has been written with the desired content. */
  ghost predicate DraftWritten(store: Store, after: Store, desired: Content, id: nat)
    requires desired.alias.Some?
  {
    && after.accepts == store.accepts && after.publishedAliases == store.publishedAliases
    && id in after.templates && after.templates == store.templates[id := after.templates[id]]
    && after.templates[id].id == id && after.templates[id].draft.content == desired
    && after.aliases == store.aliases[desired.alias.value := id]
    && (id in store.templates ==> store.templates[id].draft.content.alias == desired.alias)
    && (id !in store.templates ==> desired.alias.value !in store.aliases)
  }

  lemma WrittenOnlyAffects(store: Store, after: Store, desired: Content, id: nat)
    requires Valid(store) && desired.alias.Some? && DraftWritten(store, after, desired, id)
    ensures OnlyAffects(store, after, desired.alias.value)
  {
    IndexedExists(store);
    forall other | other != desired.alias.value
      ensures Lookup(after, ByAlias(other)) == Lookup(store, ByAlias(other))
    {
      if other in store.aliases {
        assert DraftAliases(store)[store.aliases[other]] == Some(other);
      }
    }
  }

  lemma WrittenKeepsHolders(store: Store, after: Store, desired: Content, id: nat)
    requires Valid(store) && desired.alias.Some? && DraftWritten(store, after, desired, id)
    ensures HoldersKept(store, after)
  {
    IndexedExists(store);
  }

  lemma WrittenSettles(store: Store, after: Store, desired: Content, id: nat)
    requires Valid(store) && desired.alias.Some? && DraftWritten(store, after, desired, id)
    ensures DraftSettled(store, after, desired)
  {
    WrittenOnlyAffects(store, after, desired, id);
    WrittenKeepsHolders(store, after, desired, id);
    assert Lookup(after, ByAlias(desired.alias.value)) == Some(after.templates[id]);
    ShowParses(after.templates[id]);
  }

  lemma AliasUnused(store: Store, desired: Content)
    requires Valid(store) && desired.alias.Some? && RemoteOf(store, desired).None?
    ensures desired.alias.value !in store.aliases
  {
    var who := ByAlias(desired.alias.value);
    IndexedExists(store);
    if Lookup(store, who).Some? {
      LookupValid(store, who);
      ShowParses(Lookup(store, who).value);
    }
  }

  lemma CreateWritesDraft(store: Store, desired: Content)
    requires Valid(store) && desired.alias.Some? && RemoteOf(store, desired).None? && store.accepts(desired)
    ensures var (after, response) := ServeCreate(store, desired);
      response.Done? && DraftSettled(store, after, desired)
  {
    AliasUnused(store, desired);
    CreateWrites(store, desired);
    var (after, response) := ServeCreate(store, desired);
    WrittenSettles(store, after, desired, response.id);
  }

  lemma CreateSettles(store: Store, desired: Content)
    requires Valid(store) && desired.alias.Some? && RemoteOf(store, desired).None?
    ensures var (after, response) := Serve(store, Create(desired));
      if store.accepts(desired) then response.Done? && DraftSettled(store, after, desired)
      else !response.Done? && after == store
  {
    if store.accepts(desired) {
      CreateWritesDraft(store, desired);
    }
  }

  lemma UpdateWritesDraft(store: Store, desired: Content, record: Record)
    requires Valid(store) && desired.alias.Some? && store.accepts(desired)
    requires Lookup(store, ByAlias(desired.alias.value)) == Some(record)
    ensures var (after, response) := ServeUpdate(store, ById(record.id), FullPatch(desired));
      response.Done? && DraftSettled(store, after, desired)
  {
    LookupValid(store, ByAlias(desired.alias.value));
    assert Patched(FullPatch(desired), record.draft.content) == desired;
    UpdateAnswered(store, desired, record);
    UpdateWrites(store, ById(record.id), FullPatch(desired));
    WrittenSettles(store, ServeUpdate(store, ById(record.id), FullPatch(desired)).0, desired, record.id);
  }

  lemma UpdateAnswered(store: Store, desired: Content, record: Record)
    requires Valid(store) && desired.alias.Some? && store.accepts(desired)
    requires Lookup(store, ByAlias(desired.alias.value)) == Some(record)
    requires record.id in store.templates && store.templates[record.id] == record
    requires Patched(FullPatch(desired), record.draft.content) == desired
    ensures var (after, response) := ServeUpdate(store, ById(record.id), FullPatch(desired));
      && response == Done(record.id) && after.templates[record.id].draft.content == desired
      && after.aliases == store.aliases[desired.alias.value := record.id] && after.accepts == store.accepts
  {
    LookupValid(store, ByAlias(desired.alias.value));
  }

  lemma UpdateSettles(store: Store, desired: Content)
    requires Valid(store) && desired.alias.Some? && RemoteOf(store, desired).Some?
    ensures var request := Update(ById(RemoteOf(store, desired).value.id), FullPatch(desired));
      var (after, response) := Serve(store, request);
      if store.accepts(desired) then response.Done? && DraftSettled(store, after, desired)
      else !response.Done? && after == store
  {
    var record := Lookup(store, ByAlias(desired.alias.value)).value;
    LookupValid(store, ByAlias(desired.alias.value));
    ShowParses(record);
    assert Patched(FullPatch(desired), record.draft.content) == desired;
    if store.accepts(desired) {
      UpdateWritesDraft(store, desired, record);
    }
  }

  lemma PublishAnswers(store: Store, id: nat, alias: string)
    requires Valid(store) && id in store.templates && store.templates[id].draft.content.alias == Some(alias)
    ensures ServePublish(store, ById(id), Some(store.templates[id].draft.id)).1.Done? <==> AliasFree(store, alias)
  {
    IndexedExists(store);
    CarriersUnique(store, id);
    assert ValidRecord(store, id);
  }

  lemma PublishMovesHolder(store: Store, id: nat, alias: string)
    requires Valid(store) && id in store.templates && store.templates[id].draft.content.alias == Some(alias)
    ensures var (after, response) := ServePublish(store, ById(id), Some(store.templates[id].draft.id));
      response.Done? ==> HolderMoved(store, after, alias)
  {
    var version := Some(store.templates[id].draft.id);
    var after := ServePublish(store, ById(id), version).0;
    assert ValidRecord(store, id);
    if after != store {
      PublishWrites(store, ById(id), version);
      HolderMovesWith(store, after, id, alias);
    } else if ServePublish(store, ById(id), version).1.Done? {
      AlreadyPublished(store, id, version);
      HolderStaysWith(store, id, alias);
    }
  }

  lemma AlreadyPublished(store: Store, id: nat, version: Option<nat>)
    requires Valid(store) && id in store.templates
    requires ServePublish(store, ById(id), version) == (store, Done(id))
    ensures store.templates[id].published.Some?
    ensures store.templates[id].published.value.content == store.templates[id].draft.content
  {
    assert ValidRecord(store, id);
    var current := store.templates[id];
    var written := current.(published := Some(current.draft), revision := current.revision + 1);
    assert written.revision != current.revision;
    assert store.templates[id := written][id] == written;
  }

  lemma HolderMovesWith(store: Store, after: Store, id: nat, alias: string)
    requires Valid(store) && id in store.templates && store.templates[id].draft.content.alias == Some(alias)
    requires id in after.templates && after.templates == store.templates[id := after.templates[id]]
    requires after.templates[id].draft == store.templates[id].draft
    requires after.publishedAliases
          == Reindex(store.publishedAliases, Carried(PublishedAliases(store), id), Some(alias), id)
    ensures HolderMoved(store, after, alias)
  {
    IndexedExists(store);
    CarriersUnique(store, id);
  }

  lemma HolderStaysWith(store: Store, id: nat, alias: string)
    requires Valid(store) && id in store.templates && store.templates[id].draft.content.alias == Some(alias)
    requires PublishedAlias(store.templates[id]) == Some(alias)
    ensures HolderMoved(store, store, alias)
  {
    IndexedExists(store);
    CarriersUnique(store, id);
  }

  lemma PublishSettles(store: Store, desired: Content)
    requires Valid(store) && desired.alias.Some?
    requires RemoteOf(store, desired).Some? && TemplatesMatch(desired, RemoteOf(store, desired).value)
    ensures var remote := RemoteOf(store, desired).value;
      var (after, response) := ServePublish(store, ById(remote.id), Some(remote.currentVersion));
      && OnlyAffects(store, after, desired.alias.value)
      && (response.Done? <==> AliasFree(store, desired.alias.value))
      && (response.Done? ==> Reconciled(after, desired, true) && HolderMoved(store, after, desired.alias.value))
  {
    var alias := desired.alias.value;
    LookupValid(store, ByAlias(alias));
    var record := Lookup(store, ByAlias(alias)).value;
    ShowParses(record);
    PublishAnswers(store, record.id, alias);
    PublishMovesHolder(store, record.id, alias);
    PublishReconciles(store, desired, record);
  }

  lemma PublishReconciles(store: Store, desired: Content, record: Record)
    requires Valid(store) && desired.alias.Some?
    requires Lookup(store, ByAlias(desired.alias.value)) == Some(record) && record.draft.content == desired
    ensures var (after, response) := ServePublish(store, ById(record.id), Some(record.draft.id));
      && OnlyAffects(store, after, desired.alias.value)
      && (response.Done? ==> Reconciled(after, desired, true))
  {
    var alias := desired.alias.value;
    LookupValid(store, ByAlias(alias));
    CarriersUnique(store, record.id);
    IndexedExists(store);
    var (after, response) := ServePublish(store, ById(record.id), Some(record.draft.id));
    forall other | other != alias
      ensures Lookup(after, ByAlias(other)) == Lookup(store, ByAlias(other))
    {
      assert other in store.aliases ==> DraftAliases(store)[store.aliases[other]] == Some(other);
    }
    if response.Done? {
      ShowParses(after.templates[record.id]);
    }
  }

  /** A template is the only one with its draft alias and is indexed only under its published one. */
  lemma CarriersUnique(store: Store, id: nat)
    requires Valid(store) && id in store.templates
    ensures forall other :: other in store.templates && other != id && store.templates[id].draft.content.alias.Some? ==>
              store.templates[other].draft.content.alias != store.templates[id].draft.content.alias
    ensures forall alias :: alias in store.publishedAliases && store.publishedAliases[alias] == id ==>
              PublishedAlias(store.templates[id]) == Some(alias)
    ensures PublishedAlias(store.templates[id]).Some? ==>
              PublishedAlias(store.templates[id]).value in store.publishedAliases
              && store.publishedAliases[PublishedAlias(store.templates[id]).value] == id
  {
    assert PublishedAliases(store)[id] == PublishedAlias(store.templates[id]);
    forall other | other in store.templates && other != id && store.templates[id].draft.content.alias.Some?
      ensures store.templates[other].draft.content.alias != store.templates[id].draft.content.alias
    {
      assert DraftAliases(store)[other] == store.templates[other].draft.content.alias;
      assert DraftAliases(store)[id] == store.templates[id].draft.content.alias;
    }
  }

  /** An entry that is already published holds no alias but its own. */
  lemma ReconciledHolds(store: Store, desired: Content)
    requires Valid(store) && desired.alias.Some? && Reconciled(store, desired, true)
    ensures AliasFree(store, desired.alias.value) && HolderMoved(store, store, desired.alias.value)
  {
    var alias := desired.alias.value;
    LookupValid(store, ByAlias(alias));
    var record := Lookup(store, ByAlias(alias)).value;
    ShowParses(record);
    assert ValidRecord(store, record.id);
    assert PublishedAlias(record) == Some(alias);
    CarriersUnique(store, record.id);
  }

  // ------------------------------------------------------------ one plan

  /** One more request has been made. */
  ghost predicate Extends(schedule: Schedule, before: World, after: World, request: Request) {
    && ValidWorld(after) && Genuine(schedule, before, after)
    && |after.log| == |before.log| + 1
    && after.log[..|before.log|] == before.log
    && after.log[|before.log|].request == request
  }

  /** `idFromResponse(await request(...))`: anything but a successful reply throws. */
  method Post(schedule: Schedule, start: World, request: Request) returns (world: World, id: Option<nat>)
    requires ValidWorld(start)
    ensures Extends(schedule, start, world, request)
    ensures Tells(world.log[|start.log|].reply, id)
    ensures Quiet(schedule) ==>
              && world.store == Serve(start.store, request).0
              && id == if Serve(start.store, request).1.Done? then Some(Serve(start.store, request).1.id) else None
  {
    SendValid(schedule, start, request);
    var sent := Send(schedule, start, request);
    world := sent.0;
    id := if sent.1.Some? && sent.1.value.Done? then Some(sent.1.value.id) else None;
  }

  /** The conditional publication of a version the tool has compared. */
  method PostPublication(schedule: Schedule, start: World, who: Identifier, version: nat,
                         desired: Content, ghost compared: RemoteTemplate)
    returns (world: World, id: Option<nat>)
    requires ValidWorld(start)
    requires Seen(start.log, |start.log|, compared) && TemplatesMatch(desired, compared)
    requires compared.currentVersion == version
    ensures Extends(schedule, start, world, Publish(who, Some(version)))
    ensures Tells(world.log[|start.log|].reply, id)
    ensures Justified(world.log, |start.log|, desired)
    ensures Quiet(schedule) ==>
              var (after, response) := ServePublish(start.store, who, Some(version));
              world.store == after && id == if response.Done? then Some(response.id) else None
  {
    var request := Publish(who, Some(version));
    SendValid(schedule, start, request);
    PublicationJustified(schedule, start, who, compared, desired);
    var sent := Send(schedule, start, request);
    world := sent.0;
    id := if sent.1.Some? && sent.1.value.Done? then Some(sent.1.value.id) else None;
  }

  /** What one plan may have done to the world, and what it has achieved when it succeeded. */
  ghost predicate Followed(schedule: Schedule, start: World, world: World, desired: Content) {
    && ValidWorld(world) && Genuine(schedule, start, world)
    && forall i :: |start.log| <= i < |world.log| ==>
         !world.log[i].request.Delete? && Justified(world.log, i, desired)
  }

  lemma ExtendsFollows(schedule: Schedule, start: World, world: World, request: Request, desired: Content)
    requires Extends(schedule, start, world, request)
    requires !request.Delete? && (request.Publish? ==> Justified(world.log, |start.log|, desired))
    ensures Followed(schedule, start, world, desired)
  {
  }

  lemma FollowedTransitive(schedule: Schedule, a: World, b: World, c: World, desired: Content)
    requires Followed(schedule, a, b, desired) && Followed(schedule, b, c, desired)
    ensures Followed(schedule, a, c, desired)
  {
    GenuineTransitive(schedule, a, b, c);
    forall i | |a.log| <= i < |c.log|
      ensures !c.log[i].request.Delete? && Justified(c.log, i, desired)
    {
      if i < |b.log| {
        JustifiedLater(b.log, c.log, i, desired);
      }
    }
  }

  lemma JustifiedLater(log: seq<Exchange>, log': seq<Exchange>, i: nat, desired: Content)
    requires i < |log| <= |log'| && log'[..|log|] == log && Justified(log, i, desired)
    ensures log'[i] == log[i] && Justified(log', i, desired)
  {
    assert log'[i] == log'[..|log|][i];
    if log[i].request.Publish? {
      var version := log[i].request.ifMatch.value;
      var remote :| Seen(log, i, remote) && remote.currentVersion == version && TemplatesMatch(desired, remote);
      assert log'[..i] == log'[..|log|][..i];
      SeenLater(log, i, log', i, remote);
    }
  }

  /** At most three requests were made for the entry, and the last one stopped the run. */
  predicate Beaten(start: World, world: World, desired: Content, error: Failure) {
    |start.log| < |world.log| <= |start.log| + 3 && Defeated(world.log[|world.log| - 1], desired, error)
  }

  method PostCreation(schedule: Schedule, start: World, desired: Content) returns (world: World, id: Option<nat>)
    requires ValidWorld(start) && desired.alias.Some?
    ensures Followed(schedule, start, world, desired)
    ensures |world.log| == |start.log| + 1 && world.log[|start.log|].request == Create(desired)
    ensures Tells(world.log[|start.log|].reply, id)
    ensures Quiet(schedule) && RemoteOf(start.store, desired).None? ==>
              && (id.Some? <==> start.store.accepts(desired))
              && if id.Some? then DraftSettled(start.store, world.store, desired) else world.store == start.store
  {
    if RemoteOf(start.store, desired).None? {
      CreateSettles(start.store, desired);
    }
    world, id := Post(schedule, start, Create(desired));
    ExtendsFollows(schedule, start, world, Create(desired), desired);
  }

  method PostUpdate(schedule: Schedule, start: World, remote: RemoteTemplate, desired: Content)
    returns (world: World, id: Option<nat>)
    requires ValidWorld(start) && desired.alias.Some?
    ensures Followed(schedule, start, world, desired)
    ensures |world.log| == |start.log| + 1
    ensures world.log[|start.log|].request == Update(ById(remote.id), FullPatch(desired))
    ensures Tells(world.log[|start.log|].reply, id)
    ensures Quiet(schedule) && RemoteOf(start.store, desired) == Some(remote) ==>
              && (id.Some? <==> start.store.accepts(desired))
              && if id.Some? then DraftSettled(start.store, world.store, desired) else world.store == start.store
  {
    if RemoteOf(start.store, desired) == Some(remote) {
      UpdateSettles(start.store, desired);
    }
    var request := Update(ById(remote.id), FullPatch(desired));
    world, id := Post(schedule, start, request);
    ExtendsFollows(schedule, start, world, request, desired);
  }

  /** Writes the draft when the plan says so. */
  method WriteDraft(schedule: Schedule, start: World, plan: Plan, publish: bool)
    returns (world: World, id: Option<nat>)
    requires ValidWorld(start) && plan.desired.alias.Some?
    requires plan.actions == ActionsFor(plan.desired, plan.remote, publish)
    ensures Followed(schedule, start, world, plan.desired)
    ensures plan.remote.Some? && TemplatesMatch(plan.desired, plan.remote.value) ==>
              world == start && id == Some(plan.remote.value.id)
    ensures id.Some? ==> DraftDone(world.log, |start.log|, |world.log|, plan.desired, plan.remote, id.value)
    ensures id.None? ==> Beaten(start, world, plan.desired, RequestFailed)
    ensures Quiet(schedule) && plan.remote == RemoteOf(start.store, plan.desired) ==>
              && (id.Some? <==> Acceptable(start.store, plan.desired))
              && if id.Some? then DraftSettled(start.store, world.store, plan.desired) else world.store == start.store
  {
    world := start;
    id := if plan.remote.Some? then Some(plan.remote.value.id) else None;
    if CreateDraft in plan.actions {
      world, id := PostCreation(schedule, start, plan.desired);
    } else if UpdateDraft in plan.actions {
      world, id := PostUpdate(schedule, start, plan.remote.value, plan.desired);
    }
  }

  /** Reads the draft again and compares it with the manifest. */
  method Review(schedule: Schedule, start: World, desired: Content)
    returns (world: World, reviewed: Result<RemoteTemplate, Failure>)
    requires ValidWorld(start) && desired.alias.Some?
    ensures Followed(schedule, start, world, desired)
    ensures |world.log| == |start.log| + 1
    ensures reviewed.Ok? ==>
      ReadBack(world.log, |start.log|, desired) && ReadAs(world.log[|start.log|].reply).value.value == reviewed.value
    ensures reviewed.Err? ==> Defeated(world.log[|start.log|], desired, reviewed.error)
    ensures reviewed.Ok? ==> Seen(world.log, |world.log|, reviewed.value) && TemplatesMatch(desired, reviewed.value)
    ensures Quiet(schedule) && RemoteOf(start.store, desired).Some?
            && TemplatesMatch(desired, RemoteOf(start.store, desired).value) ==>
              world.store == start.store && reviewed == Ok(RemoteOf(start.store, desired).value)
  {
    var read: Result<Option<RemoteTemplate>, Failure>;
    world, read := ReadTemplate(schedule, start, desired);
    ExtendsFollows(schedule, start, world, world.log[|start.log|].request, desired);
    if read.Err? || read.value.None? {
      return world, Err(RequestFailed);
    }
    if !TemplatesMatch(desired, read.value.value) {
      return world, Err(ChangedDuringReconciliation);
    }
    reviewed := Ok(read.value.value);
  }

  /** Publishes the version that was compared. */
  method PublishVersion(schedule: Schedule, start: World, desired: Content, id: nat, version: nat,
                        ghost reviewed: RemoteTemplate)
    returns (world: World, published: Option<nat>)
    requires ValidWorld(start) && desired.alias.Some? && id == reviewed.id && version == reviewed.currentVersion
    requires Seen(start.log, |start.log|, reviewed) && TemplatesMatch(desired, reviewed)
    ensures Followed(schedule, start, world, desired) && |world.log| == |start.log| + 1
    ensures if published.Some?
            then PublicationConfirmed(world.log, |start.log|, desired, reviewed, published.value)
            else Defeated(world.log[|start.log|], desired, RequestFailed)
    ensures Quiet(schedule) && RemoteOf(start.store, desired) == Some(reviewed) ==>
              && OnlyAffects(start.store, world.store, desired.alias.value)
              && (published.Some? <==> AliasFree(start.store, desired.alias.value))
              && (published.Some? ==> Reconciled(world.store, desired, true))
              && (published.Some? ==> HolderMoved(start.store, world.store, desired.alias.value))
  {
    if RemoteOf(start.store, desired) == Some(reviewed) {
      PublishSettles(start.store, desired);
    }
    world, published := PostPublication(schedule, start, ById(id), version, desired, reviewed);
    ExtendsFollows(schedule, start, world, Publish(ById(id), Some(version)), desired);
  }

  /** Reads the draft that was just written and publishes the version that was read. */
  method PublishAfterReview(schedule: Schedule, start: World, desired: Content)
    returns (world: World, outcome: Result<Option<nat>, Failure>)
    requires ValidWorld(start) && desired.alias.Some?
    ensures Followed(schedule, start, world, desired) && |start.log| < |world.log| <= |start.log| + 2
    ensures outcome.Ok? ==> outcome.value.Some? && Republished(world.log, |start.log|, desired, outcome.value.value)
    ensures outcome.Err? ==> Defeated(world.log[|world.log| - 1], desired, outcome.error)
    ensures Quiet(schedule) && RemoteOf(start.store, desired).Some?
            && TemplatesMatch(desired, RemoteOf(start.store, desired).value) ==>
              && OnlyAffects(start.store, world.store, desired.alias.value)
              && (outcome.Ok? <==> AliasFree(start.store, desired.alias.value))
              && (outcome.Ok? ==> Reconciled(world.store, desired, true)
                                  && HolderMoved(start.store, world.store, desired.alias.value))
  {
    var reviewed;
    world, reviewed := Review(schedule, start, desired);
    if reviewed.Err? {
      return world, Err(reviewed.error);
    }
    ghost var middle := world;
    var id;
    world, id := PublishVersion(schedule, world, desired, reviewed.value.id, reviewed.value.currentVersion,
                                reviewed.value);
    FollowedTransitive(schedule, start, middle, world, desired);
    assert world.log[|start.log|] == middle.log[|start.log|];
    outcome := if id.None? then Err(RequestFailed) else Ok(id);
  }

  ghost predicate Republished(log: seq<Exchange>, from: nat, desired: Content, id: nat) {
    && |log| == from + 2 && ReadBack(log, from, desired)
    && PublicationConfirmed(log, from + 1, desired, ReadAs(log[from].reply).value.value, id)
  }

  /** The publication that ends the log is of the draft just read back, or of the one planning had read. */
  ghost predicate LastPublished(log: seq<Exchange>, from: nat, plan: Plan, id: nat) {
    if WritesDraft(plan) then Republished(log, from, plan.desired, id)
    else |log| == from + 1 && plan.remote.Some? && PublicationConfirmed(log, from, plan.desired, plan.remote.value, id)
  }

  /** Publishes, after a second look when the draft was just written. */
  method ReviewAndPublish(schedule: Schedule, start: World, plan: Plan, planned: Option<nat>,
                          plannedVersion: Option<nat>)
    returns (world: World, outcome: Result<Option<nat>, Failure>)
    requires ValidWorld(start) && plan.desired.alias.Some?
    requires plan.remote.Some? ==> Seen(start.log, |start.log|, plan.remote.value)
    requires plannedVersion == if plan.remote.Some? then Some(plan.remote.value.currentVersion) else None
    requires CreateDraft !in plan.actions && UpdateDraft !in plan.actions ==>
               && plan.remote.Some? && TemplatesMatch(plan.desired, plan.remote.value)
               && planned == Some(plan.remote.value.id)
    ensures Followed(schedule, start, world, plan.desired) && |start.log| < |world.log| <= |start.log| + 2
    ensures outcome.Ok? ==> outcome.value.Some? && LastPublished(world.log, |start.log|, plan, outcome.value.value)
    ensures outcome.Err? ==> Defeated(world.log[|world.log| - 1], plan.desired, outcome.error)
    ensures Quiet(schedule) && RemoteOf(start.store, plan.desired).Some?
            && TemplatesMatch(plan.desired, RemoteOf(start.store, plan.desired).value)
            && (CreateDraft !in plan.actions && UpdateDraft !in plan.actions ==>
                  plan.remote == RemoteOf(start.store, plan.desired)) ==>
              && OnlyAffects(start.store, world.store, plan.desired.alias.value)
              && (outcome.Ok? <==> AliasFree(start.store, plan.desired.alias.value))
              && (outcome.Ok? ==> Reconciled(world.store, plan.desired, true)
                                  && HolderMoved(start.store, world.store, plan.desired.alias.value))
  {
    if CreateDraft in plan.actions || UpdateDraft in plan.actions {
      world, outcome := PublishAfterReview(schedule, start, plan.desired);
    } else {
      var id;
      world, id := PublishVersion(schedule, start, plan.desired, planned.value, plannedVersion.value,
                                  plan.remote.value);
      outcome := if id.None? then Err(RequestFailed) else Ok(id);
    }
  }

  predicate WritesDraft(plan: Plan) {
    CreateDraft in plan.actions || UpdateDraft in plan.actions
  }

  /** The store shows the desired draft, and as the plan has it unless the plan has written it. */
  ghost predicate ReadyToPublish(store: Store, plan: Plan)
    requires plan.desired.alias.Some?
  {
    && RemoteOf(store, plan.desired).Some? && TemplatesMatch(plan.desired, RemoteOf(store, plan.desired).value)
    && (!WritesDraft(plan) ==> plan.remote == RemoteOf(store, plan.desired))
  }

  /** The plan was published if it had to be; otherwise nothing more was done and the id stays. */
  ghost predicate Finished(log: seq<Exchange>, longer: seq<Exchange>, plan: Plan, publish: bool, before: Option<nat>,
                           id: Option<nat>) {
    if publish && Unpublished(plan.desired, plan.remote)
    then id.Some? && LastPublished(longer, |log|, plan, id.value)
    else longer == log && id == before
  }

  lemma PlanAccomplished(from: nat, written: seq<Exchange>, log: seq<Exchange>, plan: Plan, publish: bool, draft: nat,
                         id: Option<nat>)
    requires from <= |written| && written <= log && plan.actions == ActionsFor(plan.desired, plan.remote, publish)
    requires DraftDone(written, from, |written|, plan.desired, plan.remote, draft)
    requires Finished(written, log, plan, publish, Some(draft), id)
    ensures Accomplished(log, from, |log|, plan.desired, plan.remote, publish, id)
  {
    assert WritesDraft(plan) <==> Due(plan.desired, plan.remote);
    DraftDoneLater(written, log, from, plan.desired, plan.remote, draft);
    if Due(plan.desired, plan.remote) {
      assert DraftConfirmed(log, from, plan.desired, plan.remote, draft);
    }
  }

  /** What is left to do for a plan once its draft is there. */
  method PublishIfPlanned(schedule: Schedule, start: World, plan: Plan, publish: bool, id: Option<nat>,
                          versionId: Option<nat>)
    returns (world: World, outcome: Result<Option<nat>, Failure>)
    requires ValidWorld(start) && plan.desired.alias.Some?
    requires plan.actions == ActionsFor(plan.desired, plan.remote, publish)
    requires plan.remote.Some? ==> Seen(start.log, |start.log|, plan.remote.value)
    requires versionId == if plan.remote.Some? then Some(plan.remote.value.currentVersion) else None
    requires !WritesDraft(plan) ==> plan.remote.Some? && id == Some(plan.remote.value.id)
    ensures Followed(schedule, start, world, plan.desired) && |world.log| <= |start.log| + 2
    ensures outcome.Ok? ==> Finished(start.log, world.log, plan, publish, id, outcome.value)
    ensures !(publish && Unpublished(plan.desired, plan.remote)) ==> world == start
    ensures outcome.Err? ==>
      |start.log| < |world.log| && Defeated(world.log[|world.log| - 1], plan.desired, outcome.error)
    ensures Quiet(schedule) && ReadyToPublish(start.store, plan) ==>
              PublicationSettled(start.store, world.store, plan.desired, publish, outcome.Ok?)
  {
    if PublishDraft in plan.actions {
      world, outcome := ReviewAndPublish(schedule, start, plan, id, versionId);
    } else {
      world, outcome := start, Ok(id);
      if publish && ReadyToPublish(start.store, plan) {
        ReconciledHolds(start.store, plan.desired);
      }
    }
  }

  /** What an undisturbed plan does to the store, and when it succeeds. */
  ghost predicate Settled(before: Store, after: Store, desired: Content, publish: bool, ok: bool)
    requires desired.alias.Some?
  {
    && OnlyAffects(before, after, desired.alias.value)
    && (ok ==> Reconciled(after, desired, publish))
    && (ok <==> Acceptable(before, desired) && (publish ==> AliasFree(before, desired.alias.value)))
    && (ok && publish ==> HolderMoved(before, after, desired.alias.value))
  }

  /** The same once the draft is there. */
  ghost predicate PublicationSettled(before: Store, after: Store, desired: Content, publish: bool, ok: bool)
    requires desired.alias.Some?
  {
    && OnlyAffects(before, after, desired.alias.value)
    && (ok ==> Reconciled(after, desired, publish))
    && (ok <==> (publish ==> AliasFree(before, desired.alias.value)))
    && (ok && publish ==> HolderMoved(before, after, desired.alias.value))
  }

  lemma SettledThenPublished(before: Store, written: Store, after: Store, desired: Content, publish: bool, ok: bool)
    requires desired.alias.Some? && DraftSettled(before, written, desired) && Acceptable(before, desired)
    requires PublicationSettled(written, after, desired, publish, ok)
    ensures Settled(before, after, desired, publish, ok)
  {
  }

  /** The body of the push loop for one plan; `id` and `versionId` follow the source's locals. */
  method ApplyPlan(schedule: Schedule, start: World, plan: Plan, publish: bool, dryRun: bool)
    returns (world: World, outcome: Result<Option<nat>, Failure>)
    requires ValidWorld(start) && plan.desired.alias.Some?
    requires plan.actions == ActionsFor(plan.desired, plan.remote, publish)
    requires plan.remote.Some? ==> Seen(start.log, |start.log|, plan.remote.value)
    ensures Followed(schedule, start, world, plan.desired)
    ensures dryRun ==>
      world == start && outcome == Ok(if plan.remote.Some? then Some(plan.remote.value.id) else None)
    ensures !dryRun && outcome.Ok? ==>
      Accomplished(world.log, |start.log|, |world.log|, plan.desired, plan.remote, publish, outcome.value)
    ensures outcome.Err? ==> Beaten(start, world, plan.desired, outcome.error)
    ensures Quiet(schedule) && plan.remote == RemoteOf(start.store, plan.desired) && !dryRun ==>
              Settled(start.store, world.store, plan.desired, publish, outcome.Ok?)
  {
    world := start;
    var id := if plan.remote.Some? then Some(plan.remote.value.id) else None;
    var versionId := if plan.remote.Some? then Some(plan.remote.value.currentVersion) else None;
    if dryRun {
      return world, Ok(id);
    }
    world, id := WriteDraft(schedule, world, plan, publish);
    if id.None? {
      return world, Err(RequestFailed);
    }
    world, outcome := CompletePlan(schedule, start, world, plan, publish, id, versionId);
  }

  /** The rest of the body, after the draft has been written. */
  method CompletePlan(schedule: Schedule, ghost start: World, written: World, plan: Plan, publish: bool,
                      id: Option<nat>, versionId: Option<nat>)
    returns (world: World, outcome: Result<Option<nat>, Failure>)
    requires plan.desired.alias.Some? && plan.actions == ActionsFor(plan.desired, plan.remote, publish)
    requires plan.remote.Some? ==> Seen(start.log, |start.log|, plan.remote.value)
    requires versionId == if plan.remote.Some? then Some(plan.remote.value.currentVersion) else None
    requires Followed(schedule, start, written, plan.desired) && id.Some?
    requires DraftDone(written.log, |start.log|, |written.log|, plan.desired, plan.remote, id.value)
    requires Quiet(schedule) && plan.remote == RemoteOf(start.store, plan.desired) ==>
      && Acceptable(start.store, plan.desired) && DraftSettled(start.store, written.store, plan.desired)
      && ReadyToPublish(written.store, plan)
    ensures Followed(schedule, start, world, plan.desired)
    ensures outcome.Ok? ==>
      Accomplished(world.log, |start.log|, |world.log|, plan.desired, plan.remote, publish, outcome.value)
    ensures outcome.Err? ==> Beaten(start, world, plan.desired, outcome.error)
    ensures Quiet(schedule) && plan.remote == RemoteOf(start.store, plan.desired) ==>
              Settled(start.store, world.store, plan.desired, publish, outcome.Ok?)
  {
    if plan.remote.Some? {
      SeenLater(start.log, |start.log|, written.log, |written.log|, plan.remote.value);
    }
    world, outcome := PublishIfPlanned(schedule, written, plan, publish, id, versionId);
    FollowedTransitive(schedule, start, written, world, plan.desired);
    if outcome.Ok? {
      PlanAccomplished(|start.log|, written.log, world.log, plan, publish, id.value, outcome.value);
    }
    if Quiet(schedule) && plan.remote == RemoteOf(start.store, plan.desired) {
      SettledThenPublished(start.store, written.store, world.store, plan.desired, publish, outcome.Ok?);
    }
  }

  // ------------------------------------------------------------- the whole push

  lemma LawfulAfter(schedule: Schedule, start: World, world: World, templates: seq<Content>, k: nat)
    requires k < |templates|
    requires Lawful(start.log, templates) && Followed(schedule, start, world, templates[k])
    ensures Lawful(world.log, templates)
  {
    forall i | 0 <= i < |world.log|
      ensures !world.log[i].request.Delete?
      ensures world.log[i].request.Publish? ==>
        exists k :: 0 <= k < |templates| && Justified(world.log, i, templates[k])
    {
      if i < |start.log| {
        assert world.log[i] == world.log[..|start.log|][i];
        if start.log[i].request.Publish? {
          var m :| 0 <= m < |templates| && Justified(start.log, i, templates[m]);
          JustifiedLater(start.log, world.log, i, templates[m]);
        }
      } else {
        assert Justified(world.log, i, templates[k]);
      }
    }
  }

  /** The template published under alias `k` of the manifest is, or will have become by then, none but its own. */
  ghost predicate Unblocked(initial: Store, templates: seq<Content>, k: nat)
    requires k < |templates| && templates[k].alias.Some?
  {
    Released(initial, templates, k, k) || Holder(initial, templates[k].alias.value) == Some(templates[k].alias)
  }

  /** Nothing is published under alias `k`, or something that one of the first `done` entries moves away. */
  ghost predicate Released(initial: Store, templates: seq<Content>, done: nat, k: nat)
    requires k < |templates| && templates[k].alias.Some?
  {
    var holder := Holder(initial, templates[k].alias.value);
    holder == None || exists j :: 0 <= j < done && j < |templates| && holder == Some(templates[j].alias)
  }

  /** What an undisturbed push needs for entry `k`, as the store is before the push. */
  ghost predicate Feasible(initial: Store, templates: seq<Content>, k: nat, publish: bool)
    requires k < |templates| && templates[k].alias.Some?
  {
    Acceptable(initial, templates[k]) && (publish ==> Unblocked(initial, templates, k))
  }

  /** Progress of an undisturbed run: done entries stay done, pending plans stay true. */
  ghost predicate OnCourse(initial: Store, store: Store, templates: seq<Content>, plans: seq<Plan>, done: nat,
                           publish: bool)
    requires |plans| == |templates| && forall k :: 0 <= k < |templates| ==> templates[k].alias.Some?
  {
    && (forall k :: 0 <= k < done && k < |templates| ==> Reconciled(store, templates[k], publish))
    && (forall k :: done <= k < |templates| ==>
          plans[k].remote == RemoteOf(store, templates[k]) == RemoteOf(initial, templates[k]))
    && store.accepts == initial.accepts
    && (forall k :: 0 <= k < done && k < |templates| ==> Acceptable(initial, templates[k]))
    && (publish ==> forall k :: 0 <= k < done && k < |templates| ==> Unblocked(initial, templates, k))
    && (publish ==> forall k :: done <= k < |templates| ==>
          Holder(store, templates[k].alias.value)
          == if Released(initial, templates, done, k) then None else Holder(initial, templates[k].alias.value))
  }

  lemma StayOnCourse(initial: Store, before: Store, after: Store, templates: seq<Content>, plans: seq<Plan>,
                     done: nat, publish: bool)
    requires ValidManifest(templates) && |plans| == |templates| && done < |templates|
    requires OnCourse(initial, before, templates, plans, done, publish)
    requires OnlyAffects(before, after, templates[done].alias.value)
    requires Reconciled(after, templates[done], publish) && Acceptable(before, templates[done])
    requires publish ==> AliasFree(before, templates[done].alias.value)
    requires publish ==> HolderMoved(before, after, templates[done].alias.value)
    ensures OnCourse(initial, after, templates, plans, done + 1, publish)
  {
    forall k | 0 <= k < |templates| && k != done
      ensures RemoteOf(after, templates[k]) == RemoteOf(before, templates[k])
    {
      assert templates[k].alias != templates[done].alias;
    }
    if publish {
      assert Unblocked(initial, templates, done);
      forall k | done < k < |templates|
        ensures Holder(after, templates[k].alias.value)
             == if Released(initial, templates, done + 1, k) then None else Holder(initial, templates[k].alias.value)
      {
        assert templates[k].alias != templates[done].alias;
        ReleasedOneMore(initial, templates, done, k);
      }
    }
  }

  lemma ReleasedOneMore(initial: Store, templates: seq<Content>, done: nat, k: nat)
    requires done < |templates| && k < |templates| && templates[k].alias.Some?
    ensures Released(initial, templates, done + 1, k) <==>
      Released(initial, templates, done, k) || Holder(initial, templates[k].alias.value) == Some(templates[done].alias)
  {
  }

  // ---------------------------------------------------------- what is reported

  /**
   After one read per entry the log falls into one stretch per reported entry, cut at
   `cuts`: all that was done for the entry, and all of it confirmed.
   */
  ghost predicate Traced(log: seq<Exchange>, templates: seq<Content>, publish: bool, cuts: seq<nat>,
                         ids: seq<Option<nat>>) {
    && |cuts| == |ids| + 1 && |ids| <= |templates| <= |log| && cuts[0] == |templates|
    && (forall k :: 0 <= k < |templates| ==> ReadAs(log[k].reply).Ok?)
    && forall k :: 0 <= k < |ids| ==>
         Accomplished(log, cuts[k], cuts[k + 1], templates[k], ReadAs(log[k].reply).value, publish, ids[k])
  }

  lemma {:induction false} TracedOneMore(log: seq<Exchange>, longer: seq<Exchange>, templates: seq<Content>,
                                         publish: bool, cuts: seq<nat>, ids: seq<Option<nat>>, id: Option<nat>)
    requires log <= longer && Traced(log, templates, publish, cuts, ids) && |ids| < |templates|
    requires cuts[|ids|] == |log|
    requires Accomplished(longer, |log|, |longer|, templates[|ids|], ReadAs(log[|ids|].reply).value, publish, id)
    ensures Traced(longer, templates, publish, cuts + [|longer|], ids + [id])
  {
    var more, all := cuts + [|longer|], ids + [id];
    forall k | 0 <= k < |all|
      ensures Accomplished(longer, more[k], more[k + 1], templates[k], ReadAs(longer[k].reply).value, publish, all[k])
    {
      assert longer[k] == log[k];
      if k < |ids| {
        AccomplishedLater(log, longer, cuts[k], cuts[k + 1], templates[k], ReadAs(log[k].reply).value, publish, ids[k]);
      }
    }
  }

  lemma {:induction false} TracedLater(log: seq<Exchange>, longer: seq<Exchange>, templates: seq<Content>,
                                       publish: bool, cuts: seq<nat>, ids: seq<Option<nat>>)
    requires log <= longer && Traced(log, templates, publish, cuts, ids)
    ensures Traced(longer, templates, publish, cuts, ids)
  {
    forall k | 0 <= k < |ids|
      ensures Accomplished(longer, cuts[k], cuts[k + 1], templates[k], ReadAs(longer[k].reply).value, publish, ids[k])
    {
      AccomplishedLater(log, longer, cuts[k], cuts[k + 1], templates[k], ReadAs(log[k].reply).value, publish, ids[k]);
    }
  }

  /** These ids are reported, and the log shows the work behind each of them and nothing else. */
  ghost predicate Reported(log: seq<Exchange>, templates: seq<Content>, publish: bool, ids: seq<Option<nat>>) {
    exists cuts :: Traced(log, templates, publish, cuts, ids) && |ids| == |templates| && cuts[|ids|] == |log|
  }

  /** A dry run reports the ids that its reads have shown. */
  predicate Foretold(log: seq<Exchange>, ids: seq<Option<nat>>) {
    |ids| <= |log| && forall k :: 0 <= k < |ids| ==>
      && ReadAs(log[k].reply).Ok?
      && ids[k] == match ReadAs(log[k].reply).value
                   case None => None
                   case Some(remote) => Some(remote.id)
  }

  /** A failed push stopped at a read of the planning pass, or at one entry after finishing those before it. */
  ghost predicate GaveUp(log: seq<Exchange>, templates: seq<Content>, publish: bool, error: Failure) {
    && log != []
    && if |log| <= |templates| then ReadAs(log[|log| - 1].reply).Err? && error == RequestFailed
       else exists cuts, ids :: StoppedAt(log, templates, publish, error, cuts, ids)
  }

  ghost predicate StoppedAt(log: seq<Exchange>, templates: seq<Content>, publish: bool, error: Failure,
                            cuts: seq<nat>, ids: seq<Option<nat>>) {
    && Traced(log, templates, publish, cuts, ids) && |ids| < |templates|
    && cuts[|ids|] < |log| <= cuts[|ids|] + 3 && Defeated(log[|log| - 1], templates[|ids|], error)
  }

  /** The draft of an entry was written as requested, and the server said so. */
  ghost predicate WriteAnswered(log: seq<Exchange>, from: nat, desired: Content, read: Option<RemoteTemplate>) {
    exists i: nat, id: nat ::
      && from <= i < |log| && log[i].reply == Some(Done(id))
      && log[i].request == if read.None? then Create(desired) else Update(ById(read.value.id), FullPatch(desired))
  }

  ghost predicate PublicationAnswered(log: seq<Exchange>, from: nat, desired: Content, id: nat) {
    exists i: nat ::
      && from <= i < |log| && log[i].request.Publish? && log[i].reply == Some(Done(id))
      && PublishedAs(log[i].after, id, desired)
  }

  /**
   What a reported entry means, whatever was lost or changed on the way: a draft that was
   missing or different has been written, a version that was not published has been, each
   with a reply that says so, and an entry without need of either has the id that was read.
   */
  lemma ReportedMeans(log: seq<Exchange>, templates: seq<Content>, publish: bool, ids: seq<Option<nat>>, k: nat)
    requires Reported(log, templates, publish, ids) && k < |templates|
    ensures ids[k].Some? && ReadAs(log[k].reply).Ok?
    ensures var read := ReadAs(log[k].reply).value;
      && (read.None? || read.value.content != templates[k] ==> WriteAnswered(log, |templates|, templates[k], read))
      && (publish && (read.None? || read.value.content != templates[k] || !read.value.isPublished
                      || read.value.hasUnpublishedVersions) ==>
            PublicationAnswered(log, |templates|, templates[k], ids[k].value))
      && (read.Some? && read.value.content == templates[k]
          && (publish ==> read.value.isPublished && !read.value.hasUnpublishedVersions) ==>
            ids[k] == Some(read.value.id))
  {
    var cuts :| Traced(log, templates, publish, cuts, ids) && |ids| == |templates| && cuts[|ids|] == |log|;
    CutsGrow(log, templates, publish, cuts, ids, k);
    AccomplishedMeans(log, |templates|, cuts[k], cuts[k + 1], templates[k], ReadAs(log[k].reply).value, publish,
                      ids[k]);
  }

  lemma AccomplishedMeans(log: seq<Exchange>, start: nat, from: nat, to: nat, desired: Content,
                          read: Option<RemoteTemplate>, publish: bool, id: Option<nat>)
    requires start <= from && Accomplished(log, from, to, desired, read, publish, id)
    ensures Due(desired, read) ==> WriteAnswered(log, start, desired, read)
    ensures publish && Unpublished(desired, read) ==> PublicationAnswered(log, start, desired, id.value)
  {
    if publish && Unpublished(desired, read) {
      assert PublicationConfirmed(log, to - 1, desired,
                                  if Due(desired, read) then ReadAs(log[from + 1].reply).value.value else read.value,
                                  id.value);
      if Due(desired, read) {
        var draft :| DraftConfirmed(log, from, desired, read, draft);
        ConfirmedIsAnswered(log, start, from, desired, read, draft);
      }
    } else if Due(desired, read) {
      ConfirmedIsAnswered(log, start, from, desired, read, id.value);
    }
  }

  lemma ConfirmedIsAnswered(log: seq<Exchange>, start: nat, i: nat, desired: Content, read: Option<RemoteTemplate>,
                            id: nat)
    requires start <= i && DraftConfirmed(log, i, desired, read, id)
    ensures WriteAnswered(log, start, desired, read)
  {
  }

  lemma {:induction false} CutsGrow(log: seq<Exchange>, templates: seq<Content>, publish: bool, cuts: seq<nat>,
                                    ids: seq<Option<nat>>, k: nat)
    requires Traced(log, templates, publish, cuts, ids) && k <= |ids|
    ensures |templates| <= cuts[k]
  {
    if k > 0 {
      CutsGrow(log, templates, publish, cuts, ids, k - 1);
      assert Accomplished(log, cuts[k - 1], cuts[k], templates[k - 1], ReadAs(log[k - 1].reply).value, publish,
                          ids[k - 1]);
    }
  }

  lemma ReadsAreLawful(log: seq<Exchange>, templates: seq<Content>)
    requires |log| <= |templates| && AskedInOrder(log, templates)
    ensures ReadOnly(log) && Lawful(log, templates)
  {
  }

  /** The push after the first entries, `list` being what is reported of them. */
  ghost predicate Underway(schedule: Schedule, reading: World, world: World, templates: seq<Content>,
                           plans: seq<Plan>, publish: bool, dryRun: bool, cuts: seq<nat>, list: seq<Option<nat>>)
    requires ValidManifest(templates) && |plans| == |templates|
  {
    && ValidWorld(world) && Genuine(schedule, reading, world) && Lawful(world.log, templates)
    && if dryRun then world == reading && Foretold(world.log, list)
       else
         && Traced(world.log, templates, publish, cuts, list) && cuts[|list|] == |world.log|
         && (Quiet(schedule) ==> OnCourse(reading.store, world.store, templates, plans, |list|, publish))
  }

  /** One iteration of the push loop. */
  method ApplyNext(schedule: Schedule, ghost reading: World, start: World, templates: seq<Content>, plans: seq<Plan>,
                   publish: bool, dryRun: bool, ghost cuts: seq<nat>, list: seq<Option<nat>>)
    returns (world: World, outcome: Result<Option<nat>, Failure>)
    requires ValidManifest(templates) && |plans| == |templates| <= |reading.log| && |list| < |plans|
    requires PlannedFrom(reading.log, templates, plans, publish)
    requires Underway(schedule, reading, start, templates, plans, publish, dryRun, cuts, list)
    ensures outcome.Ok? ==>
      Underway(schedule, reading, world, templates, plans, publish, dryRun, cuts + [|world.log|],
               list + [outcome.value])
    ensures outcome.Err? ==>
      && ValidWorld(world) && Genuine(schedule, reading, world) && Lawful(world.log, templates) && !dryRun
      && StoppedAt(world.log, templates, publish, outcome.error, cuts, list)
      && (Quiet(schedule) ==> !Feasible(reading.store, templates, |list|, publish))
  {
    NextSeen(schedule, reading, start, templates, plans, publish, |list|);
    world, outcome := ApplyPlan(schedule, start, plans[|list|], publish, dryRun);
    if dryRun {
      ForetoldOneMore(schedule, reading, start, templates, plans, publish, list, outcome.value);
    } else if outcome.Ok? {
      NextUnderway(schedule, reading, start, world, templates, plans, publish, cuts, list, outcome.value);
    } else {
      NextStops(schedule, reading, start, world, templates, plans, publish, cuts, list, outcome.error);
    }
  }

  lemma NextSeen(schedule: Schedule, reading: World, start: World, templates: seq<Content>, plans: seq<Plan>,
                 publish: bool, i: nat)
    requires Genuine(schedule, reading, start) && PlannedFrom(reading.log, templates, plans, publish) && i < |plans|
    ensures plans[i].desired == templates[i]
    ensures plans[i].actions == ActionsFor(plans[i].desired, plans[i].remote, publish)
    ensures plans[i].remote.Some? ==> Seen(start.log, |start.log|, plans[i].remote.value)
  {
    if plans[i].remote.Some? {
      PlannedIsSeen(reading.log, templates, plans, publish, i);
      SeenLater(reading.log, |reading.log|, start.log, |start.log|, plans[i].remote.value);
    }
  }

  lemma ForetoldOneMore(schedule: Schedule, reading: World, start: World, templates: seq<Content>, plans: seq<Plan>,
                        publish: bool, list: seq<Option<nat>>, id: Option<nat>)
    requires PlannedFrom(reading.log, templates, plans, publish) && |list| < |plans| && start == reading
    requires Foretold(start.log, list)
    requires id == if plans[|list|].remote.Some? then Some(plans[|list|].remote.value.id) else None
    ensures Foretold(start.log, list + [id])
  {
    assert ReadAs(reading.log[|list|].reply) == Ok(plans[|list|].remote);
  }

  lemma NextUnderway(schedule: Schedule, reading: World, start: World, world: World, templates: seq<Content>,
                     plans: seq<Plan>, publish: bool, cuts: seq<nat>, list: seq<Option<nat>>, id: Option<nat>)
    requires ValidManifest(templates) && |plans| == |templates| <= |reading.log| && |list| < |plans|
    requires PlannedFrom(reading.log, templates, plans, publish)
    requires Underway(schedule, reading, start, templates, plans, publish, false, cuts, list)
    requires Followed(schedule, start, world, templates[|list|])
    requires Accomplished(world.log, |start.log|, |world.log|, templates[|list|], plans[|list|].remote, publish, id)
    requires Quiet(schedule) && plans[|list|].remote == RemoteOf(start.store, templates[|list|]) ==>
               Settled(start.store, world.store, templates[|list|], publish, true)
    ensures Underway(schedule, reading, world, templates, plans, publish, false, cuts + [|world.log|], list + [id])
  {
    LawfulAfter(schedule, start, world, templates, |list|);
    GenuineTransitive(schedule, reading, start, world);
    assert start.log[|list|] == reading.log[|list|];
    TracedOneMore(start.log, world.log, templates, publish, cuts, list, id);
    if Quiet(schedule) {
      StayOnCourse(reading.store, start.store, world.store, templates, plans, |list|, publish);
    }
  }

  lemma NextStops(schedule: Schedule, reading: World, start: World, world: World, templates: seq<Content>,
                  plans: seq<Plan>, publish: bool, cuts: seq<nat>, list: seq<Option<nat>>, error: Failure)
    requires ValidManifest(templates) && |plans| == |templates| && |list| < |plans|
    requires Underway(schedule, reading, start, templates, plans, publish, false, cuts, list)
    requires Followed(schedule, start, world, templates[|list|])
    requires Beaten(start, world, templates[|list|], error)
    requires Quiet(schedule) && plans[|list|].remote == RemoteOf(start.store, templates[|list|]) ==>
               Settled(start.store, world.store, templates[|list|], publish, false)
    ensures Genuine(schedule, reading, world) && Lawful(world.log, templates)
    ensures StoppedAt(world.log, templates, publish, error, cuts, list)
    ensures Quiet(schedule) ==> !Feasible(reading.store, templates, |list|, publish)
  {
    LawfulAfter(schedule, start, world, templates, |list|);
    GenuineTransitive(schedule, reading, start, world);
    TracedLater(start.log, world.log, templates, publish, cuts, list);
  }

  /** The push loop over the plans. */
  method ApplyPlans(schedule: Schedule, reading: World, templates: seq<Content>, plans: seq<Plan>, publish: bool,
                    dryRun: bool)
    returns (world: World, results: Result<seq<Option<nat>>, Failure>)
    requires ValidWorld(reading) && ValidManifest(templates) && |plans| == |templates| == |reading.log|
    requires AskedInOrder(reading.log, templates) && PlannedFrom(reading.log, templates, plans, publish)
    requires Quiet(schedule) ==>
               forall k :: 0 <= k < |templates| ==> plans[k].remote == RemoteOf(reading.store, templates[k])
    ensures ValidWorld(world) && Genuine(schedule, reading, world) && Lawful(world.log, templates)
    ensures dryRun ==> world == reading && results.Ok? && Foretold(world.log, results.value)
    ensures results.Ok? ==> |results.value| == |templates|
    ensures !dryRun && results.Ok? ==> Reported(world.log, templates, publish, results.value)
    ensures results.Err? ==> GaveUp(world.log, templates, publish, results.error)
    ensures Quiet(schedule) && !dryRun && results.Ok? ==>
              forall k :: 0 <= k < |templates| ==> Reconciled(world.store, templates[k], publish)
    ensures Quiet(schedule) && !dryRun ==>
              (results.Ok? <==> forall k :: 0 <= k < |templates| ==> Feasible(reading.store, templates, k, publish))
  {
    world := reading;
    ghost var cuts: seq<nat> := [|templates|];
    var list: seq<Option<nat>> := [];
    ReadsAreLawful(reading.log, templates);
    for i := 0 to |plans|
      invariant |list| == i && Underway(schedule, reading, world, templates, plans, publish, dryRun, cuts, list)
    {
      var outcome: Result<Option<nat>, Failure>;
      world, outcome := ApplyNext(schedule, reading, world, templates, plans, publish, dryRun, cuts, list);
      if outcome.Err? {
        StoppedIsGivenUp(world.log, templates, publish, outcome.error, cuts, list);
        return world, Err(outcome.error);
      }
      cuts := cuts + [|world.log|];
      list := list + [outcome.value];
    }
    results := Ok(list);
  }

  lemma StoppedIsGivenUp(log: seq<Exchange>, templates: seq<Content>, publish: bool, error: Failure, cuts: seq<nat>,
                         ids: seq<Option<nat>>)
    requires StoppedAt(log, templates, publish, error, cuts, ids)
    ensures GaveUp(log, templates, publish, error)
  {
    CutsGrow(log, templates, publish, cuts, ids, |ids|);
  }

  /**
   The main result. Whatever other writers and the network do between the tool's requests,
   each publication it asks for is conditional on a version it compared with the manifest,
   each one the server carries out publishes manifest content, and what is reported has been
   confirmed: `ReportedMeans`. A dry run only reads and reports what it read. A failed push
   stopped at the first request it could not go on from. Without interference a finished push
   leaves nothing to do for a second planning pass, and a push finishes exactly when the
   server accepts every draft that has to be written and, with publication, no published
   version of another template is in its way.
   */
  method PushTemplates(schedule: Schedule, initial: Store, templates: seq<Content>, publish: bool, dryRun: bool)
    returns (world: World, results: Result<seq<Option<nat>>, Failure>)
    requires Valid(initial) && ValidManifest(templates)
    ensures ValidWorld(world) && Genuine(schedule, World(initial, []), world) && Lawful(world.log, templates)
    ensures AskedInOrder(world.log, templates)
    ensures dryRun ==> ReadOnly(world.log)
    ensures results.Ok? ==> |results.value| == |templates|
    ensures results.Ok? && dryRun ==> |world.log| == |templates| && Foretold(world.log, results.value)
    ensures results.Ok? && !dryRun ==> Reported(world.log, templates, publish, results.value)
    ensures results.Err? ==> GaveUp(world.log, templates, publish, results.error)
    ensures Quiet(schedule) && dryRun ==> world.store == initial
    ensures Quiet(schedule) && !dryRun && results.Ok? ==>
              forall k :: 0 <= k < |templates| ==> Reconciled(world.store, templates[k], publish)
    ensures Quiet(schedule) ==>
              (results.Ok? <==> dryRun || forall k :: 0 <= k < |templates| ==> Feasible(initial, templates, k, publish))
  {
    var planned: Result<seq<Plan>, Failure>;
    world, planned := PlanTemplatePush(schedule, World(initial, []), templates, publish);
    ReadsAreLawful(world.log, templates);
    if planned.Err? {
      return world, Err(planned.error);
    }
    ghost var reading := world;
    world, results := ApplyPlans(schedule, world, templates, planned.value, publish, dryRun);
    GenuineTransitive(schedule, World(initial, []), reading, world);
    assert forall k :: 0 <= k < |reading.log| ==> world.log[k] == reading.log[k];
  }

  // ---------------------------------------------------- pushes that cannot finish

  function EmptyStore(accepts: Content -> bool): Store {
    Store(accepts, map[], map[], map[], 0, map[])
  }

  function Rename(alias: string): Patch {
    Patch(Replace(Some(alias)), Keep, Keep, Keep, Keep, Keep, Keep, Keep)
  }

  /** A template is created, published and then given another draft alias. */
  function Renamed(accepts: Content -> bool, content: Content, other: string): Store {
    ServeAll(EmptyStore(accepts), [Create(content), Publish(ById(1), None), Update(ById(1), Rename(other))])
  }

  lemma RenamedStore(accepts: Content -> bool, content: Content, other: string)
    requires content.alias.Some? && content.alias != Some(other)
    requires accepts(content) && accepts(content.(alias := Some(other)))
    ensures var store := Renamed(accepts, content, other);
      && store.templates
         == map[1 := Record(1, 3, Version(2, content.(alias := Some(other))), Some(Version(0, content)))]
      && store.publishedAliases == map[content.alias.value := 1]
  {
    var requests := [Create(content), Publish(ById(1), None), Update(ById(1), Rename(other))];
    var created := ServeCreate(EmptyStore(accepts), content).0;
    var published := ServePublish(created, ById(1), None).0;
    assert created.templates[1] == Record(1, 1, Version(0, content), None);
    assert published.templates[1] == Record(1, 2, Version(0, content), Some(Version(0, content)));
    assert requests[1..][0] == Publish(ById(1), None) && requests[1..][1..][0] == Update(ById(1), Rename(other));
    assert requests[1..][1..][1..] == [];
    assert ServeAll(EmptyStore(accepts), requests) == ServeAll(created, requests[1..]);
    assert ServeAll(created, requests[1..]) == ServeAll(published, requests[1..][1..]);
    assert Patched(Rename(other), content) == content.(alias := Some(other));
    assert ServeAll(published, requests[1..][1..]) == ServeUpdate(published, ById(1), Rename(other)).0;
  }

  /**
   Convergence is not unconditional: once a published template has been given another draft
   alias, a manifest entry with its old alias cannot be published.
   */
  lemma RenamedDraftBlocks(accepts: Content -> bool, content: Content, other: string, desired: Content)
    requires content.alias.Some? && content.alias != Some(other) && desired.alias == content.alias
    requires accepts(content) && accepts(content.(alias := Some(other)))
    ensures Valid(Renamed(accepts, content, other)) && !Feasible(Renamed(accepts, content, other), [desired], 0, true)
  {
    ServeAllValid(EmptyStore(accepts), [Create(content), Publish(ById(1), None), Update(ById(1), Rename(other))]);
    RenamedStore(accepts, content, other);
  }

  /** The tool's bound on each content file, and the service's bound on the whole version. */
  const MAX_TEMPLATE_BYTES: nat := 128 * 1024

  function TextLength(content: Content): nat {
    if content.text.Some? then |content.text.value| else 0
  }

  /** The service refuses every version whose two bodies alone exceed its bound. */
  ghost predicate BoundsWhole(accepts: Content -> bool) {
    forall c :: accepts(c) ==> |c.html| + TextLength(c) <= MAX_TEMPLATE_BYTES
  }

  function Bulk(n: nat): (s: string)
    ensures |s| == n
  {
    seq(n, i => 'x')
  }

  /** A manifest entry with two content files that each respect the tool's bound. */
  function TwoFiles(alias: string, name: string): (c: Content)
    ensures |c.html| <= MAX_TEMPLATE_BYTES && TextLength(c) <= MAX_TEMPLATE_BYTES < |c.html| + TextLength(c)
  {
    Content(Some(alias), name, Bulk(100 * 1024), Some(Bulk(100 * 1024)), None, None, None, [])
  }

  /**
   Nor does the tool's own check of each file suffice: two files within its bound make an
   entry that the service refuses, so pushing it to an empty store fails, published or not.
   */
  lemma TwoFilesTooLarge(accepts: Content -> bool, alias: string, name: string, publish: bool)
    requires BoundsWhole(accepts)
    ensures Valid(EmptyStore(accepts)) && !Feasible(EmptyStore(accepts), [TwoFiles(alias, name)], 0, publish)
  {
    var desired := TwoFiles(alias, name);
    assert !accepts(desired);
    assert RemoteOf(EmptyStore(accepts), desired).None?;
  }
}
