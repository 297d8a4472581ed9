/**
 The hosted-template server as the command-line tool sees it: the template routes of
 src/app.ts on top of src/services/template-service.ts and its store. Every change of a
 draft mints a fresh version id; publishing compares the draft's version id first.
 */
module TemplateServer {
  import opened Wrappers

  datatype Fallback = NoFallback | TextFallback(text: string) | NumberFallback(number: int)

  datatype Variable = Variable(key: string, isNumber: bool, fallback: Fallback)

  datatype Content = Content(
    alias: Option<string>,
    name: string,
    html: string,
    text: Option<string>,
    from: Option<string>,
    subject: Option<string>,
    replyTo: Option<seq<string>>,
    variables: seq<Variable>)

  datatype Version = Version(id: nat, content: Content)

  datatype Record = Record(id: nat, revision: nat, draft: Version, published: Option<Version>)

  /**
   `accepts` is the service's judgement on a version (`validateVersion` and the variable
   rules): an arbitrary predicate on its content that no request changes. `minted` is kept
   for the proofs only: it remembers what every version id was made for, also after the
   version has been replaced or deleted. `next` stands for random ids.
   */
  datatype Store = Store(
    accepts: Content -> bool,
    templates: map<nat, Record>,
    aliases: map<string, nat>,
    publishedAliases: map<string, nat>,
    next: nat,
    minted: map<nat, Content>)

  /** A path segment: ids carry the prefix that the alias pattern forbids. */
  datatype Identifier = ById(id: nat) | ByAlias(alias: string)

  /** One field of a PATCH body: absent, or a new value. */
  datatype Field<T> = Keep | Replace(value: T)

  datatype Patch = Patch(
    alias: Field<Option<string>>,
    name: Field<string>,
    html: Field<string>,
    text: Field<Option<string>>,
    from: Field<Option<string>>,
    subject: Field<Option<string>>,
    replyTo: Field<Option<seq<string>>>,
    variables: Field<seq<Variable>>)

  datatype Request =
    | Get(who: Identifier)
    | Create(content: Content)
    | Update(who: Identifier, patch: Patch)
    | Publish(who: Identifier, ifMatch: Option<nat>)
    | Delete(who: Identifier)

  /** The public JSON form of a template: no variables are shown as null. */
  datatype PublicTemplate = PublicTemplate(
    id: nat,
    currentVersion: nat,
    alias: Option<string>,
    name: string,
    html: string,
    text: Option<string>,
    from: Option<string>,
    subject: Option<string>,
    replyTo: Option<seq<string>>,
    variables: Option<seq<Variable>>,
    isPublished: bool,
    hasUnpublishedVersions: bool)

  datatype Response =
    | Shown(template: PublicTemplate)
    | Done(id: nat)
    | NotFound
    | Refused
    | Conflict
    | PreconditionFailed

  // ------------------------------------------------------------ the service

  function Lookup(store: Store, who: Identifier): Option<Record> {
    match who
    case ById(id) => if id in store.templates then Some(store.templates[id]) else None
    case ByAlias(alias) =>
      if alias in store.aliases && store.aliases[alias] in store.templates
      then Some(store.templates[store.aliases[alias]]) else None
  }

  function Show(record: Record): PublicTemplate {
    var current := record.draft.content;
    PublicTemplate(
      record.id, record.draft.id, current.alias, current.name, current.html, current.text, current.from,
      current.subject, current.replyTo, if current.variables == [] then None else Some(current.variables),
      record.published.Some?, record.published.None? || record.published.value.id != record.draft.id)
  }

  function Or<T>(field: Field<T>, previous: T): T {
    match field
    case Keep => previous
    case Replace(value) => value
  }

  function Patched(patch: Patch, previous: Content): Content {
    Content(
      Or(patch.alias, previous.alias), Or(patch.name, previous.name), Or(patch.html, previous.html),
      Or(patch.text, previous.text), Or(patch.from, previous.from), Or(patch.subject, previous.subject),
      Or(patch.replyTo, previous.replyTo), Or(patch.variables, previous.variables))
  }

  /** Moves an index entry from one optional alias to another. */
  function Reindex(index: map<string, nat>, previous: Option<string>, alias: Option<string>,
                   id: nat): map<string, nat> {
    var without := if previous.Some? && previous != alias then index - {previous.value} else index;
    if alias.Some? then without[alias.value := id] else without
  }

  predicate OwnedByOther(index: map<string, nat>, alias: Option<string>, id: nat) {
    alias.Some? && alias.value in index && index[alias.value] != id
  }

  function PublishedAlias(record: Record): Option<string> {
    if record.published.Some? then record.published.value.content.alias else None
  }

  function ServeCreate(store: Store, content: Content): (Store, Response) {
    if !store.accepts(content) then (store, Refused)
    else if content.alias.Some? && content.alias.value in store.aliases then (store, Conflict)
    else
      var version := Version(store.next, content);
      var id := store.next + 1;
      (store.(templates := store.templates[id := Record(id, 1, version, None)],
              aliases := Reindex(store.aliases, None, content.alias, id),
              next := store.next + 2,
              minted := store.minted[version.id := content]),
       Done(id))
  }

  function ServeUpdate(store: Store, who: Identifier, patch: Patch): (Store, Response) {
    match Lookup(store, who)
    case None => (store, NotFound)
    case Some(current) =>
      var content := Patched(patch, current.draft.content);
      if !store.accepts(content) then (store, Refused)
      else if OwnedByOther(store.aliases, content.alias, current.id) then (store, Conflict)
      else
        var draft := Version(store.next, content);
        (store.(templates := store.templates[current.id := current.(draft := draft, revision := current.revision + 1)],
                aliases := Reindex(store.aliases, current.draft.content.alias, content.alias, current.id),
                next := store.next + 1,
                minted := store.minted[draft.id := content]),
         Done(current.id))
  }

  function ServePublish(store: Store, who: Identifier, ifMatch: Option<nat>): (Store, Response) {
    match Lookup(store, who)
    case None => (store, NotFound)
    case Some(current) =>
      if ifMatch.Some? && current.draft.id != ifMatch.value then (store, PreconditionFailed)
      else if current.published.Some? && current.published.value.id == current.draft.id then (store, Done(current.id))
      else
        var alias := current.draft.content.alias;
        if OwnedByOther(store.publishedAliases, alias, current.id) then (store, Conflict)
        else
          (store.(templates := store.templates[
                    current.id := current.(published := Some(current.draft), revision := current.revision + 1)],
                  publishedAliases := Reindex(store.publishedAliases, PublishedAlias(current), alias, current.id)),
           Done(current.id))
  }

  function ServeDelete(store: Store, who: Identifier): (Store, Response) {
    match Lookup(store, who)
    case None => (store, NotFound)
    case Some(current) =>
      (store.(templates := store.templates - {current.id},
              aliases := Reindex(store.aliases, current.draft.content.alias, None, current.id),
              publishedAliases := Reindex(store.publishedAliases, PublishedAlias(current), None, current.id)),
       Done(current.id))
  }

  function Serve(store: Store, request: Request): (Store, Response) {
    match request
    case Get(who) =>
      (store, match Lookup(store, who) case Some(record) => Shown(Show(record)) case None => NotFound)
    case Create(content) => ServeCreate(store, content)
    case Update(who, patch) => ServeUpdate(store, who, patch)
    case Publish(who, ifMatch) => ServePublish(store, who, ifMatch)
    case Delete(who) => ServeDelete(store, who)
  }

  function ServeAll(store: Store, requests: seq<Request>): Store
    decreases |requests|
  {
    if requests == [] then store else ServeAll(Serve(store, requests[0]).0, requests[1..])
  }

  // ---------------------------------------------------------- the invariant

  predicate MintedVersion(store: Store, version: Version) {
    version.id in store.minted && store.minted[version.id] == version.content
  }

  ghost predicate ValidRecord(store: Store, id: nat)
    requires id in store.templates
  {
    var record := store.templates[id];
    && record.id == id < store.next
    && MintedVersion(store, record.draft)
    && (record.published.Some? ==> MintedVersion(store, record.published.value))
  }

  function DraftAliases(store: Store): map<nat, Option<string>> {
    map id | id in store.templates :: store.templates[id].draft.content.alias
  }

  function PublishedAliases(store: Store): map<nat, Option<string>> {
    map id | id in store.templates :: PublishedAlias(store.templates[id])
  }

  function Carried(carried: map<nat, Option<string>>, id: nat): Option<string> {
    if id in carried then carried[id] else None
  }

  /** The index holds exactly the aliases that are carried, each with its one carrier. */
  ghost predicate Indexes(index: map<string, nat>, carried: map<nat, Option<string>>) {
    && (forall id :: id in carried && carried[id].Some? ==>
          carried[id].value in index && index[carried[id].value] == id)
    && (forall alias :: alias in index ==> index[alias] in carried && carried[index[alias]] == Some(alias))
  }

  /** Records are indexed by the aliases they carry, and version ids are never reused. */
  ghost predicate Valid(store: Store) {
    && (forall id :: id in store.templates ==> ValidRecord(store, id))
    && Indexes(store.aliases, DraftAliases(store))
    && Indexes(store.publishedAliases, PublishedAliases(store))
    && (forall version :: version in store.minted ==> version < store.next)
  }

  lemma ReindexKeeps(index: map<string, nat>, carried: map<nat, Option<string>>, id: nat, alias: Option<string>)
    requires Indexes(index, carried) && !OwnedByOther(index, alias, id)
    ensures Indexes(Reindex(index, Carried(carried, id), alias, id), carried[id := alias])
  {
  }

  lemma ReindexRemoves(index: map<string, nat>, carried: map<nat, Option<string>>, id: nat)
    requires Indexes(index, carried) && id in carried
    ensures Indexes(Reindex(index, carried[id], None, id), carried - {id})
  {
  }

  /** Later states remember every earlier version. */
  ghost predicate Remembers(later: Store, earlier: Store) {
    forall version :: version in earlier.minted ==>
      version in later.minted && later.minted[version] == earlier.minted[version]
  }

  lemma LookupValid(store: Store, who: Identifier)
    requires Valid(store) && Lookup(store, who).Some?
    ensures var record := Lookup(store, who).value;
      record.id in store.templates && store.templates[record.id] == record && ValidRecord(store, record.id)
    ensures who.ByAlias? ==> Lookup(store, who).value.draft.content.alias == Some(who.alias)
  {
    var id := if who.ById? then who.id else store.aliases[who.alias];
    assert who.ByAlias? ==> id in DraftAliases(store);
    assert ValidRecord(store, id);
  }

  /** The draft-alias index after one record has been written. */
  lemma DraftIndexKept(store: Store, after: Store, record: Record)
    requires Valid(store)
    requires after.templates == store.templates[record.id := record]
    requires !OwnedByOther(store.aliases, record.draft.content.alias, record.id)
    requires after.aliases == Reindex(store.aliases, Carried(DraftAliases(store), record.id),
                                      record.draft.content.alias, record.id)
    ensures Indexes(after.aliases, DraftAliases(after))
  {
    ReindexKeeps(store.aliases, DraftAliases(store), record.id, record.draft.content.alias);
    assert DraftAliases(after) == DraftAliases(store)[record.id := record.draft.content.alias];
  }

  lemma PublishedIndexKept(store: Store, after: Store, record: Record)
    requires Valid(store)
    requires after.templates == store.templates[record.id := record]
    requires !OwnedByOther(store.publishedAliases, PublishedAlias(record), record.id)
    requires after.publishedAliases
          == Reindex(store.publishedAliases, Carried(PublishedAliases(store), record.id), PublishedAlias(record),
                     record.id)
    ensures Indexes(after.publishedAliases, PublishedAliases(after))
  {
    ReindexKeeps(store.publishedAliases, PublishedAliases(store), record.id, PublishedAlias(record));
    assert PublishedAliases(after) == PublishedAliases(store)[record.id := PublishedAlias(record)];
  }

  lemma RecordsKept(store: Store, after: Store, record: Record)
    requires Valid(store) && Remembers(after, store) && store.next <= after.next
    requires after.templates == store.templates[record.id := record]
    requires ValidRecord(after, record.id)
    ensures forall id :: id in after.templates ==> ValidRecord(after, id)
  {
    forall id | id in after.templates
      ensures ValidRecord(after, id)
    {
      if id != record.id {
        assert ValidRecord(store, id);
      }
    }
  }

  /** What a creation that is carried out writes. */
  lemma CreateWrites(store: Store, content: Content)
    requires Valid(store) && ServeCreate(store, content).1.Done?
    ensures var (after, response) := ServeCreate(store, content);
      && response.id == store.next + 1 && response.id !in store.templates
      && var record := Record(response.id, 1, Version(store.next, content), None);
         && after.templates == store.templates[record.id := record]
         && !OwnedByOther(store.aliases, content.alias, record.id)
         && after.aliases == Reindex(store.aliases, None, content.alias, record.id)
         && after.publishedAliases == store.publishedAliases
         && after.next == store.next + 2 && after.minted == store.minted[store.next := content]
  {
    forall id | id in store.templates
      ensures id < store.next
    {
      assert ValidRecord(store, id);
    }
  }

  lemma CreatedRecordValid(store: Store, after: Store, record: Record)
    requires Valid(store) && record.id == store.next + 1 && record.draft.id == store.next && record.published == None
    requires after.templates == store.templates[record.id := record] && after.next == store.next + 2
    requires after.minted == store.minted[store.next := record.draft.content]
    ensures ValidRecord(after, record.id) && Remembers(after, store)
    ensures forall version :: version in after.minted ==> version < after.next
  {
  }

  lemma CreateValid(store: Store, content: Content)
    requires Valid(store)
    ensures Valid(ServeCreate(store, content).0) && Remembers(ServeCreate(store, content).0, store)
  {
    var (after, response) := ServeCreate(store, content);
    if response.Done? {
      CreateWrites(store, content);
      var record := after.templates[response.id];
      DraftIndexKept(store, after, record);
      PublishedIndexKept(store, after, record);
      CreatedRecordValid(store, after, record);
      RecordsKept(store, after, record);
    }
  }

  /** What an update that is carried out writes. */
  lemma UpdateWrites(store: Store, who: Identifier, patch: Patch)
    requires Valid(store) && ServeUpdate(store, who, patch).1.Done?
    ensures var (after, response) := ServeUpdate(store, who, patch);
      && response.id in store.templates && response.id in after.templates
      && var record := after.templates[response.id];
         && record.id == response.id && after.templates == store.templates[record.id := record]
         && record.published == store.templates[record.id].published && after.publishedAliases == store.publishedAliases
         && !OwnedByOther(store.aliases, record.draft.content.alias, record.id)
         && after.aliases
            == Reindex(store.aliases, Carried(DraftAliases(store), record.id), record.draft.content.alias, record.id)
         && record.draft.id == store.next && after.next == store.next + 1
         && after.minted == store.minted[store.next := record.draft.content]
  {
    LookupValid(store, who);
  }

  lemma UpdatedRecordValid(store: Store, after: Store, record: Record)
    requires Valid(store) && record.id in store.templates && after.templates == store.templates[record.id := record]
    requires record.published == store.templates[record.id].published
    requires record.draft.id == store.next && after.next == store.next + 1
    requires after.minted == store.minted[store.next := record.draft.content]
    ensures ValidRecord(after, record.id) && Remembers(after, store)
    ensures forall version :: version in after.minted ==> version < after.next
    ensures PublishedAliases(after) == PublishedAliases(store)
  {
    assert ValidRecord(store, record.id);
  }

  lemma UpdateValid(store: Store, who: Identifier, patch: Patch)
    requires Valid(store)
    ensures Valid(ServeUpdate(store, who, patch).0) && Remembers(ServeUpdate(store, who, patch).0, store)
  {
    var (after, response) := ServeUpdate(store, who, patch);
    if response.Done? {
      UpdateWrites(store, who, patch);
      var record := after.templates[response.id];
      DraftIndexKept(store, after, record);
      UpdatedRecordValid(store, after, record);
      RecordsKept(store, after, record);
    } else {
      assert after == store;
    }
  }

  /** What a publication that changes anything writes. */
  lemma PublishWrites(store: Store, who: Identifier, ifMatch: Option<nat>)
    requires Valid(store) && ServePublish(store, who, ifMatch).0 != store
    ensures var (after, response) := ServePublish(store, who, ifMatch);
      && response.Done? && response.id in store.templates && response.id in after.templates
      && var record := after.templates[response.id];
         && record.id == response.id && after.templates == store.templates[record.id := record]
         && record.draft == store.templates[record.id].draft && record.published == Some(record.draft)
         && after.aliases == store.aliases && after.next == store.next && after.minted == store.minted
         && !OwnedByOther(store.publishedAliases, PublishedAlias(record), record.id)
         && after.publishedAliases
            == Reindex(store.publishedAliases, Carried(PublishedAliases(store), record.id), PublishedAlias(record),
                       record.id)
  {
    LookupValid(store, who);
  }

  lemma PublishedRecordValid(store: Store, after: Store, record: Record)
    requires Valid(store) && record.id in store.templates && after.templates == store.templates[record.id := record]
    requires record.draft == store.templates[record.id].draft && record.published == Some(record.draft)
    requires after.next == store.next && after.minted == store.minted
    ensures ValidRecord(after, record.id) && Remembers(after, store) && DraftAliases(after) == DraftAliases(store)
  {
    assert ValidRecord(store, record.id);
  }

  lemma PublishValid(store: Store, who: Identifier, ifMatch: Option<nat>)
    requires Valid(store)
    ensures Valid(ServePublish(store, who, ifMatch).0) && Remembers(ServePublish(store, who, ifMatch).0, store)
  {
    var (after, response) := ServePublish(store, who, ifMatch);
    if after != store {
      PublishWrites(store, who, ifMatch);
      var record := after.templates[response.id];
      PublishedIndexKept(store, after, record);
      PublishedRecordValid(store, after, record);
      RecordsKept(store, after, record);
    }
  }

  /** What a deletion writes. */
  lemma DeleteWrites(store: Store, who: Identifier)
    requires Valid(store) && Lookup(store, who).Some?
    ensures var id, after := Lookup(store, who).value.id, ServeDelete(store, who).0;
      && id in DraftAliases(store) && id in PublishedAliases(store)
      && after.templates == store.templates - {id} && after.next == store.next && after.minted == store.minted
      && after.aliases == Reindex(store.aliases, DraftAliases(store)[id], None, id)
      && after.publishedAliases == Reindex(store.publishedAliases, PublishedAliases(store)[id], None, id)
  {
    LookupValid(store, who);
  }

  lemma RecordsLeft(store: Store, after: Store, id: nat)
    requires Valid(store)
    requires after.templates == store.templates - {id} && after.next == store.next && after.minted == store.minted
    ensures forall other :: other in after.templates ==> ValidRecord(after, other)
    ensures DraftAliases(after) == DraftAliases(store) - {id}
    ensures PublishedAliases(after) == PublishedAliases(store) - {id}
  {
    forall other | other in after.templates
      ensures ValidRecord(after, other)
    {
      assert ValidRecord(store, other);
    }
  }

  lemma DeleteValid(store: Store, who: Identifier)
    requires Valid(store)
    ensures Valid(ServeDelete(store, who).0) && Remembers(ServeDelete(store, who).0, store)
  {
    var after := ServeDelete(store, who).0;
    if Lookup(store, who).Some? {
      var id := Lookup(store, who).value.id;
      DeleteWrites(store, who);
      RecordsLeft(store, after, id);
      ReindexRemoves(store.aliases, DraftAliases(store), id);
      ReindexRemoves(store.publishedAliases, PublishedAliases(store), id);
    }
  }

  /** Every request keeps the indexes consistent and forgets no version. */
  lemma ServeValid(store: Store, request: Request)
    requires Valid(store)
    ensures Valid(Serve(store, request).0) && Remembers(Serve(store, request).0, store)
  {
    match request
    case Get(_) =>
    case Create(content) => CreateValid(store, content);
    case Update(who, patch) => UpdateValid(store, who, patch);
    case Publish(who, ifMatch) => PublishValid(store, who, ifMatch);
    case Delete(who) => DeleteValid(store, who);
  }

  lemma {:induction false} ServeAllValid(store: Store, requests: seq<Request>)
    requires Valid(store)
    ensures Valid(ServeAll(store, requests)) && Remembers(ServeAll(store, requests), store)
    decreases |requests|
  {
    if requests != [] {
      ServeValid(store, requests[0]);
      ServeAllValid(Serve(store, requests[0]).0, requests[1..]);
    }
  }

  /**
   The compare-and-swap: a conditional publication that succeeds leaves the template
   published with exactly the content its version id was minted for.
   */
  lemma PublishIsCompareAndSwap(store: Store, who: Identifier, version: nat)
    requires Valid(store)
    ensures var (after, response) := ServePublish(store, who, Some(version));
      if response.Done?
      then
        && response.id in after.templates
        && version in store.minted
        && after.templates[response.id].published == Some(Version(version, store.minted[version]))
        && (forall id :: id in store.templates && id != response.id ==>
              id in after.templates && after.templates[id] == store.templates[id])
      else after == store
  {
    if Lookup(store, who).Some? {
      LookupValid(store, who);
    }
  }
}
