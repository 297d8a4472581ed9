/**
 The user delegation key that `AzureBlobAttachmentStorage` caches
 (src/adapters/azure-blob-attachment-storage.ts). A call of `createUploadTarget` either
 finds a key that lasts long enough or suspends while it fetches a new one; other calls may
 run in between. Times are milliseconds.
 */
module DelegationKey {
  import opened Wrappers

  const DELEGATION_KEY_TTL_MS: int := 60 * 60 * 1000
  const CLOCK_SKEW_MS: int := 5 * 60 * 1000
  const MINUTE: int := 60000

  /**
   A key is known by the expiry that was asked for and is kept beside it, by the expiry that
   the service has granted, and by the call that fetched it.
   */
  datatype Key = Key(expiresAt: int, grantedUntil: int, fetchedBy: nat)

  /** An upload URL and the key that signed it. */
  datatype Signature = Signature(expiresOn: int, key: Key)

  /** A suspended call: when its upload URL shall expire, and the expiry it asked for its key. */
  datatype Fetch = Fetch(requiredUntil: int, expiresOn: int)

  datatype State = State(
    clock: int, calls: nat, cached: Option<Key>, pending: map<nat, Fetch>, issued: seq<Signature>)

  datatype Step =
    | Ask(now: int, requiredUntil: int)
    | Arrive(call: nat, grantedUntil: int)
    | Fail(call: nat)

  /** A key lasts long enough when the URL expires a clock skew before it. */
  predicate Covers(key: Key, requiredUntil: int) {
    key.expiresAt >= requiredUntil + CLOCK_SKEW_MS
  }

  predicate Hit(s: State, requiredUntil: int) {
    s.cached.Some? && Covers(s.cached.value, requiredUntil)
  }

  function Next(s: State, step: Step): State {
    match step
    case Ask(now, requiredUntil) =>
      var t := s.(clock := now, calls := s.calls + 1);
      if Hit(s, requiredUntil) then t.(issued := s.issued + [Signature(requiredUntil, s.cached.value)])
      else t.(pending := s.pending[s.calls := Fetch(requiredUntil, now + DELEGATION_KEY_TTL_MS)])
    case Arrive(call, grantedUntil) =>
      if call !in s.pending then s
      else
        var key := Key(s.pending[call].expiresOn, grantedUntil, call);
        s.(cached := Some(key), pending := s.pending - {call},
           issued := s.issued + [Signature(s.pending[call].requiredUntil, key)])
    case Fail(call) => s.(pending := s.pending - {call})
  }

  function Run(s: State, steps: seq<Step>): State {
    if steps == [] then s else Next(Run(s, steps[..|steps| - 1]), steps[|steps| - 1])
  }

  function Initially(clock: int): State {
    State(clock, 0, None, map[], [])
  }

  /** The clock does not go back. */
  predicate Forward(s: State, step: Step) {
    step.Ask? ==> step.now >= s.clock
  }

  /** Upload URLs last at most the window. */
  predicate Brief(step: Step, window: int) {
    step.Ask? ==> step.requiredUntil <= step.now + window
  }

  ghost predicate Timely(s: State, steps: seq<Step>, window: int) {
    forall i :: 0 <= i < |steps| ==> Forward(Run(s, steps[..i]), steps[i]) && Brief(steps[i], window)
  }

  // ------------------------------------------------------------- the class

  class Storage {
    var delegationKey: Option<Key>
    var calls: nat

    constructor ()
      ensures delegationKey == None && calls == 0
    {
      delegationKey, calls := None, 0;
    }

    /** `getDelegationKey` up to its request: the cached key, or the key to ask for. */
    method Begin(now: int, requiredUntil: int) returns (call: nat, key: Result<Key, Fetch>)
      modifies this
      ensures call == old(calls) && calls == old(calls) + 1 && delegationKey == old(delegationKey)
      ensures key == if delegationKey.Some? && Covers(delegationKey.value, requiredUntil) then Ok(delegationKey.value)
                     else Err(Fetch(requiredUntil, now + DELEGATION_KEY_TTL_MS))
    {
      call := calls;
      calls := calls + 1;
      if delegationKey.Some? && delegationKey.value.expiresAt >= requiredUntil + CLOCK_SKEW_MS {
        return call, Ok(delegationKey.value);
      }
      key := Err(Fetch(requiredUntil, now + DELEGATION_KEY_TTL_MS));
    }

    /** `getDelegationKey` after its request has returned. */
    method Complete(call: nat, expiresOn: int, grantedUntil: int) returns (key: Key)
      modifies this`delegationKey
      ensures key == Key(expiresOn, grantedUntil, call) && delegationKey == Some(key)
    {
      key := Key(expiresOn, grantedUntil, call);
      delegationKey := Some(key);
    }
  }

  /** Drives the object through any schedule; every URL issued is recorded. */
  method Drive(clock: int, steps: seq<Step>) returns (w: Storage, issued: seq<Signature>)
    requires Timely(Initially(clock), steps, 15 * MINUTE)
    ensures var s := Run(Initially(clock), steps); w.delegationKey == s.cached && issued == s.issued
    ensures forall i :: 0 <= i < |issued| ==> issued[i].expiresOn + 5 * MINUTE <= issued[i].key.expiresAt
  {
    w := new Storage();
    issued := [];
    var pending: map<nat, Fetch> := map[];
    for i := 0 to |steps|
      invariant var s := Run(Initially(clock), steps[..i]);
        w.delegationKey == s.cached && w.calls == s.calls && issued == s.issued && pending == s.pending
    {
      assert steps[..i + 1][..i] == steps[..i];
      match steps[i] {
        case Ask(now, requiredUntil) =>
          var call, key := w.Begin(now, requiredUntil);
          if key.Ok? {
            issued := issued + [Signature(requiredUntil, key.value)];
          } else {
            pending := pending[call := key.error];
          }
        case Arrive(call, grantedUntil) =>
          if call in pending {
            var key := w.Complete(call, pending[call].expiresOn, grantedUntil);
            issued := issued + [Signature(pending[call].requiredUntil, key)];
            pending := pending - {call};
          }
        case Fail(call) => pending := pending - {call};
      }
    }
    assert steps[..|steps|] == steps;
    SignaturesSafe(Initially(clock), steps, 15 * MINUTE);
  }

  // ------------------------------------------------- signatures outlived by keys

  predicate Safe(g: Signature) {
    g.expiresOn + 5 * MINUTE <= g.key.expiresAt
  }

  predicate SafeFetch(f: Fetch) {
    f.requiredUntil + 5 * MINUTE <= f.expiresOn
  }

  ghost predicate AllSafe(s: State) {
    && (forall i :: 0 <= i < |s.issued| ==> Safe(s.issued[i]))
    && (forall call :: call in s.pending ==> SafeFetch(s.pending[call]))
  }

  lemma StepSafe(s: State, step: Step, window: int)
    requires AllSafe(s) && Brief(step, window) && window <= 55 * MINUTE
    ensures AllSafe(Next(s, step))
  {
    var t := Next(s, step);
    forall call | call in t.pending
      ensures SafeFetch(t.pending[call])
    {
      assert call in s.pending || step.Ask?;
    }
  }

  /** Under every interleaving, with windows of up to 55 minutes, each URL expires a clock skew before its key. */
  lemma {:induction false} SignaturesSafe(s: State, steps: seq<Step>, window: int)
    requires AllSafe(s) && Timely(s, steps, window) && window <= 55 * MINUTE
    ensures AllSafe(Run(s, steps))
  {
    if steps != [] {
      var past := steps[..|steps| - 1];
      forall i | 0 <= i < |past|
        ensures Forward(Run(s, past[..i]), past[i]) && Brief(past[i], window)
      {
        assert past[..i] == steps[..i];
      }
      SignaturesSafe(s, past, window);
      StepSafe(Run(s, past), steps[|steps| - 1], window);
    }
  }

  /**
   The bound is exact: a call that has to fetch asks for a key that outlives its URL by the
   clock skew if and only if the URL lasts no longer than 55 minutes from now; the key that
   it gets does so if and only if it was granted for long enough.
   */
  lemma FetchSafeExactly(s: State, now: int, requiredUntil: int, grantedUntil: int)
    requires !Hit(s, requiredUntil)
    ensures var asked := Next(s, Ask(now, requiredUntil)); var done := Next(asked, Arrive(s.calls, grantedUntil));
      && |done.issued| == |s.issued| + 1
      && (Safe(done.issued[|s.issued|]) <==> requiredUntil - now <= 55 * MINUTE)
      && (Outlived(done.issued[|s.issued|]) <==> requiredUntil + 5 * MINUTE <= grantedUntil)
  {
  }

  // -------------------------------------------------- keys as the service grants them

  /** The URL expires a clock skew before the key as it was granted. */
  predicate Outlived(g: Signature) {
    g.expiresOn + 5 * MINUTE <= g.key.grantedUntil
  }

  /** The service grants at least the expiry that was asked for. */
  predicate Generous(s: State, step: Step) {
    step.Arrive? && step.call in s.pending ==> step.grantedUntil >= s.pending[step.call].expiresOn
  }

  ghost predicate AllGenerous(s: State, steps: seq<Step>) {
    forall i :: 0 <= i < |steps| ==> Generous(Run(s, steps[..i]), steps[i])
  }

  /** No key is shorter than it is taken to be. */
  ghost predicate Granted(s: State) {
    && (s.cached.Some? ==> s.cached.value.grantedUntil >= s.cached.value.expiresAt)
    && forall i :: 0 <= i < |s.issued| ==> s.issued[i].key.grantedUntil >= s.issued[i].key.expiresAt
  }

  lemma {:induction false} KeysGranted(s: State, steps: seq<Step>)
    requires Granted(s) && AllGenerous(s, steps)
    ensures Granted(Run(s, steps))
  {
    if steps != [] {
      var past := steps[..|steps| - 1];
      forall i | 0 <= i < |past|
        ensures Generous(Run(s, past[..i]), past[i])
      {
        assert past[..i] == steps[..i];
      }
      KeysGranted(s, past);
      assert Generous(Run(s, past), steps[|steps| - 1]);
    }
  }

  /**
   The source keeps the expiry it asked for and never looks at the one it was granted; as
   long as the service does not grant less, each URL expires a clock skew before its key.
   */
  lemma SignaturesOutlived(clock: int, steps: seq<Step>, window: int, i: nat)
    requires Timely(Initially(clock), steps, window) && window <= 55 * MINUTE
    requires AllGenerous(Initially(clock), steps) && i < |Run(Initially(clock), steps).issued|
    ensures Outlived(Run(Initially(clock), steps).issued[i])
  {
    SignaturesSafe(Initially(clock), steps, window);
    KeysGranted(Initially(clock), steps);
    assert Safe(Run(Initially(clock), steps).issued[i]);
  }

  // -------------------------------------------------------- fetches far apart

  /** One call that ends before the next begins. */
  datatype Use = Use(now: int, requiredUntil: int, ok: bool, grantedUntil: int)

  datatype Attempt = Attempt(at: int, ok: bool)

  function UseNext(s: State, u: Use): State {
    var asked := Next(s, Ask(u.now, u.requiredUntil));
    if Hit(s, u.requiredUntil) then asked
    else Next(asked, if u.ok then Arrive(s.calls, u.grantedUntil) else Fail(s.calls))
  }

  function UseAll(s: State, uses: seq<Use>): State {
    if uses == [] then s else UseNext(UseAll(s, uses[..|uses| - 1]), uses[|uses| - 1])
  }

  /** The fetches that sequential use makes. */
  function Attempts(s: State, uses: seq<Use>): seq<Attempt> {
    if uses == [] then []
    else
      var past, u := uses[..|uses| - 1], uses[|uses| - 1];
      Attempts(s, past) + if Hit(UseAll(s, past), u.requiredUntil) then [] else [Attempt(u.now, u.ok)]
  }

  predicate TimelyUse(u: Use, clock: int) {
    u.now >= clock && u.requiredUntil <= u.now + 15 * MINUTE
  }

  ghost predicate TimelyUses(s: State, uses: seq<Use>) {
    forall i :: 0 <= i < |uses| ==> TimelyUse(uses[i], UseAll(s, uses[..i]).clock)
  }

  /** The cached key is at least as late as every successful fetch. */
  ghost predicate Cached(s: State, attempts: seq<Attempt>) {
    forall i :: 0 <= i < |attempts| && attempts[i].ok ==>
      s.cached.Some? && attempts[i].at + DELEGATION_KEY_TTL_MS <= s.cached.value.expiresAt
  }

  ghost predicate Apart(attempts: seq<Attempt>) {
    forall i, j :: 0 <= i < j < |attempts| && attempts[i].ok ==> attempts[j].at - attempts[i].at > 40 * MINUTE
  }

  /**
   When calls do not overlap, more than forty minutes lie between a successful fetch and any
   later fetch.
   */
  lemma {:induction false} FetchesApart(s: State, uses: seq<Use>)
    requires s.cached == None && TimelyUses(s, uses)
    ensures Apart(Attempts(s, uses)) && Cached(UseAll(s, uses), Attempts(s, uses))
  {
    if uses != [] {
      var past, u := uses[..|uses| - 1], uses[|uses| - 1];
      forall i | 0 <= i < |past|
        ensures TimelyUse(past[i], UseAll(s, past[..i]).clock)
      {
        assert past[..i] == uses[..i];
      }
      FetchesApart(s, past);
      var before := UseAll(s, past);
      assert TimelyUse(u, before.clock);
      if !Hit(before, u.requiredUntil) {
        ApartGrows(before, Attempts(s, past), u);
      }
    }
  }

  lemma ApartGrows(s: State, attempts: seq<Attempt>, u: Use)
    requires Apart(attempts) && Cached(s, attempts) && TimelyUse(u, s.clock) && !Hit(s, u.requiredUntil)
    ensures Apart(attempts + [Attempt(u.now, u.ok)]) && Cached(UseNext(s, u), attempts + [Attempt(u.now, u.ok)])
  {
    forall i | 0 <= i < |attempts| && attempts[i].ok
      ensures u.now - attempts[i].at > 40 * MINUTE
    {
      assert attempts[i].at + DELEGATION_KEY_TTL_MS <= s.cached.value.expiresAt;
    }
  }

  /** Overlapping calls may fetch at the same moment: the spacing is a property of sequential use. */
  lemma OverlappingFetches(now: int)
    ensures var s := Run(Initially(now), [Ask(now, now + 15 * MINUTE), Ask(now, now + 15 * MINUTE)]);
      Timely(Initially(now), [Ask(now, now + 15 * MINUTE), Ask(now, now + 15 * MINUTE)], 15 * MINUTE)
      && 0 in s.pending && 1 in s.pending && s.pending[0].expiresOn == s.pending[1].expiresOn
  {
    var a := Ask(now, now + 15 * MINUTE);
    assert [a, a][..1] == [a] && [a][..0] == [] && [a, a][..0] == [];
    assert Run(Initially(now), [a]) == Next(Initially(now), a);
    assert Run(Initially(now), [a, a]) == Next(Run(Initially(now), [a]), a);
  }
}
