/**
 The Supabase Auth email hook (examples/supabase-auth-send-email-hook): one signed hook is
 rendered to one or more emails, each submitted under an idempotency key. The hook may be
 delivered any number of times, and any submission may be lost before or after the server
 accepted it.
 */
module AuthHook {
  import opened Wrappers

  type Email = string

  // --------------------------------------------------------------------- keys

  function Digit(d: nat): (c: char)
    requires d < 10
    ensures '0' <= c <= '9' && c as int == '0' as int + d
  {
    ('0' as int + d) as char
  }

  function Decimal(n: nat): (s: string)
    ensures |s| > 0 && (|s| == 1 <==> n < 10)
  {
    if n < 10 then [Digit(n)] else Decimal(n / 10) + [Digit(n % 10)]
  }

  lemma {:induction false} DecimalInjective(a: nat, b: nat)
    requires Decimal(a) == Decimal(b)
    ensures a == b
    decreases a
  {
    var s := Decimal(a);
    if a < 10 {
      assert s[0] == Digit(a) && s[0] == Digit(b);
    } else {
      assert s[|s| - 1] == Digit(a % 10) && s[|s| - 1] == Digit(b % 10);
      assert s[..|s| - 1] == Decimal(a / 10) && s[..|s| - 1] == Decimal(b / 10);
      DecimalInjective(a / 10, b / 10);
    }
  }

  /** A hook with one email uses its id alone; one with several numbers its messages. */
  function Discriminator(count: nat, index: nat): string {
    if count == 1 then "" else "message-" + Decimal(index)
  }

  predicate ValidWebhookId(id: string) {
    0 < |id| <= 1024 && '\r' !in id && '\n' !in id && '\0' !in id
  }

  predicate ValidDiscriminator(d: string) {
    |d| <= 64 && forall i :: 0 <= i < |d| ==> 'a' <= d[i] <= 'z' || '0' <= d[i] <= '9' || d[i] == '_' || d[i] == '-'
  }

  function Preimage(webhookId: string, discriminator: string): string {
    if discriminator == "" then webhookId else webhookId + ['\0'] + discriminator
  }

  /** A collision-free hash. */
  ghost predicate Injective(hash: string -> string) {
    forall a, b :: hash(a) == hash(b) ==> a == b
  }

  function IdempotencyKey(hash: string -> string, webhookId: string, discriminator: string): Option<string> {
    if ValidWebhookId(webhookId) && ValidDiscriminator(discriminator)
    then Some("supabase-auth-" + hash(Preimage(webhookId, discriminator)))
    else None
  }

  /** The position of the first NUL, or the length. */
  function Cut(p: string): (i: nat)
    ensures i <= |p| && (i < |p| ==> p[i] == '\0') && forall k :: 0 <= k < i ==> p[k] != '\0'
  {
    if p == "" || p[0] == '\0' then 0 else 1 + Cut(p[1..])
  }

  lemma PreimageCut(webhookId: string, discriminator: string)
    requires '\0' !in webhookId
    ensures var p := Preimage(webhookId, discriminator);
      && Cut(p) == |webhookId| && p[..Cut(p)] == webhookId
      && discriminator == if Cut(p) == |p| then "" else p[Cut(p) + 1..]
  {
    var p := Preimage(webhookId, discriminator);
    assert forall k :: 0 <= k < |webhookId| ==> p[k] == webhookId[k];
    assert discriminator != "" ==> p[|webhookId|] == '\0';
  }

  /** The separator cannot occur in an id, so a preimage names the hook and the message. */
  lemma PreimageInjective(v: string, d: string, w: string, e: string)
    requires ValidWebhookId(v) && ValidWebhookId(w) && Preimage(v, d) == Preimage(w, e)
    ensures v == w && d == e
  {
    PreimageCut(v, d);
    PreimageCut(w, e);
  }

  lemma DiscriminatorInjective(count: nat, i: nat, k: nat)
    requires i < count && k < count && Discriminator(count, i) == Discriminator(count, k)
    ensures i == k
  {
    if count != 1 {
      assert Discriminator(count, i)[8..] == Decimal(i) && Discriminator(count, k)[8..] == Decimal(k);
      DecimalInjective(i, k);
    }
  }

  // --------------------------------------------------------------------- hooks

  /** A verified hook and the emails it renders to. */
  datatype Hook = Hook(webhookId: string, emails: seq<Email>)

  function KeyOf(hash: string -> string, h: Hook, index: nat): Option<string> {
    IdempotencyKey(hash, h.webhookId, Discriminator(|h.emails|, index))
  }

  /** The number that decimal digits stand for. */
  function NumberOf(s: string): int {
    if s == "" then 0 else 10 * NumberOf(s[..|s| - 1]) + (s[|s| - 1] as int - '0' as int)
  }

  lemma {:induction false} DecimalReads(n: nat)
    ensures NumberOf(Decimal(n)) == n && forall i :: 0 <= i < |Decimal(n)| ==> '0' <= Decimal(n)[i] <= '9'
  {
    var s := Decimal(n);
    if n < 10 {
      assert s[..0] == "";
    } else {
      DecimalReads(n / 10);
      assert s[..|s| - 1] == Decimal(n / 10);
    }
  }

  predicate Letters(s: string) {
    forall i :: 0 <= i < |s| ==> 'a' <= s[i] <= 'z' || '0' <= s[i] <= '9' || s[i] == '_' || s[i] == '-'
  }

  lemma MessageWord()
    ensures |"message-"| == 8 && Letters("message-")
  {
  }

  lemma LettersAppend(a: string, b: string)
    requires Letters(a) && Letters(b)
    ensures Letters(a + b)
  {
  }

  lemma DiscriminatorFits(count: nat, index: nat)
    ensures ValidDiscriminator(Discriminator(count, index)) <==> count == 1 || |Decimal(index)| <= 56
  {
    DecimalReads(index);
    MessageWord();
    LettersAppend("message-", Decimal(index));
  }

  predicate Separable(id: string) {
    forall i :: 0 <= i < |id| ==> id[i] != '\r' && id[i] != '\n' && id[i] != '\0'
  }

  lemma SeparableId(id: string)
    ensures ValidWebhookId(id) <==> 1 <= |id| <= 1024 && Separable(id)
  {
    if ValidWebhookId(id) {
      assert forall i :: 0 <= i < |id| ==> id[i] in id;
    }
  }

  /**
   A key can be derived exactly for ids of 1 to 1024 characters without line ends and NUL (and
   an index of at most 56 digits); it hashes the id alone, or the id, a NUL and the number.
   */
  lemma KeyByValue(hash: string -> string, h: Hook, index: nat)
    ensures KeyOf(hash, h, index).Some? <==>
      1 <= |h.webhookId| <= 1024 && Separable(h.webhookId) && (|h.emails| == 1 || |Decimal(index)| <= 56)
    ensures KeyOf(hash, h, index).Some? ==>
      KeyOf(hash, h, index).value
      == "supabase-auth-" + hash(if |h.emails| == 1 then h.webhookId
                                 else h.webhookId + ['\0'] + ("message-" + Decimal(index)))
  {
    DiscriminatorFits(|h.emails|, index);
    SeparableId(h.webhookId);
  }

  /** The same for any discriminator: up to 64 lower-case letters, digits, underscores and hyphens. */
  lemma KeyForDiscriminator(hash: string -> string, id: string, d: string)
    ensures IdempotencyKey(hash, id, d).Some? <==> 1 <= |id| <= 1024 && Separable(id) && |d| <= 64 && Letters(d)
  {
    SeparableId(id);
  }

  /** Different messages never share a key. */
  lemma KeysDiffer(hash: string -> string, g: Hook, i: nat, h: Hook, k: nat)
    requires Injective(hash) && i < |g.emails| && k < |h.emails|
    requires KeyOf(hash, g, i).Some? && KeyOf(hash, g, i) == KeyOf(hash, h, k)
    ensures g.webhookId == h.webhookId && (g == h ==> i == k)
  {
    var a, b := KeyOf(hash, g, i).value, KeyOf(hash, h, k).value;
    assert a[14..] == hash(Preimage(g.webhookId, Discriminator(|g.emails|, i)));
    assert b[14..] == hash(Preimage(h.webhookId, Discriminator(|h.emails|, k)));
    PreimageInjective(g.webhookId, Discriminator(|g.emails|, i), h.webhookId, Discriminator(|h.emails|, k));
    if g == h {
      DiscriminatorInjective(|h.emails|, i, k);
    }
  }

  // -------------------------------------------------------------------- server

  const WINDOW: nat := 86400

  datatype Claim = Claim(email: Email, expiresAt: int)

  datatype Acceptance = Acceptance(key: string, email: Email, at: int)

  datatype Server = Server(claims: map<string, Claim>, log: seq<Acceptance>)

  /** Whether a request arrives, whether the server turns it down (a replay too), and whether its answer gets back. */
  datatype Fate = Fate(arrives: bool, refusal: Option<nat>, answered: bool)

  datatype Submission = Submission(key: string, email: Email, at: int, fate: Fate)

  datatype Outcome = Lost | Status(code: nat)

  predicate IsOk(code: nat) {
    200 <= code < 300
  }

  /** The claim that a submission meets, if it has not expired. */
  function Existing(s: Server, x: Submission): Option<Claim> {
    if x.key in s.claims && s.claims[x.key].expiresAt > x.at then Some(s.claims[x.key]) else None
  }

  predicate Accepts(s: Server, x: Submission) {
    x.fate.arrives && Existing(s, x).None? && x.fate.refusal.None?
  }

  function Receive(s: Server, x: Submission): Server {
    if Accepts(s, x)
    then Server(s.claims[x.key := Claim(x.email, x.at + WINDOW)], s.log + [Acceptance(x.key, x.email, x.at)])
    else s
  }

  function Answer(s: Server, x: Submission): Outcome {
    if !x.fate.arrives || !x.fate.answered then Lost
    else
      match Existing(s, x)
      case Some(claim) =>
        Status(if x.fate.refusal.Some? then x.fate.refusal.value else if claim.email == x.email then 200 else 409)
      case None => Status(if x.fate.refusal.Some? then x.fate.refusal.value else 200)
  }

  /** The server after any number of submissions, in the order in which it took them. */
  function ReceiveAll(s: Server, xs: seq<Submission>): Server {
    if xs == [] then s else Receive(ReceiveAll(s, xs[..|xs| - 1]), xs[|xs| - 1])
  }

  function OutcomeAt(s: Server, xs: seq<Submission>, p: nat): Outcome
    requires p < |xs|
  {
    Answer(ReceiveAll(s, xs[..p]), xs[p])
  }

  predicate InOrder(xs: seq<Submission>) {
    forall i, j :: 0 <= i < j < |xs| ==> xs[i].at <= xs[j].at
  }

  const EMPTY: Server := Server(map[], [])

  /** Acceptances of one key lie a whole window apart. */
  ghost predicate Spaced(log: seq<Acceptance>) {
    forall i, j :: 0 <= i < j < |log| && log[i].key == log[j].key ==> log[j].at >= log[i].at + 24 * 3600
  }

  ghost predicate Claimed(s: Server) {
    && (forall i :: 0 <= i < |s.log| ==>
          s.log[i].key in s.claims && s.log[i].at + WINDOW <= s.claims[s.log[i].key].expiresAt)
    && (forall k :: k in s.claims ==> Acceptance(k, s.claims[k].email, s.claims[k].expiresAt - WINDOW) in s.log)
  }

  lemma ReceiveSpaced(s: Server, x: Submission)
    requires Spaced(s.log) && Claimed(s)
    ensures Spaced(Receive(s, x).log)
  {
  }

  lemma ReceiveClaimed(s: Server, x: Submission)
    requires Claimed(s) && forall i :: 0 <= i < |s.log| ==> s.log[i].at <= x.at
    ensures Claimed(Receive(s, x))
  {
    var t := Receive(s, x);
    if Accepts(s, x) {
      assert t.log[|s.log|] == Acceptance(x.key, x.email, x.at);
    }
  }

  lemma ReceiveTimes(s: Server, x: Submission)
    requires forall i :: 0 <= i < |s.log| ==> s.log[i].at <= x.at
    ensures forall i :: 0 <= i < |Receive(s, x).log| ==> Receive(s, x).log[i].at <= x.at
  {
  }

  lemma {:induction false} ReceiveAllKeeps(xs: seq<Submission>)
    requires InOrder(xs)
    ensures var s := ReceiveAll(EMPTY, xs); Spaced(s.log) && Claimed(s)
    ensures var s := ReceiveAll(EMPTY, xs); forall i :: 0 <= i < |s.log| ==> xs != [] && s.log[i].at <= xs[|xs| - 1].at
  {
    if xs != [] {
      var past := xs[..|xs| - 1];
      ReceiveAllKeeps(past);
      assert past != [] ==> past[|past| - 1].at <= xs[|xs| - 1].at;
      ReceiveSpaced(ReceiveAll(EMPTY, past), xs[|xs| - 1]);
      ReceiveClaimed(ReceiveAll(EMPTY, past), xs[|xs| - 1]);
      ReceiveTimes(ReceiveAll(EMPTY, past), xs[|xs| - 1]);
    }
  }

  // ------------------------------------------------------- acceptance exactly once

  /** Every submission lies in one deduplication window. */
  predicate Within(xs: seq<Submission>, start: int) {
    forall i :: 0 <= i < |xs| ==> start <= xs[i].at < start + 24 * 3600
  }

  ghost predicate AcceptedAt(s: Server, key: string, email: Email, i: nat) {
    i < |s.log| && s.log[i].key == key && s.log[i].email == email
  }

  lemma {:induction false} LogFromSubmissions(xs: seq<Submission>, i: nat) returns (p: nat)
    requires i < |ReceiveAll(EMPTY, xs).log|
    ensures p < |xs| && ReceiveAll(EMPTY, xs).log[i] == Acceptance(xs[p].key, xs[p].email, xs[p].at)
    ensures xs[p].fate.arrives && xs[p].fate.refusal.None?
  {
    var past := xs[..|xs| - 1];
    if i < |ReceiveAll(EMPTY, past).log| {
      p := LogFromSubmissions(past, i);
    } else {
      p := |xs| - 1;
    }
  }

  /**
   How a submission fares: it is lost exactly when it or its answer does not get through; a
   refusal passes on its status; a live claim for another email is a conflict.
   */
  lemma OutcomeByFate(xs: seq<Submission>, p: nat)
    requires p < |xs|
    ensures var x, s := xs[p], ReceiveAll(EMPTY, xs[..p]);
      && (OutcomeAt(EMPTY, xs, p).Lost? <==> !x.fate.arrives || !x.fate.answered)
      && (x.fate.arrives && x.fate.answered && x.fate.refusal.Some? ==>
            OutcomeAt(EMPTY, xs, p) == Status(x.fate.refusal.value))
      && (x.fate == Fate(true, None, true) ==>
            OutcomeAt(EMPTY, xs, p)
            == if x.key in s.claims && s.claims[x.key].expiresAt > x.at && s.claims[x.key].email != x.email
               then Status(409) else Status(200))
  {
  }

  /** Within the window no key is accepted twice, however often it is submitted. */
  lemma AtMostOnce(xs: seq<Submission>, start: int, i: nat, j: nat)
    requires InOrder(xs) && Within(xs, start)
    requires i < |ReceiveAll(EMPTY, xs).log| && j < |ReceiveAll(EMPTY, xs).log|
    requires ReceiveAll(EMPTY, xs).log[i].key == ReceiveAll(EMPTY, xs).log[j].key
    ensures i == j
  {
    ReceiveAllKeeps(xs);
    var p := LogFromSubmissions(xs, i);
    var q := LogFromSubmissions(xs, j);
    assert start <= xs[p].at < start + WINDOW && start <= xs[q].at < start + WINDOW;
  }

  lemma {:induction false} LogGrows(xs: seq<Submission>, p: nat)
    requires p <= |xs|
    ensures ReceiveAll(EMPTY, xs[..p]).log <= ReceiveAll(EMPTY, xs).log
    decreases |xs|
  {
    if p == |xs| {
      assert xs[..p] == xs;
    } else {
      var past := xs[..|xs| - 1];
      LogGrows(past, p);
      assert past[..p] == xs[..p];
    }
  }

  /** Refusals are not success codes. */
  predicate Honest(xs: seq<Submission>) {
    forall i :: 0 <= i < |xs| && xs[i].fate.refusal.Some? ==> !IsOk(xs[i].fate.refusal.value)
  }

  lemma ReceiveOneMore(xs: seq<Submission>, p: nat)
    requires p < |xs|
    ensures ReceiveAll(EMPTY, xs[..p + 1]) == Receive(ReceiveAll(EMPTY, xs[..p]), xs[p])
  {
    assert xs[..p + 1][..p] == xs[..p] && xs[..p + 1][p] == xs[p];
  }

  /** A live claim goes back to an acceptance of its email. */
  lemma ClaimAccepted(past: seq<Submission>, x: Submission) returns (i: nat)
    requires InOrder(past) && Existing(ReceiveAll(EMPTY, past), x).Some?
    ensures var s := ReceiveAll(EMPTY, past); AcceptedAt(s, x.key, Existing(s, x).value.email, i)
  {
    ReceiveAllKeeps(past);
    var s := ReceiveAll(EMPTY, past);
    var claim := Existing(s, x).value;
    var accepted := Acceptance(x.key, claim.email, claim.expiresAt - WINDOW);
    assert accepted in s.log;
    i :| 0 <= i < |s.log| && s.log[i] == accepted;
  }

  lemma AcceptedLater(s: Server, t: Server, key: string, email: Email, i: nat)
    requires AcceptedAt(s, key, email, i) && s.log <= t.log
    ensures AcceptedAt(t, key, email, i)
  {
  }

  /** The acceptance behind a success answer. */
  lemma AcceptanceBehind(xs: seq<Submission>, p: nat) returns (i: nat)
    requires InOrder(xs) && Honest(xs) && p < |xs|
    requires OutcomeAt(EMPTY, xs, p).Status? && IsOk(OutcomeAt(EMPTY, xs, p).code)
    ensures AcceptedAt(ReceiveAll(EMPTY, xs), xs[p].key, xs[p].email, i)
  {
    var before, x := ReceiveAll(EMPTY, xs[..p]), xs[p];
    if Accepts(before, x) {
      i := |before.log|;
      ReceiveOneMore(xs, p);
      LogGrows(xs, p + 1);
      AcceptedLater(Receive(before, x), ReceiveAll(EMPTY, xs), x.key, x.email, i);
    } else {
      i := ClaimAccepted(xs[..p], x);
      LogGrows(xs, p);
      AcceptedLater(before, ReceiveAll(EMPTY, xs), x.key, x.email, i);
    }
  }

  /** A success answer means that the submitted email has been accepted under its key. */
  lemma OkMeansAccepted(xs: seq<Submission>, p: nat)
    requires InOrder(xs) && Honest(xs) && p < |xs|
    requires OutcomeAt(EMPTY, xs, p).Status? && IsOk(OutcomeAt(EMPTY, xs, p).code)
    ensures exists i :: AcceptedAt(ReceiveAll(EMPTY, xs), xs[p].key, xs[p].email, i)
  {
    var i := AcceptanceBehind(xs, p);
  }

  // --------------------------------------------------------------- the handler

  datatype Reply = Reply(status: nat, retryAfter: Option<string>)

  predicate IsRetryable(code: nat) {
    code == 429 || code >= 500
  }

  function MapFailure(code: nat): Reply {
    if IsRetryable(code) then Reply(503, Some("2")) else Reply(422, None)
  }

  function Failures(outcomes: seq<Outcome>): seq<Reply> {
    if outcomes == [] then []
    else
      (if outcomes[0].Status? && !IsOk(outcomes[0].code) then [MapFailure(outcomes[0].code)] else [])
      + Failures(outcomes[1..])
  }

  function FirstRetryable(failures: seq<Reply>): Option<Reply> {
    if failures == [] then None
    else if failures[0].status == 503 then Some(failures[0])
    else FirstRetryable(failures[1..])
  }

  /** One lost submission outweighs every answer; then one retryable answer outweighs the others. */
  function Aggregate(outcomes: seq<Outcome>): Reply {
    if Lost in outcomes then Reply(503, Some("2"))
    else
      var failures := Failures(outcomes);
      if failures == [] then Reply(200, None)
      else
        match FirstRetryable(failures)
        case Some(retryable) => Reply(503, retryable.retryAfter)
        case None => Reply(422, None)
  }

  predicate Succeeded(o: Outcome) {
    o.Status? && 200 <= o.code <= 299
  }

  /** A submission that a later delivery should try again. */
  predicate Retryable(o: Outcome) {
    o.Lost? || o.code == 429 || o.code >= 500
  }

  /** The reply that these outcomes call for. */
  predicate Replied(outcomes: seq<Outcome>, reply: Reply) {
    && (reply == Reply(200, None) <==> forall i :: 0 <= i < |outcomes| ==> Succeeded(outcomes[i]))
    && (reply == Reply(503, Some("2")) <==> exists i :: 0 <= i < |outcomes| && Retryable(outcomes[i]))
    && (reply == Reply(422, None) <==>
          && (forall i :: 0 <= i < |outcomes| ==> !Retryable(outcomes[i]))
          && exists i :: 0 <= i < |outcomes| && !Succeeded(outcomes[i]))
  }

  lemma FailuresStep(outcomes: seq<Outcome>)
    requires outcomes != []
    ensures var failed := outcomes[0].Status? && !IsOk(outcomes[0].code);
      && (!failed ==> Failures(outcomes) == Failures(outcomes[1..]))
      && (failed ==> Failures(outcomes) != [] && Failures(outcomes)[0] == MapFailure(outcomes[0].code)
                     && Failures(outcomes)[1..] == Failures(outcomes[1..]))
  {
  }

  lemma {:induction false} NoFailuresMean(outcomes: seq<Outcome>)
    ensures Failures(outcomes) == [] <==>
      forall i :: 0 <= i < |outcomes| ==> outcomes[i].Lost? || Succeeded(outcomes[i])
  {
    if outcomes != [] {
      var rest := outcomes[1..];
      NoFailuresMean(rest);
      FailuresStep(outcomes);
      assert forall i :: 0 < i < |outcomes| ==> outcomes[i] == rest[i - 1];
      assert forall i :: 0 <= i < |rest| ==> rest[i] == outcomes[i + 1];
    }
  }

  predicate AnsweredRetryable(o: Outcome) {
    o.Status? && Retryable(o)
  }

  lemma {:induction false} FirstRetryableMeans(outcomes: seq<Outcome>)
    ensures FirstRetryable(Failures(outcomes)).Some? <==>
      exists i :: 0 <= i < |outcomes| && AnsweredRetryable(outcomes[i])
    ensures FirstRetryable(Failures(outcomes)).Some? ==>
      FirstRetryable(Failures(outcomes)).value == Reply(503, Some("2"))
  {
    if outcomes != [] {
      var rest := outcomes[1..];
      FirstRetryableMeans(rest);
      FailuresStep(outcomes);
      assert forall i :: 0 < i < |outcomes| ==> outcomes[i] == rest[i - 1];
      assert forall i :: 0 <= i < |rest| ==> rest[i] == outcomes[i + 1];
    }
  }

  /**
   The reply is 503 with a retry hint exactly when some submission was lost or answered with 429
   or a status of 500 and above; otherwise 422 exactly when some status lies outside 200 to 299.
   */
  lemma AggregateMeans(outcomes: seq<Outcome>)
    ensures Replied(outcomes, Aggregate(outcomes))
    ensures Aggregate(outcomes).status == 200 <==> Aggregate(outcomes) == Reply(200, None)
  {
    NoFailuresMean(outcomes);
    FirstRetryableMeans(outcomes);
    if Lost in outcomes {
      var i :| 0 <= i < |outcomes| && outcomes[i] == Lost;
      assert Retryable(outcomes[i]) && !Succeeded(outcomes[i]);
    }
    assert forall i :: 0 <= i < |outcomes| && AnsweredRetryable(outcomes[i]) ==> !Succeeded(outcomes[i]);
  }

  /** What reaches the handler. */
  datatype Incoming = NotPost | BodyTooLong | Unverified | Verified(webhookId: string, rendered: Option<seq<Email>>)

  function Keys(hash: string -> string, h: Hook): Option<seq<string>> {
    if forall i :: 0 <= i < |h.emails| ==> KeyOf(hash, h, i).Some?
    then Some(seq(|h.emails|, i requires 0 <= i < |h.emails| => KeyOf(hash, h, i).value))
    else None
  }

  /** The submissions of one delivery. */
  function Submissions(keys: seq<string>, emails: seq<Email>, at: int, fates: seq<Fate>): (xs: seq<Submission>)
    requires |keys| == |emails| == |fates|
    ensures |xs| == |emails|
    ensures forall i :: 0 <= i < |xs| ==> xs[i].key == keys[i] && xs[i].email == emails[i] && xs[i].at == at
  {
    seq(|emails|, i requires 0 <= i < |emails| => Submission(keys[i], emails[i], at, fates[i]))
  }

  function Outcomes(s: Server, xs: seq<Submission>): (outcomes: seq<Outcome>)
    ensures |outcomes| == |xs|
  {
    seq(|xs|, p requires 0 <= p < |xs| => OutcomeAt(s, xs, p))
  }

  method DeriveKeys(hash: string -> string, webhookId: string, emails: seq<Email>) returns (keys: Option<seq<string>>)
    ensures keys == Keys(hash, Hook(webhookId, emails))
  {
    var derived: seq<string> := [];
    for i := 0 to |emails|
      invariant |derived| == i
      invariant forall k :: 0 <= k < i ==> KeyOf(hash, Hook(webhookId, emails), k) == Some(derived[k])
    {
      var key := IdempotencyKey(hash, webhookId, Discriminator(|emails|, i));
      if key.None? {
        assert KeyOf(hash, Hook(webhookId, emails), i).None?;
        return None;
      }
      derived := derived + [key.value];
    }
    assert derived == Keys(hash, Hook(webhookId, emails)).value;
    keys := Some(derived);
  }

  /** Sends the submissions of one delivery and collects how they fared. */
  method Submit(server: Server, xs: seq<Submission>) returns (after: Server, outcomes: seq<Outcome>)
    ensures after == ReceiveAll(server, xs) && outcomes == Outcomes(server, xs)
  {
    after := server;
    outcomes := [];
    for i := 0 to |xs|
      invariant after == ReceiveAll(server, xs[..i]) && |outcomes| == i
      invariant forall p :: 0 <= p < i ==> outcomes[p] == OutcomeAt(server, xs, p)
    {
      outcomes := outcomes + [Answer(after, xs[i])];
      assert xs[..i + 1][..i] == xs[..i];
      after := Receive(after, xs[i]);
    }
    assert xs[..|xs|] == xs;
  }

  /** One delivery of a hook: earlier refusals, key derivation, fan-out and aggregation. */
  method Handle(hash: string -> string, incoming: Incoming, server: Server, at: int, fates: seq<Fate>)
    returns (after: Server, reply: Reply)
    requires incoming.Verified? && incoming.rendered.Some? ==> |fates| == |incoming.rendered.value|
    ensures incoming.NotPost? ==> after == server && reply == Reply(405, None)
    ensures incoming.BodyTooLong? ==> after == server && reply == Reply(413, None)
    ensures incoming.Unverified? ==> after == server && reply == Reply(401, None)
    ensures incoming.Verified? && incoming.rendered.None? ==> after == server && reply == Reply(400, None)
    ensures incoming.Verified? && incoming.rendered.Some? ==>
      var keys := Keys(hash, Hook(incoming.webhookId, incoming.rendered.value));
      if keys.None? then after == server && reply == Reply(400, None)
      else
        var xs := Submissions(keys.value, incoming.rendered.value, at, fates);
        && after == ReceiveAll(server, xs) && reply == Aggregate(Outcomes(server, xs))
        && Replied(Outcomes(server, xs), reply)
  {
    if !incoming.Verified? || incoming.rendered.None? {
      return server, Reply(Refusal(incoming), None);
    }
    var emails := incoming.rendered.value;
    var keys := DeriveKeys(hash, incoming.webhookId, emails);
    if keys.None? {
      return server, Reply(400, None);
    }
    var outcomes;
    after, outcomes := Submit(server, Submissions(keys.value, emails, at, fates));
    AggregateMeans(outcomes);
    reply := Aggregate(outcomes);
  }

  function Refusal(incoming: Incoming): nat {
    match incoming
    case NotPost => 405
    case BodyTooLong => 413
    case Unverified => 401
    case Verified(_, _) => 400
  }

  // ------------------------------------------------------------- any redelivery

  /** Every submission of the run was made for a message of one of these hooks. */
  ghost predicate FromHooks(hash: string -> string, hooks: set<Hook>, xs: seq<Submission>) {
    forall p :: 0 <= p < |xs| ==> FromHook(hash, hooks, xs[p])
  }

  ghost predicate FromHook(hash: string -> string, hooks: set<Hook>, x: Submission) {
    exists h, i :: h in hooks && MessageOf(hash, h, i, x)
  }

  predicate MessageOf(hash: string -> string, h: Hook, i: nat, x: Submission) {
    i < |h.emails| && KeyOf(hash, h, i) == Some(x.key) && x.email == h.emails[i]
  }

  /** One hook has one payload, however often it is delivered. */
  predicate OnePayload(hooks: set<Hook>) {
    forall g, h :: g in hooks && h in hooks && g.webhookId == h.webhookId ==> g == h
  }

  /** One delivery of `h` whose submissions stand at `places` of the run. */
  ghost predicate DeliveryAt(hash: string -> string, h: Hook, xs: seq<Submission>, places: seq<nat>) {
    && |places| == |h.emails|
    && forall i :: 0 <= i < |places| ==> places[i] < |xs| && MessageOf(hash, h, i, xs[places[i]])
  }

  function OutcomesAt(xs: seq<Submission>, places: seq<nat>): (outcomes: seq<Outcome>)
    requires forall i :: 0 <= i < |places| ==> places[i] < |xs|
    ensures |outcomes| == |places|
  {
    seq(|places|, i requires 0 <= i < |places| => OutcomeAt(EMPTY, xs, places[i]))
  }

  /** Message `m` of hook `h` is accepted at exactly one place of the log. */
  ghost predicate AcceptedExactlyOnce(hash: string -> string, h: Hook, m: nat, s: Server)
    requires m < |h.emails| && KeyOf(hash, h, m).Some?
  {
    exists i :: AcceptedAt(s, KeyOf(hash, h, m).value, h.emails[m], i)
      && forall j :: 0 <= j < |s.log| && s.log[j].key == KeyOf(hash, h, m).value ==> j == i
  }

  /**
   For any number of deliveries of any hooks, overlapping in any way, with any submissions
   lost before or after acceptance: a delivery that replies 200 means that each message of
   its hook is accepted exactly once in the whole run.
   */
  lemma DeliveredExactlyOnce(hash: string -> string, h: Hook, xs: seq<Submission>, start: int, places: seq<nat>, m: nat)
    requires InOrder(xs) && Within(xs, start) && Honest(xs)
    requires DeliveryAt(hash, h, xs, places) && m < |h.emails|
    requires Aggregate(OutcomesAt(xs, places)).status == 200
    ensures KeyOf(hash, h, m).Some? && AcceptedExactlyOnce(hash, h, m, ReceiveAll(EMPTY, xs))
  {
    var outcomes, s := OutcomesAt(xs, places), ReceiveAll(EMPTY, xs);
    AggregateMeans(outcomes);
    assert MessageOf(hash, h, m, xs[places[m]]);
    assert Succeeded(outcomes[m]);
    OkMeansAccepted(xs, places[m]);
    var i: nat :| AcceptedAt(s, xs[places[m]].key, xs[places[m]].email, i);
    forall j | 0 <= j < |s.log| && s.log[j].key == KeyOf(hash, h, m).value
      ensures j == i
    {
      AtMostOnce(xs, start, i, j);
    }
    assert AcceptedAt(s, KeyOf(hash, h, m).value, h.emails[m], i);
  }

  /**
   Every acceptance in the run is one message of one hook, so with a collision-free hash no
   two messages are taken for each other.
   */
  lemma AcceptedIsMessage(hash: string -> string, hooks: set<Hook>, xs: seq<Submission>, h: Hook, m: nat, j: nat)
    requires Injective(hash) && OnePayload(hooks) && FromHooks(hash, hooks, xs) && h in hooks && m < |h.emails|
    requires j < |ReceiveAll(EMPTY, xs).log| && KeyOf(hash, h, m) == Some(ReceiveAll(EMPTY, xs).log[j].key)
    ensures ReceiveAll(EMPTY, xs).log[j].email == h.emails[m]
  {
    var p := LogFromSubmissions(xs, j);
    assert FromHook(hash, hooks, xs[p]);
    var g, i :| g in hooks && MessageOf(hash, g, i, xs[p]);
    KeysDiffer(hash, g, i, h, m);
  }

  /** A submission that reaches the server, is not turned down and gets its answer back. */
  predicate Smooth(x: Submission) {
    x.fate == Fate(true, None, true)
  }

  /** No live claim can hold another email under a message's key. */
  lemma ClaimIsMessage(hash: string -> string, hooks: set<Hook>, past: seq<Submission>, h: Hook, m: nat, x: Submission)
    requires Injective(hash) && OnePayload(hooks) && FromHooks(hash, hooks, past) && InOrder(past) && h in hooks
    requires MessageOf(hash, h, m, x) && Existing(ReceiveAll(EMPTY, past), x).Some?
    ensures Existing(ReceiveAll(EMPTY, past), x).value.email == x.email
  {
    var j := ClaimAccepted(past, x);
    AcceptedIsMessage(hash, hooks, past, h, m, j);
  }

  lemma PastFromHooks(hash: string -> string, hooks: set<Hook>, xs: seq<Submission>, p: nat)
    requires FromHooks(hash, hooks, xs) && InOrder(xs) && p <= |xs|
    ensures FromHooks(hash, hooks, xs[..p]) && InOrder(xs[..p])
  {
    assert forall i :: 0 <= i < p ==> xs[..p][i] == xs[i];
  }

  lemma SmoothSucceeds(hash: string -> string, hooks: set<Hook>, xs: seq<Submission>, h: Hook, m: nat, p: nat)
    requires Injective(hash) && OnePayload(hooks) && FromHooks(hash, hooks, xs) && InOrder(xs) && h in hooks
    requires p < |xs| && MessageOf(hash, h, m, xs[p]) && Smooth(xs[p])
    ensures OutcomeAt(EMPTY, xs, p) == Status(200)
  {
    PastFromHooks(hash, hooks, xs, p);
    if Existing(ReceiveAll(EMPTY, xs[..p]), xs[p]).Some? {
      ClaimIsMessage(hash, hooks, xs[..p], h, m, xs[p]);
    }
  }

  /**
   Progress: whatever was lost, refused or accepted before, a delivery whose submissions all
   get through replies 200.
   */
  lemma SmoothDeliverySucceeds(hash: string -> string, hooks: set<Hook>, xs: seq<Submission>, h: Hook, places: seq<nat>)
    requires Injective(hash) && OnePayload(hooks) && FromHooks(hash, hooks, xs) && InOrder(xs) && h in hooks
    requires DeliveryAt(hash, h, xs, places)
    requires forall i :: 0 <= i < |places| ==> Smooth(xs[places[i]])
    ensures Aggregate(OutcomesAt(xs, places)) == Reply(200, None)
  {
    var outcomes := OutcomesAt(xs, places);
    forall i | 0 <= i < |outcomes|
      ensures Succeeded(outcomes[i])
    {
      SmoothSucceeds(hash, hooks, xs, h, i, places[i]);
    }
    AggregateMeans(outcomes);
  }

  lemma {:induction false} ReceiveAllAppend(s: Server, a: seq<Submission>, b: seq<Submission>)
    ensures ReceiveAll(s, a + b) == ReceiveAll(ReceiveAll(s, a), b)
    decreases |b|
  {
    if b == [] {
      assert a + b == a;
    } else {
      var all := a + b;
      assert all[..|all| - 1] == a + b[..|b| - 1];
      ReceiveAllAppend(s, a, b[..|b| - 1]);
    }
  }

  lemma OutcomeInRun(before: seq<Submission>, xs: seq<Submission>, later: seq<Submission>, i: nat)
    requires i < |xs|
    ensures OutcomeAt(ReceiveAll(EMPTY, before), xs, i) == OutcomeAt(EMPTY, before + xs + later, |before| + i)
  {
    Amid(before, xs, later, i);
    ReceiveAllAppend(EMPTY, before, xs[..i]);
  }

  lemma Amid(before: seq<Submission>, xs: seq<Submission>, later: seq<Submission>, i: nat)
    requires i < |xs|
    ensures var all := before + xs + later;
      all[..|before| + i] == before + xs[..i] && all[|before| + i] == xs[i]
  {
  }

  ghost predicate Consecutive(places: seq<nat>, from: nat) {
    forall i :: 0 <= i < |places| ==> places[i] == from + i
  }

  /** The submissions of one delivery, in the middle of a run, fare as they do on the server it meets. */
  lemma OutcomesInRun(before: seq<Submission>, xs: seq<Submission>, later: seq<Submission>, places: seq<nat>)
    requires |places| == |xs| && Consecutive(places, |before|)
    ensures Outcomes(ReceiveAll(EMPTY, before), xs) == OutcomesAt(before + xs + later, places)
  {
    var here, there := Outcomes(ReceiveAll(EMPTY, before), xs), OutcomesAt(before + xs + later, places);
    forall i | 0 <= i < |xs|
      ensures here[i] == there[i]
    {
      OutcomeInRun(before, xs, later, i);
      assert places[i] == |before| + i;
    }
  }

  /**
   A delivery that `Handle` answers with 200 on the server it meets, whatever was submitted
   before and whatever is submitted later, has each of its messages accepted exactly once.
   */
  lemma HandledExactlyOnce(hash: string -> string, h: Hook, at: int, fates: seq<Fate>,
                           before: seq<Submission>, later: seq<Submission>, start: int, m: nat)
    requires Keys(hash, h).Some? && |fates| == |h.emails| && m < |h.emails|
    requires var all := before + Submissions(Keys(hash, h).value, h.emails, at, fates) + later;
      InOrder(all) && Within(all, start) && Honest(all)
    requires var xs := Submissions(Keys(hash, h).value, h.emails, at, fates);
      Aggregate(Outcomes(ReceiveAll(EMPTY, before), xs)).status == 200
    ensures var all := before + Submissions(Keys(hash, h).value, h.emails, at, fates) + later;
      KeyOf(hash, h, m).Some? && AcceptedExactlyOnce(hash, h, m, ReceiveAll(EMPTY, all))
  {
    var xs := Submissions(Keys(hash, h).value, h.emails, at, fates);
    var places := seq(|xs|, i requires 0 <= i < |xs| => |before| + i);
    OutcomesInRun(before, xs, later, places);
    DeliveredExactlyOnce(hash, h, before + xs + later, start, places, m);
  }

  /** The window is exact: a day later the same key is accepted again. */
  lemma AcceptedAgainAfterWindow(key: string, email: Email, at: int)
    ensures var x := Submission(key, email, at, Fate(true, None, true));
      var y := x.(at := at + 24 * 3600);
      ReceiveAll(EMPTY, [x, y]).log == [Acceptance(key, email, at), Acceptance(key, email, at + 24 * 3600)]
  {
    var x := Submission(key, email, at, Fate(true, None, true));
    var y := x.(at := at + WINDOW);
    assert [x, y][..1] == [x] && [x][..0] == [];
    assert ReceiveAll(EMPTY, [x]) == Receive(EMPTY, x);
    assert ReceiveAll(EMPTY, [x, y]) == Receive(ReceiveAll(EMPTY, [x]), y);
  }
}
