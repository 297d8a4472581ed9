/**
 `AwsEmailScheduler` (src/adapters/email-scheduler.ts) with the clock arithmetic of
 src/core/schedule.ts. Far deliveries become one-time EventBridge schedules, near ones
 delayed queue messages. Times are milliseconds.
 */
module EmailScheduler {
  import opened Wrappers

  const MAX_SQS_DELAY_SECONDS: int := 900

  datatype Job = ReconcileOutbox(outboxId: Option<string>) | SendEmail(emailId: string)

  /** A one-time schedule fires at a whole second. */
  datatype Entry = Entry(second: int, job: Job)

  datatype Message = Message(job: Job, delaySeconds: int)

  /** The schedules by name, and the messages sent to the queue. */
  datatype World = World(entries: map<string, Entry>, queue: seq<Message>)

  function ScheduleName(emailId: string): string {
    "hayasend-" + emailId
  }

  lemma NamesDiffer(a: string, b: string)
    requires a != b
    ensures ScheduleName(a) != ScheduleName(b)
  {
    assert ScheduleName(a)[9..] == a && ScheduleName(b)[9..] == b;
  }

  // ---------------------------------------------------------- clock arithmetic

  /** `Math.ceil` of a quotient by a thousand. */
  function CeilSeconds(milliseconds: int): int {
    -((-milliseconds) / 1000)
  }

  function SecondsUntil(scheduledAt: Option<int>, now: int): int {
    if scheduledAt.None? then 0
    else if CeilSeconds(scheduledAt.value - now) < 0 then 0
    else CeilSeconds(scheduledAt.value - now)
  }

  function DelaySecondsUntil(scheduledAt: Option<int>, now: int): int {
    var seconds := SecondsUntil(scheduledAt, now);
    if seconds < 900 then seconds else 900
  }

  function AtSecond(scheduledAt: int): int {
    scheduledAt / 1000
  }

  predicate Near(scheduledAt: Option<int>, now: int) {
    SecondsUntil(scheduledAt, now) <= MAX_SQS_DELAY_SECONDS
  }

  /** A time is far exactly when it is more than 900 seconds away, to the millisecond. */
  lemma FarExactly(scheduledAt: int, now: int)
    ensures !Near(Some(scheduledAt), now) <==> scheduledAt - now > 900 * 1000
  {
  }

  /** A near message is never early, and late by less than a second unless its time had passed. */
  lemma NearDelay(scheduledAt: int, now: int)
    requires Near(Some(scheduledAt), now)
    ensures var delay := DelaySecondsUntil(Some(scheduledAt), now);
      && 0 <= delay <= 900 && scheduledAt <= now + delay * 1000
      && (scheduledAt >= now ==> now + delay * 1000 < scheduledAt + 1000)
      && (scheduledAt <= now ==> delay == 0)
  {
  }

  // ----------------------------------------------------------- completed calls

  datatype Call =
    | Schedule(emailId: string, scheduledAt: Option<int>, now: int, jobId: string)
    | Reschedule(emailId: string, time: int, now: int, jobId: string)
    | RescheduleDelivery(emailId: string, time: int, now: int)
    | Cancel(emailId: string)

  function Reconcile(jobId: string): Job {
    ReconcileOutbox(if jobId == "" then None else Some(jobId))
  }

  function Upserted(w: World, emailId: string, time: int, job: Job): World {
    w.(entries := w.entries[ScheduleName(emailId) := Entry(AtSecond(time), job)])
  }

  function Cancelled(w: World, emailId: string): World {
    w.(entries := w.entries - {ScheduleName(emailId)})
  }

  function Enqueued(w: World, job: Job, delay: int): World {
    w.(queue := w.queue + [Message(job, delay)])
  }

  function Moved(w: World, emailId: string, time: int, now: int, job: Job): World {
    if Near(Some(time), now) then Enqueued(Cancelled(w, emailId), job, DelaySecondsUntil(Some(time), now))
    else Upserted(w, emailId, time, job)
  }

  /** What a call that completes does. */
  function After(w: World, call: Call): World {
    match call
    case Schedule(emailId, scheduledAt, now, jobId) =>
      if Near(scheduledAt, now) then Enqueued(w, Reconcile(jobId), DelaySecondsUntil(scheduledAt, now))
      else Upserted(w, emailId, scheduledAt.value, Reconcile(jobId))
    case Reschedule(emailId, time, now, jobId) => Moved(w, emailId, time, now, Reconcile(jobId))
    case RescheduleDelivery(emailId, time, now) => Moved(w, emailId, time, now, SendEmail(emailId))
    case Cancel(emailId) => Cancelled(w, emailId)
  }

  // ------------------------------------------------------------------ the class

  /** What may go wrong with a request: nothing, no effect, or an effect that is not reported. */
  datatype Fault = Fine | NoEffect | Unreported

  /** Faults of the two requests of a call, and whether the schedule fires between them. */
  datatype Weather = Weather(first: Fault, firesBetween: bool, second: Fault)

  const CALM: Weather := Weather(Fine, false, Fine)

  datatype Reply = Done | Conflict | NotFound | Error

  class AwsEmailScheduler {
    var entries: map<string, Entry>
    var queue: seq<Message>

    function Current(): World
      reads this
    {
      World(entries, queue)
    }

    constructor ()
      ensures Current() == World(map[], [])
    {
      entries, queue := map[], [];
    }

    method Create(name: string, entry: Entry, fault: Fault) returns (reply: Reply)
      modifies this`entries
      ensures reply.Done? ==> name !in old(entries) && entries == old(entries)[name := entry]
      ensures reply.Conflict? ==> name in old(entries) && entries == old(entries)
      ensures !reply.NotFound? && entries - {name} == old(entries) - {name}
      ensures reply.Error? <==> fault != Fine
    {
      if fault != NoEffect && name !in entries {
        entries := entries[name := entry];
        return if fault == Fine then Done else Error;
      }
      return if fault == Fine then Conflict else Error;
    }

    method Update(name: string, entry: Entry, fault: Fault) returns (reply: Reply)
      modifies this`entries
      ensures reply.Done? ==> name in old(entries) && entries == old(entries)[name := entry]
      ensures reply.NotFound? ==> name !in old(entries) && entries == old(entries)
      ensures !reply.Conflict? && entries - {name} == old(entries) - {name}
      ensures reply.Error? <==> fault != Fine
    {
      if fault != NoEffect && name in entries {
        entries := entries[name := entry];
        return if fault == Fine then Done else Error;
      }
      return if fault == Fine then NotFound else Error;
    }

    method Delete(name: string, fault: Fault) returns (reply: Reply)
      modifies this`entries
      ensures reply.Done? || reply.NotFound? ==> entries == old(entries) - {name}
      ensures !reply.Conflict? && entries - {name} == old(entries) - {name}
      ensures reply.Error? <==> fault != Fine
    {
      var present := name in entries;
      if fault != NoEffect {
        entries := entries - {name};
      }
      return if fault != Fine then Error else if present then Done else NotFound;
    }

    /** EventBridge delivers a schedule and removes it. */
    method Fire(name: string)
      modifies this`entries
      ensures entries == old(entries) - {name}
    {
      entries := entries - {name};
    }

    method Enqueue(job: Job, delay: int, fault: Fault) returns (ok: bool)
      modifies this`queue
      ensures queue == old(queue) || queue == old(queue) + [Message(job, delay)]
      ensures ok ==> queue == old(queue) + [Message(job, delay)]
      ensures ok <==> fault == Fine
    {
      if fault != NoEffect {
        queue := queue + [Message(job, delay)];
      }
      return fault == Fine;
    }

    method Upsert(emailId: string, time: int, job: Job, weather: Weather) returns (ok: bool)
      modifies this`entries
      ensures ok ==> Current() == Upserted(old(Current()), emailId, time, job)
      ensures entries - {ScheduleName(emailId)} == old(entries) - {ScheduleName(emailId)}
      ensures weather == CALM ==> ok
    {
      var name, entry := ScheduleName(emailId), Entry(AtSecond(time), job);
      var reply := Create(name, entry, weather.first);
      if !reply.Conflict? {
        return reply.Done?;
      }
      if weather.firesBetween {
        Fire(name);
      }
      reply := Update(name, entry, weather.second);
      return reply.Done?;
    }

    method CancelSchedule(emailId: string, fault: Fault) returns (ok: bool)
      modifies this`entries
      ensures ok ==> Current() == Cancelled(old(Current()), emailId)
      ensures entries - {ScheduleName(emailId)} == old(entries) - {ScheduleName(emailId)}
      ensures ok <==> fault == Fine
    {
      var reply := Delete(ScheduleName(emailId), fault);
      return !reply.Error?;
    }

    /** The common path of `reschedule` and `rescheduleDelivery`. */
    method Move(emailId: string, time: int, now: int, job: Job, weather: Weather) returns (ok: bool)
      modifies this
      ensures ok ==> Current() == Moved(old(Current()), emailId, time, now, job)
      ensures entries - {ScheduleName(emailId)} == old(entries) - {ScheduleName(emailId)}
      ensures queue == old(queue) || queue == Moved(old(Current()), emailId, time, now, job).queue
      ensures weather == CALM ==> ok
    {
      if SecondsUntil(Some(time), now) <= MAX_SQS_DELAY_SECONDS {
        ok := CancelSchedule(emailId, weather.first);
        if ok {
          ok := Enqueue(job, DelaySecondsUntil(Some(time), now), weather.second);
        }
      } else {
        ok := Upsert(emailId, time, job, weather);
      }
    }

    /** Every operation: what it does when it completes, and what it never touches. */
    method Perform(call: Call, weather: Weather) returns (ok: bool)
      modifies this
      ensures ok ==> Current() == After(old(Current()), call)
      ensures entries - {ScheduleName(call.emailId)} == old(entries) - {ScheduleName(call.emailId)}
      ensures queue == old(queue) || Sends(old(queue), queue, call)
      ensures ok ==> Sends(old(queue), queue, call)
      ensures weather == CALM ==> ok
    {
      CallSends(Current(), call);
      match call {
        case Schedule(emailId, scheduledAt, now, jobId) =>
          if scheduledAt.None? || SecondsUntil(scheduledAt, now) <= MAX_SQS_DELAY_SECONDS {
            ok := Enqueue(Reconcile(jobId), DelaySecondsUntil(scheduledAt, now), weather.first);
          } else {
            ok := Upsert(emailId, scheduledAt.value, Reconcile(jobId), weather);
          }
        case Reschedule(emailId, time, now, jobId) => ok := Move(emailId, time, now, Reconcile(jobId), weather);
        case RescheduleDelivery(emailId, time, now) => ok := Move(emailId, time, now, SendEmail(emailId), weather);
        case Cancel(emailId) => ok := CancelSchedule(emailId, weather.first);
      }
    }
  }

  // ------------------------------------------------------------------- runs

  /** Completed calls and fired schedules, in any order. */
  datatype Happening = Completed(call: Call) | Fired(emailId: string)
  {
    function Email(): string {
      if Completed? then call.emailId else emailId
    }
  }

  function Happen(w: World, h: Happening): World {
    match h
    case Completed(call) => After(w, call)
    case Fired(emailId) => Cancelled(w, emailId)
  }

  function Run(w: World, happenings: seq<Happening>): World {
    if happenings == [] then w else Happen(Run(w, happenings[..|happenings| - 1]), happenings[|happenings| - 1])
  }

  /** The schedule of an email, if it has one. */
  function EntryOf(w: World, emailId: string): Option<Entry> {
    if ScheduleName(emailId) in w.entries then Some(w.entries[ScheduleName(emailId)]) else None
  }

  /** The job that a call hands on: the outbox entry it names, the whole outbox, or the email. */
  function JobOf(call: Call): Job
    requires !call.Cancel?
  {
    if call.RescheduleDelivery? then SendEmail(call.emailId)
    else if call.jobId == "" then ReconcileOutbox(None)
    else ReconcileOutbox(Some(call.jobId))
  }

  /** The time a call is for; a scheduling without a time is for now. */
  function TimeOf(call: Call): int
    requires !call.Cancel?
  {
    if !call.Schedule? then call.time
    else if call.scheduledAt.Some? then call.scheduledAt.value
    else call.now
  }

  /** A time within 900 seconds is delayed by whole seconds: not at all if it has passed, and never early. */
  predicate Delays(delay: int, time: int, now: int) {
    if time <= now then delay == 0
    else 0 < delay <= 900 && time <= now + delay * 1000 < time + 1000
  }

  /** A completed call sends its job to the queue, once, exactly when its time is within 900 seconds. */
  ghost predicate Sends(before: seq<Message>, after: seq<Message>, call: Call) {
    if call.Cancel? || TimeOf(call) - call.now > 900 * 1000 then after == before
    else exists delay :: Delays(delay, TimeOf(call), call.now) && after == before + [Message(JobOf(call), delay)]
  }

  lemma CallSends(w: World, call: Call)
    ensures Sends(w.queue, After(w, call).queue, call)
  {
    if !call.Cancel? {
      var time, now := TimeOf(call), call.now;
      FarExactly(time, now);
      if Near(Some(time), now) {
        NearDelay(time, now);
        var delay := DelaySecondsUntil(Some(time), now);
        assert delay == DelaySecondsUntil(if call.Schedule? then call.scheduledAt else Some(call.time), now);
        assert Delays(delay, time, now) && After(w, call).queue == w.queue + [Message(JobOf(call), delay)];
      }
    }
  }

  /** At every point of a run the queue grows by the message of a near call and by nothing else. */
  lemma RunSends(w: World, happenings: seq<Happening>, k: nat)
    requires k < |happenings|
    ensures var before, after := Run(w, happenings[..k]).queue, Run(w, happenings[..k + 1]).queue;
      if happenings[k].Completed? then Sends(before, after, happenings[k].call) else after == before
  {
    var past := happenings[..k + 1];
    assert past[..k] == happenings[..k] && past[k] == happenings[k];
    if happenings[k].Completed? {
      CallSends(Run(w, happenings[..k]), happenings[k].call);
    }
  }

  /** What a happening makes of the schedule of the email it is about. */
  function OwnEffect(entry: Option<Entry>, h: Happening): Option<Entry> {
    match h
    case Fired(_) => None
    case Completed(Cancel(_)) => None
    case Completed(Schedule(_, at, now, jobId)) =>
      if at.Some? && at.value - now > 900 * 1000 then Some(Entry(at.value / 1000, JobOf(h.call))) else entry
    case Completed(Reschedule(_, time, now, jobId)) =>
      if time - now > 900 * 1000 then Some(Entry(time / 1000, JobOf(h.call))) else None
    case Completed(RescheduleDelivery(emailId, time, now)) =>
      if time - now > 900 * 1000 then Some(Entry(time / 1000, JobOf(h.call))) else None
  }

  /** The history of one email alone. */
  function OwnHistory(entry: Option<Entry>, happenings: seq<Happening>, emailId: string): Option<Entry> {
    if happenings == [] then entry
    else
      var before := OwnHistory(entry, happenings[..|happenings| - 1], emailId);
      var h := happenings[|happenings| - 1];
      if h.Email() == emailId then OwnEffect(before, h) else before
  }

  lemma HappenOwn(w: World, h: Happening)
    ensures EntryOf(Happen(w, h), h.Email()) == OwnEffect(EntryOf(w, h.Email()), h)
  {
    match h
    case Fired(_) =>
    case Completed(Cancel(_)) =>
    case Completed(Schedule(_, at, now, _)) =>
      if at.Some? {
        FarExactly(at.value, now);
      }
    case Completed(Reschedule(_, time, now, _)) => FarExactly(time, now);
    case Completed(RescheduleDelivery(_, time, now)) => FarExactly(time, now);
  }

  lemma HappenOther(w: World, h: Happening, emailId: string)
    requires h.Email() != emailId
    ensures EntryOf(Happen(w, h), emailId) == EntryOf(w, emailId)
  {
    NamesDiffer(h.Email(), emailId);
  }

  /**
   After any run, the schedule of an email is what its own calls and firings made of it:
   calls for other emails never interfere. A move, a cancellation and a firing each decide
   whether a schedule exists; a first scheduling for a near time leaves it as it was.
   */
  lemma {:induction false} RunIsOwnHistory(w: World, happenings: seq<Happening>, emailId: string)
    ensures EntryOf(Run(w, happenings), emailId) == OwnHistory(EntryOf(w, emailId), happenings, emailId)
  {
    if happenings != [] {
      var past, h := happenings[..|happenings| - 1], happenings[|happenings| - 1];
      RunIsOwnHistory(w, past, emailId);
      if h.Email() == emailId {
        HappenOwn(Run(w, past), h);
      } else {
        HappenOther(Run(w, past), h, emailId);
      }
    }
  }

  /** After a move the schedule is exactly that call's, whatever was there before. */
  lemma MoveDecides(w: World, happenings: seq<Happening>, call: Call)
    requires call.Reschedule? || call.RescheduleDelivery?
    ensures var after := Run(w, happenings + [Completed(call)]);
      && (EntryOf(after, call.emailId).Some? <==> call.time - call.now > 900 * 1000)
      && (EntryOf(after, call.emailId).Some? ==>
            EntryOf(after, call.emailId).value
            == Entry(call.time / 1000, JobOf(call)))
      && (forall other :: other != call.emailId ==> EntryOf(after, other) == EntryOf(Run(w, happenings), other))
      && Sends(Run(w, happenings).queue, after.queue, call)
  {
    var all := happenings + [Completed(call)];
    assert all[..|all| - 1] == happenings;
    HappenOwn(Run(w, happenings), Completed(call));
    CallSends(Run(w, happenings), call);
    forall other | other != call.emailId
      ensures EntryOf(Run(w, all), other) == EntryOf(Run(w, happenings), other)
    {
      HappenOther(Run(w, happenings), Completed(call), other);
    }
  }

  /**
   `schedule` for a near time does not remove an earlier schedule: it is meant for the first
   time only, and a later near call must go through `reschedule`.
   */
  lemma NearScheduleLeavesEntry(w: World, call: Call)
    requires call.Schedule?
    ensures After(w, call).entries == w.entries <==>
      || call.scheduledAt.None? || call.scheduledAt.value - call.now <= 900 * 1000
      || EntryOf(w, call.emailId) == Some(Entry(call.scheduledAt.value / 1000, JobOf(call)))
  {
    if call.scheduledAt.Some? {
      FarExactly(call.scheduledAt.value, call.now);
      if !Near(call.scheduledAt, call.now) {
        var name, entry := ScheduleName(call.emailId), Entry(AtSecond(call.scheduledAt.value), Reconcile(call.jobId));
        assert w.entries[name := entry][name] == entry;
        if EntryOf(w, call.emailId) == Some(entry) {
          assert w.entries[name := entry] == w.entries;
        }
      }
    }
  }
}
