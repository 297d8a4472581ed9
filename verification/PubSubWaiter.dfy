/**
 `GooglePubSubWakeupWaiter` (src/adapters/google-pubsub-wakeup.ts). A call of `wait` runs
 in segments that end where it awaits a request; between two segments any other call may
 run. `Next` is the effect of one segment, the class updates its fields the same way, and
 `Inv` is what every interleaving keeps.
 */
module PubSubWaiter {
  import opened Wrappers

  /** What is sent, received or decided, in order. */
  datatype Effect =
    | Pull(call: nat)
    | Answer(call: nat, ackId: string)
    | Ack(call: nat, ackId: string)
    | End(call: nat)
    | Refuse(call: nat)
    | Closed

  /** Where a suspended call waits. */
  datatype Phase = Pulling | Acking

  datatype State = State(closed: bool, waiting: bool, started: nat, pending: map<nat, Phase>, trace: seq<Effect>)

  const INITIAL: State := State(false, false, 0, map[], [])

  /** One segment: the start of a call, the return of a request, or `close`. */
  datatype Step =
    | Begin(milliseconds: int, aborted: bool)
    | PullReturned(call: nat, ackId: string)
    | PullFailed(call: nat)
    | AckSettled(call: nat)
    | Close

  predicate Suspended(s: State, call: nat, phase: Phase) {
    call in s.pending && s.pending[call] == phase
  }

  /** The `finally` block. */
  function Finish(s: State, call: nat, more: seq<Effect>): State {
    s.(waiting := false, pending := s.pending - {call}, trace := s.trace + more + [End(call)])
  }

  function Next(s: State, step: Step): State {
    match step
    case Begin(milliseconds, aborted) =>
      if s.closed || aborted then s.(started := s.started + 1)
      else if milliseconds < 50 || milliseconds > 60000 || s.waiting then
        s.(started := s.started + 1, trace := s.trace + [Refuse(s.started)])
      else
        s.(waiting := true, started := s.started + 1, pending := s.pending[s.started := Pulling],
           trace := s.trace + [Pull(s.started)])
    case PullReturned(call, ackId) =>
      if !Suspended(s, call, Pulling) then s
      else if ackId == "" then Finish(s, call, [Answer(call, ackId)])
      else s.(pending := s.pending[call := Acking], trace := s.trace + [Answer(call, ackId), Ack(call, ackId)])
    case PullFailed(call) =>
      if !Suspended(s, call, Pulling) then s else Finish(s, call, [])
    case AckSettled(call) =>
      if !Suspended(s, call, Acking) then s else Finish(s, call, [])
    case Close => s.(closed := true, trace := s.trace + [Closed])
  }

  function Run(steps: seq<Step>): State {
    if steps == [] then INITIAL else Next(Run(steps[..|steps| - 1]), steps[|steps| - 1])
  }

  // ----------------------------------------------------- what every run keeps

  /** `waiting` is true exactly while one call is between its set and its `finally`. */
  ghost predicate OneWaits(s: State) {
    if s.waiting then exists call :: s.pending.Keys == {call} else s.pending.Keys == {}
  }

  ghost predicate EndsAfter(trace: seq<Effect>, i: nat, call: nat) {
    exists k :: i < k < |trace| && trace[k] == End(call)
  }

  /** A pull starts only after every earlier pull's call has ended. */
  ghost predicate Serial(trace: seq<Effect>) {
    forall i, j :: 0 <= i < j < |trace| && trace[i].Pull? && trace[j].Pull? ==> EndsAfter(trace[..j], i, trace[i].call)
  }

  ghost predicate NoPullAfterClose(trace: seq<Effect>) {
    forall i, j :: 0 <= i < j < |trace| && trace[i].Closed? ==> !trace[j].Pull?
  }

  /** A call pulls, is answered and acknowledges at most once each. */
  ghost predicate OncePerCall(trace: seq<Effect>) {
    forall i, j :: 0 <= i < j < |trace| && !trace[i].Closed? && !trace[j].Closed? && trace[i].call == trace[j].call ==>
      && !(trace[i].Pull? && trace[j].Pull?)
      && !(trace[i].Answer? && trace[j].Answer?)
      && !(trace[i].Ack? && trace[j].Ack?)
  }

  ghost predicate AnsweredBefore(trace: seq<Effect>, j: nat, call: nat, ackId: string)
    requires j <= |trace|
  {
    exists h, i :: 0 <= h < i < j && trace[h] == Pull(call) && trace[i] == Answer(call, ackId)
  }

  /** What a call acknowledges is what its own pull returned. */
  ghost predicate AcksOwn(trace: seq<Effect>) {
    forall j :: 0 <= j < |trace| && trace[j].Ack? ==>
      trace[j].ackId != "" && AnsweredBefore(trace, j, trace[j].call, trace[j].ackId)
  }

  /** The effects recorded so far fit the calls that are suspended. */
  ghost predicate Fits(s: State) {
    && (s.closed <==> Closed in s.trace)
    && (forall call :: call in s.pending ==> call < s.started && Pull(call) in s.trace)
    && (forall i :: 0 <= i < |s.trace| && !s.trace[i].Closed? ==> s.trace[i].call < s.started)
    && (forall i :: 0 <= i < |s.trace| && s.trace[i].Pull? ==>
          s.trace[i].call in s.pending || EndsAfter(s.trace, i, s.trace[i].call))
    && (forall i :: 0 <= i < |s.trace| && (s.trace[i].Answer? || s.trace[i].Ack?) ==>
          !Suspended(s, s.trace[i].call, Pulling))
  }

  ghost predicate Inv(s: State) {
    && OneWaits(s) && Fits(s)
    && Serial(s.trace) && NoPullAfterClose(s.trace) && OncePerCall(s.trace) && AcksOwn(s.trace)
  }

  // ------------------------------------------------------------------ proofs

  lemma EndsLater(trace: seq<Effect>, e: Effect, i: nat, call: nat)
    requires EndsAfter(trace, i, call)
    ensures EndsAfter(trace + [e], i, call)
  {
    var k :| i < k < |trace| && trace[k] == End(call);
    assert (trace + [e])[k] == End(call);
  }

  lemma SerialGrows(trace: seq<Effect>, e: Effect)
    requires Serial(trace)
    requires e.Pull? ==> forall i :: 0 <= i < |trace| && trace[i].Pull? ==> EndsAfter(trace, i, trace[i].call)
    ensures Serial(trace + [e])
  {
    var more := trace + [e];
    forall i, j | 0 <= i < j < |more| && more[i].Pull? && more[j].Pull?
      ensures EndsAfter(more[..j], i, more[i].call)
    {
      assert more[..j] == if j < |trace| then trace[..j] else trace;
      assert more[i] == trace[i];
    }
  }

  lemma AcksOwnGrows(trace: seq<Effect>, e: Effect)
    requires AcksOwn(trace)
    requires e.Ack? ==> e.ackId != "" && AnsweredBefore(trace, |trace|, e.call, e.ackId)
    ensures AcksOwn(trace + [e])
  {
    var more := trace + [e];
    forall j | 0 <= j < |more| && more[j].Ack?
      ensures more[j].ackId != "" && AnsweredBefore(more, j, more[j].call, more[j].ackId)
    {
      assert j < |trace| ==> more[j] == trace[j];
      var h, i :| 0 <= h < i < j && trace[h] == Pull(more[j].call) && trace[i] == Answer(more[j].call, more[j].ackId);
      assert more[h] == trace[h] && more[i] == trace[i];
    }
  }

  /** A trace may grow by an effect that respects what went before. */
  ghost predicate Allowed(trace: seq<Effect>, e: Effect) {
    && (e.Pull? ==> forall i :: 0 <= i < |trace| ==>
          !trace[i].Closed? && (trace[i].Pull? ==> EndsAfter(trace, i, trace[i].call)))
    && (forall i :: 0 <= i < |trace| && !trace[i].Closed? && !e.Closed? && trace[i].call == e.call ==>
          !(trace[i].Pull? && e.Pull?) && !(trace[i].Answer? && e.Answer?) && !(trace[i].Ack? && e.Ack?))
    && (e.Ack? ==> e.ackId != "" && AnsweredBefore(trace, |trace|, e.call, e.ackId))
  }

  ghost predicate Sound(trace: seq<Effect>) {
    Serial(trace) && NoPullAfterClose(trace) && OncePerCall(trace) && AcksOwn(trace)
  }

  lemma SoundGrows(trace: seq<Effect>, e: Effect)
    requires Sound(trace) && Allowed(trace, e)
    ensures Sound(trace + [e])
  {
    SerialGrows(trace, e);
    AcksOwnGrows(trace, e);
  }

  /** Calls that have ended stay ended. */
  lemma EndsCarried(trace: seq<Effect>, e: Effect)
    ensures forall i, call :: EndsAfter(trace, i, call) ==> EndsAfter(trace + [e], i, call)
  {
    forall i: nat, call | EndsAfter(trace, i, call)
      ensures EndsAfter(trace + [e], i, call)
    {
      EndsLater(trace, e, i, call);
    }
  }

  /** A call that is refused is only recorded. */
  lemma RefusalKeeps(s: State, t: State)
    requires Inv(s) && t == s.(started := s.started + 1, trace := s.trace + [Refuse(s.started)])
    ensures Inv(t)
  {
    SoundGrows(s.trace, Refuse(s.started));
    EndsCarried(s.trace, Refuse(s.started));
    assert t.trace[|s.trace|] == Refuse(s.started);
  }

  /** A call that gets through is the only one suspended. */
  lemma PullKeeps(s: State, t: State)
    requires Inv(s) && !s.closed && !s.waiting
    requires t == s.(waiting := true, started := s.started + 1, pending := map[s.started := Pulling],
                     trace := s.trace + [Pull(s.started)])
    ensures Inv(t)
  {
    SoundGrows(s.trace, Pull(s.started));
    EndsCarried(s.trace, Pull(s.started));
    assert t.trace[|s.trace|] == Pull(s.started);
    assert t.pending.Keys == {s.started};
  }

  lemma BeginKeeps(s: State, milliseconds: int, aborted: bool)
    requires Inv(s)
    ensures Inv(Next(s, Begin(milliseconds, aborted)))
  {
    var t := Next(s, Begin(milliseconds, aborted));
    if t.pending != s.pending {
      assert s.pending[s.started := Pulling] == map[s.started := Pulling];
      PullKeeps(s, t);
    } else if t.trace != s.trace {
      RefusalKeeps(s, t);
    }
  }

  lemma CloseKeeps(s: State)
    requires Inv(s)
    ensures Inv(Next(s, Close))
  {
    var t := Next(s, Close);
    SoundGrows(s.trace, Closed);
    EndsCarried(s.trace, Closed);
    assert t.trace[|s.trace|] == Closed;
  }

  /** The only suspended call is this one. */
  lemma Sole(s: State, call: nat)
    requires Inv(s) && call in s.pending
    ensures s.waiting && s.pending.Keys == {call} && (s.pending - {call}).Keys == {}
  {
  }

  lemma FinishKeeps(s: State, call: nat)
    requires Inv(s) && call in s.pending
    ensures Inv(Finish(s, call, []))
  {
    var t := Finish(s, call, []);
    Sole(s, call);
    assert t.trace == s.trace + [End(call)];
    SoundGrows(s.trace, End(call));
    EndsCarried(s.trace, End(call));
    assert t.trace[|s.trace|] == End(call);
    forall i | 0 <= i < |t.trace| && t.trace[i].Pull?
      ensures EndsAfter(t.trace, i, t.trace[i].call)
    {
      assert t.trace[i] == s.trace[i];
    }
  }

  /** The answer to a pull is recorded; the call goes on. */
  function Answered(s: State, call: nat, ackId: string): State {
    s.(pending := s.pending[call := Acking], trace := s.trace + [Answer(call, ackId)])
  }

  lemma AnswerKeeps(s: State, call: nat, ackId: string)
    requires Inv(s) && Suspended(s, call, Pulling)
    ensures Inv(Answered(s, call, ackId))
  {
    var t := Answered(s, call, ackId);
    Sole(s, call);
    assert t.pending.Keys == {call};
    SoundGrows(s.trace, Answer(call, ackId));
    EndsCarried(s.trace, Answer(call, ackId));
    assert t.trace[|s.trace|] == Answer(call, ackId);
  }

  lemma AckAllowed(s: State, call: nat, ackId: string)
    requires Inv(s) && Suspended(s, call, Pulling) && ackId != ""
    ensures Allowed(Answered(s, call, ackId).trace, Ack(call, ackId))
  {
    var trace := Answered(s, call, ackId).trace;
    var h :| 0 <= h < |s.trace| && s.trace[h] == Pull(call);
    assert trace[h] == Pull(call) && trace[|s.trace|] == Answer(call, ackId);
    assert AnsweredBefore(trace, |trace|, call, ackId);
    assert forall i :: 0 <= i < |s.trace| ==> trace[i] == s.trace[i];
  }

  lemma AckKeeps(s: State, call: nat, ackId: string)
    requires Inv(s) && Suspended(s, call, Pulling) && ackId != ""
    ensures Inv(Next(s, PullReturned(call, ackId)))
  {
    var m, t := Answered(s, call, ackId), Next(s, PullReturned(call, ackId));
    AnswerKeeps(s, call, ackId);
    assert t.trace == m.trace + [Ack(call, ackId)];
    AckAllowed(s, call, ackId);
    SoundGrows(m.trace, Ack(call, ackId));
    FitsAck(m, call, ackId);
    assert t == m.(trace := m.trace + [Ack(call, ackId)]);
  }

  lemma FitsAck(m: State, call: nat, ackId: string)
    requires Fits(m) && Suspended(m, call, Acking)
    ensures Fits(m.(trace := m.trace + [Ack(call, ackId)]))
  {
    var t := m.(trace := m.trace + [Ack(call, ackId)]);
    EndsCarried(m.trace, Ack(call, ackId));
    assert t.trace[|m.trace|] == Ack(call, ackId);
  }

  lemma EmptyAnswerKeeps(s: State, call: nat)
    requires Inv(s) && Suspended(s, call, Pulling)
    ensures Inv(Next(s, PullReturned(call, "")))
  {
    var m := Answered(s, call, "");
    AnswerKeeps(s, call, "");
    FinishKeeps(m, call);
    assert m.pending - {call} == s.pending - {call};
    assert Next(s, PullReturned(call, "")) == Finish(m, call, []);
  }

  lemma StepKeeps(s: State, step: Step)
    requires Inv(s)
    ensures Inv(Next(s, step))
  {
    match step
    case Begin(milliseconds, aborted) => BeginKeeps(s, milliseconds, aborted);
    case PullReturned(call, ackId) =>
      if Suspended(s, call, Pulling) {
        if ackId == "" {
          EmptyAnswerKeeps(s, call);
        } else {
          AckKeeps(s, call, ackId);
        }
      }
    case PullFailed(call) =>
      if Suspended(s, call, Pulling) {
        FinishKeeps(s, call);
      }
    case AckSettled(call) =>
      if Suspended(s, call, Acking) {
        FinishKeeps(s, call);
      }
    case Close => CloseKeeps(s);
  }

  /** Every interleaving of calls and of `close` keeps the invariant. */
  lemma {:induction false} RunKeeps(steps: seq<Step>)
    ensures Inv(Run(steps))
  {
    if steps != [] {
      RunKeeps(steps[..|steps| - 1]);
      StepKeeps(Run(steps[..|steps| - 1]), steps[|steps| - 1]);
    }
  }

  /** At no point of any run is more than one request in flight. */
  lemma OneRequestInFlight(steps: seq<Step>, a: nat, b: nat)
    requires a in Run(steps).pending && b in Run(steps).pending
    ensures a == b && Run(steps).waiting
  {
    RunKeeps(steps);
  }

  // -------------------------------------------------------------- the class

  class Waiter {
    var closed: bool
    var waiting: bool
    var started: nat
    var pending: map<nat, Phase>
    var trace: seq<Effect>

    function Current(): State
      reads this
    {
      State(closed, waiting, started, pending, trace)
    }

    constructor ()
      ensures Current() == INITIAL
    {
      closed, waiting, started, pending, trace := false, false, 0, map[], [];
    }

    /** `wait` up to its first request; tells whether a pull was sent. */
    method Start(milliseconds: int, aborted: bool) returns (sent: bool)
      modifies this
      ensures Current() == Next(old(Current()), Begin(milliseconds, aborted))
      ensures sent <==> !old(closed) && !aborted && 50 <= milliseconds <= 60000 && !old(waiting)
    {
      started := started + 1;
      if closed || aborted || milliseconds < 50 || milliseconds > 60000 {
        if !closed && !aborted {
          trace := trace + [Refuse(started - 1)];
        }
        return false;
      }
      if waiting {
        trace := trace + [Refuse(started - 1)];
        return false;
      }
      waiting := true;
      pending := pending[started - 1 := Pulling];
      trace := trace + [Pull(started - 1)];
      return true;
    }

    /** The segment after the pull has returned; tells which message to acknowledge. */
    method Pulled(call: nat, ackId: string) returns (acknowledge: Option<string>)
      requires Suspended(Current(), call, Pulling)
      modifies this
      ensures Current() == Next(old(Current()), PullReturned(call, ackId))
      ensures acknowledge == if ackId == "" then None else Some(ackId)
    {
      trace := trace + [Answer(call, ackId)];
      if ackId == "" {
        Leave(call);
        return None;
      }
      pending := pending[call := Acking];
      trace := trace + [Ack(call, ackId)];
      return Some(ackId);
    }

    /** The segment after a failed pull or after the acknowledgment, which may fail. */
    method Leave(call: nat)
      modifies this
      ensures Current() == Finish(old(Current()), call, [])
    {
      waiting := false;
      pending := pending - {call};
      trace := trace + [End(call)];
    }

    method Shut()
      modifies this
      ensures Current() == Next(old(Current()), Close)
    {
      closed := true;
      trace := trace + [Closed];
    }
  }

  /** Drives the object through any schedule of segments. */
  method Drive(steps: seq<Step>) returns (w: Waiter)
    ensures w.Current() == Run(steps) && Inv(w.Current())
  {
    w := new Waiter();
    for i := 0 to |steps|
      invariant w.Current() == Run(steps[..i])
    {
      assert steps[..i + 1][..i] == steps[..i];
      match steps[i] {
        case Begin(milliseconds, aborted) => var _ := w.Start(milliseconds, aborted);
        case PullReturned(call, ackId) =>
          if call in w.pending && w.pending[call] == Pulling {
            var _ := w.Pulled(call, ackId);
          }
        case PullFailed(call) =>
          if call in w.pending && w.pending[call] == Pulling {
            w.Leave(call);
          }
        case AckSettled(call) =>
          if call in w.pending && w.pending[call] == Acking {
            w.Leave(call);
          }
        case Close => w.Shut();
      }
    }
    assert steps[..|steps|] == steps;
    RunKeeps(steps);
  }
}
