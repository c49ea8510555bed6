/** Concurrent send handlers, the bounded event queue behind them, and the dispatcher that empties it. */
module SendPipeline {
  import opened Wrappers
  import opened SendRoutes

  const DISPATCH_CAPACITY := 64

  /** What has happened, in order: backend sends with their results, and events put into the queue. */
  datatype Act = Sent(handler: nat, ok: bool) | Queued(handler: nat)

  /**
   * Where a handler is. `sent` is the position in the trace of its successful backend send, which is missing when no
   * backend is configured. A handler's future may be dropped while it waits.
   */
  datatype Pc =
    | Calling
    | Emitting(sent: Option<nat>)
    | Accepted(sent: Option<nat>, at: nat)
    | SendFailed(at: nat)
    | EmitFailed(sent: Option<nat>)
    | Invalid
    | Dropped(sent: Option<nat>)

  datatype Handler = Handler(request: Request, pc: Pc)

  /** The queue and the dispatcher's list hold handler numbers; what travels is the handler's message. */
  datatype Pipe = Pipe(configured: bool, handlers: seq<Handler>, trace: seq<Act>, queue: seq<nat>, taken: seq<nat>)

  function Start(configured: bool): Pipe {
    Pipe(configured, [], [], [], [])
  }

  datatype Step =
    | Arrive(request: Request)
    | BackendAnswers(handler: nat, ok: bool)
    | Enqueue(handler: nat)
    | GiveUp(handler: nat)
    | Drop(handler: nat)
    | Dispatch

  predicate IsAt(p: Pipe, h: nat, calling: bool) {
    h < |p.handlers| && if calling then p.handlers[h].pc.Calling? else p.handlers[h].pc.Emitting?
  }

  predicate GivesUp(p: Pipe, step: Step) {
    step.GiveUp? && IsAt(p, step.handler, false) && |p.queue| >= DISPATCH_CAPACITY
  }

  function Move(p: Pipe, h: nat, pc: Pc): Pipe
    requires h < |p.handlers|
  {
    p.(handlers := p.handlers[h := p.handlers[h].(pc := pc)])
  }

  function Arrived(p: Pipe, r: Request): Pipe {
    var pc := if Prepare(r).Failure? then Invalid else if p.configured then Calling else Emitting(None);
    p.(handlers := p.handlers + [Handler(r, pc)])
  }

  function Answered(p: Pipe, h: nat, ok: bool): Pipe
    requires IsAt(p, h, true)
  {
    var at := |p.trace|;
    Move(p, h, if ok then Emitting(Some(at)) else SendFailed(at)).(trace := p.trace + [Sent(h, ok)])
  }

  function Enqueued(p: Pipe, h: nat): Pipe
    requires IsAt(p, h, false)
  {
    Move(p, h, Accepted(p.handlers[h].pc.sent, |p.trace|)).(trace := p.trace + [Queued(h)], queue := p.queue + [h])
  }

  /** A step that is not enabled changes nothing. A waiting handler gives up only while the queue is full: a place
      that becomes free is handed to the first who waits, which is its `Enqueue`. */
  function Next(p: Pipe, step: Step): Pipe {
    match step
    case Arrive(r) => Arrived(p, r)
    case BackendAnswers(h, ok) => if IsAt(p, h, true) then Answered(p, h, ok) else p
    case Enqueue(h) => if IsAt(p, h, false) && |p.queue| < DISPATCH_CAPACITY then Enqueued(p, h) else p
    case GiveUp(h) => if GivesUp(p, step) then Move(p, h, EmitFailed(p.handlers[h].pc.sent)) else p
    case Drop(h) =>
      if IsAt(p, h, true) then Move(p, h, Dropped(None))
      else if IsAt(p, h, false) then Move(p, h, Dropped(p.handlers[h].pc.sent))
      else p
    case Dispatch => if p.queue == [] then p else p.(queue := p.queue[1..], taken := p.taken + [p.queue[0]])
  }

  function Run(p: Pipe, steps: seq<Step>): Pipe
    decreases |steps|
  {
    if steps == [] then p else Run(Next(p, steps[0]), steps[1..])
  }

  /** The HTTP answer, once there is one. */
  function Answer(p: Pipe, h: nat): Option<Result<(), ApiError>>
    requires h < |p.handlers|
  {
    match p.handlers[h].pc
    case Accepted(_, _) => Some(Success(()))
    case SendFailed(_) => Some(Failure(ProtocolSend))
    case EmitFailed(_) => Some(Failure(EventDispatch))
    case Invalid => Some(Failure(InvalidRequest))
    case _ => None
  }

  /** `emit_event` alone with the dispatcher: a full queue delays it, and refuses it if the dispatcher takes nothing. */
  function EmitSpec(queue: seq<nat>, taken: seq<nat>, h: nat, takes: nat): (seq<nat>, seq<nat>, Result<(), ApiError>)
    requires |queue| <= DISPATCH_CAPACITY
  {
    if |queue| < DISPATCH_CAPACITY then (queue + [h], taken, Success(()))
    else if takes == 0 then (queue, taken, Failure(EventDispatch))
    else (queue[1..] + [h], taken + [queue[0]], Success(()))
  }

  /** The queue between the handlers and the dispatcher task, as the object both ends change. */
  class EventQueue {
    var queue: seq<nat>
    var taken: seq<nat>

    constructor ()
      ensures queue == [] && taken == []
    {
      queue, taken := [], [];
    }

    /** Waits for a place until the time-out; the dispatcher takes up to `takes` events meanwhile. */
    method Emit(h: nat, takes: nat) returns (r: Result<(), ApiError>)
      requires |queue| <= DISPATCH_CAPACITY
      modifies this
      ensures (queue, taken, r) == EmitSpec(old(queue), old(taken), h, takes)
    {
      var i := 0;
      while |queue| >= DISPATCH_CAPACITY && i < takes
        invariant i <= takes
        invariant if i == 0 then queue == old(queue) && taken == old(taken)
                  else i == 1 && |old(queue)| == DISPATCH_CAPACITY
                       && queue == old(queue)[1..] && taken == old(taken) + [old(queue)[0]]
      {
        taken, queue := taken + [queue[0]], queue[1..];
        i := i + 1;
      }
      if |queue| >= DISPATCH_CAPACITY { return Failure(EventDispatch); }
      queue := queue + [h];
      r := Success(());
    }

    /** The dispatcher task until it finds the queue empty. */
    method DispatchAll()
      modifies this
      ensures queue == [] && taken == old(taken) + old(queue)
    {
      while queue != []
        invariant taken + queue == old(taken) + old(queue)
        decreases |queue|
      {
        var head := queue[0];
        queue := queue[1..];
        taken := taken + [head];
      }
    }
  }

  // ---------------------------------------------------------------- the invariant

  function QueuedOf(trace: seq<Act>): seq<nat> {
    if trace == [] then []
    else
      var last := trace[|trace| - 1];
      QueuedOf(trace[..|trace| - 1]) + if last.Queued? then [last.handler] else []
  }

  /** The trace has the send the handler remembers. */
  predicate SentOk(p: Pipe, h: nat, sent: Option<nat>) {
    p.configured ==> sent.Some? && sent.value < |p.trace| && p.trace[sent.value] == Sent(h, true)
  }

  predicate HandlerOk(p: Pipe, h: nat)
    requires h < |p.handlers|
  {
    && (p.handlers[h].pc.Invalid? <==> Prepare(p.handlers[h].request).Failure?)
    && match p.handlers[h].pc
       case Calling => p.configured
       case Emitting(sent) => SentOk(p, h, sent)
       case Accepted(sent, at) =>
         && SentOk(p, h, sent) && at < |p.trace| && p.trace[at] == Queued(h)
         && (p.configured ==> sent.value < at)
       case SendFailed(at) => at < |p.trace| && p.trace[at] == Sent(h, false)
       case EmitFailed(sent) => SentOk(p, h, sent)
       case _ => true
  }

  function SentAt(pc: Pc): Option<nat> {
    match pc
    case Emitting(sent) => sent
    case Accepted(sent, _) => sent
    case SendFailed(at) => Some(at)
    case EmitFailed(sent) => sent
    case Dropped(sent) => sent
    case _ => None
  }

  /** Every act is the one its handler remembers, so a handler sends at most once and queues at most once. */
  predicate ActOk(p: Pipe, i: nat)
    requires i < |p.trace|
  {
    var h := p.trace[i].handler;
    && h < |p.handlers|
    && match p.trace[i]
       case Sent(_, ok) =>
         SentAt(p.handlers[h].pc) == Some(i) && (ok <==> !p.handlers[h].pc.SendFailed?)
       case Queued(_) => p.handlers[h].pc.Accepted? && p.handlers[h].pc.at == i
  }

  ghost predicate Inv(p: Pipe) {
    && (forall h: nat | h < |p.handlers| :: HandlerOk(p, h))
    && (forall i: nat | i < |p.trace| :: ActOk(p, i))
    && QueuedOf(p.trace) == p.taken + p.queue
    && |p.queue| <= DISPATCH_CAPACITY
  }

  lemma {:induction false} QueuedOneMore(trace: seq<Act>, a: Act)
    ensures QueuedOf(trace + [a]) == QueuedOf(trace) + if a.Queued? then [a.handler] else []
  {
    assert (trace + [a])[..|trace|] == trace;
  }

  lemma {:induction false} ArriveKeeps(p: Pipe, r: Request)
    requires Inv(p)
    ensures Inv(Arrived(p, r))
  {
    hide Prepare, QueuedOf;
    var q := Arrived(p, r);
    forall h: nat | h < |q.handlers| ensures HandlerOk(q, h) { if h < |p.handlers| { assert HandlerOk(p, h); } }
    forall i: nat | i < |q.trace| ensures ActOk(q, i) { assert ActOk(p, i); }
  }

  lemma {:induction false} AnswerKeeps(p: Pipe, h: nat, ok: bool)
    requires Inv(p) && IsAt(p, h, true)
    ensures Inv(Answered(p, h, ok))
  {
    hide Prepare;
    var q := Answered(p, h, ok);
    QueuedOneMore(p.trace, Sent(h, ok));
    hide QueuedOf;
    forall k: nat | k < |q.handlers| ensures HandlerOk(q, k) { assert HandlerOk(p, k); }
    forall i: nat | i < |q.trace| ensures ActOk(q, i) { if i < |p.trace| { assert ActOk(p, i); } }
  }

  lemma {:induction false} EnqueueKeeps(p: Pipe, h: nat)
    requires Inv(p) && IsAt(p, h, false) && |p.queue| < DISPATCH_CAPACITY
    ensures Inv(Enqueued(p, h))
  {
    hide Prepare;
    var q := Enqueued(p, h);
    QueuedOneMore(p.trace, Queued(h));
    hide QueuedOf;
    assert p.taken + (p.queue + [h]) == p.taken + p.queue + [h];
    forall k: nat | k < |q.handlers| ensures HandlerOk(q, k) { assert HandlerOk(p, k); }
    forall i: nat | i < |q.trace| ensures ActOk(q, i) { if i < |p.trace| { assert ActOk(p, i); } }
  }

  lemma {:induction false} LeaveKeeps(p: Pipe, h: nat, pc: Pc)
    requires Inv(p) && h < |p.handlers|
    requires var was := p.handlers[h].pc;
             || (was.Emitting? && (pc == EmitFailed(was.sent) || pc == Dropped(was.sent)))
             || (was.Calling? && pc == Dropped(None))
    ensures Inv(Move(p, h, pc))
  {
    hide Prepare, QueuedOf;
    var q := Move(p, h, pc);
    forall k: nat | k < |q.handlers| ensures HandlerOk(q, k) { assert HandlerOk(p, k); }
    forall i: nat | i < |q.trace| ensures ActOk(q, i) { assert ActOk(p, i); }
  }

  lemma {:induction false} DispatchKeeps(p: Pipe)
    requires Inv(p)
    ensures Inv(Next(p, Dispatch))
  {
    hide Prepare, QueuedOf;
    var q := Next(p, Dispatch);
    if p.queue != [] { assert q.taken + q.queue == p.taken + p.queue; }
    forall k: nat | k < |q.handlers| ensures HandlerOk(q, k) { assert HandlerOk(p, k); }
    forall i: nat | i < |q.trace| ensures ActOk(q, i) { assert ActOk(p, i); }
  }

  lemma {:induction false} RunKeeps(p: Pipe, steps: seq<Step>)
    requires Inv(p)
    ensures Inv(Run(p, steps))
    decreases |steps|
  {
    if steps != [] {
      var step := steps[0];
      if step.Arrive? { ArriveKeeps(p, step.request); }
      if step.Dispatch? { DispatchKeeps(p); }
      if step.BackendAnswers? && IsAt(p, step.handler, true) { AnswerKeeps(p, step.handler, step.ok); }
      if step.Enqueue? && IsAt(p, step.handler, false) && |p.queue| < DISPATCH_CAPACITY {
        EnqueueKeeps(p, step.handler);
      }
      if GivesUp(p, step) {
        LeaveKeeps(p, step.handler, EmitFailed(p.handlers[step.handler].pc.sent));
      }
      if step.Drop? && IsAt(p, step.handler, true) { LeaveKeeps(p, step.handler, Dropped(None)); }
      if step.Drop? && IsAt(p, step.handler, false) {
        LeaveKeeps(p, step.handler, Dropped(p.handlers[step.handler].pc.sent));
      }
      hide Inv, Arrived, Answered, Enqueued, Move;
      RunKeeps(Next(p, step), steps[1..]);
    }
  }

  lemma {:induction false} Reachable(configured: bool, steps: seq<Step>)
    ensures Inv(Run(Start(configured), steps)) && Run(Start(configured), steps).configured == configured
  {
    RunKeeps(Start(configured), steps);
    StaysConfigured(Start(configured), steps);
  }

  lemma {:induction false} StaysConfigured(p: Pipe, steps: seq<Step>)
    ensures Run(p, steps).configured == p.configured
    decreases |steps|
  {
    if steps != [] { StaysConfigured(Next(p, steps[0]), steps[1..]); }
  }

  // ---------------------------------------------------------------- every run

  /** What was accepted is what the dispatcher took followed by what is queued, in order, and the queue is bounded. */
  lemma {:induction false} QueueConserves(configured: bool, steps: seq<Step>)
    ensures var p := Run(Start(configured), steps);
            QueuedOf(p.trace) == p.taken + p.queue && |p.queue| <= 64
  {
    Reachable(configured, steps);
    hide QueuedOf;
  }

  function Positions(trace: seq<Act>): (at: seq<nat>)
    ensures forall i | i in at :: i < |trace|
  {
    if trace == [] then []
    else
      var n := |trace| - 1;
      Positions(trace[..n]) + if trace[n].Queued? then [n] else []
  }

  lemma {:induction false} PositionsPoint(trace: seq<Act>)
    ensures |Positions(trace)| == |QueuedOf(trace)|
    ensures var at := Positions(trace);
            && (forall k | 0 <= k < |at| :: at[k] < |trace| && trace[at[k]] == Queued(QueuedOf(trace)[k]))
            && forall j, k | 0 <= j < k < |at| :: at[j] < at[k]
  {
    if trace != [] {
      var n := |trace| - 1;
      PositionsPoint(trace[..n]);
      var at := Positions(trace[..n]);
      assert forall k | 0 <= k < |at| :: at[k] in at;
    }
  }

  lemma {:induction false} EveryQueuedCounts(trace: seq<Act>, i: nat)
    requires i < |trace| && trace[i].Queued?
    ensures trace[i].handler in QueuedOf(trace)
  {
    var n := |trace| - 1;
    if i < n { EveryQueuedCounts(trace[..n], i); }
  }

  /** Once, and only if accepted: a handler's event is in the queue or taken exactly when its caller is told so, and
      never twice. */
  lemma {:induction false} AcceptedExactlyOnce(configured: bool, steps: seq<Step>, h: nat)
    ensures var p := Run(Start(configured), steps);
            var all := p.taken + p.queue;
            h < |p.handlers| ==>
              && (h in all <==> Answer(p, h) == Some(Success(())))
              && forall j, k | 0 <= j < |all| && 0 <= k < |all| && all[j] == h && all[k] == h :: j == k
  {
    Reachable(configured, steps);
    var p := Run(Start(configured), steps);
    var at := Positions(p.trace);
    PositionsPoint(p.trace);
    hide QueuedOf, Prepare, Positions, Run, Start;
    if h < |p.handlers| {
      var all := p.taken + p.queue;
      assert HandlerOk(p, h);
      forall k | 0 <= k < |all| && all[k] == h ensures p.handlers[h].pc.Accepted? && p.handlers[h].pc.at == at[k] {
        assert ActOk(p, at[k]);
      }
      if p.handlers[h].pc.Accepted? { EveryQueuedCounts(p.trace, p.handlers[h].pc.at); }
    }
  }

  /** With a backend, an accepted event was sent through it successfully before. A failed send emits nothing. And a
      caller told that the dispatch failed has nevertheless had the message sent. */
  lemma {:induction false} SendComesFirst(configured: bool, steps: seq<Step>, h: nat)
    ensures var p := Run(Start(configured), steps);
            h < |p.handlers| && configured ==>
              && (Answer(p, h) == Some(Success(())) ==>
                    exists i: nat, j: nat ::
                          i < j < |p.trace| && p.trace[i] == Sent(h, true) && p.trace[j] == Queued(h))
              && (Answer(p, h) == Some(Failure(ProtocolSend)) ==>
                    Sent(h, false) in p.trace && Sent(h, true) !in p.trace && Queued(h) !in p.trace)
              && (Answer(p, h) == Some(Failure(EventDispatch)) ==>
                    Sent(h, true) in p.trace && Queued(h) !in p.trace)
              && (Answer(p, h) == Some(Failure(InvalidRequest)) ==>
                    Sent(h, true) !in p.trace && Sent(h, false) !in p.trace && Queued(h) !in p.trace)
  {
    Reachable(configured, steps);
    var p := Run(Start(configured), steps);
    hide QueuedOf, Prepare, Run, Start;
    if h < |p.handlers| {
      assert HandlerOk(p, h);
      if Sent(h, true) in p.trace { var i :| 0 <= i < |p.trace| && p.trace[i] == Sent(h, true); assert ActOk(p, i); }
      if Sent(h, false) in p.trace { var i :| 0 <= i < |p.trace| && p.trace[i] == Sent(h, false); assert ActOk(p, i); }
      if Queued(h) in p.trace { var i :| 0 <= i < |p.trace| && p.trace[i] == Queued(h); assert ActOk(p, i); }
    }
  }

  // ---------------------------------------------------------------- failures after a send

  predicate NeverGivesUp(p: Pipe, steps: seq<Step>)
    decreases |steps|
  {
    steps == [] || (!GivesUp(p, steps[0]) && NeverGivesUp(Next(p, steps[0]), steps[1..]))
  }

  /** Nobody is told of a failure whose message was sent. */
  predicate FailuresUnsent(p: Pipe) {
    forall h | 0 <= h < |p.handlers| && Answer(p, h).Some? && Answer(p, h).value.Failure? :: Sent(h, true) !in p.trace
  }

  predicate NoneFailedToEmit(p: Pipe) {
    forall h | 0 <= h < |p.handlers| :: !p.handlers[h].pc.EmitFailed?
  }

  lemma {:induction false} EmitFailureStep(p: Pipe, step: Step)
    ensures NoneFailedToEmit(Next(p, step)) <==> NoneFailedToEmit(p) && !GivesUp(p, step)
  {
    hide Prepare;
    var q := Next(p, step);
    forall h | 0 <= h < |p.handlers|
      ensures h < |q.handlers| && (q.handlers[h].pc.EmitFailed? <==>
                p.handlers[h].pc.EmitFailed? || (GivesUp(p, step) && step.handler == h))
    {
    }
  }

  lemma {:induction false} EmitFailureRun(p: Pipe, steps: seq<Step>)
    ensures NoneFailedToEmit(Run(p, steps)) <==> NoneFailedToEmit(p) && NeverGivesUp(p, steps)
    decreases |steps|
  {
    hide Next, NoneFailedToEmit, GivesUp;
    if steps != [] {
      EmitFailureStep(p, steps[0]);
      EmitFailureRun(Next(p, steps[0]), steps[1..]);
    }
  }

  lemma {:induction false} UnsentIffNoneFailed(p: Pipe)
    requires Inv(p) && p.configured
    ensures FailuresUnsent(p) <==> NoneFailedToEmit(p)
  {
    hide Prepare, QueuedOf;
    forall h: nat | h < |p.handlers|
      ensures (Answer(p, h).Some? && Answer(p, h).value.Failure? ==> Sent(h, true) !in p.trace)
         <==> !p.handlers[h].pc.EmitFailed?
    {
      assert HandlerOk(p, h);
      if Sent(h, true) in p.trace { var i :| 0 <= i < |p.trace| && p.trace[i] == Sent(h, true); assert ActOk(p, i); }
    }
  }

  /** With a backend, no caller is told of a failure although the message was sent, exactly when no handler ever
      gives up waiting for a place in the queue. */
  lemma {:induction false} FailuresUnsentIffNobodyGivesUp(steps: seq<Step>)
    ensures FailuresUnsent(Run(Start(true), steps)) <==> NeverGivesUp(Start(true), steps)
  {
    Reachable(true, steps);
    UnsentIffNoneFailed(Run(Start(true), steps));
    EmitFailureRun(Start(true), steps);
    hide Run, Inv, FailuresUnsent;
  }

  /** How many handlers wait for a place. */
  function Waiting(handlers: seq<Handler>): nat {
    if handlers == [] then 0 else (if handlers[0].pc.Emitting? then 1 else 0) + Waiting(handlers[1..])
  }

  lemma {:induction false} OneWaits(handlers: seq<Handler>, h: nat)
    requires h < |handlers| && handlers[h].pc.Emitting?
    ensures Waiting(handlers) >= 1
  {
    if h > 0 { OneWaits(handlers[1..], h - 1); }
  }

  /** At every point of the run, what is queued and who waits for a place fit the queue together. */
  predicate NeverCrowded(p: Pipe, steps: seq<Step>)
    decreases |steps|
  {
    |p.queue| + Waiting(p.handlers) <= 64
    && (steps == [] || NeverCrowded(Next(p, steps[0]), steps[1..]))
  }

  lemma {:induction false} UncrowdedNeverGivesUp(p: Pipe, steps: seq<Step>)
    requires NeverCrowded(p, steps)
    ensures NeverGivesUp(p, steps)
    decreases |steps|
  {
    hide Next;
    if steps != [] {
      if GivesUp(p, steps[0]) { OneWaits(p.handlers, steps[0].handler); }
      UncrowdedNeverGivesUp(Next(p, steps[0]), steps[1..]);
    }
  }

  /** Hence, as long as queued and waiting events never exceed 64, no caller is told of a failure whose
      message was sent. */
  lemma {:induction false} UncrowdedFailuresAreUnsent(steps: seq<Step>)
    requires NeverCrowded(Start(true), steps)
    ensures FailuresUnsent(Run(Start(true), steps))
  {
    UncrowdedNeverGivesUp(Start(true), steps);
    FailuresUnsentIffNobodyGivesUp(steps);
  }

  /** A handler that is dropped while it sends or waits never answers, and its event never enters the queue. */
  lemma {:induction false} DroppedIsFinal(configured: bool, steps: seq<Step>, h: nat, more: seq<Step>)
    requires var p := Run(Start(configured), steps); IsAt(p, h, true) || IsAt(p, h, false)
    ensures var q := Run(Next(Run(Start(configured), steps), Drop(h)), more);
            h < |q.handlers| && Answer(q, h) == None && h !in q.taken + q.queue
  {
    var p := Run(Start(configured), steps);
    var q := Next(p, Drop(h));
    StaysDropped(q, h, more);
    var all := steps + ([Drop(h)] + more);
    RunAppend(Start(configured), steps, [Drop(h)] + more);
    assert ([Drop(h)] + more)[1..] == more;
    assert Run(Start(configured), all) == Run(q, more);
    AcceptedExactlyOnce(configured, all, h);
    hide Run, Next;
  }

  lemma {:induction false} StaysDropped(p: Pipe, h: nat, steps: seq<Step>)
    requires h < |p.handlers| && p.handlers[h].pc.Dropped?
    ensures h < |Run(p, steps).handlers| && Run(p, steps).handlers[h].pc.Dropped?
    decreases |steps|
  {
    hide Prepare;
    if steps != [] { StaysDropped(Next(p, steps[0]), h, steps[1..]); }
  }

  lemma {:induction false} RunAppend(p: Pipe, a: seq<Step>, b: seq<Step>)
    ensures Run(p, a + b) == Run(Run(p, a), b)
    decreases |a|
  {
    hide Next;
    if a == [] {
      assert a + b == b;
    } else {
      assert (a + b)[1..] == a[1..] + b;
      RunAppend(Next(p, a[0]), a[1..], b);
    }
  }

  /** A request that is sent through the backend and queued. */
  lemma {:induction false} AcceptRun(p: Pipe, r: Request)
    requires p.configured && Prepare(r).Success? && |p.queue| < DISPATCH_CAPACITY
    ensures var q := Run(p, [Arrive(r), BackendAnswers(|p.handlers|, true), Enqueue(|p.handlers|)]);
            q.configured && |q.handlers| == |p.handlers| + 1 && |q.queue| == |p.queue| + 1
  {
    hide Prepare;
    ThreeSteps(p, Arrive(r), BackendAnswers(|p.handlers|, true), Enqueue(|p.handlers|));
  }

  lemma {:induction false} ThreeSteps(p: Pipe, a: Step, b: Step, c: Step)
    ensures Run(p, [a, b, c]) == Next(Next(Next(p, a), b), c)
  {
    hide Next;
    assert [a, b, c][1..] == [b, c] && [b, c][1..] == [c] && [c][1..] == [];
    assert Run(Next(p, a), [b, c]) == Run(Next(Next(p, a), b), [c]);
    assert Run(Next(Next(p, a), b), [c]) == Run(Next(Next(Next(p, a), b), c), []);
  }

  lemma {:induction false} FillRun(n: nat, r: Request) returns (steps: seq<Step>)
    requires n <= DISPATCH_CAPACITY && Prepare(r).Success?
    ensures var p := Run(Start(true), steps); p.configured && |p.handlers| == n && |p.queue| == n
    decreases n
  {
    hide Prepare, Next;
    if n == 0 {
      steps := [];
    } else {
      steps := FillRun(n - 1, r);
      var p := Run(Start(true), steps);
      var more := [Arrive(r), BackendAnswers(|p.handlers|, true), Enqueue(|p.handlers|)];
      AcceptRun(p, r);
      RunAppend(Start(true), steps, more);
      steps := steps + more;
      hide Run;
    }
  }

  /** It happens: 64 accepted requests fill the queue, the next one is sent through the backend, finds no place in
      time, and its caller is told that it failed. */
  lemma {:induction false} FullQueueFailsAfterSend(r: Request) returns (steps: seq<Step>)
    requires Prepare(r).Success?
    ensures var p := Run(Start(true), steps);
            && |p.queue| == 64 && |p.handlers| == 65
            && Answer(p, 64) == Some(Failure(EventDispatch)) && Sent(64, true) in p.trace
  {
    hide Prepare;
    steps := FillRun(DISPATCH_CAPACITY, r);
    var p, h := Run(Start(true), steps), DISPATCH_CAPACITY;
    var more := [Arrive(r), BackendAnswers(h, true), GiveUp(h)];
    RunAppend(Start(true), steps, more);
    ThreeSteps(p, Arrive(r), BackendAnswers(h, true), GiveUp(h));
    LastGivesUp(p, r);
    steps := steps + more;
  }

  lemma {:induction false} LastGivesUp(p: Pipe, r: Request)
    requires p.configured && Prepare(r).Success? && |p.queue| == DISPATCH_CAPACITY
    ensures var h := |p.handlers|;
            var q := Next(Next(Next(p, Arrive(r)), BackendAnswers(h, true)), GiveUp(h));
            && q.queue == p.queue && |q.handlers| == h + 1
            && Answer(q, h) == Some(Failure(EventDispatch)) && Sent(h, true) in q.trace
  {
    hide Prepare;
    var h := |p.handlers|;
    var q := Next(Next(p, Arrive(r)), BackendAnswers(h, true));
    assert q.trace[|p.trace|] == Sent(h, true);
  }

  // ---------------------------------------------------------------- the object's calls as runs

  /** Emitting alone with the dispatcher is a run of the steps. */
  lemma {:induction false} EmitIsARun(p: Pipe, h: nat, takes: nat) returns (steps: seq<Step>)
    requires IsAt(p, h, false) && |p.queue| <= DISPATCH_CAPACITY
    ensures var q := Run(p, steps);
            && |q.handlers| == |p.handlers|
            && Answer(q, h).Some? && (q.queue, q.taken, Answer(q, h).value) == EmitSpec(p.queue, p.taken, h, takes)
  {
    if |p.queue| < DISPATCH_CAPACITY {
      steps := [Enqueue(h)];
      OneStep(p, Enqueue(h));
    } else if takes == 0 {
      steps := [GiveUp(h)];
      OneStep(p, GiveUp(h));
    } else {
      steps := [Dispatch] + [Enqueue(h)];
      RunAppend(p, [Dispatch], [Enqueue(h)]);
      OneStep(p, Dispatch);
      OneStep(Next(p, Dispatch), Enqueue(h));
    }
    hide Run;
  }

  lemma {:induction false} OneStep(p: Pipe, a: Step)
    ensures Run(p, [a]) == Next(p, a)
  {
    hide Next;
    assert [a][1..] == [];
    assert Run(p, [a]) == Run(Next(p, a), []);
  }

  function Dispatches(n: nat): seq<Step> {
    seq(n, _ => Dispatch)
  }

  /** The dispatcher alone is a run of the steps that empties the queue in order. */
  lemma {:induction false} DispatchAllIsARun(p: Pipe)
    ensures var q := Run(p, Dispatches(|p.queue|));
            q.queue == [] && q.taken == p.taken + p.queue && q.handlers == p.handlers && q.trace == p.trace
    decreases |p.queue|
  {
    if p.queue != [] {
      var q := Next(p, Dispatch);
      DispatchAllIsARun(q);
      assert Dispatches(|p.queue|)[1..] == Dispatches(|q.queue|);
      assert q.taken + q.queue == p.taken + p.queue;
    }
  }

  /** Every message that reaches the backend or the event bus has been normalised by its route. */
  lemma {:induction false} OnlyNormalMessages(configured: bool, steps: seq<Step>, i: nat)
    ensures var p := Run(Start(configured), steps);
            i < |p.trace| ==>
              && p.trace[i].handler < |p.handlers|
              && var made := Prepare(p.handlers[p.trace[i].handler].request);
                 made.Success? && IsNormal(made.value)
  {
    Reachable(configured, steps);
    var p := Run(Start(configured), steps);
    if i < |p.trace| {
      assert ActOk(p, i);
      var h := p.trace[i].handler;
      assert HandlerOk(p, h);
      assert !p.handlers[h].pc.Invalid?;
      EveryRouteNormalizes(p.handlers[h].request);
    }
    hide Prepare, IsNormal, QueuedOf;
  }
}
