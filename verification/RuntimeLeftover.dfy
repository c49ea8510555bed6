/** What can still be in the task map of a stopped runtime, and which tasks a shutdown's broadcast reaches. */
module RuntimeLeftover {
  import opened RuntimeSteps
  import opened RuntimeLaws

  // ---------------------------------------------------------------- all runs

  predicate Past(w: World) {
    w.log.lastMark < w.log.clock && w.log.lastDrain < w.log.clock
  }

  /** A registered task is in the map exactly when it was inserted after the last drain. */
  predicate LastDrainDecides(w: World) {
    forall t | t in w.calls && w.calls[t].Registered? ::
      w.calls[t].times.inserted < w.log.clock && (InTasks(w, t) <==> w.log.lastDrain < w.calls[t].times.inserted)
  }

  lemma {:induction false} LastDrainStep(w: World, s: Step)
    requires Past(w) && Mapped(w) && LastDrainDecides(w) && Enabled(w, s)
    ensures LastDrainDecides(Next(w, s)) && Past(Next(w, s))
  {
    if s.Check? || s.Subscribe? || s.Spawn? || s.Insert? {
      hide MarkNext, LookNext, SendNext, DrainNext, JoinNext, SettleNext;
    } else {
      hide CheckNext, SubscribeNext, SpawnNext, InsertNext;
    }
  }

  function SubscribedAt(call: Call): nat
    requires HasSubscribed(call)
  {
    if call.Registered? then call.times.subscribed else call.subscribed
  }

  predicate HasSignal(call: Call) {
    call.Signalled? || call.Joining? || call.Finished? || call.JoinBroken?
  }

  predicate Subscriptions(w: World) {
    forall t | t in w.calls && HasSubscribed(w.calls[t]) ::
      SubscribedAt(w.calls[t]) < w.log.clock && (t in w.receivers || t in w.log.gone)
  }

  /** Whose receiver is gone subscribed once and never will again. */
  predicate Departures(w: World) {
    forall t | t in w.log.gone ::
      t in w.calls && HasSubscribed(w.calls[t]) && t !in w.receivers && w.log.gone[t] < w.log.clock
  }

  predicate SignalOk(call: Call, clock: nat) {
    && (call.Marked? || call.Signalling? ==> call.marked < clock)
    && (HasSignal(call) ==> call.signal.marked < call.signal.signalled < clock)
  }

  predicate SignalsOrdered(w: World) {
    forall d | d in w.calls :: SignalOk(w.calls[d], w.log.clock)
  }

  predicate Reaches(w: World, signal: Signal, t: Id) {
    t in signal.heard || (t in w.log.gone && w.log.gone[t] < signal.signalled)
  }

  /** Whoever subscribed before a broadcast was decided is among its receivers, or had dropped its own by then. */
  predicate Broadcasts(w: World) {
    forall d, t | d in w.calls && HasSignal(w.calls[d]) && t in w.calls && HasSubscribed(w.calls[t]) ::
      SubscribedAt(w.calls[t]) < w.calls[d].signal.signalled ==> Reaches(w, w.calls[d].signal, t)
  }

  /** A call that has subscribed afterwards had done so before, or did so just now. */
  lemma {:induction false} SubscribedMove(w: World, s: Step, t: Id)
    requires Enabled(w, s) && t in Next(w, s).calls && HasSubscribed(Next(w, s).calls[t])
    ensures var x := Next(w, s).calls[t];
            || (t in w.calls && HasSubscribed(w.calls[t]) && SubscribedAt(w.calls[t]) == SubscribedAt(x))
            || (SubscribedAt(x) == w.log.clock && t in Next(w, s).receivers)
  {
  }

  /** A receiver stays until it is dropped, and that is remembered. */
  lemma {:induction false} ReceiverMove(w: World, s: Step, t: Id)
    requires Enabled(w, s)
    ensures var v := Next(w, s);
            && v.log.clock == w.log.clock + 1
            && (t in w.receivers ==> t in v.receivers || (t in v.log.gone && v.log.gone[t] == w.log.clock))
            && (t in w.log.gone && t !in w.receivers ==> t in v.log.gone && v.log.gone[t] == w.log.gone[t])
  {
  }

  /** A signal seen afterwards was there before, or was decided just now and reaches the receivers of this moment. */
  lemma {:induction false} SignalMove(w: World, s: Step, d: Id)
    requires Enabled(w, s) && d in Next(w, s).calls && HasSignal(Next(w, s).calls[d])
    ensures var x := Next(w, s).calls[d];
            || (d in w.calls && HasSignal(w.calls[d]) && w.calls[d].signal == x.signal)
            || (x.signal.signalled == w.log.clock && x.signal.heard == w.receivers)
  {
  }

  lemma {:induction false} SubscriptionsStep(w: World, s: Step)
    requires Subscriptions(w) && Departures(w) && Enabled(w, s)
    ensures Subscriptions(Next(w, s))
  {
    hide Next, Enabled;
    var v := Next(w, s);
    forall t | t in v.calls && HasSubscribed(v.calls[t])
      ensures SubscribedAt(v.calls[t]) < v.log.clock && (t in v.receivers || t in v.log.gone)
    {
      SubscribedMove(w, s, t);
      ReceiverMove(w, s, t);
    }
  }

  lemma {:induction false} DeparturesStep(w: World, s: Step)
    requires Departures(w) && Enabled(w, s)
    ensures Departures(Next(w, s))
  {
  }

  lemma {:induction false} SignalStepAt(w: World, s: Step, d: Id)
    requires SignalsOrdered(w) && Enabled(w, s) && d in Next(w, s).calls
    ensures SignalOk(Next(w, s).calls[d], Next(w, s).log.clock)
  {
    assert d in w.calls ==> SignalOk(w.calls[d], w.log.clock);
  }

  lemma {:induction false} SignalsStep(w: World, s: Step)
    requires SignalsOrdered(w) && Enabled(w, s)
    ensures SignalsOrdered(Next(w, s))
  {
    hide Next, SignalOk;
    forall d | d in Next(w, s).calls ensures SignalOk(Next(w, s).calls[d], Next(w, s).log.clock) {
      SignalStepAt(w, s, d);
    }
  }

  lemma {:induction false} BroadcastStepAt(w: World, s: Step, d: Id, t: Id)
    requires Subscriptions(w) && Departures(w) && SignalsOrdered(w) && Broadcasts(w) && Enabled(w, s)
    requires var v := Next(w, s); d in v.calls && HasSignal(v.calls[d]) && t in v.calls && HasSubscribed(v.calls[t])
    ensures var v := Next(w, s);
            SubscribedAt(v.calls[t]) < v.calls[d].signal.signalled ==> Reaches(v, v.calls[d].signal, t)
  {
    hide Next, Enabled;
    assert d in w.calls ==> SignalOk(w.calls[d], w.log.clock);
    SubscribedMove(w, s, t);
    ReceiverMove(w, s, t);
    SignalMove(w, s, d);
  }

  lemma {:induction false} BroadcastsStep(w: World, s: Step)
    requires Subscriptions(w) && Departures(w) && SignalsOrdered(w) && Broadcasts(w) && Enabled(w, s)
    ensures Broadcasts(Next(w, s))
  {
    hide Next, Enabled, Subscriptions, Departures, SignalsOrdered, Reaches;
    var v := Next(w, s);
    forall d, t | d in v.calls && HasSignal(v.calls[d]) && t in v.calls && HasSubscribed(v.calls[t])
      ensures SubscribedAt(v.calls[t]) < v.calls[d].signal.signalled ==> Reaches(v, v.calls[d].signal, t)
    {
      BroadcastStepAt(w, s, d, t);
    }
  }

  predicate Timed(w: World) {
    Past(w) && LastDrainDecides(w) && Subscriptions(w) && Departures(w) && SignalsOrdered(w) && Broadcasts(w)
  }

  // ---------------------------------------------------------------- one shutdown at a time

  predicate IsStopping(w: World) {
    w.phase == Stopping || w.phase == Stopped
  }

  predicate HasChecked(call: Call) {
    call.Checked? || call.Subscribed? || call.Spawned? || call.Registered?
  }

  function CheckedAt(call: Call): nat
    requires HasChecked(call)
  {
    if call.Registered? then call.times.checked else call.checked
  }

  function MarkedAt(call: Call): nat
    requires ShutsDown(call)
  {
    if call.Marked? || call.Signalling? then call.marked else call.signal.marked
  }

  predicate NoShutdown(w: World) {
    forall c | c in w.calls :: !ShutsDown(w.calls[c])
  }

  predicate Single(w: World) {
    && (forall c, d | c in w.calls && d in w.calls && ShutsDown(w.calls[c]) && ShutsDown(w.calls[d]) :: c == d)
    && (forall c | c in w.calls && ShutsDown(w.calls[c]) ::
          w.phase == Stopping && MarkedAt(w.calls[c]) == w.log.lastMark)
  }

  predicate DrainsLate(w: World) {
    && (forall c | c in w.calls && w.calls[c].Joining? :: w.log.lastMark < w.log.lastDrain)
    && (w.phase == Stopped ==> w.log.lastMark < w.log.lastDrain)
  }

  predicate CheckOk(w: World, call: Call) {
    HasChecked(call) ==> CheckedAt(call) < w.log.clock && (IsStopping(w) ==> CheckedAt(call) < w.log.lastMark)
  }

  predicate ChecksBefore(w: World) {
    forall t | t in w.calls :: CheckOk(w, w.calls[t])
  }

  lemma {:induction false} SingleStepAt(w: World, s: Step, c: Id)
    requires Single(w) && Enabled(w, s) && (s.Mark? ==> NoShutdown(w))
    requires var v := Next(w, s); c in v.calls && ShutsDown(v.calls[c])
    ensures var v := Next(w, s); v.phase == Stopping && MarkedAt(v.calls[c]) == v.log.lastMark
  {
  }

  lemma {:induction false} SinglePairStep(w: World, s: Step, c: Id, d: Id)
    requires Single(w) && Enabled(w, s) && (s.Mark? ==> NoShutdown(w))
    requires var v := Next(w, s); c in v.calls && ShutsDown(v.calls[c]) && d in v.calls && ShutsDown(v.calls[d])
    ensures c == d
  {
  }

  lemma {:induction false} SingleStep(w: World, s: Step)
    requires Past(w) && Single(w) && Enabled(w, s) && (s.Mark? ==> NoShutdown(w))
    ensures Single(Next(w, s))
  {
    hide Next, Enabled, NoShutdown, Past, MarkedAt, ShutsDown;
    var v := Next(w, s);
    forall c | c in v.calls && ShutsDown(v.calls[c])
      ensures v.phase == Stopping && MarkedAt(v.calls[c]) == v.log.lastMark
    {
      SingleStepAt(w, s, c);
    }
    forall c, d | c in v.calls && d in v.calls && ShutsDown(v.calls[c]) && ShutsDown(v.calls[d]) ensures c == d {
      SinglePairStep(w, s, c, d);
    }
  }

  lemma {:induction false} DrainsLateStep(w: World, s: Step)
    requires Past(w) && Single(w) && DrainsLate(w) && Enabled(w, s) && (s.Mark? ==> NoShutdown(w))
    ensures DrainsLate(Next(w, s))
  {
  }

  /** A call whose check lies behind it had passed it before, or passes it just now in state Running. */
  lemma {:induction false} CheckedMove(w: World, s: Step, t: Id)
    requires Enabled(w, s) && t in Next(w, s).calls && HasChecked(Next(w, s).calls[t])
    ensures var x := Next(w, s).calls[t];
            || (t in w.calls && HasChecked(w.calls[t]) && CheckedAt(w.calls[t]) == CheckedAt(x))
            || (CheckedAt(x) == w.log.clock && !IsStopping(w) && Next(w, s).phase == w.phase)
  {
  }

  /** The last mark and the phase move together. */
  lemma {:induction false} PhaseMove(w: World, s: Step)
    requires Single(w) && Enabled(w, s)
    ensures var v := Next(w, s);
            && v.log.clock == w.log.clock + 1
            && (IsStopping(v) ==> (IsStopping(w) && v.log.lastMark == w.log.lastMark) || v.log.lastMark == w.log.clock)
  {
    if s.Settle? { assert ShutsDown(w.calls[s.c]); }
  }

  lemma {:induction false} CheckStepAt(w: World, s: Step, t: Id)
    requires Single(w) && ChecksBefore(w) && Enabled(w, s) && t in Next(w, s).calls
    ensures CheckOk(Next(w, s), Next(w, s).calls[t])
  {
    hide Next, Enabled, Single;
    assert t in w.calls ==> CheckOk(w, w.calls[t]);
    if HasChecked(Next(w, s).calls[t]) { CheckedMove(w, s, t); }
    PhaseMove(w, s);
  }

  lemma {:induction false} ChecksStep(w: World, s: Step)
    requires Single(w) && ChecksBefore(w) && Enabled(w, s)
    ensures ChecksBefore(Next(w, s))
  {
    hide Next, Enabled, CheckOk, Single;
    forall t | t in Next(w, s).calls ensures CheckOk(Next(w, s), Next(w, s).calls[t]) { CheckStepAt(w, s, t); }
  }

  // ---------------------------------------------------------------- no registration across a shutdown

  predicate NoRegistration(w: World) {
    forall c | c in w.calls :: !Registers(w.calls[c])
  }

  predicate Clean(w: World) {
    && (IsStopping(w) ==> NoRegistration(w))
    && (IsStopping(w) ==> forall t | t in w.calls && w.calls[t].Registered? ::
          w.calls[t].times.subscribed < w.log.lastMark)
    && ((w.phase == Stopped || exists c :: c in w.calls && w.calls[c].Joining?) ==> w.tasks == map[])
  }

  predicate DrainedInTime(w: World) {
    forall d | d in w.log.drained ::
      d in w.calls && HasSignal(w.calls[d])
      && forall t | t in w.log.drained[d] ::
           t in w.calls && w.calls[t].Registered? && w.calls[t].times.subscribed < w.calls[d].signal.marked
  }

  lemma {:induction false} CleanStep(w: World, s: Step)
    requires Single(w) && Subscriptions(w) && Clean(w) && Enabled(w, s)
    requires s.Mark? ==> NoShutdown(w) && NoRegistration(w)
    ensures Clean(Next(w, s))
  {
  }

  lemma {:induction false} DrainInTime(w: World, c: Id)
    requires Placed(w) && Single(w) && Clean(w) && DrainedInTime(w) && c in w.calls && w.calls[c].Signalled?
    requires c !in w.log.drained
    ensures DrainedInTime(DrainNext(w, c))
  {
    forall t ensures t in w.tasks.Values <==> t in w.calls && w.calls[t].Registered? && InTasks(w, t) {
      TaskValues(w, t);
    }
    assert MarkedAt(w.calls[c]) == w.log.lastMark;
  }

  /** Registered calls and signals stay as they are. */
  lemma {:induction false} QuietMove(w: World, s: Step, c: Id)
    requires Enabled(w, s) && !s.Drain? && c in w.calls
    ensures var v := Next(w, s);
            && c in v.calls
            && (w.calls[c].Registered? ==> v.calls[c] == w.calls[c])
            && (HasSignal(w.calls[c]) ==> HasSignal(v.calls[c]) && v.calls[c].signal == w.calls[c].signal)
  {
    hide DrainNext;
  }

  lemma {:induction false} DrainedStays(w: World, s: Step)
    requires Enabled(w, s) && !s.Drain?
    ensures Next(w, s).log.drained == w.log.drained
  {
    hide DrainNext;
  }

  lemma {:induction false} QuietInTime(w: World, s: Step)
    requires DrainedInTime(w) && Enabled(w, s) && !s.Drain?
    ensures DrainedInTime(Next(w, s))
  {
    hide Next, Enabled;
    forall c | c in w.calls
      ensures var v := Next(w, s);
              && c in v.calls
              && (w.calls[c].Registered? ==> v.calls[c] == w.calls[c])
              && (HasSignal(w.calls[c]) ==> HasSignal(v.calls[c]) && v.calls[c].signal == w.calls[c].signal)
    {
      QuietMove(w, s, c);
    }
    DrainedStays(w, s);
  }

  lemma {:induction false} DrainedInTimeStep(w: World, s: Step)
    requires Conserved(w) && Single(w) && Clean(w) && DrainedInTime(w) && Enabled(w, s)
    ensures DrainedInTime(Next(w, s))
  {
    hide Single, Clean, CheckNext, MarkNext, SubscribeNext, SpawnNext, LookNext, SendNext, InsertNext, JoinNext,
    SettleNext;
    if s.Drain? {
      DrainInTime(w, s.c);
      TickInTime(DrainNext(w, s.c), Next(w, s));
    } else {
      QuietInTime(w, s);
    }
  }

  lemma {:induction false} TickInTime(w: World, v: World)
    requires DrainedInTime(w) && v == w.(log := w.log.(clock := v.log.clock))
    ensures DrainedInTime(v)
  {
  }

  // ---------------------------------------------------------------- runs

  lemma {:induction false} RunTimed(steps: seq<Step>)
    requires Legal(steps)
    ensures Timed(End(steps))
    decreases |steps|
  {
    hide Conserved, Next, Enabled, Past, LastDrainDecides, Subscriptions, Departures, SignalsOrdered, Broadcasts;
    if steps == [] {
      InitTimed();
    } else {
      var w, s := End(steps[..|steps| - 1]), steps[|steps| - 1];
      RunTimed(steps[..|steps| - 1]);
      RunConserves(steps[..|steps| - 1]);
      ConservedMaps(w);
      LastDrainStep(w, s);
      SubscriptionsStep(w, s);
      DeparturesStep(w, s);
      SignalsStep(w, s);
      BroadcastsStep(w, s);
    }
  }

  lemma {:induction false} ConservedMaps(w: World)
    requires Conserved(w)
    ensures Mapped(w) && Placed(w)
  {
  }

  lemma {:induction false} InitTimed()
    ensures Timed(Init) && Single(Init) && DrainsLate(Init) && ChecksBefore(Init) && Clean(Init) && DrainedInTime(Init)
  {
  }

  lemma {:induction false} RunSingle(steps: seq<Step>)
    requires Legal(steps) && OneShutdown(steps)
    ensures Single(End(steps)) && DrainsLate(End(steps)) && ChecksBefore(End(steps))
    decreases |steps|
  {
    hide Next, Enabled, Single, DrainsLate, ChecksBefore, Past;
    InitTimed();
    if steps != [] {
      var w, s := End(steps[..|steps| - 1]), steps[|steps| - 1];
      RunSingle(steps[..|steps| - 1]);
      RunTimed(steps[..|steps| - 1]);
      SingleStep(w, s);
      DrainsLateStep(w, s);
      ChecksStep(w, s);
    }
  }

  lemma {:induction false} RunClean(steps: seq<Step>)
    requires Legal(steps) && OneShutdown(steps) && NoCrossing(steps)
    ensures Clean(End(steps)) && DrainedInTime(End(steps))
    decreases |steps|
  {
    hide Next, Enabled, Single, DrainsLate, ChecksBefore, Past, Clean, DrainedInTime, Subscriptions, Conserved;
    InitTimed();
    if steps != [] {
      var w, s := End(steps[..|steps| - 1]), steps[|steps| - 1];
      RunClean(steps[..|steps| - 1]);
      RunSingle(steps[..|steps| - 1]);
      RunTimed(steps[..|steps| - 1]);
      RunConserves(steps[..|steps| - 1]);
      CleanStep(w, s);
      DrainedInTimeStep(w, s);
    }
  }

  /** Exact leftovers: when shutdowns do not overlap, a stopped runtime still holds exactly those tasks whose
      registration crossed the last shutdown, from before its write of `Stopping` to after its drain. */
  lemma {:induction false} LeftoversCrossed(steps: seq<Step>, t: Id)
    requires Legal(steps) && OneShutdown(steps) && End(steps).phase == Stopped
    requires t in End(steps).calls && End(steps).calls[t].Registered?
    ensures var w, times := End(steps), End(steps).calls[t].times;
            InTasks(w, t) <==> times.checked < w.log.lastMark < w.log.lastDrain < times.inserted
  {
    hide Legal, End, OneShutdown;
    RunTimed(steps);
    RunSingle(steps);
  }

  /** Without crossing registrations and overlapping shutdowns, a stopped runtime holds nothing. */
  lemma {:induction false} StoppedIsEmpty(steps: seq<Step>)
    requires Legal(steps) && OneShutdown(steps) && NoCrossing(steps)
    ensures End(steps).phase == Stopped ==> End(steps).tasks == map[]
  {
    hide Legal, End, OneShutdown, NoCrossing;
    RunClean(steps);
  }

  /** Under the same hypotheses every drained task subscribed before the broadcast and was among its receivers,
      unless it had dropped its own receiver before the broadcast was decided. */
  lemma {:induction false} DrainedWereSignalled(steps: seq<Step>, d: Id, t: Id)
    requires Legal(steps) && OneShutdown(steps) && NoCrossing(steps)
    requires d in End(steps).log.drained && t in End(steps).log.drained[d]
    ensures var w := End(steps);
            && d in w.calls && HasSignal(w.calls[d]) && t in w.calls && w.calls[t].Registered?
            && w.calls[t].times.subscribed < w.calls[d].signal.signalled
            && Reaches(w, w.calls[d].signal, t)
  {
    hide Legal, End, OneShutdown, NoCrossing;
    RunClean(steps);
    RunTimed(steps);
  }

  /** Exact leftovers in every run: a registered task is in the map exactly when it was inserted after the last
      drain, and a drained task that neither was a receiver of its shutdown's broadcast nor had left before it
      subscribed later. */
  lemma {:induction false} LeftoversAreLate(steps: seq<Step>, t: Id)
    requires Legal(steps) && t in End(steps).calls && End(steps).calls[t].Registered?
    ensures var w := End(steps);
            && (InTasks(w, t) <==> w.log.lastDrain < w.calls[t].times.inserted)
            && (InTasks(w, t) <==> t !in w.log.drainedBy)
            && (t in w.log.drainedBy ==>
                  var d := w.log.drainedBy[t];
                  d in w.calls && HasSignal(w.calls[d])
                  && (!Reaches(w, w.calls[d].signal, t) ==> w.calls[d].signal.signalled <= w.calls[t].times.subscribed))
  {
    hide Legal, End;
    RunTimed(steps);
    RunConserves(steps);
  }

  /** Hence, without overlap, a stopped runtime is empty exactly when no registration crossed the last shutdown. */
  lemma {:induction false} EmptyIffNothingCrossed(steps: seq<Step>)
    requires Legal(steps) && OneShutdown(steps) && End(steps).phase == Stopped
    ensures var w := End(steps);
            w.tasks == map[] <==>
            forall t | t in w.calls && w.calls[t].Registered? ::
              !(w.calls[t].times.checked < w.log.lastMark && w.log.lastDrain < w.calls[t].times.inserted)
  {
    hide Legal, End, OneShutdown;
    var w := End(steps);
    RunTimed(steps);
    RunSingle(steps);
    RunConserves(steps);
    if w.tasks != map[] {
      var n :| n in w.tasks;
      var t := w.tasks[n];
      assert InTasks(w, t);
    }
  }

  // ---------------------------------------------------------------- runs that leave tasks behind

  lemma {:induction false} Extend(steps: seq<Step>, s: Step)
    requires Legal(steps) && Enabled(End(steps), s)
    ensures Legal(steps + [s]) && End(steps + [s]) == Next(End(steps), s)
    ensures OneShutdown(steps) && (s.Mark? ==> NoShutdown(End(steps))) ==> OneShutdown(steps + [s])
    ensures NoCrossing(steps) && (s.Mark? ==> NoRegistration(End(steps))) ==> NoCrossing(steps + [s])
  {
    hide Next, Enabled;
    assert (steps + [s])[..|steps|] == steps;
  }

  /** A run, as far as the steps that follow depend on it. */
  ghost predicate Reached(steps: seq<Step>, phase: Phase, tasks: map<string, Id>, receivers: set<Id>, calls: map<Id,
                          Call>, clock: nat) {
    && Legal(steps)
    && (var w := End(steps);
        w.phase == phase && w.tasks == tasks && w.receivers == receivers && w.calls == calls && w.log.clock == clock)
  }

  lemma {:induction false} Begin() returns (steps: seq<Step>)
    ensures Reached(steps, Running, map[], {}, map[], 2) && OneShutdown(steps) && NoCrossing(steps)
  {
    assert Legal([]) && End([]) == Init;
    Extend([], Start);
    steps := [] + [Start];
  }

  /** A registration by call `c` of a free name, from the check on. */
  lemma {:induction false} RegisterSteps(before: seq<Step>, c: Id, name: string, checked: nat, calls: map<Id, Call>,
                                         phase: Phase, clock: nat)
    returns (steps: seq<Step>)
    requires Reached(before, phase, map[], {}, calls, clock) && c in calls && calls[c] == Checked(name, checked)
    ensures Reached(steps, phase, map[name := c], {c},
              calls[c := Registered(name, Times(checked, clock, clock + 2))], clock + 3)
    ensures OneShutdown(before) ==> OneShutdown(steps)
    ensures NoCrossing(before) ==> NoCrossing(steps)
  {
    hide Legal, End, OneShutdown, NoCrossing, DrainNext, JoinNext, SettleNext, MarkNext, LookNext, SendNext, CheckNext;
    var w := End(before);
    Extend(before, Subscribe(c));
    steps := before + [Subscribe(c)];
    Extend(steps, Spawn(c));
    steps := steps + [Spawn(c)];
    Extend(steps, Insert(c));
    steps := steps + [Insert(c)];
    assert End(steps).calls == calls[c := Registered(name, Times(checked, clock, clock + 2))];
  }

  /** From its mark on, a shutdown that finds no receiver and no task. */
  lemma {:induction false} IdleShutdown(before: seq<Step>, c: Id, calls: map<Id, Call>, marked: nat, clock: nat)
    returns (steps: seq<Step>)
    requires Reached(before, Stopping, map[], {}, calls, clock) && c in calls && calls[c] == Marked(marked)
    ensures Reached(steps, Stopping, map[], {}, calls[c := Joining(Signal(marked, clock, {}), {}, {}, 0)], clock + 2)
    ensures OneShutdown(before) ==> OneShutdown(steps)
    ensures NoCrossing(before) ==> NoCrossing(steps)
  {
    hide Legal, End, OneShutdown, NoCrossing, InsertNext, JoinNext, SettleNext, MarkNext, SendNext, CheckNext,
    SubscribeNext, SpawnNext;
    Extend(before, Look(c));
    steps := before + [Look(c)];
    var w := End(steps);
    assert w.tasks.Values == {};
    Extend(steps, Drain(c));
    steps := steps + [Drain(c)];
    assert End(steps).calls == calls[c := Joining(Signal(marked, clock, {}), {}, {}, 0)];
  }

  lemma {:induction false} MarkRun(before: seq<Step>, c: Id, phase: Phase, calls: map<Id, Call>, clock: nat)
    returns (steps: seq<Step>)
    requires Reached(before, phase, map[], {}, calls, clock) && c !in calls && (phase == Running || phase == Stopping)
    ensures Reached(steps, Stopping, map[], {}, calls[c := Marked(clock)], clock + 1)
    ensures OneShutdown(before) && NoShutdown(End(before)) ==> OneShutdown(steps)
    ensures NoCrossing(before) && NoRegistration(End(before)) ==> NoCrossing(steps)
  {
    hide Legal, End, OneShutdown, NoCrossing, NoShutdown, NoRegistration;
    Extend(before, Mark(c));
    steps := before + [Mark(c)];
  }

  lemma {:induction false} SettleRun(before: seq<Step>, c: Id, signal: Signal, tasks: map<string, Id>,
                                     receivers: set<Id>, phase: Phase,
                  calls: map<Id, Call>, clock: nat) returns (steps: seq<Step>)
    requires Reached(before, phase, tasks, receivers, calls, clock)
    requires c in calls && calls[c] == Joining(signal, {}, {}, 0)
    ensures Reached(steps, Stopped, tasks, receivers, calls[c := Finished(signal, 0)], clock + 1)
    ensures OneShutdown(before) ==> OneShutdown(steps)
    ensures NoCrossing(before) ==> NoCrossing(steps)
  {
    hide Legal, End, OneShutdown, NoCrossing;
    Extend(before, Settle(c));
    steps := before + [Settle(c)];
  }

  /** One shutdown and one registration that crosses it: the runtime is stopped and still holds the task. */
  lemma {:induction false} CrossingLeavesTask() returns (steps: seq<Step>)
    ensures Legal(steps) && OneShutdown(steps)
    ensures End(steps).phase == Stopped && End(steps).tasks == map["echo" := 0]
  {
    hide Legal, End, OneShutdown, NoCrossing, Next;
    steps := Begin();
    steps := CheckRun(steps, 0, map[], 2);
    var calls := map[0 := Checked("echo", 2)];
    steps := MarkRun(steps, 1, Running, calls, 3);
    calls := calls[1 := Marked(3)];
    steps := IdleShutdown(steps, 1, calls, 3, 4);
    calls := calls[1 := Joining(Signal(3, 4, {}), {}, {}, 0)];
    steps := SettleRun(steps, 1, Signal(3, 4, {}), map[], {}, Stopping, calls, 6);
    calls := calls[1 := Finished(Signal(3, 4, {}), 0)];
    steps := RegisterSteps(steps, 0, "echo", 2, calls, Stopped, 7);
  }

  lemma {:induction false} CheckRun(before: seq<Step>, c: Id, calls: map<Id, Call>, clock: nat)
    returns (steps: seq<Step>)
    requires Reached(before, Running, map[], {}, calls, clock) && c !in calls
    ensures Reached(steps, Running, map[], {}, calls[c := Checked("echo", clock)], clock + 1)
    ensures OneShutdown(before) ==> OneShutdown(steps)
    ensures NoCrossing(before) ==> NoCrossing(steps)
  {
    hide Legal, End, OneShutdown, NoCrossing;
    Extend(before, Check(c, "echo"));
    steps := before + [Check(c, "echo")];
  }

  /** Two overlapping shutdowns with a restart between them leave a task behind though no registration
      crosses either. */
  lemma {:induction false} OverlapLeavesTask() returns (steps: seq<Step>)
    ensures Legal(steps) && NoCrossing(steps)
    ensures End(steps).phase == Stopped && End(steps).tasks == map["echo" := 3]
  {
    hide Legal, End, OneShutdown, NoCrossing, Next;
    steps := Begin();
    steps := MarkRun(steps, 1, Running, map[], 2);
    steps := MarkRun(steps, 2, Stopping, map[1 := Marked(2)], 3);
    var calls := map[1 := Marked(2), 2 := Marked(3)];
    steps := IdleShutdown(steps, 1, calls, 2, 4);
    calls := calls[1 := Joining(Signal(2, 4, {}), {}, {}, 0)];
    steps := IdleShutdown(steps, 2, calls, 3, 6);
    calls := calls[2 := Joining(Signal(3, 6, {}), {}, {}, 0)];
    steps := RestartAndRegister(steps, calls);
    calls := calls[1 := Finished(Signal(2, 4, {}), 0)][3 := Registered("echo", Times(10, 11, 13))];
    steps := SettleRun(steps, 2, Signal(3, 6, {}), map["echo" := 3], {3}, Running, calls, 14);
  }

  /** The first of two joining shutdowns settles, the runtime restarts, and a task is registered. */
  lemma {:induction false} RestartAndRegister(before: seq<Step>, calls: map<Id, Call>) returns (steps: seq<Step>)
    requires Reached(before, Stopping, map[], {}, calls, 8) && NoCrossing(before) && 3 !in calls
    requires 1 in calls && calls[1] == Joining(Signal(2, 4, {}), {}, {}, 0)
    ensures Reached(steps, Running, map["echo" := 3], {3},
              calls[1 := Finished(Signal(2, 4, {}), 0)][3 := Registered("echo", Times(10, 11, 13))], 14)
    ensures NoCrossing(steps)
  {
    hide Legal, End, OneShutdown, NoCrossing;
    steps := SettleRun(before, 1, Signal(2, 4, {}), map[], {}, Stopping, calls, 8);
    var more := calls[1 := Finished(Signal(2, 4, {}), 0)];
    Extend(steps, Start);
    steps := steps + [Start];
    steps := CheckRun(steps, 3, more, 10);
    steps := RegisterSteps(steps, 3, "echo", 10, more[3 := Checked("echo", 10)], Running, 11);
    assert more[3 := Checked("echo", 10)][3 := Registered("echo", Times(10, 11, 13))]
           == more[3 := Registered("echo", Times(10, 11, 13))];
  }
}
