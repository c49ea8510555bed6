/** The runtime as one caller sees it: an object whose calls run to completion, and why each such call
    is a run of the steps. */
module RuntimeObject {
  import opened RuntimeSteps
  import opened RuntimeLaws
  import opened RuntimeLeftover

  datatype RegisterResult = Accepted | NotRunning | NameTaken

  datatype ShutdownResult = Count(n: nat) | InvalidState | NoReceiver | JoinError

  function FirstFailure(joins: seq<Outcome>): (i: nat)
    ensures i <= |joins| && (forall k | 0 <= k < i :: joins[k] == JoinedOk) && (i < |joins| ==> joins[i] != JoinedOk)
  {
    if joins == [] || joins[0] != JoinedOk then 0 else 1 + FirstFailure(joins[1..])
  }

  /** The runtime's fields: `receivers` are the tasks whose shutdown receiver is alive, `told` those that were sent
      the signal, `detached` those that run without a handle. */
  datatype Fields = Fields(phase: Phase, tasks: map<string, Id>, receivers: set<Id>, told: set<Id>, detached: set<Id>)

  function RegisterSpec(f: Fields, name: string, task: Id): (Fields, RegisterResult) {
    if f.phase != Running then (f, NotRunning)
    else if name in f.tasks then (f.(receivers := f.receivers + {task}, detached := f.detached + {task}), NameTaken)
    else (f.(receivers := f.receivers + {task}, tasks := f.tasks[name := task]), Accepted)
  }

  /** `shutdown` alone: `gone` drop their receivers before the count is looked at, `late` between the look and the
      send; the joins are in order of completion. */
  function ShutdownSpec(f: Fields, gone: set<Id>, late: set<Id>, joins: seq<Outcome>): (Fields, ShutdownResult) {
    if f.phase == Stopped then (f, Count(0))
    else if f.phase == Initialized then (f, InvalidState)
    else
      var left := f.receivers - gone;
      var there := if left == {} then {} else left - late;
      if left != {} && there == {} then (f.(phase := Stopping, receivers := {}), NoReceiver)
      else
        var g := f.(receivers := there, told := f.told + there, tasks := map[]);
        if FirstFailure(joins) < |joins| then (g.(phase := Stopping), JoinError)
        else (g.(phase := Stopped), Count(|joins|))
  }

  class Runtime {
    var phase: Phase
    var tasks: map<string, Id>
    var receivers: set<Id>
    var told: set<Id>
    var detached: set<Id>

    function Value(): Fields
      reads this
    {
      Fields(phase, tasks, receivers, told, detached)
    }

    constructor ()
      ensures Value() == Fields(Initialized, map[], {}, {}, {})
    {
      phase, tasks, receivers, told, detached := Initialized, map[], {}, {}, {};
    }

    method Start() returns (ok: bool)
      modifies this`phase
      ensures ok <==> old(phase) == Initialized || old(phase) == Stopped
      ensures phase == if ok then Running else old(phase)
    {
      ok := phase == Initialized || phase == Stopped;
      if ok { phase := Running; }
    }

    /** Subscribes and spawns the task before it looks at the map; a taken name leaves the task running
        without a handle. */
    method Register(name: string, task: Id) returns (r: RegisterResult)
      modifies this
      ensures (Value(), r) == RegisterSpec(old(Value()), name, task)
    {
      if phase != Running { return NotRunning; }
      receivers := receivers + {task};
      if name in tasks {
        detached := detached + {task};
        return NameTaken;
      }
      tasks := tasks[name := task];
      r := Accepted;
    }

    /** The broadcast of a shutdown, if anyone is there when it looks. */
    method Broadcast(gone: set<Id>, late: set<Id>) returns (sent: bool)
      modifies this`receivers, this`told
      ensures var left := old(receivers) - gone;
              && receivers == (if left == {} then {} else left - late)
              && sent == (left == {} || receivers != {})
              && told == if sent then old(told) + receivers else old(told)
    {
      receivers := receivers - gone;
      if |receivers| > 0 {
        receivers := receivers - late;
        if |receivers| == 0 { return false; }
        told := told + receivers;
      }
      sent := true;
    }

    method JoinAll(joins: seq<Outcome>) returns (r: ShutdownResult)
      requires |joins| == |tasks|
      modifies this`tasks
      ensures tasks == map[]
      ensures r == if FirstFailure(joins) < |joins| then JoinError else Count(|joins|)
    {
      var drained := |tasks|;
      tasks := map[];
      var stopped := 0;
      while stopped < drained
        invariant stopped <= |joins| == drained
        invariant forall k | 0 <= k < stopped :: joins[k] == JoinedOk
      {
        if joins[stopped] != JoinedOk { return JoinError; }
        stopped := stopped + 1;
      }
      r := Count(stopped);
    }

    method Shutdown(gone: set<Id>, late: set<Id>, joins: seq<Outcome>) returns (r: ShutdownResult)
      requires |joins| == |tasks|
      modifies this
      ensures (Value(), r) == ShutdownSpec(old(Value()), gone, late, joins)
    {
      if phase == Stopped { return Count(0); }
      if phase == Initialized { return InvalidState; }
      phase := Stopping;
      var sent := Broadcast(gone, late);
      if !sent { return NoReceiver; }
      r := JoinAll(joins);
      if r.Count? { phase := Stopped; }
    }
  }

  // ---------------------------------------------------------------- calls as runs

  function ResultOf(call: Call): ShutdownResult {
    match call
    case Finished(_, n) => Count(n)
    case AlreadyStopped => Count(0)
    case SendFailed => NoReceiver
    case JoinBroken(_) => JoinError
    case _ => InvalidState
  }

  predicate Injective(tasks: map<string, Id>) {
    forall m, n | m in tasks && n in tasks && tasks[m] == tasks[n] :: m == n
  }

  lemma {:induction false} ValuesSize(tasks: map<string, Id>)
    requires Injective(tasks)
    ensures |tasks.Values| == |tasks|
    decreases |tasks|
  {
    if tasks != map[] {
      var n :| n in tasks;
      var rest := tasks - {n};
      assert rest.Keys == tasks.Keys - {n};
      ValuesSize(rest);
      forall t | t in tasks.Values ensures t == tasks[n] || t in rest.Values {
        var m :| m in tasks && tasks[m] == t;
        if m != n { assert rest[m] == t; }
      }
      forall t | t in rest.Values ensures t in tasks.Values && t != tasks[n] {
        var m :| m in rest && rest[m] == t;
        assert tasks[m] == t;
      }
      assert tasks.Values == rest.Values + {tasks[n]};
    }
  }

  /** The join phase, played to its end with the given outcomes. */
  lemma {:induction false} JoinRun(steps: seq<Step>, c: Id, joins: seq<Outcome>) returns (more: seq<Step>)
    requires Legal(steps) && c in End(steps).calls && End(steps).calls[c].Joining?
    requires |joins| == |End(steps).calls[c].pending| && End(steps).tasks == map[] && End(steps).phase == Stopping
    ensures Legal(more) && End(more).tasks == map[] && c in End(more).calls
    ensures End(more).receivers == End(steps).receivers
    ensures HasSignal(End(more).calls[c]) && End(more).calls[c].signal == End(steps).calls[c].signal
    ensures if FirstFailure(joins) < |joins| then End(more).phase == Stopping && End(more).calls[c].JoinBroken?
            else End(more).phase == Stopped && End(more).calls[c].Finished?
                 && End(more).calls[c].count == End(steps).calls[c].stopped + |joins|
    decreases |joins|
  {
    hide Legal, End, CheckNext, SubscribeNext, SpawnNext, InsertNext, MarkNext, LookNext, SendNext, DrainNext;
    if joins == [] {
      Extend(steps, Settle(c));
      more := steps + [Settle(c)];
    } else {
      var task :| task in End(steps).calls[c].pending;
      Extend(steps, Join(c, task, joins[0]));
      more := steps + [Join(c, task, joins[0])];
      if joins[0] == JoinedOk {
        more := JoinRun(more, c, joins[1..]);
      }
    }
  }

  predicate Owned(w: World) {
    forall t | t in w.receivers :: t in w.calls && HasSubscribed(w.calls[t])
  }

  lemma {:induction false} OwnedStep(w: World, s: Step)
    requires Owned(w) && Enabled(w, s)
    ensures Owned(Next(w, s))
  {
  }

  lemma {:induction false} RunOwned(steps: seq<Step>)
    requires Legal(steps)
    ensures Owned(End(steps))
    decreases |steps|
  {
    hide Next, Enabled, Owned;
    if steps == [] {
      assert Owned(Init) by { InitOwned(); }
    } else {
      RunOwned(steps[..|steps| - 1]);
      OwnedStep(End(steps[..|steps| - 1]), steps[|steps| - 1]);
    }
  }

  lemma {:induction false} InitOwned()
    ensures Owned(Init)
  {
  }

  /** Receivers can be dropped one after the other; nothing else moves. */
  lemma {:induction false} DropRun(steps: seq<Step>, gone: set<Id>) returns (more: seq<Step>)
    requires Legal(steps)
    ensures Legal(more)
    ensures var w, v := End(steps), End(more);
            v.phase == w.phase && v.tasks == w.tasks && v.calls == w.calls && v.receivers == w.receivers - gone
    decreases |gone|
  {
    hide Legal, End, CheckNext, SubscribeNext, SpawnNext, InsertNext, MarkNext, LookNext, SendNext, DrainNext,
    JoinNext, SettleNext;
    more := steps;
    if gone != {} {
      var t :| t in gone;
      if t in End(steps).receivers {
        RunOwned(steps);
        Extend(steps, DropReceiver(t));
        more := steps + [DropReceiver(t)];
      }
      more := DropRun(more, gone - {t});
    }
  }

  lemma {:induction false} SignalRun(steps: seq<Step>, c: Id, gone: set<Id>, late: set<Id>) returns (more: seq<Step>)
    requires Legal(steps) && c !in End(steps).calls && (End(steps).phase == Running || End(steps).phase == Stopping)
    ensures Legal(more) && End(more).phase == Stopping && End(more).tasks == End(steps).tasks
    ensures var left := End(steps).receivers - gone;
            var there := if left == {} then {} else left - late;
            && End(more).receivers == there
            && c in End(more).calls
            && if left != {} && there == {} then End(more).calls[c].SendFailed?
               else End(more).calls[c].Signalled? && End(more).calls[c].signal.heard == there
  {
    hide Legal, End, CheckNext, SubscribeNext, SpawnNext, InsertNext, DrainNext, JoinNext, SettleNext;
    Extend(steps, Mark(c));
    more := steps + [Mark(c)];
    more := DropRun(more, gone);
    var looked := more + [Look(c)];
    Extend(more, Look(c));
    more := looked;
    if End(more).receivers != {} {
      more := DropRun(more, late);
      Extend(more, Send(c));
      more := more + [Send(c)];
    }
  }

  /** The fields of the object that the steps know, and who was sent the signal by call `c`. */
  predicate Shows(w: World, f: Fields, told: set<Id>, c: Id) {
    && w.phase == f.phase && w.tasks == f.tasks && w.receivers == f.receivers
    && c in w.calls && (HasSignal(w.calls[c]) ==> f.told == told + w.calls[c].signal.heard)
    && (!HasSignal(w.calls[c]) ==> f.told == told)
  }

  lemma {:induction false} RefusedRun(steps: seq<Step>, c: Id) returns (more: seq<Step>)
    requires Legal(steps) && c !in End(steps).calls && (End(steps).phase == Initialized || End(steps).phase == Stopped)
    ensures Legal(more) && c in End(more).calls
    ensures var w, v := End(steps), End(more);
            && v.phase == w.phase && v.tasks == w.tasks && v.receivers == w.receivers
            && v.calls[c] == if w.phase == Stopped then AlreadyStopped else Refused
  {
    hide Legal, End;
    Extend(steps, Mark(c));
    more := steps + [Mark(c)];
  }

  /** Drain and joins, from the signal on. */
  lemma {:induction false} JoinPhaseRun(steps: seq<Step>, c: Id, joins: seq<Outcome>) returns (more: seq<Step>)
    requires Legal(steps) && c in End(steps).calls && End(steps).calls[c].Signalled?
    requires |joins| == |End(steps).tasks| && End(steps).phase == Stopping
    ensures Legal(more) && c in End(more).calls
    ensures var w, v := End(steps), End(more);
            && v.tasks == map[] && v.receivers == w.receivers
            && HasSignal(v.calls[c]) && v.calls[c].signal == w.calls[c].signal
            && (v.phase, ResultOf(v.calls[c]))
               == if FirstFailure(joins) < |joins| then (Stopping, JoinError) else (Stopped, Count(|joins|))
  {
    hide Legal, End, Next, Conserved, Injective;
    RunConserves(steps);
    ConservedInjective(End(steps));
    ValuesSize(End(steps).tasks);
    more := DrainRun(steps, c);
    more := JoinRun(more, c, joins);
  }

  function There(f: Fields, gone: set<Id>, late: set<Id>): set<Id> {
    if f.receivers - gone == {} then {} else f.receivers - gone - late
  }

  lemma {:induction false} ActiveSpec(f: Fields, gone: set<Id>, late: set<Id>, joins: seq<Outcome>)
    requires f.phase == Running || f.phase == Stopping
    ensures var (g, r), there := ShutdownSpec(f, gone, late, joins), There(f, gone, late);
            && g.receivers == there
            && if f.receivers - gone != {} && there == {} then
                 g.told == f.told && g.tasks == f.tasks && g.phase == Stopping && r == NoReceiver
               else
                 g.told == f.told + there && g.tasks == map[]
                 && (g.phase, r)
                    == if FirstFailure(joins) < |joins| then (Stopping, JoinError) else (Stopped, Count(|joins|))
  {
    hide FirstFailure;
  }

  lemma {:induction false} ActiveRun(steps: seq<Step>, c: Id, gone: set<Id>, late: set<Id>, joins: seq<Outcome>,
                                     f: Fields)
    returns (more: seq<Step>)
    requires Legal(steps) && c !in End(steps).calls && |joins| == |End(steps).tasks|
    requires var w := End(steps); w.phase == f.phase && w.tasks == f.tasks && w.receivers == f.receivers
    requires f.phase == Running || f.phase == Stopping
    ensures Legal(more) && c in End(more).calls
    ensures var (g, r) := ShutdownSpec(f, gone, late, joins);
            Shows(End(more), g, f.told, c) && ResultOf(End(more).calls[c]) == r
  {
    hide Legal, End, Next, FirstFailure, ShutdownSpec;
    ActiveSpec(f, gone, late, joins);
    more := SignalRun(steps, c, gone, late);
    assert End(more).receivers == There(f, gone, late);
    if End(more).calls[c].Signalled? {
      more := JoinPhaseRun(more, c, joins);
    }
  }

  /** A shutdown that nothing but dropped receivers interrupts does, as a run of the steps, what the
      object's method does. */
  lemma {:induction false} ShutdownIsARun(steps: seq<Step>, c: Id, gone: set<Id>, late: set<Id>, joins: seq<Outcome>,
                                          f: Fields)
    returns (more: seq<Step>)
    requires Legal(steps) && c !in End(steps).calls && |joins| == |End(steps).tasks|
    requires var w := End(steps); w.phase == f.phase && w.tasks == f.tasks && w.receivers == f.receivers
    ensures Legal(more) && c in End(more).calls
    ensures var (g, r) := ShutdownSpec(f, gone, late, joins);
            Shows(End(more), g, f.told, c) && ResultOf(End(more).calls[c]) == r
  {
    hide Legal, End, Next;
    if f.phase == Running || f.phase == Stopping {
      more := ActiveRun(steps, c, gone, late, joins, f);
    } else {
      more := RefusedRun(steps, c);
    }
  }

  /** A registration that nothing interrupts does what the object's method does; a taken name leaves the
      task detached. */
  lemma {:induction false} RegisterIsARun(steps: seq<Step>, c: Id, name: string, f: Fields) returns (more: seq<Step>)
    requires Legal(steps) && c !in End(steps).calls
    requires var w := End(steps); w.phase == f.phase && w.tasks == f.tasks && w.receivers == f.receivers
    ensures Legal(more) && c in End(more).calls
    ensures var v, (g, r) := End(more), RegisterSpec(f, name, c);
            && v.phase == g.phase && v.tasks == g.tasks && v.receivers == g.receivers
            && g.detached == f.detached + (if v.calls[c].Duplicate? then {c} else {})
            && match r
               case NotRunning => v.calls[c].Rejected?
               case NameTaken => v.calls[c].Duplicate?
               case Accepted => v.calls[c].Registered?
  {
    hide Legal, End, MarkNext, LookNext, SendNext, DrainNext, JoinNext, SettleNext;
    Extend(steps, Check(c, name));
    more := steps + [Check(c, name)];
    if End(steps).phase == Running {
      Extend(more, Subscribe(c));
      more := more + [Subscribe(c)];
      Extend(more, Spawn(c));
      more := more + [Spawn(c)];
      Extend(more, Insert(c));
      more := more + [Insert(c)];
    }
  }

  lemma {:induction false} ConservedInjective(w: World)
    requires Conserved(w)
    ensures Injective(w.tasks)
  {
  }

  lemma {:induction false} DrainRun(steps: seq<Step>, c: Id) returns (more: seq<Step>)
    requires Legal(steps) && c in End(steps).calls && End(steps).calls[c].Signalled?
    ensures Legal(more) && End(more).phase == End(steps).phase && End(more).tasks == map[]
    ensures c in End(more).calls && End(more).calls[c].Joining?
    ensures End(more).receivers == End(steps).receivers && End(more).calls[c].signal == End(steps).calls[c].signal
    ensures End(more).calls[c].pending == End(steps).tasks.Values && End(more).calls[c].stopped == 0
  {
    hide Legal, End, CheckNext, SubscribeNext, SpawnNext, InsertNext, MarkNext, LookNext, SendNext, JoinNext,
    SettleNext;
    Extend(steps, Drain(c));
    more := steps + [Drain(c)];
  }
}
