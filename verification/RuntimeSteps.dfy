/**
 The runtime lifecycle as a transition system. One step is what a call does under one lock, or one access to the
 broadcast channel; calls of any number interleave freely.
 */
module RuntimeSteps {

  datatype Phase = Initialized | Running | Stopping | Stopped

  /** A registering call and the task it spawns share an identity. */
  type Id = nat

  /** When a registering call did what. */
  datatype Times = Times(checked: nat, subscribed: nat, inserted: nat)

  /** When a shutdown wrote `Stopping` and when it decided on its broadcast, and the receivers alive at that moment. */
  datatype Signal = Signal(marked: nat, signalled: nat, heard: set<Id>)

  /** Where a call is. The time stamps are history: no step looks at them. */
  datatype Call =
    // register_service, spawn_task
    | Checked(name: string, checked: nat)
    | Subscribed(name: string, checked: nat, subscribed: nat)
    | Spawned(name: string, checked: nat, subscribed: nat)
    | Registered(name: string, times: Times)
    | Duplicate(subscribed: nat)
    | Rejected
    // shutdown
    | Marked(marked: nat)
    | Signalling(marked: nat)
    | Signalled(signal: Signal)
    | Joining(signal: Signal, pending: set<Id>, joined: set<Id>, stopped: nat)
    | Finished(signal: Signal, count: nat)
    | AlreadyStopped
    | Refused
    | SendFailed
    | JoinBroken(signal: Signal)

  datatype Outcome = JoinedOk | JoinTimeout | JoinPanicked

  datatype World = World(
    phase: Phase,
    tasks: map<string, Id>,
    receivers: set<Id>,
    calls: map<Id, Call>,
    log: History
  )

  /** What has happened so far; no step looks at it. */
  datatype History = History(
    clock: nat,
    lastMark: nat,
    lastDrain: nat,
    gone: map<Id, nat>,
    drained: map<Id, set<Id>>,
    drainedBy: map<Id, Id>
  )

  const Init := World(Initialized, map[], {}, map[], History(1, 0, 0, map[], map[], map[]))

  datatype Step =
    | Start
    | Check(c: Id, name: string)
    | Subscribe(c: Id)
    | Spawn(c: Id)
    | Insert(c: Id)
    | Mark(c: Id)
    | Look(c: Id)
    | Send(c: Id)
    | Drain(c: Id)
    | Join(c: Id, task: Id, outcome: Outcome)
    | Settle(c: Id)
    | DropReceiver(task: Id)

  predicate HasTask(call: Call) {
    call.Spawned? || call.Registered? || call.Duplicate?
  }

  predicate HasSubscribed(call: Call) {
    call.Subscribed? || HasTask(call)
  }

  predicate Enabled(w: World, s: Step) {
    match s
    case Start => true
    case Check(c, _) => c !in w.calls
    case Subscribe(c) => c in w.calls && w.calls[c].Checked?
    case Spawn(c) => c in w.calls && w.calls[c].Subscribed?
    case Insert(c) => c in w.calls && w.calls[c].Spawned?
    case Mark(c) => c !in w.calls
    case Look(c) => c in w.calls && w.calls[c].Marked?
    case Send(c) => c in w.calls && w.calls[c].Signalling?
    case Drain(c) => c in w.calls && w.calls[c].Signalled?
    case Join(c, task, _) => c in w.calls && w.calls[c].Joining? && task in w.calls[c].pending
    case Settle(c) => c in w.calls && w.calls[c].Joining? && w.calls[c].pending == {}
    case DropReceiver(task) => task in w.receivers && task in w.calls && HasSubscribed(w.calls[task])
  }

  function Set(w: World, c: Id, call: Call): World {
    w.(calls := w.calls[c := call])
  }

  /** `register_service` and `spawn_task` look at the state under the read lock. */
  function CheckNext(w: World, c: Id, name: string): World {
    Set(w, c, if w.phase == Running then Checked(name, w.log.clock) else Rejected)
  }

  function SubscribeNext(w: World, c: Id): World
    requires c in w.calls && w.calls[c].Checked?
  {
    var x := w.calls[c];
    Set(w, c, Subscribed(x.name, x.checked, w.log.clock)).(receivers := w.receivers + {c})
  }

  function SpawnNext(w: World, c: Id): World
    requires c in w.calls && w.calls[c].Subscribed?
  {
    var x := w.calls[c];
    Set(w, c, Spawned(x.name, x.checked, x.subscribed))
  }

  /** Under the task lock: a taken name rejects the call and its handle is dropped, which detaches the task. */
  function InsertNext(w: World, c: Id): World
    requires c in w.calls && w.calls[c].Spawned?
  {
    var x := w.calls[c];
    if x.name in w.tasks then Set(w, c, Duplicate(x.subscribed))
    else Set(w, c, Registered(x.name, Times(x.checked, x.subscribed, w.log.clock))).(tasks := w.tasks[x.name := c])
  }

  /** `shutdown` under the state lock. */
  function MarkNext(w: World, c: Id): World {
    match w.phase
    case Stopped => Set(w, c, AlreadyStopped)
    case Initialized => Set(w, c, Refused)
    case _ => Set(w, c, Marked(w.log.clock)).(phase := Stopping, log := w.log.(lastMark := w.log.clock))
  }

  /** Without a live receiver nothing is sent. */
  function LookNext(w: World, c: Id): World
    requires c in w.calls && w.calls[c].Marked?
  {
    var m := w.calls[c].marked;
    Set(w, c, if w.receivers == {} then Signalled(Signal(m, w.log.clock, {})) else Signalling(m))
  }

  /** The receivers may all have gone since the look; then sending is an error. */
  function SendNext(w: World, c: Id): World
    requires c in w.calls && w.calls[c].Signalling?
  {
    Set(w, c, if w.receivers == {} then SendFailed else Signalled(Signal(w.calls[c].marked, w.log.clock, w.receivers)))
  }

  /** Every drained task is drained by this one call. */
  ghost function AllTo(taken: set<Id>, c: Id): (m: map<Id, Id>)
    ensures m.Keys == taken && forall t | t in taken :: m[t] == c
  {
    if taken == {} then map[]
    else
      var t :| t in taken;
      AllTo(taken - {t}, c)[t := c]
  }

  /** The whole map is taken under the task lock. */
  ghost function DrainNext(w: World, c: Id): World
    requires c in w.calls && w.calls[c].Signalled?
  {
    var taken := w.tasks.Values;
    Set(w, c, Joining(w.calls[c].signal, taken, {}, 0))
    .(tasks := map[],
      log := w.log.(drained := w.log.drained[c := taken],
                    drainedBy := w.log.drainedBy + AllTo(taken, c),
                    lastDrain := w.log.clock))
  }

  /** The first join that times out or panics ends the call; what is still pending is dropped. */
  function JoinNext(w: World, c: Id, task: Id, outcome: Outcome): World
    requires c in w.calls && w.calls[c].Joining? && task in w.calls[c].pending
  {
    var j := w.calls[c];
    if outcome == JoinedOk then Set(w, c, Joining(j.signal, j.pending - {task}, j.joined + {task}, j.stopped + 1))
    else Set(w, c, JoinBroken(j.signal))
  }

  function SettleNext(w: World, c: Id): World
    requires c in w.calls && w.calls[c].Joining? && w.calls[c].pending == {}
  {
    var j := w.calls[c];
    Set(w, c, Finished(j.signal, j.stopped)).(phase := Stopped)
  }

  ghost function Act(w: World, s: Step): World
    requires Enabled(w, s)
  {
    match s
    case Start => if w.phase.Initialized? || w.phase.Stopped? then w.(phase := Running) else w
    case Check(c, name) => CheckNext(w, c, name)
    case Subscribe(c) => SubscribeNext(w, c)
    case Spawn(c) => SpawnNext(w, c)
    case Insert(c) => InsertNext(w, c)
    case Mark(c) => MarkNext(w, c)
    case Look(c) => LookNext(w, c)
    case Send(c) => SendNext(w, c)
    case Drain(c) => DrainNext(w, c)
    case Join(c, task, outcome) => JoinNext(w, c, task, outcome)
    case Settle(c) => SettleNext(w, c)
    case DropReceiver(task) =>
      w.(receivers := w.receivers - {task}, log := w.log.(gone := w.log.gone[task := w.log.clock]))
  }

  ghost function Next(w: World, s: Step): World
    requires Enabled(w, s)
  {
    var v := Act(w, s);
    v.(log := v.log.(clock := w.log.clock + 1))
  }

  // ---------------------------------------------------------------- runs

  ghost predicate Legal(steps: seq<Step>)
    decreases |steps|, 0
  {
    steps == [] || (Legal(steps[..|steps| - 1]) && Enabled(End(steps[..|steps| - 1]), steps[|steps| - 1]))
  }

  ghost function End(steps: seq<Step>): World
    requires Legal(steps)
    decreases |steps|, 1
  {
    if steps == [] then Init else Next(End(steps[..|steps| - 1]), steps[|steps| - 1])
  }

  predicate ShutsDown(call: Call) {
    call.Marked? || call.Signalling? || call.Signalled? || call.Joining?
  }

  predicate Registers(call: Call) {
    call.Checked? || call.Subscribed? || call.Spawned?
  }

  /** No shutdown starts while another one is in flight. */
  ghost predicate OneShutdown(steps: seq<Step>)
    requires Legal(steps)
    decreases |steps|
  {
    steps == []
    || (var before := End(steps[..|steps| - 1]);
        OneShutdown(steps[..|steps| - 1])
        && (steps[|steps| - 1].Mark? ==> forall c | c in before.calls :: !ShutsDown(before.calls[c])))
  }

  /** No registration is under way when a shutdown starts. */
  ghost predicate NoCrossing(steps: seq<Step>)
    requires Legal(steps)
    decreases |steps|
  {
    steps == []
    || (var before := End(steps[..|steps| - 1]);
        NoCrossing(steps[..|steps| - 1])
        && (steps[|steps| - 1].Mark? ==> forall c | c in before.calls :: !Registers(before.calls[c])))
  }
}
