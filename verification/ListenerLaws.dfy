/** What holds in every run of the QQ backend and its listeners. */
module ListenerLaws {
  import opened Sequences
  import opened Wrappers
  import opened Messages
  import opened Wire
  import opened Session
  import opened Listener
  import Mock = MockClient

  // ---------------------------------------------------------------- the calls and the flags

  predicate Shape(s: Sys) {
    && |s.pcs| == s.b.spawned
    && (s.b.task.Some? ==> s.b.task.value < s.b.spawned)
    && (forall id | id in s.b.aborted :: id < s.b.spawned)
    && Mock.Coherent(s.b.client)
  }

  predicate Unconnected(b: Backend) {
    !b.connected && !b.loggedIn && !b.listening
  }

  /** At rest the session is coherent, and `listening` says whether the stored task is in its loop. */
  predicate PhaseOk(s: Sys) {
    match s.phase
    case Idle => Coherent(s.b) && (s.b.listening <==> s.b.task.Some? && Live(s, s.b.task.value))
    case Connecting(_) => Unconnected(s.b) && !s.b.stopRequested
    case Disconnecting => Unconnected(s.b) && s.b.stopRequested
    case Listening => Coherent(s.b) && s.b.listening && (s.b.task.Some? ==> !Live(s, s.b.task.value))
  }

  /** Only the stored task can be in its loop. */
  ghost predicate OneListener(s: Sys) {
    forall id: nat | Live(s, id) :: s.b.task == Some(id)
  }

  ghost predicate SessionInv(s: Sys) {
    Shape(s) && PhaseOk(s) && OneListener(s)
  }

  lemma {:induction false} LeaveKeeps(s: Sys, id: nat, heard: bool)
    requires SessionInv(s) && Live(s, id)
    ensures SessionInv(Leave(s, id, heard))
  {
    var t := Leave(s, id, heard);
    assert forall i: nat | i != id :: Live(t, i) <==> Live(s, i);
    hide Mock.Coherent;
  }

  lemma {:induction false} GotoKeeps(s: Sys, id: nat, pc: Pc)
    requires SessionInv(s) && Live(s, id) && !pc.Ended?
    ensures SessionInv(Goto(s, id, pc))
  {
    var t := Goto(s, id, pc);
    assert forall i: nat :: Live(t, i) <==> Live(s, i);
    hide Coherent, Mock.Coherent;
  }

  lemma {:induction false} TurnKeeps(s: Sys, id: nat, heard: bool)
    requires SessionInv(s) && Live(s, id)
    ensures SessionInv(Turn(s, id, heard))
  {
    LeaveKeeps(s, id, heard);
    GotoKeeps(s, id, Receiving);
    hide SessionInv;
  }

  lemma {:induction false} PoppedKeeps(s: Sys)
    requires SessionInv(s) && s.b.client.inbound != []
    ensures SessionInv(Popped(s)) && forall id: nat :: Live(Popped(s), id) <==> Live(s, id)
  {
  }

  lemma {:induction false} SayKeeps(s: Sys, id: nat, event: Event, heard: bool)
    requires SessionInv(s)
    ensures SessionInv(Say(s, id, event, heard))
    ensures forall i: nat :: Live(Say(s, id, event, heard), i) <==> Live(s, i)
  {
    hide Coherent, Mock.Coherent;
  }

  lemma {:induction false} StretchKeeps(s: Sys, id: nat, heard: bool, heardLast: bool)
    requires SessionInv(s) && Live(s, id)
    ensures SessionInv(Stretch(s, id, heard, heardLast))
  {
    GotoKeeps(s, id, Sleeping);
    TurnKeeps(s, id, heardLast);
    if s.b.client.inbound != [] {
      PoppedKeeps(s);
      var t := Popped(s);
      TurnKeeps(t, id, heardLast);
      var said := DecodePacket(s.b.client.inbound[0]);
      var event := if said.OneEvent? then said.event else Warning(Unreadable);
      SayKeeps(t, id, event, heard);
      TurnKeeps(Say(t, id, event, heard), id, heardLast);
      LeaveKeeps(Say(t, id, event, heard), id, heardLast);
    }
    hide SessionInv, DecodePacket, Turn, Leave, Goto, Say, Popped, Live;
  }

  /** Hanging up leaves no listener in its loop. */
  lemma {:induction false} HangUp(s: Sys)
    requires SessionInv(s)
    ensures var d := Hung(s.b);
            && Silent(s, d) && d.listening == s.b.listening && d.connected == s.b.connected
            && d.loggedIn == s.b.loggedIn && d.stopRequested == s.b.stopRequested
  {
    var d := Hung(s.b);
    forall i: nat ensures !Live(s.(b := d), i) {
      if Live(s.(b := d), i) { assert Live(s, i); }
    }
  }

  ghost predicate Silent(s: Sys, d: Backend) {
    && d.task.None? && d.spawned == |s.pcs|
    && (forall id | id in d.aborted :: id < d.spawned)
    && (forall i: nat :: !Live(s.(b := d), i))
  }

  lemma {:induction false} MarkedKeeps(s: Sys, d: Backend)
    requires Silent(s, d) && Coherent(d) && !d.listening
    ensures SessionInv(Marked(s, d))
  {
    var t := Marked(s, d);
    assert forall i: nat :: Live(t, i) <==> Live(s.(b := d), i);
  }

  lemma {:induction false} DialledFrame(s: Sys, b: Backend, endpoint: string)
    requires Silent(s, b)
    ensures Silent(s, Dialled(b, endpoint).0) && Dialled(b, endpoint).0.listening == b.listening
  {
    var d := Dialled(b, endpoint).0;
    assert d.task == b.task && d.aborted == b.aborted && d.spawned == b.spawned;
    assert forall i: nat :: Live(s.(b := d), i) <==> Live(s.(b := b), i);
  }

  lemma {:induction false} SpawnKeeps(s: Sys)
    requires SessionInv(s) && s.phase.Listening?
    ensures SessionInv(Finished(s))
  {
    var t := Finished(s);
    assert forall i: nat | i < |s.pcs| :: Live(s, i) <==> (i !in s.b.aborted && !s.pcs[i].Ended?);
    assert forall i: nat | i < |s.pcs| :: t.pcs[i] == s.pcs[i];
    assert forall i: nat | i < |s.pcs| :: !Live(s, i) && !Live(t, i);
    hide Mock.Coherent;
  }

  lemma {:induction false} FinishKeeps(s: Sys)
    requires SessionInv(s)
    ensures SessionInv(Finished(s))
  {
    HangUp(s);
    match s.phase
    case Idle =>
    case Connecting(endpoint) =>
      HungIsCoherent(s.b);
      DialledIsCoherent(Hung(s.b), endpoint);
      DialledFrame(s, Hung(s.b), endpoint);
      MarkedKeeps(s, ConnectTail(s.b, endpoint).0);
    case Disconnecting =>
      HungIsCoherent(s.b);
      MarkedKeeps(s, Hung(s.b));
    case Listening =>
      SpawnKeeps(s);
  }

  lemma {:induction false} CallKeeps(s: Sys, step: Step)
    requires SessionInv(s) && !step.ListenerStep? && !step.Finish?
    ensures SessionInv(Next(s, step))
  {
    var t := Next(s, step);
    assert forall i: nat :: Live(t, i) <==> Live(s, i);
  }

  lemma {:induction false} StepKeeps(s: Sys, step: Step)
    requires SessionInv(s)
    ensures SessionInv(Next(s, step))
  {
    if step.ListenerStep? {
      if Live(s, step.id) { StretchKeeps(s, step.id, step.heard, step.heardLast); }
    } else if step.Finish? {
      FinishKeeps(s);
    } else {
      CallKeeps(s, step);
    }
    hide SessionInv, Stretch, Finished;
  }

  // ---------------------------------------------------------------- the listeners' words

  predicate EndsWhenMissed(event: Event) {
    event != Closed && event != Warning(Unreadable)
  }

  /** A closing notice is where its listener ended; a missed event has the closing notice right behind it. */
  predicate EntryOk(s: Sys, i: nat)
    requires i < |s.out|
  {
    var e := s.out[i];
    && e.listener < |s.pcs|
    && (e.event.Closed? ==> s.pcs[e.listener] == Ended(i))
    && (!e.heard && EndsWhenMissed(e.event) ==> s.pcs[e.listener] == Ended(i + 1))
  }

  /** An ended listener sent its closing notice and nothing afterwards. */
  ghost predicate EndedOk(s: Sys, id: nat)
    requires id < |s.pcs|
  {
    s.pcs[id].Ended? ==>
      var at := s.pcs[id].at;
      && at < |s.out| && s.out[at].event.Closed? && s.out[at].listener == id
      && forall i: nat | at < i < |s.out| :: s.out[i].listener != id
  }

  ghost predicate LogInv(s: Sys) {
    && (forall i: nat | i < |s.out| :: EntryOk(s, i))
    && (forall id: nat | id < |s.pcs| :: EndedOk(s, id))
  }

  lemma {:induction false} SayLogs(s: Sys, id: nat, event: Event, heard: bool)
    requires LogInv(s) && Live(s, id)
    requires event != Closed && (heard || !EndsWhenMissed(event))
    ensures LogInv(Say(s, id, event, heard))
  {
    var t := Say(s, id, event, heard);
    forall i: nat | i < |t.out| ensures EntryOk(t, i) {
      if i < |s.out| { assert EntryOk(s, i); }
    }
    forall j: nat | j < |t.pcs| ensures EndedOk(t, j) { assert EndedOk(s, j); }
  }

  lemma {:induction false} GotoLogs(s: Sys, id: nat, pc: Pc)
    requires LogInv(s) && Live(s, id) && !pc.Ended?
    ensures LogInv(Goto(s, id, pc))
  {
    var t := Goto(s, id, pc);
    forall i: nat | i < |t.out| ensures EntryOk(t, i) { assert EntryOk(s, i); }
    forall j: nat | j < |t.pcs| ensures EndedOk(t, j) { assert EndedOk(s, j); }
  }

  lemma {:induction false} LeaveLogs(s: Sys, id: nat, heard: bool)
    requires LogInv(s) && Live(s, id)
    ensures LogInv(Leave(s, id, heard))
  {
    var t := Leave(s, id, heard);
    forall i: nat | i < |t.out| ensures EntryOk(t, i) {
      if i < |s.out| { assert EntryOk(s, i); }
    }
    forall j: nat | j < |t.pcs| ensures EndedOk(t, j) { assert EndedOk(s, j); }
  }

  lemma {:induction false} MissedLogs(s: Sys, id: nat, event: Event, heardLast: bool)
    requires LogInv(s) && Live(s, id) && event != Closed
    ensures LogInv(Leave(Say(s, id, event, false), id, heardLast))
  {
    var t := Leave(Say(s, id, event, false), id, heardLast);
    forall i: nat | i < |t.out| ensures EntryOk(t, i) {
      if i < |s.out| { assert EntryOk(s, i); }
    }
    forall j: nat | j < |t.pcs| ensures EndedOk(t, j) { assert EndedOk(s, j); }
  }

  lemma {:induction false} TurnLogs(s: Sys, id: nat, heard: bool)
    requires LogInv(s) && Live(s, id)
    ensures LogInv(Turn(s, id, heard))
  {
    LeaveLogs(s, id, heard);
    GotoLogs(s, id, Receiving);
    hide LogInv;
  }

  /** States with the same words and the same waiting places are alike here. */
  lemma {:induction false} SameLogs(s: Sys, t: Sys)
    requires LogInv(s) && s.out == t.out && s.pcs == t.pcs
    ensures LogInv(t)
  {
    forall i: nat | i < |t.out| ensures EntryOk(t, i) { assert EntryOk(s, i); }
    forall j: nat | j < |t.pcs| ensures EndedOk(t, j) { assert EndedOk(s, j); }
  }

  lemma {:induction false} HandleLogs(s: Sys, id: nat, heard: bool, heardLast: bool)
    requires LogInv(s) && Live(s, id) && s.b.client.inbound != []
    ensures LogInv(Handle(s, id, heard, heardLast))
  {
    var t := Popped(s);
    SameLogs(s, t);
    match DecodePacket(s.b.client.inbound[0])
    case NoEvent => TurnLogs(t, id, heardLast);
    case Undecodable =>
      SayLogs(t, id, Warning(Unreadable), heard);
      TurnLogs(Say(t, id, Warning(Unreadable), heard), id, heardLast);
    case OneEvent(event) =>
      DecodedIsOpen(s.b.client.inbound[0]);
      if heard {
        SayLogs(t, id, event, heard);
        TurnLogs(Say(t, id, event, heard), id, heardLast);
      } else {
        MissedLogs(t, id, event, heardLast);
      }
  }

  lemma {:induction false} DecodedIsOpen(p: Packet)
    ensures DecodePacket(p).OneEvent? ==> EndsWhenMissed(DecodePacket(p).event)
  {
  }

  lemma {:induction false} StepLogs(s: Sys, step: Step)
    requires LogInv(s)
    ensures LogInv(Next(s, step))
  {
    var t := Next(s, step);
    if step.ListenerStep? && Live(s, step.id) {
      var id, heard, heardLast := step.id, step.heard, step.heardLast;
      TurnLogs(s, id, heardLast);
      GotoLogs(s, id, Sleeping);
      if s.b.client.inbound != [] { HandleLogs(s, id, heard, heardLast); }
      hide LogInv, Handle, Turn, Goto;
    } else if step.Finish? && s.phase.Listening? {
      forall i: nat | i < |t.out| ensures EntryOk(t, i) { assert EntryOk(s, i); }
      forall j: nat | j < |t.pcs| ensures EndedOk(t, j) { if j < |s.pcs| { assert EndedOk(s, j); } }
    } else {
      SameLogs(s, t);
    }
  }

  // ---------------------------------------------------------------- packets become events, once and in order

  /** What was said since the queue was last cleared, and what the queue still holds, is what was
      injected since then. */
  predicate Exact(s: Sys) {
    s.mark <= |s.out| && Said(s.out[s.mark..]) + AllEvents(s.b.client.inbound) == AllEvents(s.injected)
  }

  lemma {:induction false} AllEventsAppend(ps: seq<Packet>, qs: seq<Packet>)
    ensures AllEvents(ps + qs) == AllEvents(ps) + AllEvents(qs)
  {
    hide Events;
    if ps == [] {
      assert ps + qs == qs;
    } else {
      assert (ps + qs)[1..] == ps[1..] + qs;
      AllEventsAppend(ps[1..], qs);
    }
  }

  lemma {:induction false} SaidOneMore(s: Sys, id: nat, event: Event, heard: bool)
    requires s.mark <= |s.out|
    ensures var t := Say(s, id, event, heard);
            t.mark <= |t.out|
            && Said(t.out[t.mark..]) == Said(s.out[s.mark..]) + if event.Closed? then [] else [event]
  {
    var t := Say(s, id, event, heard);
    assert t.out[t.mark..] == s.out[s.mark..] + [Emit(id, event, heard)];
    assert t.out[t.mark..][..|t.out[t.mark..]| - 1] == s.out[s.mark..];
  }

  /** Exactness looks at four things only. */
  lemma {:induction false} SameExact(s: Sys, t: Sys)
    requires Exact(s)
    requires t.out == s.out && t.mark == s.mark && t.injected == s.injected
    requires t.b.client.inbound == s.b.client.inbound
    ensures Exact(t)
  {
  }

  lemma {:induction false} ClosingIsExact(s: Sys, id: nat, heard: bool)
    requires Exact(s)
    ensures Exact(Say(s, id, Closed, heard))
  {
    SaidOneMore(s, id, Closed, heard);
    hide Said, AllEvents;
  }

  lemma {:induction false} TurnIsExact(s: Sys, id: nat, heard: bool)
    requires Exact(s)
    ensures Exact(Turn(s, id, heard)) && Exact(Leave(s, id, heard))
  {
    ClosingIsExact(s, id, heard);
    SameExact(Say(s, id, Closed, heard), Leave(s, id, heard));
    SameExact(s, Goto(s, id, Receiving));
    hide Exact;
  }

  lemma {:induction false} PopIsExact(s: Sys, id: nat, event: Event, heard: bool)
    requires Exact(s) && s.b.client.inbound != []
    ensures Events(s.b.client.inbound[0]) == [] ==> Exact(Popped(s))
    ensures Events(s.b.client.inbound[0]) == [event] && event != Closed ==> Exact(Say(Popped(s), id, event, heard))
  {
    var q, t := s.b.client.inbound, Popped(s);
    assert t.b.client.inbound == q[1..];
    assert AllEvents(q) == Events(q[0]) + AllEvents(q[1..]);
    SaidOneMore(t, id, event, heard);
    var said := Said(s.out[s.mark..]);
    assert said + (Events(q[0]) + AllEvents(q[1..])) == said + Events(q[0]) + AllEvents(q[1..]);
    hide Said, AllEvents, Events;
  }

  lemma {:induction false} HandleIsExact(s: Sys, id: nat, heard: bool, heardLast: bool)
    requires Exact(s) && s.b.client.inbound != []
    ensures Exact(Handle(s, id, heard, heardLast))
  {
    var p, t := s.b.client.inbound[0], Popped(s);
    DecodedIsOpen(p);
    hide Exact, Turn, Leave, Say, Popped;
    match DecodePacket(p)
    case NoEvent =>
      PopIsExact(s, id, Closed, heard);
      TurnIsExact(t, id, heardLast);
    case Undecodable =>
      PopIsExact(s, id, Warning(Unreadable), heard);
      TurnIsExact(Say(t, id, Warning(Unreadable), heard), id, heardLast);
    case OneEvent(event) =>
      PopIsExact(s, id, event, heard);
      TurnIsExact(Say(t, id, event, heard), id, heardLast);
  }

  lemma {:induction false} InjectIsExact(s: Sys, p: Packet)
    requires Exact(s)
    ensures Exact(Next(s, InjectStep(p)))
  {
    var q := s.b.client.inbound;
    var t := Next(s, InjectStep(p));
    assert t.b.client.inbound == q + [p] && t.injected == s.injected + [p] && t.out == s.out && t.mark == s.mark;
    hide Next, Said;
    AllEventsAppend(q, [p]);
    AllEventsAppend(s.injected, [p]);
    hide AllEvents;
    Associative(Said(s.out[s.mark..]), AllEvents(q), AllEvents([p]));
  }

  lemma {:induction false} FinishIsExact(s: Sys)
    requires Exact(s)
    ensures Exact(Finished(s))
  {
    ClearedQueue(s);
    var t := Finished(s);
    if s.phase.Connecting? || s.phase.Disconnecting? {
      hide Finished;
    } else {
      SameExact(s, t);
    }
  }

  lemma {:induction false} StretchIsExact(s: Sys, id: nat, heard: bool, heardLast: bool)
    requires Exact(s) && Live(s, id)
    ensures Exact(Stretch(s, id, heard, heardLast))
  {
    hide Exact, Turn, Handle, Goto;
    TurnIsExact(s, id, heardLast);
    SleepIsExact(s, id);
    if s.b.client.inbound != [] { HandleIsExact(s, id, heard, heardLast); }
  }

  lemma {:induction false} SleepIsExact(s: Sys, id: nat)
    requires Exact(s)
    ensures Exact(Goto(s, id, Sleeping))
  {
    hide Exact;
    SameExact(s, Goto(s, id, Sleeping));
  }

  /** A call leaves packets and words alone until it finishes. */
  lemma {:induction false} CallIsQuiet(s: Sys, step: Step)
    requires !step.ListenerStep? && !step.InjectStep? && !step.Finish?
    ensures var t := Next(s, step);
            t.out == s.out && t.mark == s.mark && t.injected == s.injected && t.b.client.inbound == s.b.client.inbound
  {
  }

  lemma {:induction false} StepIsExact(s: Sys, step: Step)
    requires Exact(s)
    ensures Exact(Next(s, step))
  {
    hide Exact, Finished, Stretch;
    match step
    case ListenerStep(id, heard, heardLast) => if Live(s, id) { StretchIsExact(s, id, heard, heardLast); }
    case InjectStep(p) => InjectIsExact(s, p);
    case Finish => FinishIsExact(s);
    case _ => CallIsQuiet(s, step); SameExact(s, Next(s, step));
  }

  lemma {:induction false} ClearedQueue(s: Sys)
    ensures var t := Finished(s);
            s.phase.Connecting? || s.phase.Disconnecting? ==>
              t.b.client.inbound == [] && t.injected == [] && t.mark == |t.out|
  {
  }

  // ---------------------------------------------------------------- every run

  ghost predicate Inv(s: Sys) {
    SessionInv(s) && LogInv(s) && Exact(s)
  }

  lemma {:induction false} RunKeeps(s: Sys, steps: seq<Step>)
    requires Inv(s)
    ensures Inv(Run(s, steps))
    decreases |steps|
  {
    if steps != [] {
      StepKeeps(s, steps[0]);
      StepLogs(s, steps[0]);
      StepIsExact(s, steps[0]);
      hide SessionInv, LogInv, Exact, Next;
      RunKeeps(Next(s, steps[0]), steps[1..]);
    }
  }

  lemma {:induction false} Reachable(config: Config, steps: seq<Step>)
    ensures Inv(Run(Start(config), steps))
  {
    assert Said([]) == [] && Start(config).out[0..] == [];
    RunKeeps(Start(config), steps);
  }

  /** Between any two calls the flags agree with each other and with the client, however calls and listeners
      interleaved. */
  lemma {:induction false} SessionStaysCoherent(config: Config, steps: seq<Step>)
    ensures var s := Run(Start(config), steps);
            s.phase.Idle? ==> Coherent(s.b) && (s.b.listening <==> s.b.task.Some? && Live(s, s.b.task.value))
  {
    Reachable(config, steps);
  }

  /** At most one listener is in its loop, during calls as well, and its handle is the stored one. */
  lemma {:induction false} OneListenerAtMost(config: Config, steps: seq<Step>, i: nat, j: nat)
    ensures var s := Run(Start(config), steps);
            Live(s, i) && Live(s, j) ==> i == j && s.b.task == Some(i)
  {
    Reachable(config, steps);
    hide Exact, LogInv, Shape, PhaseOk;
  }

  /** A listener that has left its loop said so once, with its last word; one that is still in it never did. */
  lemma {:induction false} ClosingNoticeIsLast(config: Config, steps: seq<Step>, id: nat)
    ensures var s := Run(Start(config), steps);
            id < |s.pcs| ==>
              && (s.pcs[id].Ended? <==> exists i: nat ::
                    i < |s.out| && s.out[i].listener == id && s.out[i].event.Closed?)
              && forall i: nat, j: nat |
                   i < |s.out| && j < |s.out| && s.out[i].listener == id && s.out[j].listener == id
                   && s.out[i].event.Closed? :: j <= i
  {
    Reachable(config, steps);
    hide Exact, SessionInv;
    var s := Run(Start(config), steps);
    if id < |s.pcs| {
      assert EndedOk(s, id);
      forall i: nat | i < |s.out| && s.out[i].listener == id && s.out[i].event.Closed?
        ensures s.pcs[id] == Ended(i)
      {
        assert EntryOk(s, i);
      }
    }
  }

  /** An aborted listener is never heard of again. */
  lemma {:induction false} AbortIsFinal(s: Sys, steps: seq<Step>, id: nat)
    requires id in s.b.aborted
    ensures var t := Run(s, steps);
            && id in t.b.aborted && |s.out| <= |t.out| && t.out[..|s.out|] == s.out
            && forall i: nat | |s.out| <= i < |t.out| :: t.out[i].listener != id
    decreases |steps|
  {
    if steps == [] {
      assert s.out[..|s.out|] == s.out;
    } else {
      AbortStep(s, steps[0], id);
      hide Next;
      var u := Next(s, steps[0]);
      AbortIsFinal(u, steps[1..], id);
      var t := Run(u, steps[1..]);
      assert t.out[..|s.out|] == u.out[..|s.out|];
      forall i: nat | |s.out| <= i < |t.out| ensures t.out[i].listener != id {
        if i < |u.out| { assert t.out[..|u.out|][i] == u.out[i]; }
      }
    }
  }

  /** From `s` to `t` only `id` may have spoken, and no abort was taken back. */
  ghost predicate OnlySpeaker(s: Sys, t: Sys, id: nat) {
    && t.b.aborted == s.b.aborted && |s.out| <= |t.out| && t.out[..|s.out|] == s.out
    && forall i: nat | |s.out| <= i < |t.out| :: t.out[i].listener == id
  }

  lemma {:induction false} TurnSpeaks(s: Sys, t: Sys, id: nat, heard: bool)
    requires OnlySpeaker(s, t, id)
    ensures OnlySpeaker(s, Turn(t, id, heard), id) && OnlySpeaker(s, Leave(t, id, heard), id)
  {
  }

  lemma {:induction false} StretchSpeaks(s: Sys, id: nat, heard: bool, heardLast: bool)
    requires Live(s, id)
    ensures OnlySpeaker(s, Stretch(s, id, heard, heardLast), id)
  {
    assert s.out[..|s.out|] == s.out;
    TurnSpeaks(s, s, id, heardLast);
    if s.b.client.inbound != [] {
      var t := Popped(s);
      var said := DecodePacket(s.b.client.inbound[0]);
      var u := Say(t, id, if said.OneEvent? then said.event else Warning(Unreadable), heard);
      TurnSpeaks(s, t, id, heardLast);
      TurnSpeaks(s, u, id, heardLast);
      hide Turn, Leave, DecodePacket, OnlySpeaker;
    }
  }

  lemma {:induction false} DialledAborts(b: Backend, endpoint: string)
    ensures Dialled(b, endpoint).0.aborted == b.aborted
  {
  }

  lemma {:induction false} AbortStep(s: Sys, step: Step, id: nat)
    requires id in s.b.aborted
    ensures var t := Next(s, step);
            && id in t.b.aborted && |s.out| <= |t.out| && t.out[..|s.out|] == s.out
            && forall i: nat | |s.out| <= i < |t.out| :: t.out[i].listener != id
  {
    if step.ListenerStep? && Live(s, step.id) {
      StretchSpeaks(s, step.id, step.heard, step.heardLast);
      hide Stretch;
    } else {
      var t := Next(s, step);
      if s.phase.Connecting? { DialledAborts(Hung(s.b), s.phase.endpoint); }
      assert t.out == s.out == s.out[..|s.out|];
    }
  }

  lemma {:induction false} HeardIsSaid(out: seq<Emit>)
    requires forall e | e in out :: e.heard
    ensures Heard(out) == Said(out)
  {
    if out != [] {
      assert out[|out| - 1] in out;
      HeardIsSaid(out[..|out| - 1]);
    }
  }

  /**
   * Main result. As long as the event receiver is there, what it got since the queue was last cleared, followed by what
   * the queued packets stand for, is what the packets injected since then stand for: in order, nothing lost, nothing
   * twice, whichever listeners came and went meanwhile.
   */
  lemma {:induction false} EventsAreExact(config: Config, steps: seq<Step>)
    ensures var s := Run(Start(config), steps);
            && s.mark <= |s.out|
            && ((forall e | e in s.out[s.mark..] :: e.heard) ==>
                  Heard(s.out[s.mark..]) + AllEvents(s.b.client.inbound) == AllEvents(s.injected))
  {
    Reachable(config, steps);
    hide SessionInv, LogInv;
    var s := Run(Start(config), steps);
    if forall e | e in s.out[s.mark..] :: e.heard { HeardIsSaid(s.out[s.mark..]); }
  }

  /** An event nobody received, other than a decoding warning, is its listener's last word but the closing notice. */
  lemma {:induction false} MissedEventEndsListener(config: Config, steps: seq<Step>, i: nat)
    ensures var s := Run(Start(config), steps);
            i < |s.out| && !s.out[i].heard && EndsWhenMissed(s.out[i].event) ==>
              && i + 1 < |s.out| && s.out[i + 1].event.Closed? && s.out[i + 1].listener == s.out[i].listener
              && forall j: nat | i + 1 < j < |s.out| :: s.out[j].listener != s.out[i].listener
  {
    Reachable(config, steps);
    hide Exact, SessionInv;
    var s := Run(Start(config), steps);
    if i < |s.out| {
      assert EntryOk(s, i);
      assert EndedOk(s, s.out[i].listener);
    }
  }

  // ---------------------------------------------------------------- when a listener ends

  predicate HasEnded(s: Sys, id: nat) {
    id < |s.pcs| && s.pcs[id].Ended? && !s.b.listening
  }

  lemma {:induction false} StoppedTurnEnds(s: Sys, id: nat, heard: bool)
    requires id < |s.pcs| && (!s.b.connected || s.b.stopRequested)
    ensures HasEnded(Turn(s, id, heard), id) && HasEnded(Leave(s, id, heard), id)
  {
  }

  /** In a session that is closed or told to stop one stretch ends a listener, unless it goes to sleep. */
  lemma {:induction false} StoppedStretch(s: Sys, id: nat, heard: bool, last: bool)
    requires Live(s, id) && (!s.b.connected || s.b.stopRequested)
    ensures var t := Next(s, ListenerStep(id, heard, last));
            HasEnded(t, id) || (s.pcs[id].Receiving? && t == Goto(s, id, Sleeping))
  {
    StoppedTurnEnds(s, id, last);
    if s.b.client.inbound != [] {
      var t := Popped(s);
      var said := DecodePacket(s.b.client.inbound[0]);
      var u := Say(t, id, if said.OneEvent? then said.event else Warning(Unreadable), heard);
      StoppedTurnEnds(t, id, last);
      StoppedTurnEnds(u, id, last);
      hide DecodePacket;
    }
    hide HasEnded, Turn, Leave;
  }

  /** Once the session is closed or told to stop, a listener that is in its loop ends within two of its stretches. */
  lemma {:induction false} StoppedListenerEnds(
    s: Sys, id: nat, heard: bool, last: bool, heardNext: bool, lastNext: bool)
    requires Live(s, id) && (!s.b.connected || s.b.stopRequested)
    ensures var t := Run(s, [ListenerStep(id, heard, last), ListenerStep(id, heardNext, lastNext)]);
            HasEnded(t, id)
  {
    var first, second := ListenerStep(id, heard, last), ListenerStep(id, heardNext, lastNext);
    var u := Next(s, first);
    TwoSteps(s, first, second);
    StoppedStretch(s, id, heard, last);
    if !HasEnded(u, id) { StoppedStretch(u, id, heardNext, lastNext); }
    hide Stretch, Run;
  }

  /** While the session is open and not told to stop, only an event that nobody hears ends a listener. */
  lemma {:induction false} OpenListenerStays(s: Sys, id: nat, heard: bool, last: bool)
    requires Live(s, id) && s.b.connected && !s.b.stopRequested
    ensures var t := Next(s, ListenerStep(id, heard, last));
            Live(t, id) <==>
            var q := s.b.client.inbound;
            !(s.pcs[id].Receiving? && q != [] && IsMissed(q[0], if heard then 1 else 0))
  {
    hide DecodePacket;
  }

  /** With nothing to receive a listener goes to sleep if it polls, and looks again at once if it does not. */
  lemma {:induction false} EmptyQueueWaits(s: Sys, id: nat, heard: bool, last: bool)
    requires Live(s, id) && s.b.connected && !s.b.stopRequested && s.pcs[id].Receiving? && s.b.client.inbound == []
    ensures var t := Next(s, ListenerStep(id, heard, last));
            t == s.(pcs := t.pcs) && t.pcs == s.pcs[id := if s.b.config.pollMs == 0 then Receiving else Sleeping]
  {
  }

  /** A new listener looks at the session before it takes a packet: stopped before its first stretch, it says goodbye
      and leaves the queue alone. */
  lemma {:induction false} NewListenerLooksFirst(config: Config, steps: seq<Step>, heard: bool, last: bool)
    requires var s := Run(Start(config), steps); s.phase.Idle? && !ListenRefused(s.b)
    ensures var s := Run(Start(config), steps);
            var id := |s.pcs|;
            var t := Next(Next(Next(Next(s, BeginListen), Finish), BeginDisconnect), ListenerStep(id, heard, last));
            t.out == s.out + [Emit(id, Closed, last)] && t.b.client.inbound == s.b.client.inbound
  {
    Reachable(config, steps);
    hide Run, LogInv, Exact, OneListener, PhaseOk;
    var s := Run(Start(config), steps);
    var id := |s.pcs|;
    var t := Next(Next(s, BeginListen), Finish);
    assert t.pcs[id].Starting? && id !in t.b.aborted;
  }

  // ---------------------------------------------------------------- reports end to end

  /** What a peer can report: a message, a message nobody can read, that it is connected, that a session is open,
      an error, or something on a route the backend does not know. */
  datatype Report =
    | MessageReport(message: Message)
    | BrokenReport(payload: string)
    | ConnectionReport(endpoint: string)
    | SessionReport(endpoint: string)
    | ErrorReport(text: string)
    | OtherReport(packet: Packet)

  predicate IsReport(r: Report) {
    match r
    case MessageReport(m) => PayloadsFloatFree(m)
    case BrokenReport(payload) => DecodeJson(payload).None?
    case OtherReport(p) => p.route !in ["message.received", "client.connected", "client.session", "system.error"]
    case _ => true
  }

  function PacketOf(r: Report): Packet {
    match r
    case MessageReport(m) => Packet("message.received", EncodeJson(m))
    case BrokenReport(payload) => Packet("message.received", payload)
    case ConnectionReport(endpoint) => Packet("client.connected", endpoint)
    case SessionReport(endpoint) => Packet("client.session", endpoint)
    case ErrorReport(text) => Packet("system.error", text)
    case OtherReport(p) => p
  }

  /** What a receiver is to hear of it; a message that nests too deep counts as unreadable. */
  function News(r: Report): seq<Event> {
    match r
    case MessageReport(m) => if PayloadsFit(m) then [MessageReceived(m)] else [Warning(Unreadable)]
    case BrokenReport(_) => [Warning(Unreadable)]
    case ConnectionReport(endpoint) => [Opened(endpoint)]
    case SessionReport(endpoint) => [Opened(endpoint)]
    case ErrorReport(text) => [Warning(Reported(text))]
    case OtherReport(_) => []
  }

  function Packets(rs: seq<Report>): seq<Packet> {
    if rs == [] then [] else [PacketOf(rs[0])] + Packets(rs[1..])
  }

  function AllNews(rs: seq<Report>): seq<Event> {
    if rs == [] then [] else News(rs[0]) + AllNews(rs[1..])
  }

  lemma {:induction false} ReportSurvives(r: Report)
    requires IsReport(r)
    ensures Events(PacketOf(r)) == News(r)
  {
    hide EncodeJson, DecodeJson, PayloadsFit, PayloadsFloatFree;
    if r.MessageReport? { TextRoundTrip(r.message); }
  }

  lemma {:induction false} ReportsSurvive(rs: seq<Report>)
    requires forall r | r in rs :: IsReport(r)
    ensures AllEvents(Packets(rs)) == AllNews(rs)
  {
    hide IsReport, PacketOf, Events, News;
    if rs != [] {
      assert rs[0] in rs;
      ReportSurvives(rs[0]);
      ReportsSurvive(rs[1..]);
    }
  }

  /** Whatever mixture of reports a peer sends: while somebody listens, what is heard is a beginning of their news, in
      order, and once the queue is empty it is all of them. */
  lemma {:induction false} ReportsAreDelivered(config: Config, steps: seq<Step>, rs: seq<Report>)
    requires forall r | r in rs :: IsReport(r)
    ensures var s := Run(Start(config), steps);
            && s.mark <= |s.out|
            && (s.injected == Packets(rs) && (forall e | e in s.out[s.mark..] :: e.heard) ==>
                  && Heard(s.out[s.mark..]) <= AllNews(rs)
                  && (s.b.client.inbound == [] ==> Heard(s.out[s.mark..]) == AllNews(rs)))
  {
    EventsAreExact(config, steps);
    ReportsSurvive(rs);
    hide Heard, AllNews, Packets, Run, IsReport;
  }

  // ---------------------------------------------------------------- a listener left alone

  /** An uninterrupted listener is a run of stretches, one a packet. */
  lemma {:induction false} TalkIsARun(s: Sys, id: nat, audience: nat)
    requires Live(s, id) && s.pcs[id].Receiving? && s.b.connected && !s.b.stopRequested
    ensures var talk := TalkOf(id, s.b.client.inbound, audience);
            var t := Run(s, TalkSteps(id, s.b.client.inbound, audience));
            && t.out == s.out + talk.said && t.b.client.inbound == talk.rest
            && (talk.ended <==> !Live(t, id)) && (talk.ended ==> !t.b.listening)
    decreases |s.b.client.inbound|
  {
    var q := s.b.client.inbound;
    if q == [] {
      assert s.out + [] == s.out;
    } else {
      var step := ListenerStep(id, audience > 0, false);
      var u := Next(s, step);
      var steps := TalkSteps(id, q, audience);
      assert steps[0] == step;
      OneWord(s, id, audience);
      hide Next, Word, IsMissed, Left;
      if IsMissed(q[0], audience) {
        assert steps[1..] == [];
      } else {
        var left := Left(q[0], audience);
        assert steps[1..] == TalkSteps(id, q[1..], left);
        TalkIsARun(u, id, left);
        Associative(s.out, Word(q[0], id, audience), TalkOf(id, q[1..], left).said);
      }
    }
  }

  lemma {:induction false} OneWord(s: Sys, id: nat, audience: nat)
    requires Live(s, id) && s.pcs[id].Receiving? && s.b.connected && !s.b.stopRequested && s.b.client.inbound != []
    ensures var q := s.b.client.inbound;
            var u := Next(s, ListenerStep(id, audience > 0, false));
            && u.out == s.out + Word(q[0], id, audience) && u.b.client.inbound == q[1..]
            && if IsMissed(q[0], audience) then !Live(u, id) && !u.b.listening
               else Live(u, id) && u.pcs[id].Receiving? && u.b.connected && !u.b.stopRequested
  {
    hide DecodePacket;
    assert s.out + [] == s.out;
  }

  /** Left alone with a lasting audience, a listener empties the queue: every packet's events, in order,
      and it stays. */
  lemma {:induction false} ListenerDrains(id: nat, queue: seq<Packet>, audience: nat)
    requires audience >= |AllEvents(queue)|
    ensures var talk := TalkOf(id, queue, audience);
            && Said(talk.said) == Heard(talk.said) == AllEvents(queue)
            && talk.rest == [] && !talk.ended
  {
    if queue != [] {
      hide DecodePacket;
      var p := queue[0];
      var left := Left(p, audience);
      ListenerDrains(id, queue[1..], left);
      SaidAppend(Word(p, id, audience), TalkOf(id, queue[1..], left).said);
      OneWordSays(p, id, audience);
      hide Word, Said, Heard;
    }
  }

  lemma {:induction false} OneWordSays(p: Packet, id: nat, audience: nat)
    requires audience >= |Events(p)|
    ensures Said(Word(p, id, audience)) == Heard(Word(p, id, audience)) == Events(p)
  {
    DecodedIsOpen(p);
    hide DecodePacket;
    var w := Word(p, id, audience);
    if w != [] { assert w[..|w| - 1] == []; }
  }

  lemma {:induction false} SaidAppend(a: seq<Emit>, b: seq<Emit>)
    ensures Said(a + b) == Said(a) + Said(b) && Heard(a + b) == Heard(a) + Heard(b)
    decreases |b|
  {
    if b == [] {
      assert a + b == a;
    } else {
      var init := b[..|b| - 1];
      assert (a + b)[..|a + b| - 1] == a + init;
      SaidAppend(a, init);
    }
  }

  lemma {:induction false} TwoSteps(s: Sys, a: Step, z: Step)
    ensures Run(s, [a, z]) == Next(Next(s, a), z)
  {
    hide Next;
    assert [a, z][1..] == [z] && [z][1..] == [];
    assert Run(Next(Next(s, a), z), []) == Next(Next(s, a), z);
    assert Run(Next(s, a), [z]) == Run(Next(Next(s, a), z), []);
  }

  lemma {:induction false} ConnectHalves(s: Sys, endpoint: string)
    requires s.phase.Idle?
    ensures Next(Next(s, BeginConnect(endpoint)), Finish).b == Connect(s.b, endpoint).0
  {
    hide Dialled, Hung, Cleared;
  }

  lemma {:induction false} DisconnectHalves(s: Sys)
    requires s.phase.Idle?
    ensures Next(Next(s, BeginDisconnect), Finish).b == Disconnect(s.b)
  {
    hide Hung, Cleared;
  }

  lemma {:induction false} ListenHalves(s: Sys)
    requires s.phase.Idle? && !ListenRefused(s.b)
    ensures Next(Next(s, BeginListen), Finish).b == Listen(s.b).0
  {
    hide Spawned;
  }

  /** The calls of the object are the two halves of the calls of the system, nothing in between; a send is one step. */
  lemma {:induction false} CallsAreHalves(s: Sys, endpoint: string, m: Message)
    requires s.phase.Idle?
    ensures Next(s, SendStep(m)).b == SendMessage(s.b, m).0
    ensures Run(s, [BeginConnect(endpoint), Finish]).b == Connect(s.b, endpoint).0
    ensures Run(s, [BeginDisconnect, Finish]).b == Disconnect(s.b)
    ensures !ListenRefused(s.b) ==> Run(s, [BeginListen, Finish]).b == Listen(s.b).0
  {
    assert Next(s, SendStep(m)).b == SendMessage(s.b, m).0 by { hide SendMessage; }
    hide Run, Next, Connect, Disconnect, Listen, ListenRefused, SendMessage;
    TwoSteps(s, BeginConnect(endpoint), Finish);
    TwoSteps(s, BeginDisconnect, Finish);
    TwoSteps(s, BeginListen, Finish);
    ConnectHalves(s, endpoint);
    DisconnectHalves(s);
    if !ListenRefused(s.b) { ListenHalves(s); }
  }
}
