/** The QQ backend with its listener tasks: public calls one after the other, listener stretches in between. */
module Listener {
  import opened Messages
  import opened Wire
  import opened Session
  import Mock = MockClient

  /** A warning repeats what the peer reported, or says that an inbound packet could not be read. */
  datatype Cause = Reported(text: string) | Unreadable

  datatype Event = Opened(endpoint: string) | Closed | MessageReceived(message: Message) | Warning(cause: Cause)

  datatype Inbound = NoEvent | OneEvent(event: Event) | Undecodable

  function DecodePacket(p: Packet): Inbound {
    if p.route == "message.received" then
      (var m := DecodeJson(p.payload); if m.Some? then OneEvent(MessageReceived(m.value)) else Undecodable)
    else if p.route == "client.connected" then OneEvent(Opened(p.payload))
    else if p.route == "client.session" then OneEvent(Opened(p.payload))
    else if p.route == "system.error" then OneEvent(Warning(Reported(p.payload)))
    else NoEvent
  }

  // ---------------------------------------------------------------- states

  /** Where a listener task waits. An ended one remembers at which position of `out` it said so. */
  datatype Pc = Starting | Receiving | Sleeping | Ended(at: nat)

  /** Calls are cut at their first wait: `connect` and `disconnect` behind the flags, `listen` behind the swap. */
  datatype Phase = Idle | Connecting(endpoint: string) | Disconnecting | Listening

  /** A send into the event channel by a listener; `heard` says whether a receiver was there. */
  datatype Emit = Emit(listener: nat, event: Event, heard: bool)

  /** `out` is every send so far; `mark` and `injected` start over when the client's queue is cleared. */
  datatype Sys = Sys(b: Backend, phase: Phase, pcs: seq<Pc>, out: seq<Emit>, mark: nat, injected: seq<Packet>)

  function Start(config: Config): Sys {
    Sys(New(config), Idle, [], [], 0, [])
  }

  /** A listener that is not aborted and has not left its loop. */
  predicate Live(s: Sys, id: nat) {
    id < |s.pcs| && id !in s.b.aborted && !s.pcs[id].Ended?
  }

  // ---------------------------------------------------------------- one stretch of a listener

  function Say(s: Sys, id: nat, event: Event, heard: bool): Sys {
    s.(out := s.out + [Emit(id, event, heard)])
  }

  function Goto(s: Sys, id: nat, pc: Pc): Sys {
    if id < |s.pcs| then s.(pcs := s.pcs[id := pc]) else s
  }

  function Leave(s: Sys, id: nat, heard: bool): Sys {
    var t := Goto(Say(s, id, Closed, heard), id, Ended(|s.out|));
    t.(b := t.b.(listening := false))
  }

  /** The loop condition, and what follows at once when it fails. */
  function Turn(s: Sys, id: nat, heard: bool): Sys {
    if s.b.connected && !s.b.stopRequested then Goto(s, id, Receiving) else Leave(s, id, heard)
  }

  function Popped(s: Sys): Sys
    requires s.b.client.inbound != []
  {
    s.(b := s.b.(client := Mock.Next(s.b.client, Mock.Receive)))
  }

  /** A packet, its event, and the loop condition. A missed event ends the loop, a missed warning about
      decoding does not. */
  function Handle(s: Sys, id: nat, heard: bool, heardLast: bool): Sys
    requires s.b.client.inbound != []
  {
    match DecodePacket(s.b.client.inbound[0])
    case NoEvent => Turn(Popped(s), id, heardLast)
    case Undecodable => Turn(Say(Popped(s), id, Warning(Unreadable), heard), id, heardLast)
    case OneEvent(event) =>
      var t := Say(Popped(s), id, event, heard);
      if heard then Turn(t, id, heardLast) else Leave(t, id, heardLast)
  }

  function Stretch(s: Sys, id: nat, heard: bool, heardLast: bool): Sys
    requires Live(s, id)
  {
    if !s.pcs[id].Receiving? then Turn(s, id, heardLast)
    else if s.b.client.inbound != [] then Handle(s, id, heard, heardLast)
    else if s.b.config.pollMs > 0 then Goto(s, id, Sleeping)
    else Turn(s, id, heardLast)
  }

  // ---------------------------------------------------------------- steps

  datatype Step =
    | BeginConnect(endpoint: string)
    | BeginDisconnect
    | BeginListen
    | Finish
    | SendStep(message: Message)
    | InjectStep(packet: Packet)
    | ListenerStep(id: nat, heard: bool, heardLast: bool)

  /** The queue is empty from here on. */
  function Marked(s: Sys, b: Backend): Sys {
    s.(b := b, phase := Idle, mark := |s.out|, injected := [])
  }

  function Finished(s: Sys): Sys {
    match s.phase
    case Idle => s
    case Connecting(endpoint) => Marked(s, ConnectTail(s.b, endpoint).0)
    case Disconnecting => Marked(s, Hung(s.b))
    case Listening => s.(b := Spawned(s.b), phase := Idle, pcs := s.pcs + [Starting])
  }

  /** A step that is not enabled changes nothing, so every sequence of steps is a run. */
  function Next(s: Sys, step: Step): Sys {
    match step
    case BeginConnect(e) => if s.phase.Idle? then s.(b := Cleared(s.b, false), phase := Connecting(e)) else s
    case BeginDisconnect => if s.phase.Idle? then s.(b := Cleared(s.b, true), phase := Disconnecting) else s
    case BeginListen =>
      if s.phase.Idle? && !ListenRefused(s.b) then s.(b := s.b.(listening := true), phase := Listening) else s
    case Finish => Finished(s)
    case SendStep(m) => if s.phase.Idle? then s.(b := SendMessage(s.b, m).0) else s
    case InjectStep(p) =>
      s.(b := s.b.(client := Mock.Next(s.b.client, Mock.Inject(p))), injected := s.injected + [p])
    case ListenerStep(id, heard, heardLast) => if Live(s, id) then Stretch(s, id, heard, heardLast) else s
  }

  function Run(s: Sys, steps: seq<Step>): Sys
    decreases |steps|
  {
    if steps == [] then s else Run(Next(s, steps[0]), steps[1..])
  }

  // ---------------------------------------------------------------- what the events amount to

  /** The events a packet stands for: one for a readable message, a session notice or a reported error, one warning
      for a message that cannot be read, none for an unknown route. */
  function Events(p: Packet): seq<Event> {
    match DecodePacket(p)
    case NoEvent => []
    case OneEvent(event) => [event]
    case Undecodable => [Warning(Unreadable)]
  }

  function AllEvents(ps: seq<Packet>): seq<Event> {
    if ps == [] then [] else Events(ps[0]) + AllEvents(ps[1..])
  }

  /** What the listeners made of packets: everything said but the closing notices. */
  function Said(out: seq<Emit>): seq<Event> {
    if out == [] then []
    else
      var last := out[|out| - 1];
      Said(out[..|out| - 1]) + if last.event.Closed? then [] else [last.event]
  }

  /** The part of it that reached a receiver. */
  function Heard(out: seq<Emit>): seq<Event> {
    if out == [] then []
    else
      var last := out[|out| - 1];
      Heard(out[..|out| - 1]) + if last.event.Closed? || !last.heard then [] else [last.event]
  }

  // ---------------------------------------------------------------- a listener left alone

  /** What a listener says while nobody interferes, until it sleeps or ends; the first `audience` sends are heard. */
  datatype Talk = Talk(said: seq<Emit>, rest: seq<Packet>, ended: bool)

  /** What one packet makes a listener say. */
  function Word(p: Packet, id: nat, audience: nat): seq<Emit> {
    match DecodePacket(p)
    case NoEvent => []
    case Undecodable => [Emit(id, Warning(Unreadable), audience > 0)]
    case OneEvent(event) =>
      if audience == 0 then [Emit(id, event, false), Emit(id, Closed, false)] else [Emit(id, event, true)]
  }

  predicate IsMissed(p: Packet, audience: nat) {
    DecodePacket(p).OneEvent? && audience == 0
  }

  /** The audience left after one packet. */
  function Left(p: Packet, audience: nat): nat {
    if DecodePacket(p).NoEvent? || audience == 0 then audience else audience - 1
  }

  function TalkOf(id: nat, queue: seq<Packet>, audience: nat): Talk {
    if queue == [] then Talk([], [], false)
    else if IsMissed(queue[0], audience) then Talk(Word(queue[0], id, audience), queue[1..], true)
    else
      var t := TalkOf(id, queue[1..], Left(queue[0], audience));
      t.(said := Word(queue[0], id, audience) + t.said)
  }

  /** One stretch a packet, up to the one that ends the listener. */
  function TalkSteps(id: nat, queue: seq<Packet>, audience: nat): seq<Step> {
    if queue == [] then []
    else
      [ListenerStep(id, audience > 0, false)]
      + if IsMissed(queue[0], audience) then [] else TalkSteps(id, queue[1..], Left(queue[0], audience))
  }
}
