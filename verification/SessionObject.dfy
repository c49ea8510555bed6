/** The QQ backend as the object it is: a client it drives and its own flags, task handle and configuration. */
module SessionObject {
  import opened Wrappers
  import opened Strings
  import opened Messages
  import opened Wire
  import Mock = MockClient
  import Session
  import Listener

  class QQClientBackend {
    const client: Mock.MockQQClient
    var config: Session.Config
    var connected: bool
    var loggedIn: bool
    var listening: bool
    var stopRequested: bool
    var task: Option<nat>
    var aborted: set<nat>
    var spawned: nat

    function Value(): Session.Backend
      reads this, client
    {
      Session.Backend(connected, loggedIn, listening, stopRequested, task, aborted, spawned, config, client.Value())
    }

    constructor (client: Mock.MockQQClient, config: Session.Config)
      requires client.Value() == Mock.Fresh
      ensures Value() == Session.New(config) && this.client == client
      ensures !connected && !loggedIn && !listening && !stopRequested && task.None? && aborted == {}
    {
      this.client, this.config := client, config;
      connected, loggedIn, listening, stopRequested := false, false, false, false;
      task, aborted, spawned := None, {}, 0;
    }

    method AbortTask()
      modifies this`task, this`aborted
      ensures Value() == Session.Aborted(old(Value()))
    {
      if task.Some? {
        aborted := aborted + {task.value};
        task := None;
      }
    }

    method Connect(endpoint: string) returns (r: Session.Outcome)
      modifies this, client
      ensures (Value(), r) == Session.Connect(old(Value()), endpoint)
    {
      hide Trim;
      stopRequested, connected, listening, loggedIn := false, false, false, false;
      AbortTask();
      client.Disconnect();
      assert Value() == Session.Hung(Session.Cleared(old(Value()), false));
      var chosen := if Trim(endpoint) == "" then config.endpoint else endpoint;
      if Trim(chosen) == "" { return Session.Refused(Session.TransportError); }
      config := config.(endpoint := chosen);
      var hasCredentials := config.account.Some? && config.password.Some?;
      if !hasCredentials && chosen != Session.MOCK_ENDPOINT { return Session.Refused(Session.TransportError); }
      var dialled := client.Connect(chosen, config.connectTimeoutMs);
      if dialled.Failed? { return Session.Refused(Session.MapError(dialled.error)); }
      if hasCredentials {
        var ticket := client.LogIn(config.account.value, config.password.value);
        if ticket.Failed? { return Session.Refused(Session.MapError(ticket.error)); }
        loggedIn := true;
      }
      connected := true;
      r := Session.Fine;
    }

    method Disconnect()
      modifies this, client
      ensures Value() == Session.Disconnect(old(Value()))
    {
      stopRequested, connected, listening, loggedIn := true, false, false, false;
      AbortTask();
      client.Disconnect();
    }

    method IsLoggedIn() returns (r: bool)
      ensures r == Session.IsLoggedIn(Value())
    {
      if !connected { return false; }
      r := loggedIn;
    }

    method SendMessage(m: Message) returns (r: Session.Outcome)
      modifies client
      ensures (Value(), r) == Session.SendMessage(old(Value()), m)
    {
      if !connected { return Session.Refused(Session.TransportError); }
      var reply := client.Send(MessageToPacket(m));
      r := if reply.Failed? then Session.Refused(Session.TransportError) else Session.Fine;
    }

    method Listen() returns (r: Session.Outcome)
      modifies this
      ensures (Value(), r) == Session.Listen(old(Value()))
    {
      if !connected { return Session.Refused(Session.TransportError); }
      if listening { return Session.Refused(Session.TransportError); }
      listening := true;
      task, spawned := Some(spawned), spawned + 1;
      r := Session.Fine;
    }

    method NextPacket() returns (p: Option<Packet>)
      modifies client
      ensures var was, q := old(Value()), old(client.inbound);
              && p == (if q == [] then None else Some(q[0]))
              && client.inbound == (if q == [] then q else q[1..])
              && Value() == was.(client := was.client.(inbound := client.inbound))
    {
      var reply := client.Receive();
      p := reply.next;
    }

    /** One packet in the hands of listener `id`: what it says, and how much audience is left. */
    method Deliver(id: nat, p: Packet, audience: nat) returns (said: seq<Listener.Emit>, missed: bool, left: nat)
      ensures missed == Listener.IsMissed(p, audience) && left == Listener.Left(p, audience)
      ensures missed ==> left == 0
      ensures said + (if missed then [Listener.Emit(id, Listener.Closed, false)] else [])
           == Listener.Word(p, id, audience)
    {
      said, missed, left := [], false, audience;
      match Listener.DecodePacket(p)
      case NoEvent =>
      case Undecodable =>
        said := [Listener.Emit(id, Listener.Warning(Listener.Unreadable), audience > 0)];
        left := if audience > 0 then audience - 1 else 0;
      case OneEvent(event) =>
        said := [Listener.Emit(id, event, audience > 0)];
        if audience == 0 { missed := true; } else { left := audience - 1; }
    }

    /** The listener's loop from a receive to its next sleep or to its end, with no call in between; the first
        `audience` sends find a receiver. */
    method ListenerLoop(id: nat, audience: nat) returns (said: seq<Listener.Emit>, ended: bool)
      modifies this`listening, client
      ensures var was := old(Value());
              var q, bye := was.client.inbound, Listener.Emit(id, Listener.Closed, audience > 0);
              var talk := if was.connected && !was.stopRequested then Listener.TalkOf(id, q, audience)
                          else Listener.Talk([bye], q, true);
              && said == talk.said && ended == talk.ended
              && Value() == was.(listening := was.listening && !talk.ended, client := was.client.(inbound := talk.rest))
    {
      hide Listener.Word, Listener.IsMissed, Listener.Left;
      var left, missed := audience, false;
      said := [];
      while connected && !stopRequested && !missed
        invariant Value() == old(Value()).(client := old(Value()).client.(inbound := client.inbound))
        invariant connected && !stopRequested ==>
                    Listener.TalkOf(id, old(client.inbound), audience)
                    == if missed then
                         Listener.Talk(said + [Listener.Emit(id, Listener.Closed, false)], client.inbound, true)
                       else var t := Listener.TalkOf(id, client.inbound, left); t.(said := said + t.said)
        invariant missed ==> connected && !stopRequested && left == 0
        invariant !connected || stopRequested ==>
                    said == [] && left == audience && client.inbound == old(client.inbound)
        decreases |client.inbound|, !missed
      {
        var packet := NextPacket();
        if packet.None? {
          assert said + [] == said;
          return said, false;
        }
        var word, gone, rest := Deliver(id, packet.value, left);
        Regroup(said, word, if gone then [Listener.Emit(id, Listener.Closed, false)] else [],
                Listener.TalkOf(id, client.inbound, rest).said);
        said, missed, left := said + word, gone, rest;
      }
      said := said + [Listener.Emit(id, Listener.Closed, left > 0)];
      listening := false;
      ended := true;
    }
  }

  lemma {:induction false} Regroup<T>(a: seq<T>, b: seq<T>, c: seq<T>, d: seq<T>)
    ensures a + (b + c) == a + b + c
    ensures c == [] ==> a + (b + c + d) == a + b + d
  {
  }
}
