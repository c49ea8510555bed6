/** What callers and peers of the TCP client can rely on: refusals, requests on the wire, and what receives return. */
module TcpLaws {
  import opened Sequences
  import opened Wrappers
  import opened Strings
  import opened JsonText
  import opened JsonLaws
  import opened Messages
  import opened Utf8
  import opened Wire
  import opened WireCuts
  import opened ClientTypes
  import opened TcpClient

  // ---------------------------------------------------------------- replies and errors

  /** The ticket is the token the server's acknowledgement names, or the word session if it names none. */
  lemma {:induction false} TicketIsServersToken(
    t: Tcp, account: string, password: string, arrivals: seq<Arrival>, d: nat, payload: string, token: string)
    requires IsOpen(t) && t.stream && !IsBlank(account) && !IsBlank(password)
    requires d < ACK_TRIES && Decides(arrivals, d) && ArrivalAt(arrivals, d) == Got(Packet("auth.ok", payload))
    requires Parse(payload).Some?
    requires var j := Parse(payload).value;
             NamesToken(j, token) || ((forall s :: !NamesToken(j, s)) && token == "session")
    ensures var (u, reply) := Step(t, LogIn(account, password, Written, arrivals));
            reply == Ticket(token) && u.token == Some(token) && u.state.LoggedIn? && u.stream
  {
    hide Parse, TokenOf, NamesToken, Put, LoginRequest, IsBlank, Decides;
    AckFromDecider(arrivals, 0, d);
    TokenIsLastMember(Parse(payload).value, token);
  }

  /** Why a login fails once its request is out: the deciding arrival says so, or nothing decides in time. The socket
      is gone exactly if the deciding arrival lost it. */
  lemma {:induction false} LoginFailures(t: Tcp, account: string, password: string, arrivals: seq<Arrival>, d: nat)
    requires IsOpen(t) && t.stream && !IsBlank(account) && !IsBlank(password)
    ensures var (u, reply) := Step(t, LogIn(account, password, Written, arrivals));
            var a := ArrivalAt(arrivals, d);
            d < ACK_TRIES && Decides(arrivals, d) ==>
              && (reply == Failed(Login) <==> a == ReadFailed(Login) || (a.Got? && a.packet.route == "system.error"))
              && (reply == Failed(Protocol) <==>
                  a == ReadFailed(Protocol) || (a.Got? && a.packet.route == "auth.ok" && Parse(a.packet.payload).None?))
              && (reply == Failed(Timeout) <==> a == ReadFailed(Timeout) || a.End?)
              && (reply == Failed(Transport) <==> a == ReadFailed(Transport) || a.SocketLost?)
              && (reply == Failed(InvalidState) <==> a == ReadFailed(InvalidState))
              && (u.stream <==> !a.SocketLost?)
    ensures (forall i | 0 <= i < ACK_TRIES :: !Decides(arrivals, i)) ==>
              var (u, reply) := Step(t, LogIn(account, password, Written, arrivals));
              reply == Failed(Timeout) && u.stream
    ensures (forall i | 0 <= i < |arrivals| && i < 4 :: Passes(arrivals[i])) ==>
              Step(t, LogIn(account, password, Written, arrivals)).1 == Failed(Timeout)
  {
    hide Parse, TokenOf, Put, LoginRequest, IsBlank;
    LoginAcknowledged(arrivals);
    if d < ACK_TRIES && Decides(arrivals, d) { AckFromDecider(arrivals, 0, d); }
    hide AckFrom, Decides;
  }

  /** What stops a call before anything is read from the network, in this order; nothing changes but what a cut
      write let out. */
  lemma {:induction false} Refusals(t: Tcp, call: Call)
    ensures var (u, reply) := Step(t, call);
            match call
            case Connect(endpoint, ms, dialError) =>
              && (reply == Done <==> !IsOpen(t) && NormalizeTcpEndpoint(endpoint).Success? && dialError.None?)
              && (IsOpen(t) ==> reply == Failed(InvalidState))
              && (!IsOpen(t) && NormalizeTcpEndpoint(endpoint).Failure? ==> reply == Failed(Transport))
              && (!IsOpen(t) && NormalizeTcpEndpoint(endpoint).Success? && dialError.Some? ==>
                    reply == Failed(dialError.value))
              && (reply != Done ==> u == t)
              && (reply == Done ==>
                    && u.endpoint == Some(endpoint) && u.stream && u.wire == [] && u.state.Connected?
                    && u.timeoutMs == if ms > 0 then ms else 2_000)
            case LogIn(account, password, w, _) =>
              && (!IsOpen(t) ==> u == t && reply == Failed(InvalidState))
              && (IsOpen(t) && (IsBlank(account) || IsBlank(password)) ==> u == t && reply == Failed(Login))
              && (IsOpen(t) && !IsBlank(account) && !IsBlank(password) ==>
                    && (!t.stream ==> u == t && reply == Failed(InvalidState))
                    && (t.stream && w.Cut? ==> u.(wire := t.wire) == t && reply == Failed(w.error)))
            case Send(_, w) =>
              && (reply == Done <==> t.state.LoggedIn? && t.stream && w.Written?)
              && (!t.state.LoggedIn? || !t.stream ==> u == t && reply == Failed(InvalidState))
              && (t.state.LoggedIn? && t.stream && w.Cut? ==> reply == Failed(w.error))
              && u.(wire := t.wire) == t
            case Heartbeat(nanos, w) =>
              && (reply == Done <==> && t.state.LoggedIn? && t.stream && w.Written?
                                     && 0 < nanos < 0x1_0000_0000_0000_0000 * 1_000_000)
              && (IsOpen(t) && nanos == 0 ==> reply == Failed(Timeout))
              && (IsOpen(t) && nanos >= 0x1_0000_0000_0000_0000 * 1_000_000 ==> reply == Panicked)
              && (!IsOpen(t) ==> reply == Failed(InvalidState))
              && (if reply == Done then u.(wire := t.wire) == t.(beaten := true, timeoutMs := nanos / 1_000_000)
                  else u.(wire := t.wire) == t)
            case _ => true
  {
    if call.Connect? { BadEndpoint(call.endpoint); }
    hide AckFrom, IsBlank, NormalizeTcpEndpoint, Put, LoginRequest, HeartbeatPacket, ArrivalAt;
  }

  /** The member of that name in a text that is a JSON object. */
  function MemberOf(text: string, key: string): Field {
    var j := Parse(text);
    if j.Some? && j.value.JObj? then Find(j.value.entries, key) else Missing
  }

  lemma {:induction false} MemberIsRead(es: seq<Entry>, i: nat)
    requires i < |es| && forall k | 0 <= k < |es| && k != i :: es[k].key != es[i].key
    requires forall e | e in es :: Ranged(e.value) && FloatFree(e.value) && Depth(e.value) == 0
    ensures MemberOf(Print(JObj(es)), es[i].key) == Found(es[i].value)
  {
    hide Print, Parse, Find;
    EntriesDepthBound(es, 0);
    DocumentRoundTrip(JObj(es));
    FoundAt(es, es[i].key, i);
  }

  /** What a peer can read in the request that a call writes: the credentials, the packet, the interval. */
  predicate Carries(p: Packet, call: Call) {
    match call
    case LogIn(account, password, _, _) =>
      && p.route == "auth.login"
      && MemberOf(p.payload, "account") == Found(JStr(account))
      && MemberOf(p.payload, "password") == Found(JStr(password))
    case Send(packet, _) => p == packet
    case Heartbeat(nanos, _) =>
      p.route == "system.heartbeat" && MemberOf(p.payload, "interval_ms") == Found(JNum(Millis(nanos)))
    case _ => false
  }

  lemma {:induction false} CredentialsAreCarried(account: string, password: string, w: Write, arrivals: seq<Arrival>)
    ensures Carries(LoginRequest(account, password), LogIn(account, password, w, arrivals))
  {
    hide Print, MemberOf;
    var es := [Entry("account", JStr(account)), Entry("password", JStr(password))];
    MemberIsRead(es, 0);
    MemberIsRead(es, 1);
  }

  lemma {:induction false} IntervalIsCarried(nanos: nat, w: Write)
    requires Millis(nanos) < U64_END
    ensures Carries(HeartbeatPacket(Millis(nanos)), Heartbeat(nanos, w))
  {
    hide Print, MemberOf;
    MemberIsRead([Entry("interval_ms", JNum(Millis(nanos)))], 0);
  }

  /** Every call that writes adds one line to the wire, or the beginning of it that went out; the line ends in a line
      feed, holds no other, and reads as a packet that carries what the caller gave. */
  lemma {:induction false} CallsWriteWhatTheyCarry(t: Tcp, call: Call) returns (line: seq<byte>, p: Packet)
    requires IsOpen(t) && t.stream
    requires match call
             case LogIn(account, password, _, _) => !IsBlank(account) && !IsBlank(password)
             case Send(_, _) => t.state.LoggedIn?
             case Heartbeat(nanos, _) => t.state.LoggedIn? && 0 < nanos < U64_END * NANOS_PER_MILLI
             case _ => false
    ensures LF_BYTE !in line && ParseBytes(line) == Some(p) && Carries(p, call)
    ensures var w, gone := call.write, Step(t, call).0.wire;
            gone == t.wire + if w.Written? || w.k > |line| then line + [LF_BYTE] else line[..w.k]
  {
    hide Print, BuildWireLine, ParseBytes, IsBlank, MemberOf, AckFrom;
    match call {
      case LogIn(account, password, w, arrivals) =>
        p := LoginRequest(account, password);
        CredentialsAreCarried(account, password, w, arrivals);
      case Send(packet, _) => p := packet;
      case Heartbeat(nanos, w) =>
        p := HeartbeatPacket(Millis(nanos));
        IntervalIsCarried(nanos, w);
    }
    line := LineBytes(p);
    LineIsRead(p);
    hide LineBytes, LoginRequest, HeartbeatPacket;
  }

  // ---------------------------------------------------------------- what receives return

  function Replies(t: Tcp, calls: seq<Call>): seq<Reply>
    decreases |calls|
  {
    if calls == [] then [] else [Step(t, calls[0]).1] + Replies(Step(t, calls[0]).0, calls[1..])
  }

  function Delivery(reply: Reply): seq<Packet> {
    if reply.Next? && reply.packet.Some? then [reply.packet.value] else []
  }

  /** The packets handed out, in order. */
  function Handed(replies: seq<Reply>): seq<Packet> {
    if replies == [] then [] else Delivery(replies[0]) + Handed(replies[1..])
  }

  function Taken(call: Call): seq<Packet> {
    if call.Receive? && call.arrival.Got? then [call.arrival.packet] else []
  }

  /** After this call on an open session the socket is gone. */
  predicate Loses(call: Call) {
    match call
    case Receive(a) => a.SocketLost?
    case LogIn(account, password, w, arrivals) =>
      && !IsBlank(account) && !IsBlank(password) && w.Written?
      && exists i | 0 <= i < ACK_TRIES :: Decides(arrivals, i) && ArrivalAt(arrivals, i).SocketLost?
    case _ => false
  }

  /** The packets that arrive at receives while there is a socket. */
  function Met(socket: bool, calls: seq<Call>): seq<Packet> {
    if calls == [] then [] else (if socket then Taken(calls[0]) else []) + Met(socket && !Loses(calls[0]), calls[1..])
  }

  predicate HasSocket(socket: bool, calls: seq<Call>, i: nat)
    requires i <= |calls|
  {
    socket && forall j | 0 <= j < i :: !Loses(calls[j])
  }

  /** What a receive answers to what it meets. */
  ghost predicate Reports(socket: bool, a: Arrival, reply: Reply) {
    && (reply == Next(None) <==> socket && a.End?)
    && (forall p :: reply == Next(Some(p)) <==> socket && a == Got(p))
    && (forall e :: reply == Failed(e) <==>
          if socket then a == ReadFailed(e) || (a.SocketLost? && e == Transport) else e == Transport)
  }

  lemma {:induction false} ReceiveReports(t: Tcp, a: Arrival)
    requires IsOpen(t)
    ensures var (u, reply) := Step(t, Call.Receive(a));
            && IsOpen(u) && (u.stream <==> t.stream && !a.SocketLost?)
            && Delivery(reply) == (if t.stream && a.Got? then [a.packet] else [])
            && Reports(t.stream, a, reply)
  {
  }

  lemma {:induction false} LogInKeeps(
    t: Tcp, account: string, password: string, w: Write, arrivals: seq<Arrival>)
    requires IsOpen(t)
    ensures var call := LogIn(account, password, w, arrivals);
            var (u, reply) := Step(t, call);
            IsOpen(u) && (u.stream <==> t.stream && !Loses(call)) && Delivery(reply) == []
  {
    var d := FirstDecider(arrivals, ACK_TRIES);
    if d < ACK_TRIES {
      AckFromDecider(arrivals, 0, d);
      assert forall i: nat | Decides(arrivals, i) :: i == d;
    } else {
      AckFromNothing(arrivals, 0);
      assert Passes(ArrivalAt(arrivals, ACK_TRIES - 1));
    }
    hide AckFrom, IsBlank, Put, LoginRequest, Parse, TokenOf;
  }

  lemma {:induction false} OneReceive(t: Tcp, call: Call)
    requires IsOpen(t) && call != Disconnect
    ensures var (u, reply) := Step(t, call);
            && IsOpen(u) && (u.stream <==> t.stream && !Loses(call))
            && Delivery(reply) == (if t.stream then Taken(call) else [])
            && (call.Receive? ==> Reports(t.stream, call.arrival, reply))
  {
    match call {
      case Receive(a) => ReceiveReports(t, a);
      case LogIn(account, password, w, arrivals) => LogInKeeps(t, account, password, w, arrivals);
      case _ =>
    }
    hide LoggedOn, Fetched, Reports, NormalizeTcpEndpoint, Put, HeartbeatPacket;
  }

  /**
   * Between two disconnects the packets that receives hand out are exactly those that arrive at them while there is a
   * socket, in order, and every receive reports what it met: the end of the stream as no packet, a failed read with
   * its error, a lost socket as a transport error from then on.
   */
  lemma {:induction false} ReceivesAreExact(t: Tcp, calls: seq<Call>)
    requires IsOpen(t) && Disconnect !in calls
    ensures |Replies(t, calls)| == |calls|
    ensures Handed(Replies(t, calls)) == Met(t.stream, calls)
    ensures forall i | 0 <= i < |calls| && calls[i].Receive? ::
              Reports(HasSocket(t.stream, calls, i), calls[i].arrival, Replies(t, calls)[i])
    decreases |calls|
  {
    if calls != [] {
      hide Step, Loses, Reports, IsOpen;
      assert calls[0] in calls;
      OneReceive(t, calls[0]);
      var u, rest := Step(t, calls[0]).0, calls[1..];
      ReceivesAreExact(u, rest);
      var replies := Replies(t, calls);
      assert replies[1..] == Replies(u, rest);
      forall i | 0 < i < |calls| && calls[i].Receive?
        ensures Reports(HasSocket(t.stream, calls, i), calls[i].arrival, replies[i])
      {
        assert calls[i] == rest[i - 1] && replies[i] == Replies(u, rest)[i - 1];
        assert HasSocket(u.stream, rest, i - 1) == HasSocket(t.stream, calls, i);
      }
    }
  }

  function ReceiveAll(arrivals: seq<Arrival>): seq<Call> {
    if arrivals == [] then [] else [Call.Receive(arrivals[0])] + ReceiveAll(arrivals[1..])
  }

  /** One receive after the other on a session with a socket: the packets that came before the socket was lost. */
  lemma {:induction false} ReceivesMeet(ps: seq<Packet>, rs: seq<Received>)
    requires |ps| == |rs|
    ensures Met(true, ReceiveAll(FromWire(rs))) == ps <==> rs == AllArrived(ps)
    ensures |Met(true, ReceiveAll(FromWire(rs)))| <= |rs|
  {
    if rs != [] {
      var arrivals := FromWire(rs);
      var calls := ReceiveAll(arrivals);
      assert arrivals[1..] == FromWire(rs[1..]) && calls[1..] == ReceiveAll(arrivals[1..]);
      assert rs == [rs[0]] + rs[1..] && ps == [ps[0]] + ps[1..];
      ReceivesMeet(ps[1..], rs[1..]);
      ArrivedCons(ps[0], ps[1..]);
      SameCons(rs[0], Arrived(ps[0]), rs[1..], AllArrived(ps[1..]));
      var more := Met(true, ReceiveAll(FromWire(rs[1..])));
      if rs[0].Arrived? {
        assert Met(true, calls) == [rs[0].packet] + more;
        SameCons(rs[0].packet, ps[0], more, ps[1..]);
      }
    }
  }

  lemma {:induction false} OnlyReceives(arrivals: seq<Arrival>)
    ensures forall c | c in ReceiveAll(arrivals) :: c.Receive?
  {
    if arrivals != [] { OnlyReceives(arrivals[1..]); }
  }

  /** From the bytes to the replies: receiving as often as there are packets hands out exactly these packets if and
      only if no read reaches past a line feed. */
  lemma {:induction false} ReceivesOverTheWire(t: Tcp, ps: seq<Packet>, fills: seq<pos>)
    requires IsOpen(t) && t.stream && Covers(Stream(ps), fills)
    ensures var calls := ReceiveAll(FromWire(Wire.Receive(|ps|, Stream(ps), fills)));
            Handed(Replies(t, calls)) == ps <==> Aligned(Stream(ps), fills)
  {
    hide Wire.Receive, Stream, Covers, Aligned, Handed, Replies, Met, ReceiveAll, FromWire, IsOpen;
    var rs := Wire.Receive(|ps|, Stream(ps), fills);
    var calls := ReceiveAll(FromWire(rs));
    OnlyReceives(FromWire(rs));
    ReceivesAreExact(t, calls);
    ReceiveLength(|ps|, Stream(ps), fills);
    ReceivesMeet(ps, rs);
    ReceiveExact(ps, fills);
  }

  lemma {:induction false} ReceiveLength(n: nat, net: seq<byte>, fills: seq<pos>)
    ensures |Wire.Receive(n, net, fills)| == n
  {
    hide ReadLine, Outcome;
    if n > 0 {
      match ReadLine(net, fills, [])
      case NoLine(net') => ReceiveLength(n - 1, net', []);
      case LineRead(_, net', fills') => ReceiveLength(n - 1, net', fills');
    }
  }

  lemma {:induction false} NoRead(net: seq<byte>)
    requires net != []
    ensures ReadLine(net, [], []).NoLine?
  {
  }

  /** What a line of bytes is worth to a receive: a transport error if it is no UTF-8, a protocol error if it is no
      packet, and otherwise its packet. */
  ghost predicate IsReplyTo(line: seq<byte>, reply: Reply) {
    reply == if forall s :: Bytes(s) != line then Failed(Transport)
             else if ParseBytes(line).None? then Failed(Protocol)
             else Next(ParseBytes(line))
  }

  lemma {:induction false} OutcomeIsReply(t: Tcp, line: seq<byte>)
    requires IsOpen(t) && t.stream && line != []
    ensures IsReplyTo(line, Step(t, Call.Receive(FromWire([Outcome(line)])[0])).1)
  {
    hide ParseBytes, FromUtf8;
    NoTextMeans(line);
    var reply := Step(t, Call.Receive(FromWire([Outcome(line)])[0])).1;
    if FromUtf8(line).None? {
      assert reply == Failed(Transport);
      assert forall s :: Bytes(s) != line;
    } else if ParseBytes(line).None? {
      assert reply == Failed(Protocol);
      assert !forall s :: Bytes(s) != line;
    } else {
      assert reply == Next(ParseBytes(line));
      assert !forall s :: Bytes(s) != line;
    }
  }

  lemma {:induction false} OneReceived(net: seq<byte>, fills: seq<pos>)
    ensures |Wire.Receive(1, net, fills)| == 1
    ensures ReadLine(net, fills, []).LineRead? ==>
              Wire.Receive(1, net, fills) == [Outcome(ReadLine(net, fills, []).line)]
  {
    hide ReadLine, Outcome;
    ReceiveLength(1, net, fills);
    if ReadLine(net, fills, []).LineRead? { FirstReceived(1, net, fills); }
  }

  /** The reply to one receive, from the bytes: what the line up to the line feed is worth, or, where the stream ends
      without one, what is left is worth. At the end of the stream there is no packet; without a read it times out. */
  lemma {:induction false} FirstReceive(t: Tcp, line: seq<byte>, rest: seq<byte>, fills: seq<pos>)
    requires IsOpen(t) && t.stream && LF_BYTE !in line
    ensures var net := line + [LF_BYTE] + rest;
            Covers(net, fills) ==>
              IsReplyTo(line + [LF_BYTE], Step(t, Call.Receive(FromWire(Wire.Receive(1, net, fills))[0])).1)
    ensures line != [] && Covers(line, fills) ==>
              IsReplyTo(line, Step(t, Call.Receive(FromWire(Wire.Receive(1, line, fills))[0])).1)
    ensures Step(t, Call.Receive(FromWire(Wire.Receive(1, [], fills))[0])).1 == Next(None)
    ensures Step(t, Call.Receive(FromWire(Wire.Receive(1, line + [LF_BYTE] + rest, []))[0])).1 == Failed(Timeout)
  {
    hide IsReplyTo, ReadLine, Outcome, Covers, Wire.Receive;
    var net := line + [LF_BYTE] + rest;
    if Covers(net, fills) {
      var left, fills' := ReadOneLine(line, rest, fills, []);
      assert [] + line + [LF_BYTE] == line + [LF_BYTE];
      OneReceived(net, fills);
      OutcomeIsReply(t, line + [LF_BYTE]);
    }
    if line != [] && Covers(line, fills) {
      var fills' := ReadUnended(line, fills, []);
      assert [] + line == line;
      OneReceived(line, fills);
      OutcomeIsReply(t, line);
    }
    OneReceived([], fills);
    OneReceived(net, []);
    NothingReceived(1, [], fills);
    NoRead(net);
    NothingReceived(1, net, []);
  }
}
