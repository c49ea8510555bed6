/** The in-memory QQ client. Every call is one step on the value of its seven fields. */
module MockClient {
  import opened Wrappers
  import opened Strings
  import opened JsonText
  import opened Messages
  import opened Wire
  import opened ClientTypes

  datatype Client = Client(
    endpoint: Option<string>, token: Option<string>, state: State, beaten: bool, timeoutMs: u64,
    sent: seq<Packet>, inbound: seq<Packet>)

  const Fresh := Client(None, None, Disconnected, false, DEFAULT_TIMEOUT_MS, [], [])

  /** The public calls; an interval is a `Duration` in nanoseconds. */
  datatype Call =
    | Connect(endpoint: string, timeoutMs: u64)
    | LogIn(account: string, password: string)
    | Send(packet: Packet)
    | Receive
    | Heartbeat(nanos: nat)
    | Disconnect
    | Inject(injected: Packet)

  datatype Reply = Done | Ticket(text: string) | Got(next: Option<Packet>) | Failed(error: ClientError)

  function Session(c: Client): Result<bool, ClientError> {
    if c.timeoutMs == 0 then Failure(Timeout) else Success(c.state.LoggedIn?)
  }

  /** Why the client refuses a call, if it does: the guards of the seven operations. */
  function Refusal(c: Client, call: Call): Option<ClientError> {
    match call
    case Connect(endpoint, _) =>
      if IsBlank(endpoint) then Some(Transport)
      else if c.state.LoggedIn? then Some(InvalidState)
      else None
    case LogIn(account, password) =>
      if !c.state.Connected? then Some(InvalidState)
      else if IsBlank(account) || IsBlank(password) then Some(Login)
      else None
    case Send(_) =>
      if c.timeoutMs == 0 then Some(Timeout) else if !c.state.LoggedIn? then Some(InvalidState) else None
    case Heartbeat(nanos) =>
      if c.timeoutMs == 0 then Some(Timeout)
      else if !c.state.LoggedIn? then Some(InvalidState)
      else if nanos == 0 || Millis(nanos) >= U64_END then Some(Timeout)
      else None
    case _ => None
  }

  /** The effect of a call the client does not refuse. */
  function Effect(c: Client, call: Call): Client
    requires Refusal(c, call).None?
  {
    match call
    case Connect(endpoint, ms) => c.(state := Connected, endpoint := Some(endpoint), timeoutMs := ms)
    case LogIn(account, _) => c.(token := Some("mock-token-" + account), state := LoggedIn)
    case Send(p) => c.(sent := c.sent + [p])
    case Receive => if c.inbound == [] then c else c.(inbound := c.inbound[1..])
    case Heartbeat(nanos) => c.(beaten := true, timeoutMs := Millis(nanos))
    case Disconnect =>
      c.(state := Disconnected, sent := [], inbound := [], endpoint := None, token := None, beaten := false)
    case Inject(p) => c.(inbound := c.inbound + [p])
  }

  function Next(c: Client, call: Call): Client {
    if Refusal(c, call).Some? then c else Effect(c, call)
  }

  function Answer(c: Client, call: Call): Reply {
    if Refusal(c, call).Some? then Failed(Refusal(c, call).value)
    else
      match call
      case LogIn(account, _) => Ticket(account + ":logged-in")
      case Receive => Got(if c.inbound == [] then None else Some(c.inbound[0]))
      case _ => Done
  }

  function Run(c: Client, calls: seq<Call>): Client
    decreases |calls|
  {
    if calls == [] then c else Run(Next(c, calls[0]), calls[1..])
  }

  function Answers(c: Client, calls: seq<Call>): seq<Reply>
    decreases |calls|
  {
    if calls == [] then [] else [Answer(c, calls[0])] + Answers(Next(c, calls[0]), calls[1..])
  }

  // ---------------------------------------------------------------- the object

  class MockQQClient {
    var endpoint: Option<string>
    var token: Option<string>
    var state: State
    var beaten: bool
    var timeoutMs: u64
    var sent: seq<Packet>
    var inbound: seq<Packet>

    function Value(): Client
      reads this
    {
      Client(endpoint, token, state, beaten, timeoutMs, sent, inbound)
    }

    constructor ()
      ensures Value() == Fresh
      ensures endpoint.None? && token.None? && state.Disconnected? && !beaten && sent == [] && inbound == []
      ensures timeoutMs == 2_000
    {
      endpoint, token, state, beaten := None, None, Disconnected, false;
      timeoutMs, sent, inbound := DEFAULT_TIMEOUT_MS, [], [];
    }

    method Connect(target: string, timeout: u64) returns (r: Reply)
      modifies this
      ensures Value() == Next(old(Value()), Call.Connect(target, timeout))
      ensures r == Answer(old(Value()), Call.Connect(target, timeout))
    {
      if Trim(target) == "" { return Failed(Transport); }
      if state.LoggedIn? { return Failed(InvalidState); }
      state := Connected;
      endpoint := Some(target);
      timeoutMs := timeout;
      r := Done;
    }

    method LogIn(account: string, password: string) returns (r: Reply)
      modifies this
      ensures Value() == Next(old(Value()), Call.LogIn(account, password))
      ensures r == Answer(old(Value()), Call.LogIn(account, password))
    {
      if !state.Connected? { return Failed(InvalidState); }
      if Trim(account) == "" || Trim(password) == "" { return Failed(Login); }
      token := Some("mock-token-" + account);
      state := LoggedIn;
      r := Ticket(account + ":logged-in");
    }

    method IsLoggedIn() returns (r: Result<bool, ClientError>)
      ensures r == Session(Value())
    {
      if timeoutMs == 0 { return Failure(Timeout); }
      r := Success(state.LoggedIn?);
    }

    method Send(packet: Packet) returns (r: Reply)
      modifies this
      ensures Value() == Next(old(Value()), Call.Send(packet))
      ensures r == Answer(old(Value()), Call.Send(packet))
    {
      var session := IsLoggedIn();
      if session.Failure? { return Failed(session.error); }
      if !session.value { return Failed(InvalidState); }
      sent := sent + [packet];
      r := Done;
    }

    method Receive() returns (r: Reply)
      modifies this
      ensures Value() == Next(old(Value()), Call.Receive)
      ensures r == Answer(old(Value()), Call.Receive)
    {
      if inbound == [] { return Got(None); }
      r := Got(Some(inbound[0]));
      inbound := inbound[1..];
    }

    method Heartbeat(nanos: nat) returns (r: Reply)
      modifies this
      ensures Value() == Next(old(Value()), Call.Heartbeat(nanos))
      ensures r == Answer(old(Value()), Call.Heartbeat(nanos))
    {
      var session := IsLoggedIn();
      if session.Failure? { return Failed(session.error); }
      if !session.value { return Failed(InvalidState); }
      if nanos == 0 || Millis(nanos) >= U64_END { return Failed(Timeout); }
      beaten := true;
      timeoutMs := Millis(nanos);
      r := Done;
    }

    method Disconnect()
      modifies this
      ensures Value() == Next(old(Value()), Call.Disconnect)
    {
      state := Disconnected;
      sent, inbound := [], [];
      endpoint, token, beaten := None, None, false;
    }

    method Inject(packet: Packet)
      modifies this
      ensures Value() == Next(old(Value()), Call.Inject(packet))
    {
      inbound := inbound + [packet];
    }
  }

  /** Which error stops a call, and what an accepted one does. */
  lemma {:induction false} Refusals(c: Client, call: Call)
    ensures var (d, reply) := (Next(c, call), Answer(c, call));
            && (reply.Failed? ==> d == c)
            && match call
               case Connect(endpoint, ms) =>
                 && (reply == Failed(Transport) <==> IsBlank(endpoint))
                 && (reply == Failed(InvalidState) <==> !IsBlank(endpoint) && c.state.LoggedIn?)
                 && (reply == Done <==> !IsBlank(endpoint) && !c.state.LoggedIn?)
                 && (reply == Done ==> d == c.(state := Connected, endpoint := Some(endpoint), timeoutMs := ms))
               case LogIn(account, password) =>
                 var blank := IsBlank(account) || IsBlank(password);
                 && (reply == Failed(InvalidState) <==> !c.state.Connected?)
                 && (reply == Failed(Login) <==> c.state.Connected? && blank)
                 && (reply == Ticket(account + ":logged-in") <==> c.state.Connected? && !blank)
                 && (reply.Ticket? ==> d == c.(token := Some("mock-token-" + account), state := LoggedIn))
               case Send(p) =>
                 && (reply == Failed(Timeout) <==> c.timeoutMs == 0)
                 && (reply == Failed(InvalidState) <==> c.timeoutMs > 0 && !c.state.LoggedIn?)
                 && (reply == Done <==> c.timeoutMs > 0 && c.state.LoggedIn?)
               case Heartbeat(nanos) =>
                 var long := nanos >= 0x1_0000_0000_0000_0000 * 1_000_000;
                 && (reply == Failed(InvalidState) <==> c.timeoutMs > 0 && !c.state.LoggedIn?)
                 && (reply == Failed(Timeout) <==> c.timeoutMs == 0 || (c.state.LoggedIn? && (nanos == 0 || long)))
                 && (reply == Done <==> c.timeoutMs > 0 && c.state.LoggedIn? && nanos > 0 && !long)
                 && (reply == Done ==> d == c.(beaten := true, timeoutMs := nanos / 1_000_000))
               case Disconnect => reply == Done && d == Fresh.(timeoutMs := c.timeoutMs)
               case _ => !reply.Failed?
    ensures Session(c) == if c.timeoutMs == 0 then Failure(Timeout) else Success(c.state == LoggedIn)
  {
    hide IsBlank;
  }

  // ---------------------------------------------------------------- whole runs

  predicate Coherent(c: Client) {
    && (c.token.Some? <==> c.state.LoggedIn?)
    && (c.endpoint.Some? <==> !c.state.Disconnected?)
    && (c.endpoint.Some? ==> !IsBlank(c.endpoint.value))
    && (c.sent != [] || c.beaten ==> c.state.LoggedIn?)
    && !c.state.Closing?
  }

  /** Whatever is called, in whatever order and with whatever failures, the seven fields agree. */
  lemma {:induction false} EveryRunIsCoherent(c: Client, calls: seq<Call>)
    requires Coherent(c)
    ensures Coherent(Run(c, calls))
    decreases |calls|
  {
    if calls != [] {
      hide IsBlank;
      EveryRunIsCoherent(Next(c, calls[0]), calls[1..]);
    }
  }

  /** A call that is accepted and leaves the client with a timeout of zero. */
  predicate SetsZero(c: Client, call: Call) {
    && Refusal(c, call).None?
    && ((call.Connect? && call.timeoutMs == 0) || (call.Heartbeat? && call.nanos < 1_000_000))
  }

  function Prefix(c: Client, calls: seq<Call>, n: nat): Client
    requires n <= |calls|
  {
    Run(c, calls[..n])
  }

  lemma {:induction false} PrefixShift(c: Client, calls: seq<Call>, n: nat)
    requires n < |calls|
    ensures Prefix(c, calls, n + 1) == Prefix(Next(c, calls[0]), calls[1..], n)
  {
    assert calls[..n + 1][1..] == calls[1..][..n];
  }

  predicate NoneSetsZero(c: Client, calls: seq<Call>)
    decreases |calls|
  {
    calls == [] || (!SetsZero(c, calls[0]) && NoneSetsZero(Next(c, calls[0]), calls[1..]))
  }

  /**
   * The timeout stays positive exactly when no accepted connect asks for 0 ms and no accepted heartbeat
   * has an interval below one millisecond: such an interval is not zero, but its whole milliseconds are.
   */
  lemma {:induction false} TimeoutStaysPositive(c: Client, calls: seq<Call>)
    requires c.timeoutMs > 0
    ensures NoneSetsZero(c, calls) <==> forall n | 0 <= n <= |calls| :: Prefix(c, calls, n).timeoutMs > 0
    decreases |calls|
  {
    if calls != [] {
      var d, rest := Next(c, calls[0]), calls[1..];
      assert d.timeoutMs == 0 <==> SetsZero(c, calls[0]);
      forall n | 0 < n <= |calls| ensures Prefix(c, calls, n) == Prefix(d, rest, n - 1) {
        PrefixShift(c, calls, n - 1);
      }
      assert calls[..1][1..] == [] && Prefix(c, calls, 1) == d;
      if d.timeoutMs > 0 {
        TimeoutStaysPositive(d, rest);
        forall n | 0 <= n <= |rest| ensures Prefix(d, rest, n) == Prefix(c, calls, n + 1) {
          PrefixShift(c, calls, n);
        }
      }
    }
  }

  /** Every send and heartbeat among the replies has failed with a timeout. */
  predicate Starved(calls: seq<Call>, replies: seq<Reply>)
    requires |calls| == |replies|
  {
    forall i | 0 <= i < |calls| && (calls[i].Send? || calls[i].Heartbeat?) :: replies[i] == Failed(Timeout)
  }

  lemma {:induction false} AnswersLength(c: Client, calls: seq<Call>)
    ensures |Answers(c, calls)| == |calls|
    decreases |calls|
  {
    if calls != [] { AnswersLength(Next(c, calls[0]), calls[1..]); }
  }

  /**
   * A heartbeat below one millisecond is accepted and wedges the session: until the caller disconnects,
   * the client still says it is logged in, yet every send and every further heartbeat times out.
   */
  lemma {:induction false} ShortHeartbeatWedges(c: Client, nanos: nat, calls: seq<Call>)
    requires Coherent(c) && c.state.LoggedIn? && c.timeoutMs > 0
    requires 0 < nanos < 1_000_000
    requires Disconnect !in calls
    ensures Answer(c, Heartbeat(nanos)) == Done
    ensures var d := Next(c, Heartbeat(nanos));
            && |Answers(d, calls)| == |calls| && Starved(calls, Answers(d, calls))
            && Run(d, calls).state.LoggedIn?
  {
    WedgedStays(Next(c, Heartbeat(nanos)), calls);
  }

  lemma {:induction false} WedgedStays(c: Client, calls: seq<Call>)
    requires c.state.LoggedIn? && c.timeoutMs == 0
    requires Disconnect !in calls
    ensures |Answers(c, calls)| == |calls| && Starved(calls, Answers(c, calls))
    ensures Run(c, calls).state.LoggedIn?
    decreases |calls|
  {
    if calls != [] {
      assert calls[0] in calls;
      WedgedStays(Next(c, calls[0]), calls[1..]);
      AnswersLength(Next(c, calls[0]), calls[1..]);
    }
  }

  // ---------------------------------------------------------------- the two queues

  function Arrival(call: Call): seq<Packet> {
    if call.Inject? then [call.injected] else []
  }

  function Delivery(reply: Reply): seq<Packet> {
    if reply.Got? && reply.next.Some? then [reply.next.value] else []
  }

  function Acceptance(call: Call, reply: Reply): seq<Packet> {
    if call.Send? && reply.Done? then [call.packet] else []
  }

  function Injected(calls: seq<Call>): seq<Packet> {
    if calls == [] then []
    else Arrival(calls[0]) + Injected(calls[1..])
  }

  /** The packets handed out by successful receives, in order. */
  function Handed(replies: seq<Reply>): seq<Packet> {
    if replies == [] then []
    else Delivery(replies[0]) + Handed(replies[1..])
  }

  /** The packets of the sends that were answered `Done`, in order. */
  function Accepted(calls: seq<Call>, replies: seq<Reply>): seq<Packet>
    requires |calls| == |replies|
  {
    if calls == [] then []
    else Acceptance(calls[0], replies[0]) + Accepted(calls[1..], replies[1..])
  }

  lemma {:induction false} OneCall(c: Client, call: Call)
    requires call != Disconnect
    ensures Delivery(Answer(c, call)) + Next(c, call).inbound == c.inbound + Arrival(call)
    ensures Next(c, call).sent == c.sent + Acceptance(call, Answer(c, call))
  {
  }

  lemma {:induction false} Regroup<T>(o: seq<T>, h: seq<T>, r: seq<T>, d: seq<T>, i: seq<T>, c: seq<T>, n: seq<T>)
    requires o + d == c + n && h + r == d + i
    ensures o + h + r == c + (n + i)
  {
    assert o + h + r == o + (h + r) == (o + d) + i == (c + n) + i == c + (n + i);
  }

  /** Between two disconnects both queues are exact: nothing is lost, repeated or reordered, refused
      calls add nothing. */
  lemma {:induction false} QueuesAreExact(c: Client, calls: seq<Call>)
    requires Disconnect !in calls
    ensures |Answers(c, calls)| == |calls|
    ensures Handed(Answers(c, calls)) + Run(c, calls).inbound == c.inbound + Injected(calls)
    ensures Run(c, calls).sent == c.sent + Accepted(calls, Answers(c, calls))
    decreases |calls|
  {
    AnswersLength(c, calls);
    if calls != [] {
      var d, rest := Next(c, calls[0]), calls[1..];
      assert calls[0] in calls;
      AnswersLength(d, rest);
      QueuesAreExact(d, rest);
      OneCall(c, calls[0]);
      hide IsBlank, Next, Answer;
      var replies := Answers(c, calls);
      assert replies[1..] == Answers(d, rest);
      Regroup(Delivery(replies[0]), Handed(replies[1..]), Run(d, rest).inbound, d.inbound, Injected(rest),
              c.inbound, Arrival(calls[0]));
      assert c.sent + (Acceptance(calls[0], replies[0]) + Accepted(rest, replies[1..]))
             == (c.sent + Acceptance(calls[0], replies[0])) + Accepted(rest, replies[1..]);
    }
  }
}
