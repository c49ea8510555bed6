/** The TCP QQ client: a session over one socket. What the network does with a call is part of the call. */
module TcpClient {
  import opened Sequences
  import opened Wrappers
  import opened Strings
  import opened JsonText
  import opened JsonLaws
  import opened Messages
  import opened Utf8
  import opened Wire
  import opened WireCuts
  import opened ClientTypes

  /** What one receive meets: a packet, the end of the stream, a failed read (time-out, I/O error, malformed line),
      or a socket that cannot be split for reading and is dropped. */
  datatype Arrival = Got(packet: Packet) | End | ReadFailed(error: ClientError) | SocketLost

  /** What one write meets: everything goes out, or only the first `k` bytes before it fails. */
  datatype Write = Written | Cut(k: nat, error: ClientError)

  // ---------------------------------------------------------------- the login acknowledgement

  const ACK_TRIES := 4

  /** When nothing more arrives, the receive times out. */
  function ArrivalAt(arrivals: seq<Arrival>, i: nat): Arrival {
    if i < |arrivals| then arrivals[i] else ReadFailed(Timeout)
  }

  /** Packets the acknowledgement loop skips. */
  predicate Passes(a: Arrival) {
    a.Got? && a.packet.route != "auth.ok" && a.packet.route != "system.error"
  }

  /** The member `token` when it is a string, else the word session. */
  function TokenOf(payload: Json): string
    requires Ranged(payload)
  {
    var v := ToValue(payload);
    var token := if v.JObj? then StringField(v.entries, "token") else None;
    if token.Some? then token.value else "session"
  }

  predicate IsGoodAck(a: Arrival) {
    a.Got? && a.packet.route == "auth.ok" && Parse(a.packet.payload).Some?
  }

  /** What an arrival that is not skipped means for the login. */
  function Verdict(a: Arrival): Result<string, ClientError> {
    match a
    case Got(p) =>
      if p.route == "auth.ok" then
        (var payload := Parse(p.payload);
         if payload.None? then Failure(Protocol) else Success(TokenOf(payload.value)))
      else Failure(Login)
    case End => Failure(Timeout)
    case ReadFailed(error) => Failure(error)
    case SocketLost => Failure(Transport)
  }

  datatype Ack = Ack(result: Result<string, ClientError>, taken: nat)

  function AckFrom(arrivals: seq<Arrival>, i: nat): Ack
    requires i <= ACK_TRIES
    decreases ACK_TRIES - i
  {
    if i == ACK_TRIES then Ack(Failure(Timeout), ACK_TRIES)
    else if Passes(ArrivalAt(arrivals, i)) then AckFrom(arrivals, i + 1)
    else Ack(Verdict(ArrivalAt(arrivals, i)), i + 1)
  }

  /** Arrival `i` is the first one that is not skipped. */
  predicate Decides(arrivals: seq<Arrival>, i: nat) {
    !Passes(ArrivalAt(arrivals, i)) && forall j | 0 <= j < i :: Passes(ArrivalAt(arrivals, j))
  }

  lemma {:induction false} AckFromDecider(arrivals: seq<Arrival>, i: nat, d: nat)
    requires i <= d < ACK_TRIES && Decides(arrivals, d)
    ensures AckFrom(arrivals, i) == Ack(Verdict(ArrivalAt(arrivals, d)), d + 1)
    decreases d - i
  {
    if i < d {
      assert Passes(ArrivalAt(arrivals, i));
      AckFromDecider(arrivals, i + 1, d);
    }
  }

  lemma {:induction false} AckFromNothing(arrivals: seq<Arrival>, i: nat)
    requires i <= ACK_TRIES && forall j | 0 <= j < ACK_TRIES :: Passes(ArrivalAt(arrivals, j))
    ensures AckFrom(arrivals, i) == Ack(Failure(Timeout), ACK_TRIES)
    decreases ACK_TRIES - i
  {
    if i < ACK_TRIES { AckFromNothing(arrivals, i + 1); }
  }

  lemma {:induction false} FirstDecider(arrivals: seq<Arrival>, n: nat) returns (d: nat)
    ensures d <= n && forall j | 0 <= j < d :: Passes(ArrivalAt(arrivals, j))
    ensures d < n ==> Decides(arrivals, d)
  {
    d := 0;
    while d < n && Passes(ArrivalAt(arrivals, d))
      invariant d <= n && forall j | 0 <= j < d :: Passes(ArrivalAt(arrivals, j))
    {
      d := d + 1;
    }
  }

  /**
   * The login succeeds exactly when a well-formed `auth.ok` is among the first four arrivals with nothing but skipped
   * packets before it, and then with that packet's token. It takes the deciding arrival and none after it.
   */
  lemma {:induction false} LoginAcknowledged(arrivals: seq<Arrival>)
    ensures var ack := AckFrom(arrivals, 0);
            && (ack.result.Success? <==>
                exists i | 0 <= i < 4 :: Decides(arrivals, i) && IsGoodAck(ArrivalAt(arrivals, i)))
            && (forall i | 0 <= i < 4 && Decides(arrivals, i) ::
                  ack.taken == i + 1 && ack.result == Verdict(ArrivalAt(arrivals, i)))
            && ((forall i | 0 <= i < 4 :: !Decides(arrivals, i)) ==>
                  ack == Ack(Failure(Timeout), 4))
  {
    hide Parse, TokenOf;
    var d := FirstDecider(arrivals, ACK_TRIES);
    forall i | 0 <= i < ACK_TRIES && Decides(arrivals, i)
      ensures AckFrom(arrivals, 0) == Ack(Verdict(ArrivalAt(arrivals, i)), i + 1)
    {
      AckFromDecider(arrivals, 0, i);
    }
    if d < ACK_TRIES {
      assert Decides(arrivals, d);
    } else {
      AckFromNothing(arrivals, 0);
    }
  }

  /** What arrives behind the deciding packet has no influence: it is still there for the next receive. */
  lemma {:induction false} AckIgnoresTheRest(arrivals: seq<Arrival>, others: seq<Arrival>)
    requires AckFrom(arrivals, 0).taken <= |arrivals|
    ensures AckFrom(arrivals[..AckFrom(arrivals, 0).taken] + others, 0) == AckFrom(arrivals, 0)
  {
    hide Parse, Verdict;
    var n := AckFrom(arrivals, 0).taken;
    var mixed := arrivals[..n] + others;
    var d := FirstDecider(arrivals, ACK_TRIES);
    if d < ACK_TRIES { AckFromDecider(arrivals, 0, d); } else { AckFromNothing(arrivals, 0); }
    assert forall j | 0 <= j < n :: ArrivalAt(mixed, j) == ArrivalAt(arrivals, j);
    if d < ACK_TRIES {
      assert Decides(mixed, d);
      AckFromDecider(mixed, 0, d);
    } else {
      AckFromNothing(mixed, 0);
    }
  }

  /** The last member `token` is the string `token`; a document that is no object has no members. */
  ghost predicate NamesToken(payload: Json, token: string) {
    && payload.JObj?
    && exists i: nat :: IsLastNamed(payload.entries, "token", i) && payload.entries[i].value == JStr(token)
  }

  /** Whatever other members stand around it, in whatever order and how often: the last member `token`, if it is a
      string, is the token. Otherwise the token is the word session. */
  lemma {:induction false} TokenIsLastMember(payload: Json, token: string)
    requires Ranged(payload)
    ensures NamesToken(payload, token) ==> TokenOf(payload) == token
    ensures (forall t :: !NamesToken(payload, t)) ==> TokenOf(payload) == "session"
  {
    hide Find, ToMap, IsLastNamed;
    if payload.JObj? {
      var es := payload.entries;
      var v := ToMap(es);
      forall t ensures NamesToken(payload, t) <==> Find(v, "token") == Found(JStr(t)) {
        ToMapExact(es, "token", JStr(t));
        FindInMap(v, "token", JStr(t));
        StringStays(es, t);
      }
    }
  }

  /** Reading as a value keeps strings and makes none. */
  lemma {:induction false} StringStays(es: seq<Entry>, t: string)
    requires forall e | e in es :: Ranged(e.value)
    ensures forall i: nat | i < |es| :: ToValue(es[i].value) == JStr(t) <==> es[i].value == JStr(t)
  {
  }

  function AckPacket(es: seq<Entry>): Packet {
    Packet("auth.ok", Print(JObj(es)))
  }

  /** A server that answers with an object that names a token gets exactly that token stored. */
  lemma {:induction false} TokenRoundTrip(es: seq<Entry>, token: string)
    requires var j := JObj(es); Ranged(j) && FloatFree(j) && Depth(j) <= MAX_DEPTH && NamesToken(j, token)
    ensures Verdict(Got(AckPacket(es))) == Success(token)
  {
    hide Parse, Print, TokenOf, NamesToken, Ranged, FloatFree, Depth;
    DocumentRoundTrip(JObj(es));
    TokenIsLastMember(JObj(es), token);
  }

  /** What the receive function makes of the stream, as arrivals. */
  function FromWire(rs: seq<Received>): seq<Arrival> {
    seq(|rs|, i requires 0 <= i < |rs| =>
      match rs[i]
      case Arrived(p) => Got(p)
      case EndOfStream => End
      case TimedOut => ReadFailed(Timeout)
      case NotText => ReadFailed(Transport)
      case Malformed => ReadFailed(Protocol))
  }

  /** From the bytes to the token: at most three other packets, then the acknowledgement, then anything,
      cut into reads that respect the lines. The login gets the server's token and leaves everything behind
      the acknowledgement. */
  lemma {:induction false} LoginOverTheWire(
    before: seq<Packet>, es: seq<Entry>, token: string, after: seq<Packet>, fills: seq<pos>)
    requires |before| < ACK_TRIES && forall p | p in before :: Passes(Got(p))
    requires var j := JObj(es); Ranged(j) && FloatFree(j) && Depth(j) <= MAX_DEPTH && NamesToken(j, token)
    requires var s := Stream(before + [AckPacket(es)] + after); Covers(s, fills) && Aligned(s, fills)
    ensures var ps := before + [AckPacket(es)] + after;
            AckFrom(FromWire(Wire.Receive(|ps|, Stream(ps), fills)), 0) == Ack(Success(token), |before| + 1)
  {
    hide Wire.Receive, Stream, Verdict, Covers, Aligned, NamesToken, Ranged, FloatFree, Depth;
    var ps := before + [AckPacket(es)] + after;
    ReceiveExact(ps, fills);
    var arrivals := FromWire(Wire.Receive(|ps|, Stream(ps), fills));
    var d := |before|;
    forall j | 0 <= j <= d ensures ArrivalAt(arrivals, j) == Got(ps[j]) && (j < d ==> ps[j] in before) {}
    TokenRoundTrip(es, token);
    AckFromDecider(arrivals, 0, d);
  }

  // ---------------------------------------------------------------- the session

  /** `stream` says whether there is a socket; `wire` is everything written on the current or last connection. */
  datatype Tcp = Tcp(
    endpoint: Option<string>, token: Option<string>, state: State, beaten: bool, timeoutMs: u64,
    stream: bool, wire: seq<byte>)

  const Fresh := Tcp(None, None, Disconnected, false, DEFAULT_TIMEOUT_MS, false, [])

  datatype Call =
    | Connect(endpoint: string, timeoutMs: u64, dialError: Option<ClientError>)
    | LogIn(account: string, password: string, write: Write, arrivals: seq<Arrival>)
    | Send(packet: Packet, write: Write)
    | Receive(arrival: Arrival)
    | Heartbeat(nanos: nat, write: Write)
    | Disconnect

  datatype Reply = Done | Ticket(token: string) | Next(packet: Option<Packet>) | Failed(error: ClientError) | Panicked

  predicate IsOpen(t: Tcp) {
    t.state.Connected? || t.state.LoggedIn?
  }

  /** The credentials as a `serde_json` map, whose keys are in order. */
  function LoginRequest(account: string, password: string): Packet {
    Packet("auth.login", Print(JObj([Entry("account", JStr(account)), Entry("password", JStr(password))])))
  }

  function HeartbeatPacket(ms: nat): Packet {
    Packet("system.heartbeat", Print(JObj([Entry("interval_ms", JNum(ms))])))
  }

  function PostingOf(p: Packet, w: Write): Posting {
    Posting(p, if w.Written? then |LineBytes(p)| + 1 else w.k, w.Written?)
  }

  /** What has gone out after an attempt to write one line. */
  function Put(wire: seq<byte>, p: Packet, w: Write): seq<byte> {
    wire + Piece(PostingOf(p, w))
  }

  function Sent(t: Tcp, p: Packet, w: Write): (Tcp, Reply) {
    if !t.state.LoggedIn? || !t.stream then (t, Failed(InvalidState))
    else (t.(wire := Put(t.wire, p, w)), if w.Written? then Done else Failed(w.error))
  }

  function Connected(t: Tcp, endpoint: string, timeoutMs: u64, dialError: Option<ClientError>): (Tcp, Reply) {
    if IsOpen(t) then (t, Failed(InvalidState))
    else if NormalizeTcpEndpoint(endpoint).Failure? then (t, Failed(NormalizeTcpEndpoint(endpoint).error))
    else if dialError.Some? then (t, Failed(dialError.value))
    else
      (t.(endpoint := Some(endpoint), timeoutMs := EffectiveTimeout(timeoutMs), stream := true, wire := [],
          state := State.Connected),
       Done)
  }

  function LoggedOn(t: Tcp, account: string, password: string, w: Write, arrivals: seq<Arrival>): (Tcp, Reply) {
    if !IsOpen(t) then (t, Failed(InvalidState))
    else if IsBlank(account) || IsBlank(password) then (t, Failed(Login))
    else if !t.stream then (t, Failed(InvalidState))
    else
      var u := t.(wire := Put(t.wire, LoginRequest(account, password), w));
      if w.Cut? then (u, Failed(w.error))
      else
        var ack := AckFrom(arrivals, 0);
        if ack.result.Failure? then
          (if ArrivalAt(arrivals, ack.taken - 1).SocketLost? then u.(stream := false) else u, Failed(ack.result.error))
        else (u.(token := Some(ack.result.value), state := LoggedIn), Ticket(ack.result.value))
  }

  function Fetched(t: Tcp, a: Arrival): (Tcp, Reply) {
    if !IsOpen(t) then (t, Next(None))
    else if !t.stream then (t, Failed(Transport))
    else
      match a
      case Got(p) => (t, Next(Some(p)))
      case End => (t, Next(None))
      case ReadFailed(error) => (t, Failed(error))
      case SocketLost => (t.(stream := false), Failed(Transport))
  }

  /** An interval of 2^64 ms or more makes the `json!` macro panic before anything is sent. */
  function Beaten(t: Tcp, nanos: nat, w: Write): (Tcp, Reply) {
    if !IsOpen(t) then (t, Failed(InvalidState))
    else if nanos == 0 then (t, Failed(Timeout))
    else if Millis(nanos) >= U64_END then (t, Panicked)
    else
      var (u, reply) := Sent(t, HeartbeatPacket(Millis(nanos)), w);
      if reply.Done? then (u.(beaten := true, timeoutMs := Millis(nanos)), Done) else (u, reply)
  }

  function Step(t: Tcp, call: Call): (Tcp, Reply) {
    match call
    case Connect(endpoint, ms, dialError) => Connected(t, endpoint, ms, dialError)
    case LogIn(account, password, w, arrivals) => LoggedOn(t, account, password, w, arrivals)
    case Send(p, w) => Sent(t, p, w)
    case Receive(a) => Fetched(t, a)
    case Heartbeat(nanos, w) => Beaten(t, nanos, w)
    case Disconnect =>
      (t.(endpoint := None, token := None, state := Disconnected, beaten := false, stream := false), Done)
  }

  function Run(t: Tcp, calls: seq<Call>): Tcp
    decreases |calls|
  {
    if calls == [] then t else Run(Step(t, calls[0]).0, calls[1..])
  }

  // ---------------------------------------------------------------- the object

  class TcpQQClient {
    var endpoint: Option<string>
    var token: Option<string>
    var state: State
    var beaten: bool
    var timeoutMs: u64
    var stream: bool
    var wire: seq<byte>

    function Value(): Tcp
      reads this
    {
      Tcp(endpoint, token, state, beaten, timeoutMs, stream, wire)
    }

    constructor ()
      ensures Value() == Fresh
      ensures endpoint.None? && token.None? && state.Disconnected? && !beaten && !stream && wire == []
      ensures timeoutMs == 2_000
    {
      endpoint, token, state, beaten := None, None, Disconnected, false;
      timeoutMs, stream, wire := DEFAULT_TIMEOUT_MS, false, [];
    }

    method Connect(target: string, timeout: u64, dialError: Option<ClientError>) returns (r: Reply)
      modifies this
      ensures (Value(), r) == Step(old(Value()), Call.Connect(target, timeout, dialError))
    {
      hide NormalizeTcpEndpoint;
      if state.Connected? || state.LoggedIn? { return Failed(InvalidState); }
      var address := NormalizeTcpEndpoint(target);
      if address.Failure? { return Failed(address.error); }
      if dialError.Some? { return Failed(dialError.value); }
      endpoint := Some(target);
      timeoutMs := EffectiveTimeout(timeout);
      stream, wire := true, [];
      state := State.Connected;
      r := Done;
    }

    /** At most four receives. `taken` counts them; only the deciding one can store a token or lose the socket. */
    method WaitForLoginAck(arrivals: seq<Arrival>) returns (r: Result<string, ClientError>, taken: nat)
      requires stream
      modifies this`token, this`stream
      ensures Ack(r, taken) == AckFrom(arrivals, 0)
      ensures token == if r.Success? then Some(r.value) else old(token)
      ensures stream == if ArrivalAt(arrivals, taken - 1).SocketLost? then false else old(stream)
      ensures r.Success? ==> stream
    {
      var i := 0;
      while i < ACK_TRIES
        invariant i <= ACK_TRIES
        invariant AckFrom(arrivals, 0) == AckFrom(arrivals, i)
        invariant i > 0 ==> Passes(ArrivalAt(arrivals, i - 1))
        invariant token == old(token) && stream == old(stream)
      {
        var arrival := ArrivalAt(arrivals, i);
        i := i + 1;
        match arrival
        case SocketLost =>
          stream := false;
          return Failure(Transport), i;
        case ReadFailed(error) => return Failure(error), i;
        case End => return Failure(Timeout), i;
        case Got(packet) =>
          if packet.route == "auth.ok" {
            var payload := Parse(packet.payload);
            if payload.None? { return Failure(Protocol), i; }
            token := Some(TokenOf(payload.value));
            return Success(TokenOf(payload.value)), i;
          }
          if packet.route == "system.error" { return Failure(Login), i; }
      }
      r, taken := Failure(Timeout), ACK_TRIES;
    }

    method LogIn(account: string, password: string, write: Write, arrivals: seq<Arrival>) returns (r: Reply)
      modifies this
      ensures (Value(), r) == Step(old(Value()), Call.LogIn(account, password, write, arrivals))
    {
      hide Trim, Put, LoginRequest, AckFrom, ArrivalAt;
      if !(state.Connected? || state.LoggedIn?) { return Failed(InvalidState); }
      if Trim(account) == "" || Trim(password) == "" { return Failed(Login); }
      if !stream { return Failed(InvalidState); }
      wire := Put(wire, LoginRequest(account, password), write);
      if write.Cut? { return Failed(write.error); }
      var ack, _ := WaitForLoginAck(arrivals);
      if ack.Failure? { return Failed(ack.error); }
      state := LoggedIn;
      r := Ticket(ack.value);
    }

    method Send(packet: Packet, write: Write) returns (r: Reply)
      modifies this`wire
      ensures (Value(), r) == Step(old(Value()), Call.Send(packet, write))
    {
      if !state.LoggedIn? { return Failed(InvalidState); }
      if !stream { return Failed(InvalidState); }
      wire := Put(wire, packet, write);
      r := if write.Written? then Done else Failed(write.error);
    }

    method Receive(arrival: Arrival) returns (r: Reply)
      modifies this`stream
      ensures (Value(), r) == Step(old(Value()), Call.Receive(arrival))
    {
      if !(state.Connected? || state.LoggedIn?) { return Next(None); }
      if !stream { return Failed(Transport); }
      match arrival
      case Got(p) => return Next(Some(p));
      case End => return Next(None);
      case ReadFailed(error) => return Failed(error);
      case SocketLost =>
        stream := false;
        return Failed(Transport);
    }

    method Heartbeat(nanos: nat, write: Write) returns (r: Reply)
      modifies this
      ensures (Value(), r) == Step(old(Value()), Call.Heartbeat(nanos, write))
    {
      if !(state.Connected? || state.LoggedIn?) { return Failed(InvalidState); }
      if nanos == 0 { return Failed(Timeout); }
      if Millis(nanos) >= U64_END { return Panicked; }
      r := Send(HeartbeatPacket(Millis(nanos)), write);
      if r.Done? {
        beaten := true;
        timeoutMs := Millis(nanos);
      }
    }

    method Disconnect()
      modifies this
      ensures Value() == Step(old(Value()), Call.Disconnect).0
    {
      state := Closing;
      stream := false;
      endpoint, token, beaten := None, None, false;
      state := Disconnected;
    }
  }

  // ---------------------------------------------------------------- whole runs

  predicate Coherent(t: Tcp) {
    && (t.state.LoggedIn? <==> t.token.Some?)
    && (t.endpoint.Some? <==> !t.state.Disconnected?)
    && (t.endpoint.Some? ==> NormalizeTcpEndpoint(t.endpoint.value).Success?)
    && (t.stream ==> !t.state.Disconnected?)
    && (t.beaten ==> t.state.LoggedIn?)
    && !t.state.Closing?
  }

  lemma {:induction false} StepIsCoherent(t: Tcp, call: Call)
    requires Coherent(t)
    ensures Coherent(Step(t, call).0)
  {
    hide AckFrom, ArrivalAt, IsBlank, NormalizeTcpEndpoint, BuildWireLine, Print, Put, EffectiveTimeout,
    HeartbeatPacket;
    match call
    case Connect(_, _, _) =>
    case LogIn(_, _, _, _) =>
    case Send(_, _) => hide Connected, LoggedOn, Beaten, Fetched;
    case Receive(_) => hide Connected, LoggedOn, Beaten, Sent;
    case Heartbeat(_, _) => hide Connected, LoggedOn, Fetched;
    case Disconnect => hide Connected, LoggedOn, Beaten, Sent, Fetched;
  }

  /** At every call boundary, whatever the network did: logged in exactly when a token is stored, and never closing. */
  lemma {:induction false} EveryRunIsCoherent(t: Tcp, calls: seq<Call>)
    requires Coherent(t)
    ensures Coherent(Run(t, calls))
    decreases |calls|
  {
    if calls != [] {
      hide Step, Coherent;
      StepIsCoherent(t, calls[0]);
      EveryRunIsCoherent(Step(t, calls[0]).0, calls[1..]);
    }
  }

  /** A login succeeds exactly when nothing refuses it and a good acknowledgement decides. Then the ticket is the
      stored token; otherwise token and state stay as they were, also for one that was already logged in. */
  lemma {:induction false} LoginOutcome(t: Tcp, account: string, password: string, w: Write, arrivals: seq<Arrival>)
    ensures var (u, reply) := Step(t, LogIn(account, password, w, arrivals));
            && (reply.Ticket? <==>
                && IsOpen(t) && t.stream && !IsBlank(account) && !IsBlank(password) && w.Written?
                && exists i | 0 <= i < ACK_TRIES :: Decides(arrivals, i) && IsGoodAck(ArrivalAt(arrivals, i)))
            && (if reply.Ticket? then u.token == Some(reply.token) && u.state.LoggedIn?
                else u.token == t.token && u.state == t.state)
            && u.endpoint == t.endpoint && u.beaten == t.beaten && u.timeoutMs == t.timeoutMs
  {
    LoginAcknowledged(arrivals);
    hide AckFrom, IsGoodAck, Decides, IsBlank, Put, LoginRequest;
  }

  // ---------------------------------------------------------------- what the peer reads

  /** The line a call writes in session `t`, if it comes that far. */
  function Wrote(t: Tcp, call: Call): seq<Posting> {
    if !t.stream then []
    else
      match call
      case LogIn(account, password, w, _) =>
        if IsOpen(t) && !IsBlank(account) && !IsBlank(password) then [PostingOf(LoginRequest(account, password), w)]
        else []
      case Send(p, w) => if t.state.LoggedIn? then [PostingOf(p, w)] else []
      case Heartbeat(nanos, w) =>
        if t.state.LoggedIn? && nanos != 0 && Millis(nanos) < U64_END
        then [PostingOf(HeartbeatPacket(Millis(nanos)), w)] else []
      case _ => []
  }

  function AllWrote(t: Tcp, calls: seq<Call>): seq<Posting>
    decreases |calls|
  {
    if calls == [] then [] else Wrote(t, calls[0]) + AllWrote(Step(t, calls[0]).0, calls[1..])
  }

  lemma {:induction false} FlowOne(a: Posting)
    ensures Flow([a]) == Piece(a)
  {
    hide Piece;
    assert [a][1..] == [] && Piece(a) + [] == Piece(a);
  }

  lemma {:induction false} FlowConcat(a: seq<Posting>, b: seq<Posting>)
    requires |a| <= 1
    ensures Flow(a + b) == Flow(a) + Flow(b)
  {
    hide Piece;
    if a == [] {
      assert a + b == b;
    } else {
      FlowOne(a[0]);
      assert a == [a[0]] && (a + b)[1..] == b;
    }
  }

  lemma {:induction false} OneCallWrites(t: Tcp, call: Call)
    requires IsOpen(t) && call != Disconnect
    ensures var u := Step(t, call).0;
            IsOpen(u) && |Wrote(t, call)| <= 1 && u.wire == t.wire + Flow(Wrote(t, call))
  {
    hide AckFrom, IsBlank, NormalizeTcpEndpoint, BuildWireLine, Print, Piece, Flow, PostingOf, LoginRequest,
    HeartbeatPacket;
    EmptyFlow();
    assert t.wire + [] == t.wire;
    forall p, w ensures Flow([PostingOf(p, w)]) == Piece(PostingOf(p, w)) { FlowOne(PostingOf(p, w)); }
  }

  lemma {:induction false} EmptyFlow()
    ensures Flow([]) == []
  {
  }

  lemma {:induction false} WireIsFlow(t: Tcp, calls: seq<Call>)
    requires IsOpen(t) && Disconnect !in calls
    ensures Run(t, calls).wire == t.wire + Flow(AllWrote(t, calls))
    decreases |calls|
  {
    if calls == [] {
      assert t.wire + [] == t.wire;
    } else {
      hide Step, Flow, Wrote, IsOpen, NormalizeTcpEndpoint;
      var u, rest := Step(t, calls[0]).0, calls[1..];
      assert calls[0] in calls;
      OneCallWrites(t, calls[0]);
      WireIsFlow(u, rest);
      FlowConcat(Wrote(t, calls[0]), AllWrote(u, rest));
      Associative(t.wire, Flow(Wrote(t, calls[0])), Flow(AllWrote(u, rest)));
    }
  }

  lemma {:induction false} AcceptedAreWhole(t: Tcp, calls: seq<Call>)
    ensures forall a | a in AllWrote(t, calls) && a.ok :: Whole(a)
    decreases |calls|
  {
    if calls != [] {
      hide Step, IsBlank, LoginRequest, HeartbeatPacket, LineBytes;
      AcceptedAreWhole(Step(t, calls[0]).0, calls[1..]);
    }
  }

  /**
   * On one connection, whatever the calls, the writes and the socket did: the peer reads the whole lines in order,
   * those
   * behind an unfinished one spoiled. It reads exactly the login requests, sends and heartbeats whose write succeeded
   * if and only if no failed write let its whole line out or, having let a part out, stands before one that succeeded.
   * A peer that also takes an unended last line does so if and only if no failed write let anything out.
   */
  lemma {:induction false} PeerReads(t: Tcp, calls: seq<Call>)
    requires t.wire == [] && IsOpen(t) && Disconnect !in calls
    ensures var ws, wire := AllWrote(t, calls), Run(t, calls).wire;
            var read, accepted := ParsePieces(SplitLines(wire)), Delivered(WireCuts.Accepted(ws));
            && read == Seen(ws, false)
            && (read == accepted <==> Faithful(ws, false))
            && (ParseToEnd(wire) == accepted <==> Clean(ws))
  {
    hide Run, AllWrote, Seen, Faithful, ParseToEnd, Clean;
    WireIsFlow(t, calls);
    var ws := AllWrote(t, calls);
    assert [] + Flow(ws) == Flow(ws);
    PeerSees(ws);
    AcceptedAreWhole(t, calls);
    ReadsAcceptedIffFaithful(ws, false);
    ReadsToEndIffClean(ws);
  }

  /** It happens: a write that fails after its first byte costs the peer the next packet, which the
      client reports as sent. */
  lemma {:induction false} CutWriteSpoilsNext(t: Tcp, p: Packet, q: Packet, k: nat, error: ClientError)
    requires t.state.LoggedIn? && t.stream && t.wire == [] && 0 < k <= |LineBytes(p)|
    ensures var first, second := Send(p, Cut(k, error)), Send(q, Written);
            && Step(t, first).1 == Failed(error) && Step(Step(t, first).0, second).1 == Done
            && Step(Step(t, first).0, second).0.state.LoggedIn?
            && ParsePieces(SplitLines(Run(t, [first, second]).wire)) == [None]
  {
    hide LineBytes, Piece;
    var first, second := Send(p, Cut(k, error)), Send(q, Written);
    var calls, a, b := [first, second], PostingOf(p, Cut(k, error)), PostingOf(q, Written);
    var u := Step(t, first).0;
    assert calls[1..] == [second] && [second][1..] == [];
    assert AllWrote(u, [second]) == Wrote(u, second) + AllWrote(Step(u, second).0, []);
    assert AllWrote(t, calls) == [a] + ([b] + []) == [a, b];
    PeerReads(t, calls);
    assert [a, b][1..] == [b] && [b][1..] == [];
    assert Seen([b], true) == [None] + Seen([], false);
    assert Seen([a, b], false) == Seen([b], true) == [None];
  }
}
