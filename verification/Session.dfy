/** The QQ backend's session: four flags, a task handle, the stored configuration and the client behind it. */
module Session {
  import opened Wrappers
  import opened Strings
  import opened Messages
  import opened Wire
  import opened ClientTypes
  import Mock = MockClient

  datatype Config = Config(
    endpoint: string, account: Option<string>, password: Option<string>, connectTimeoutMs: u64, pollMs: u64)

  datatype ProtocolError = TransportError | SerializationError

  datatype Outcome = Fine | Refused(error: ProtocolError)

  /** Listener tasks are numbered in the order they are spawned; `aborted` holds those whose handle was aborted. */
  datatype Backend = Backend(
    connected: bool, loggedIn: bool, listening: bool, stopRequested: bool,
    task: Option<nat>, aborted: set<nat>, spawned: nat, config: Config, client: Mock.Client)

  const MOCK_ENDPOINT := "mock://localhost"

  function New(config: Config): Backend {
    Backend(false, false, false, false, None, {}, 0, config, Mock.Fresh)
  }

  /** Only a line that could not be read is a serialisation error. */
  function MapError(e: ClientError): (r: ProtocolError)
    ensures r == SerializationError <==> e == Protocol
  {
    if e.Protocol? then SerializationError else TransportError
  }

  function OutcomeOf(reply: Mock.Reply): Outcome {
    if reply.Failed? then Refused(MapError(reply.error)) else Fine
  }

  // ---------------------------------------------------------------- the calls, cut where they first wait

  function Cleared(b: Backend, stop: bool): Backend {
    b.(stopRequested := stop, connected := false, listening := false, loggedIn := false)
  }

  function Aborted(b: Backend): Backend {
    if b.task.None? then b else b.(task := None, aborted := b.aborted + {b.task.value})
  }

  /** The tail of `disconnect`, and the first half of the tail of `connect`. */
  function Hung(b: Backend): Backend {
    Aborted(b).(client := Mock.Next(b.client, Mock.Disconnect))
  }

  function EffectiveEndpoint(c: Config, endpoint: string): string {
    if IsBlank(endpoint) then c.endpoint else endpoint
  }

  predicate HasCredentials(c: Config) {
    c.account.Some? && c.password.Some?
  }

  /** The rest of `connect`, on a client that has just been disconnected. */
  function Dialled(b: Backend, endpoint: string): (Backend, Outcome) {
    var e := EffectiveEndpoint(b.config, endpoint);
    if IsBlank(e) then (b, Refused(TransportError))
    else
      var b1 := b.(config := b.config.(endpoint := e));
      if !HasCredentials(b.config) && e != MOCK_ENDPOINT then (b1, Refused(TransportError))
      else
        var dial := Mock.Connect(e, b.config.connectTimeoutMs);
        var b2 := b1.(client := Mock.Next(b1.client, dial));
        if Mock.Answer(b1.client, dial).Failed? then (b2, OutcomeOf(Mock.Answer(b1.client, dial)))
        else if !HasCredentials(b.config) then (b2.(connected := true), Fine)
        else
          var login := Mock.LogIn(b.config.account.value, b.config.password.value);
          var b3 := b2.(client := Mock.Next(b2.client, login));
          if Mock.Answer(b2.client, login).Failed? then (b3, OutcomeOf(Mock.Answer(b2.client, login)))
          else (b3.(loggedIn := true, connected := true), Fine)
  }

  function ConnectTail(b: Backend, endpoint: string): (Backend, Outcome) {
    Dialled(Hung(b), endpoint)
  }

  function Connect(b: Backend, endpoint: string): (Backend, Outcome) {
    ConnectTail(Cleared(b, false), endpoint)
  }

  function Disconnect(b: Backend): Backend {
    Hung(Cleared(b, true))
  }

  predicate ListenRefused(b: Backend) {
    !b.connected || b.listening
  }

  function Spawned(b: Backend): Backend {
    b.(task := Some(b.spawned), spawned := b.spawned + 1)
  }

  function Listen(b: Backend): (Backend, Outcome) {
    if ListenRefused(b) then (b, Refused(TransportError)) else (Spawned(b.(listening := true)), Fine)
  }

  function SendMessage(b: Backend, m: Message): (Backend, Outcome) {
    var send := Mock.Send(MessageToPacket(m));
    if !b.connected || Mock.Answer(b.client, send).Failed? then (b, Refused(TransportError))
    else (b.(client := Mock.Next(b.client, send)), Fine)
  }

  predicate IsLoggedIn(b: Backend) {
    b.connected && b.loggedIn
  }

  // ---------------------------------------------------------------- what every boundary between calls keeps

  predicate Coherent(b: Backend) {
    && Mock.Coherent(b.client)
    && (b.connected ==>
          && !b.stopRequested && (b.client.state.Connected? || b.client.state.LoggedIn?)
          && b.client.endpoint == Some(b.config.endpoint)
          && b.client.timeoutMs == b.config.connectTimeoutMs
          && (b.loggedIn <==> b.client.state.LoggedIn?)
          && (b.loggedIn <==> HasCredentials(b.config)))
    && (b.loggedIn || b.listening ==> b.connected)
  }

  lemma {:induction false} HungIsCoherent(b: Backend)
    requires Mock.Coherent(b.client)
    requires !b.connected && !b.loggedIn && !b.listening
    ensures Coherent(Hung(b))
    ensures Hung(b).client == Mock.Fresh.(timeoutMs := b.client.timeoutMs)
  {
  }

  /** Failed attempts included: whatever `connect` returns, the flags and the client agree. */
  lemma {:induction false} DialledIsCoherent(b: Backend, endpoint: string)
    requires b.client == Mock.Fresh.(timeoutMs := b.client.timeoutMs)
    requires !b.connected && !b.loggedIn && !b.listening && !b.stopRequested
    ensures Coherent(Dialled(b, endpoint).0)
    ensures Dialled(b, endpoint).0.connected <==> Dialled(b, endpoint).1 == Fine
  {
    hide IsBlank;
  }

  lemma {:induction false} CallsKeepCoherent(b: Backend, endpoint: string, m: Message)
    requires Coherent(b)
    ensures Coherent(Connect(b, endpoint).0)
    ensures Coherent(Disconnect(b))
    ensures Coherent(SendMessage(b, m).0)
    ensures Coherent(Listen(b).0)
  {
    HungIsCoherent(Cleared(b, false));
    HungIsCoherent(Cleared(b, true));
    DialledIsCoherent(Hung(Cleared(b, false)), endpoint);
    hide Dialled, IsBlank, MessageToPacket, Hung;
  }

  /** Sending works exactly when the backend says it is logged in and the configured connect timeout is not zero. */
  lemma {:induction false} SendNeedsLogin(b: Backend, m: Message)
    requires Coherent(b)
    ensures SendMessage(b, m).1 == Fine <==> IsLoggedIn(b) && b.config.connectTimeoutMs != 0
    ensures SendMessage(b, m).1 == Fine ==>
              SendMessage(b, m).0.client == b.client.(sent := b.client.sent + [MessageToPacket(m)])
    ensures SendMessage(b, m).1 != Fine ==> SendMessage(b, m) == (b, Refused(TransportError))
  {
    hide MessageToPacket;
  }

  /** What an accepted message adds to the client: one packet, on the route of its kind of recipient, whose payload
      decodes to the message. The kind can be told from the route and from the payload alike. */
  lemma {:induction false} SentPacketCarriesMessage(b: Backend, m: Message)
    requires SendMessage(b, m).1 == Fine && PayloadsFloatFree(m)
    ensures var sent := SendMessage(b, m).0.client.sent;
            && sent != [] && sent[..|sent| - 1] == b.client.sent
            && SendMessage(b, m).0 == b.(client := b.client.(sent := sent))
            && var p := sent[|sent| - 1];
               && DecodeJson(p.payload) == (if PayloadsFit(m) then Some(m) else None)
               && (p.route == "message.private" <==> m.recipient.Private?)
               && (p.route == "message.group" <==> m.recipient.Group?)
  {
    TextRoundTrip(m);
    hide DecodeJson, EncodeJson, PayloadsFit, PayloadsFloatFree;
  }

  /** A listener is started exactly on a connected session without one. */
  lemma {:induction false} ListenNeedsConnection(b: Backend)
    ensures Listen(b).1 == Fine <==> b.connected && !b.listening
    ensures Listen(b).1 == Fine ==>
              Listen(b).0 == b.(listening := true, task := Some(b.spawned), spawned := b.spawned + 1)
    ensures Listen(b).1 != Fine ==> Listen(b) == (b, Refused(TransportError))
  {
  }

  /** It happens: with a connect timeout of zero a login succeeds and every message is refused. */
  lemma {:induction false} ZeroTimeoutCannotSend(c: Config, endpoint: string, m: Message)
    requires c.connectTimeoutMs == 0 && HasCredentials(c) && CanConnect(c, endpoint)
    ensures var (b, r) := Connect(New(c), endpoint);
            r == Fine && IsLoggedIn(b) && SendMessage(b, m) == (b, Refused(TransportError))
  {
    hide IsBlank, EffectiveEndpoint, Dialled, MessageToPacket;
    DialledSettles(Hung(Cleared(New(c), false)), endpoint);
  }

  /** When a connect succeeds: what the caller can check beforehand. */
  predicate CanConnect(c: Config, endpoint: string) {
    var e := EffectiveEndpoint(c, endpoint);
    && !IsBlank(e)
    && if HasCredentials(c) then !IsBlank(c.account.value) && !IsBlank(c.password.value) else e == MOCK_ENDPOINT
  }

  predicate SameSettings(b: Backend, d: Backend, endpoint: string) {
    && b.config.account == d.config.account && b.config.password == d.config.password
    && b.config.connectTimeoutMs == d.config.connectTimeoutMs
    && EffectiveEndpoint(b.config, endpoint) == EffectiveEndpoint(d.config, endpoint)
  }

  /** The client after a successful connect is a function of the settings alone. */
  function Settled(c: Config, endpoint: string): Mock.Client
    requires CanConnect(c, endpoint)
  {
    var token := if HasCredentials(c) then Some("mock-token-" + c.account.value) else None;
    Mock.Fresh.(
      endpoint := Some(EffectiveEndpoint(c, endpoint)), token := token, timeoutMs := c.connectTimeoutMs,
      state := if HasCredentials(c) then LoggedIn else Connected)
  }

  lemma {:induction false} DialledSettles(b: Backend, endpoint: string)
    requires b.client == Mock.Fresh.(timeoutMs := b.client.timeoutMs)
    requires !b.connected && !b.loggedIn
    ensures var (d, r) := Dialled(b, endpoint);
            && d.(config := b.config, client := b.client, connected := false, loggedIn := false) == b
            && (CanConnect(b.config, endpoint) ==>
                  && r == Fine && d.connected && d.loggedIn == HasCredentials(b.config)
                  && d.client == Settled(b.config, endpoint)
                  && d.config == b.config.(endpoint := EffectiveEndpoint(b.config, endpoint)))
            && (!CanConnect(b.config, endpoint) ==> r == Refused(TransportError) && !d.connected && !d.loggedIn)
  {
    MockIsNotBlank();
    hide IsBlank, EffectiveEndpoint;
  }

  lemma {:induction false} SettingsDecide(b: Backend, d: Backend, endpoint: string)
    requires SameSettings(b, d, endpoint)
    ensures CanConnect(b.config, endpoint) == CanConnect(d.config, endpoint)
    ensures CanConnect(b.config, endpoint) ==> Settled(b.config, endpoint) == Settled(d.config, endpoint)
  {
    hide IsBlank, EffectiveEndpoint;
  }

  /**
   * Reconnecting is a reset. From any two states with the same credentials and connect timeout, whatever failed or
   * succeeded before, connecting to the same effective endpoint has the same outcome. On success the flags, the
   * stored endpoint and every field of the client are equal too. It succeeds exactly when `CanConnect`.
   */
  lemma {:induction false} ReconnectIsReset(b: Backend, d: Backend, endpoint: string)
    requires SameSettings(b, d, endpoint)
    ensures var (b', rb) := Connect(b, endpoint);
            var (d', rd) := Connect(d, endpoint);
            && rb == rd
            && (rb == Fine <==> CanConnect(b.config, endpoint))
            && b'.connected == d'.connected && b'.loggedIn == d'.loggedIn
            && !b'.listening && !d'.listening && !b'.stopRequested && !d'.stopRequested
            && b'.task.None? && d'.task.None?
            && (rb == Fine ==> b'.client == d'.client && b'.config.endpoint == d'.config.endpoint)
  {
    SettingsDecide(b, d, endpoint);
    DialledSettles(Hung(Cleared(b, false)), endpoint);
    DialledSettles(Hung(Cleared(d, false)), endpoint);
    hide IsBlank, EffectiveEndpoint, Dialled, CanConnect, Settled;
  }

  lemma {:induction false} MockIsNotBlank()
    ensures !IsBlank(MOCK_ENDPOINT)
  {
    TrimFacts(MOCK_ENDPOINT);
    assert MOCK_ENDPOINT[0] == 'm';
  }

  /** A connect that fails still replaces the stored endpoint, so a later connect without one dials the failed one. */
  lemma {:induction false} FailedConnectSticks(b: Backend, endpoint: string)
    ensures Connect(b, endpoint).0.config
         == b.config.(endpoint := EffectiveEndpoint(b.config, endpoint))
  {
  }
}
