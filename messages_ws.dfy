/** The websocket presence and chat gateway (MessagesWsGateway).

    The gateway keeps a registry from socket ids to the user ids carried by
    verified JSON Web Tokens, broadcasts the registry to every socket when a
    client is accepted, forgets a socket when it disconnects, and relays each
    chat message to every socket, the sender included.

    The pure part of this module is the specification: one transition
    function per handler, a step function over handler inputs, and a run over
    a trace of inputs, with the lemmas about them. The class at the end is the
    gateway itself, whose handlers update its fields in place and are proved
    to perform exactly those transitions. */
module MessagesWs {
  import opened Wrappers

  /** socket.io's `client.id`. */
  type ConnId = string
  /** The `id` claim of a verified token. */
  type UserId = string
  /** The raw value of the `authentication` handshake header. */
  type Token = string

  /** Text broadcast in place of a missing or empty chat message. */
  const Placeholder: string := "no-message!!"

  /** What the gateway emits through `wss.emit`, to every socket. */
  datatype Event =
    | ClientsUpdated(clients: map<ConnId, UserId>)          // 'clients-updated'
    | MessageFromServer(fullName: string, message: string)  // 'message-from-server'

  /** One call of a handler, with what the outside world answers during it. */
  datatype Input =
    | Connect(client: ConnId, authentication: Option<Token>, registerThrows: bool)
    | Disconnect(client: ConnId)
    | Message(client: ConnId, message: Option<string>)

  /** The gateway's observable state: the registry kept by the messages
      service, the sockets the gateway has closed itself, and every event
      emitted so far, oldest first. */
  datatype State = State(registry: map<ConnId, UserId>, disconnected: set<ConnId>, outbox: seq<Event>)

  const Initial: State := State(map[], {}, [])

  /** The user id the token verifier yields for the handshake header; a
      missing header fails verification like an invalid token. */
  function Verified(verify: Token -> Option<UserId>, authentication: Option<Token>): Option<UserId>
  {
    if authentication.Some? then verify(authentication.value) else None
  }

  /** True of a connect input that is accepted: the token verifies and the
      registration does not throw. */
  predicate Accepts(verify: Token -> Option<UserId>, input: Input)
  {
    input.Connect? && Verified(verify, input.authentication).Some? && !input.registerThrows
  }

  /** The text that is broadcast for a chat payload: `payload.message || 'no-message!!'`. */
  function MessageText(message: Option<string>): (text: string)
    ensures text != []
    ensures message.Some? && message.value != [] ==> text == message.value
    ensures message.None? || message.value == [] ==> text == Placeholder
  {
    if message.Some? && message.value != [] then message.value else Placeholder
  }

  /** The display name of the user behind a socket, or "" when the socket is
      not registered or its user is not in the directory. */
  function FullName(directory: map<UserId, string>, registry: map<ConnId, UserId>, client: ConnId): string
  {
    if client in registry && registry[client] in directory then directory[registry[client]] else ""
  }

  /** handleConnection: verify, register, then broadcast the new registry;
      on any failure close the socket and do nothing else. */
  function AfterConnect(verify: Token -> Option<UserId>, s: State, client: ConnId,
                        authentication: Option<Token>, registerThrows: bool): (r: State)
    ensures Verified(verify, authentication).Some? && !registerThrows ==>
      && client in r.registry
      && r.registry[client] == Verified(verify, authentication).value
      && r.registry.Keys == s.registry.Keys + {client}
      && (forall c :: c in s.registry && c != client ==> r.registry[c] == s.registry[c])
      && r.disconnected == s.disconnected
      && |r.outbox| == |s.outbox| + 1
      && r.outbox[..|s.outbox|] == s.outbox
      && r.outbox[|s.outbox|] == ClientsUpdated(r.registry)
    ensures Verified(verify, authentication).None? || registerThrows ==>
      && r.registry == s.registry
      && r.outbox == s.outbox
      && r.disconnected == s.disconnected + {client}
  {
    var payload := Verified(verify, authentication);
    if payload.None? || registerThrows then
      s.(disconnected := s.disconnected + {client})
    else
      var registry := s.registry[client := payload.value];
      State(registry, s.disconnected, s.outbox + [ClientsUpdated(registry)])
  }

  /** handleDisconnect: forget the socket; emit nothing. */
  function AfterDisconnect(s: State, client: ConnId): (r: State)
    ensures r.registry.Keys == s.registry.Keys - {client}
    ensures forall c :: c in r.registry ==> r.registry[c] == s.registry[c]
    ensures r.outbox == s.outbox && r.disconnected == s.disconnected
  {
    s.(registry := s.registry - {client})
  }

  /** onMessageFromClient: broadcast the sender's name and the message text. */
  function AfterMessage(directory: map<UserId, string>, s: State, client: ConnId, message: Option<string>): (r: State)
    ensures r.registry == s.registry && r.disconnected == s.disconnected
    ensures |r.outbox| == |s.outbox| + 1 && r.outbox[..|s.outbox|] == s.outbox
    ensures r.outbox[|s.outbox|].MessageFromServer?
    ensures r.outbox[|s.outbox|].message == MessageText(message)
    ensures r.outbox[|s.outbox|].message != []
    ensures r.outbox[|s.outbox|].fullName == FullName(directory, s.registry, client)
  {
    s.(outbox := s.outbox + [MessageFromServer(FullName(directory, s.registry, client), MessageText(message))])
  }

  function Step(verify: Token -> Option<UserId>, directory: map<UserId, string>, s: State, input: Input): State
  {
    match input
    case Connect(c, h, t) => AfterConnect(verify, s, c, h, t)
    case Disconnect(c) => AfterDisconnect(s, c)
    case Message(c, m) => AfterMessage(directory, s, c, m)
  }

  /** The state after handling a trace of inputs in order. */
  function Run(verify: Token -> Option<UserId>, directory: map<UserId, string>, s: State, trace: seq<Input>): State
    decreases |trace|
  {
    if trace == [] then s else Run(verify, directory, Step(verify, directory, s, trace[0]), trace[1..])
  }

  /** The sockets that some accepted connect in the trace registers. */
  function AcceptedClients(verify: Token -> Option<UserId>, trace: seq<Input>): set<ConnId>
    decreases |trace|
  {
    if trace == [] then {}
    else (if Accepts(verify, trace[0]) then {trace[0].client} else {}) + AcceptedClients(verify, trace[1..])
  }

  function AcceptedCount(verify: Token -> Option<UserId>, trace: seq<Input>): nat
    decreases |trace|
  {
    if trace == [] then 0
    else (if Accepts(verify, trace[0]) then 1 else 0) + AcceptedCount(verify, trace[1..])
  }

  function MessageCount(trace: seq<Input>): nat
    decreases |trace|
  {
    if trace == [] then 0 else (if trace[0].Message? then 1 else 0) + MessageCount(trace[1..])
  }

  /** Number of 'clients-updated' events in an outbox. */
  function Presences(outbox: seq<Event>): nat
    decreases |outbox|
  {
    if outbox == [] then 0
    else Presences(outbox[..|outbox| - 1]) + (if outbox[|outbox| - 1].ClientsUpdated? then 1 else 0)
  }

  /** Number of 'message-from-server' events in an outbox. */
  function Chats(outbox: seq<Event>): nat
    decreases |outbox|
  {
    if outbox == [] then 0
    else Chats(outbox[..|outbox| - 1]) + (if outbox[|outbox| - 1].MessageFromServer? then 1 else 0)
  }

  lemma CountsAppend(outbox: seq<Event>, e: Event)
    ensures Presences(outbox + [e]) == Presences(outbox) + (if e.ClientsUpdated? then 1 else 0)
    ensures Chats(outbox + [e]) == Chats(outbox) + (if e.MessageFromServer? then 1 else 0)
  {
    assert (outbox + [e])[..|outbox|] == outbox;
  }

  /** Nothing once broadcast is ever taken back: the outbox only grows. */
  lemma {:induction false} RunOutboxGrows(verify: Token -> Option<UserId>, directory: map<UserId, string>,
                                          s: State, trace: seq<Input>)
    ensures |s.outbox| <= |Run(verify, directory, s, trace).outbox|
    ensures Run(verify, directory, s, trace).outbox[..|s.outbox|] == s.outbox
    decreases |trace|
  {
    if trace != [] {
      var s' := Step(verify, directory, s, trace[0]);
      RunOutboxGrows(verify, directory, s', trace[1..]);
      var o := Run(verify, directory, s, trace).outbox;
      assert o[..|s'.outbox|][..|s.outbox|] == o[..|s.outbox|];
    }
  }

  /** Every socket in the registry after a run was there before it or was
      accepted by some connect of the run: a failed verification or a failed
      registration never adds a socket. */
  lemma {:induction false} RunRegistryAuthenticated(verify: Token -> Option<UserId>, directory: map<UserId, string>,
                                                    s: State, trace: seq<Input>)
    ensures Run(verify, directory, s, trace).registry.Keys <= s.registry.Keys + AcceptedClients(verify, trace)
    decreases |trace|
  {
    if trace != [] {
      RunRegistryAuthenticated(verify, directory, Step(verify, directory, s, trace[0]), trace[1..]);
    }
  }

  /** A socket that is not registered and whose every connect in the trace
      fails is not registered after the trace. */
  lemma RejectedClientNeverRegistered(verify: Token -> Option<UserId>, directory: map<UserId, string>,
                                      s: State, trace: seq<Input>, client: ConnId)
    requires client !in s.registry
    requires forall i :: 0 <= i < |trace| && trace[i].Connect? && trace[i].client == client ==> !Accepts(verify, trace[i])
    ensures client !in Run(verify, directory, s, trace).registry
  {
    RunRegistryAuthenticated(verify, directory, s, trace);
    NotAccepted(verify, trace, client);
  }

  lemma {:induction false} NotAccepted(verify: Token -> Option<UserId>, trace: seq<Input>, client: ConnId)
    requires forall i :: 0 <= i < |trace| && trace[i].Connect? && trace[i].client == client ==> !Accepts(verify, trace[i])
    ensures client !in AcceptedClients(verify, trace)
    decreases |trace|
  {
    if trace != [] {
      assert forall i :: 0 <= i < |trace| - 1 ==> trace[1..][i] == trace[i + 1];
      NotAccepted(verify, trace[1..], client);
    }
  }

  /** One 'clients-updated' broadcast per accepted connect and one
      'message-from-server' broadcast per message, and nothing else. */
  lemma {:induction false} RunEventCounts(verify: Token -> Option<UserId>, directory: map<UserId, string>,
                                          s: State, trace: seq<Input>)
    ensures Presences(Run(verify, directory, s, trace).outbox) == Presences(s.outbox) + AcceptedCount(verify, trace)
    ensures Chats(Run(verify, directory, s, trace).outbox) == Chats(s.outbox) + MessageCount(trace)
    decreases |trace|
  {
    if trace != [] {
      StepEventCounts(verify, directory, s, trace[0]);
      RunEventCounts(verify, directory, Step(verify, directory, s, trace[0]), trace[1..]);
    }
  }

  /** One handler call emits one 'clients-updated' exactly when it is an
      accepted connect, and one 'message-from-server' exactly when it is a
      message. */
  lemma StepEventCounts(verify: Token -> Option<UserId>, directory: map<UserId, string>, s: State, input: Input)
    ensures Presences(Step(verify, directory, s, input).outbox) == Presences(s.outbox) + (if Accepts(verify, input) then 1 else 0)
    ensures Chats(Step(verify, directory, s, input).outbox) == Chats(s.outbox) + (if input.Message? then 1 else 0)
  {
    var s' := Step(verify, directory, s, input);
    if Accepts(verify, input) {
      CountsAppend(s.outbox, ClientsUpdated(s'.registry));
    } else if input.Message? {
      CountsAppend(s.outbox, s'.outbox[|s.outbox|]);
    }
  }

  /** Chat messages never change who is registered or who was closed. */
  lemma {:induction false} RunMessagesKeepRegistry(verify: Token -> Option<UserId>, directory: map<UserId, string>,
                                                   s: State, trace: seq<Input>)
    requires forall i :: 0 <= i < |trace| ==> trace[i].Message?
    ensures Run(verify, directory, s, trace).registry == s.registry
    ensures Run(verify, directory, s, trace).disconnected == s.disconnected
    ensures |Run(verify, directory, s, trace).outbox| == |s.outbox| + |trace|
    decreases |trace|
  {
    if trace != [] {
      assert trace[0].Message?;
      assert forall i :: 0 <= i < |trace| - 1 ==> trace[1..][i] == trace[i + 1];
      RunMessagesKeepRegistry(verify, directory, Step(verify, directory, s, trace[0]), trace[1..]);
    }
  }

  /** Registering the same socket again and again leaves it registered once,
      for the last verified user: the registry grows by at most that one key. */
  lemma {:induction false} RepeatedConnect(verify: Token -> Option<UserId>, directory: map<UserId, string>,
                                           s: State, client: ConnId, token: Token, n: nat)
    requires verify(token).Some?
    ensures var r := Run(verify, directory, s, seq(n, _ => Connect(client, Some(token), false)));
      && (n > 0 ==> client in r.registry && r.registry[client] == verify(token).value)
      && r.registry.Keys == s.registry.Keys + (if n > 0 then {client} else {})
      && Presences(r.outbox) == Presences(s.outbox) + n
    decreases n
  {
    if n > 0 {
      var trace := seq(n, _ => Connect(client, Some(token), false));
      var s' := Step(verify, directory, s, trace[0]);
      assert trace[1..] == seq(n - 1, _ => Connect(client, Some(token), false));
      CountsAppend(s.outbox, ClientsUpdated(s'.registry));
      RepeatedConnect(verify, directory, s', client, token, n - 1);
    }
  }

  /** Disconnecting twice, or disconnecting a socket that never registered,
      leaves the registry as a single disconnect does. */
  lemma DisconnectIdempotent(s: State, client: ConnId)
    ensures AfterDisconnect(AfterDisconnect(s, client), client) == AfterDisconnect(s, client)
    ensures client !in s.registry ==> AfterDisconnect(s, client) == s
  {
  }

  /** A client connects with a valid token and says something: every socket
      sees a registry naming its user, then the message with its name. */
  lemma ScenarioConnectThenMessage(verify: Token -> Option<UserId>, directory: map<UserId, string>,
                                   s: State, client: ConnId, token: Token, text: string)
    requires verify(token).Some? && text != []
    ensures var r := Run(verify, directory, s, [Connect(client, Some(token), false), Message(client, Some(text))]);
      && |r.outbox| == |s.outbox| + 2
      && r.outbox[|s.outbox|].ClientsUpdated?
      && verify(token).value in r.outbox[|s.outbox|].clients.Values
      && r.outbox[|s.outbox| + 1] == MessageFromServer(FullName(directory, r.registry, client), text)
      && (verify(token).value in directory ==> r.outbox[|s.outbox| + 1].fullName == directory[verify(token).value])
  {
    var trace := [Connect(client, Some(token), false), Message(client, Some(text))];
    var s1 := Step(verify, directory, s, trace[0]);
    var s2 := Step(verify, directory, s1, trace[1]);
    assert trace[1..][1..] == [];
    assert Run(verify, directory, s, trace) == Run(verify, directory, s1, trace[1..]) == s2;
    assert s1.registry[client] == verify(token).value;
  }

  /** A socket that is closed between its messages is still relayed, under
      the empty name, with the placeholder when it sends nothing. */
  lemma ScenarioMessageAfterDisconnect(verify: Token -> Option<UserId>, directory: map<UserId, string>,
                                       s: State, client: ConnId)
    ensures var r := Run(verify, directory, s, [Disconnect(client), Message(client, None)]);
      && client !in r.registry
      && r.outbox == s.outbox + [MessageFromServer("", Placeholder)]
  {
    var trace := [Disconnect(client), Message(client, None)];
    var s1 := Step(verify, directory, s, trace[0]);
    assert trace[1..][1..] == [];
    assert Run(verify, directory, s, trace) == Run(verify, directory, s1, trace[1..]) == Step(verify, directory, s1, trace[1]);
  }

  /** The gateway: the registry and the outbox are fields that the three
      handlers update in place. */
  class MessagesWsGateway {
    /** The injected JwtService's verify, seen through its result. */
    const verify: Token -> Option<UserId>
    /** Display names that MessagesWsService resolves user ids to. */
    const directory: map<UserId, string>
    var registry: map<ConnId, UserId>
    var disconnected: set<ConnId>
    var outbox: seq<Event>

    function Current(): State
      reads this
    {
      State(registry, disconnected, outbox)
    }

    constructor (verify: Token -> Option<UserId>, directory: map<UserId, string>)
      ensures this.verify == verify && this.directory == directory
      ensures Current() == Initial
    {
      this.verify := verify;
      this.directory := directory;
      registry, disconnected, outbox := map[], {}, [];
    }

    method HandleConnection(client: ConnId, authentication: Option<Token>, registerThrows: bool)
      modifies this
      ensures Current() == AfterConnect(verify, old(Current()), client, authentication, registerThrows)
    {
      var payload: Option<UserId>;
      if authentication.None? {
        payload := None;
      } else {
        payload := verify(authentication.value);
      }
      if payload.None? || registerThrows {
        disconnected := disconnected + {client};
        return;
      }
      registry := registry[client := payload.value];
      outbox := outbox + [ClientsUpdated(registry)];
    }

    method HandleDisconnect(client: ConnId)
      modifies this
      ensures Current() == AfterDisconnect(old(Current()), client)
    {
      registry := registry - {client};
    }

    method OnMessageFromClient(client: ConnId, message: Option<string>)
      modifies this
      ensures Current() == AfterMessage(directory, old(Current()), client, message)
    {
      var fullName := FullName(directory, registry, client);
      var text := if message.Some? && message.value != [] then message.value else Placeholder;
      outbox := outbox + [MessageFromServer(fullName, text)];
    }
  }
}
