/**
 * The WebSocket relay as values: the server's registries and logs as one `Relay` record,
 * and each operation of WebSocketServer.cs as a function from the old record to the new.
 * The class in module Relay performs the same operations in place and is proved to agree
 * with these functions.
 *
 * Abstractions:
 * - A socket is the sequence of frames ReceiveAsync returns; when the sequence ends the
 *   handler's loops stop (their cancellation or socket-state guard turns false).
 * - Sends are recorded in `sent`, one entry per frame sent; a close handshake shows up as
 *   the socket's state becoming Closed.
 * - Requests to the notification manager are recorded in `notices`. They form a multiset:
 *   some are not awaited, and disconnect cleanup issues them in dictionary-key order,
 *   which .NET leaves unspecified.
 * - The audio converter is an oracle: None stands for a thrown exception.
 * - A channel's ConcurrentBag is a sequence; the model enumerates it in insertion order.
 */
module RelaySpec {

  import opened Wrappers
  import opened Bytes
  import opened Strings

  type ClientId = string

  /** Size of the handler's receive buffer (16 KB): no received frame carries more. */
  const BufferSize: nat := 16384

  /** The channel converted audio is broadcast to. */
  const AudioChannel: string := "audio"

  const SubscribePrefix: string := "subscribe:"
  const UnsubscribePrefix: string := "unsubscribe:"
  const SendPrefix: string := "sendtochannel:"

  /**
   * A WebSocket message. `Fault` occurs only on the receiving side: `ReceiveAsync` threw,
   * because the connection broke or the server's cancellation token fired.
   */
  datatype Frame = Text(text: string) | Binary(data: seq<byte>) | Close | Fault

  /** What ReceiveAsync can deliver into the 16 KB buffer. */
  ghost predicate FitsBuffer(frames: seq<Frame>)
  {
    forall i :: 0 <= i < |frames| && frames[i].Binary? ==> |frames[i].data| <= BufferSize
  }

  /** `WebSocket.State`, as far as the relay looks at it. */
  datatype SocketState = Open | CloseReceived | Closed | Aborted

  datatype Delivery = Delivery(client: ClientId, frame: Frame)

  /** The events the relay reports to the notification manager. */
  datatype Notice =
    | ServerStarted
    | StartFailed
    | ServerStopped
    | StopFailed
    | ClientConnected(client: ClientId)
    | ClientDisconnected(client: ClientId)
    | Subscribed(client: ClientId, channel: string)
    | Unsubscribed(client: ClientId, channel: string)
    | SentToChannel(client: ClientId, channel: string, message: string)
    | InvalidBinaryMessage(client: ClientId)
    | InvalidMessageFormat(client: ClientId)
    | ReceptionError(client: ClientId)
    | ConversionFailed(client: ClientId)
    | AudioRelayed(client: ClientId)
    | AudioError(client: ClientId)

  /**
   * The server state. `sockets` holds the socket of every connection ever accepted (the
   * handler keeps its connection object after the registry forgets it); `clients` is the
   * key set of the connection registry `_clients`, `channels` is `_channels`.
   */
  datatype Relay = Relay(
    running: bool,
    sockets: map<ClientId, SocketState>,
    clients: set<ClientId>,
    channels: map<string, seq<ClientId>>,
    sent: seq<Delivery>,
    notices: multiset<Notice>,
    conversions: seq<seq<byte>>)

  /** A newly constructed server. */
  const Initial: Relay := Relay(false, map[], {}, map[], [], multiset{}, [])

  /**
   * What every operation keeps: registered ids have sockets, every open socket is
   * registered, and no channel is kept with an empty bag.
   */
  ghost predicate Valid(r: Relay)
  {
    && r.clients <= r.sockets.Keys
    && (forall id :: id in r.sockets && r.sockets[id] == Open ==> id in r.clients)
    && (forall ch :: ch in r.channels ==> r.channels[ch] != [])
  }

  /** Every channel member is a registered connection. */
  ghost predicate MembersRegistered(r: Relay)
  {
    forall ch, id :: ch in r.channels && id in r.channels[ch] ==> id in r.clients
  }

  function Notify(r: Relay, n: Notice): Relay
  {
    r.(notices := r.notices + multiset{n})
  }

  // ---------------------------------------------------------------- lifecycle

  datatype StartResult = Started | AlreadyRunning | ListenerFailed

  /** `StartAsync`; `listenerOk` says whether `HttpListener.Start()` succeeds. */
  function Start(r: Relay, listenerOk: bool): (res: (StartResult, Relay))
    ensures r.running ==> res == (AlreadyRunning, r)
    ensures res.0 == Started <==> !r.running && listenerOk
    ensures res.1.running <==> r.running || listenerOk
    ensures res.1.clients == r.clients && res.1.channels == r.channels && res.1.sockets == r.sockets
    ensures res.0 == ListenerFailed ==> res.1.notices == r.notices + multiset{StartFailed}
  {
    if r.running then (AlreadyRunning, r)
    else if !listenerOk then (ListenerFailed, Notify(r, StartFailed))
    else (Started, Notify(r.(running := true), ServerStarted))
  }

  /** The sockets after `CloseAsync` on every registered connection in `done`. */
  function CloseRegistered(sockets: map<ClientId, SocketState>, clients: set<ClientId>, done: set<ClientId>)
    : (m: map<ClientId, SocketState>)
    ensures m.Keys == sockets.Keys
    ensures forall id :: id in m && id in done && id in clients ==> m[id] != Open
    ensures forall id :: id in m && !(id in done && id in clients) ==> m[id] == sockets[id]
    ensures forall id :: id in m && m[id] != sockets[id] ==> sockets[id] == Open && m[id] == Closed
  {
    map id | id in sockets :: if id in done && id in clients && sockets[id] == Open then Closed else sockets[id]
  }

  /**
   * `StopAsync`. Every registered connection gets a close handshake; `closesOk` says
   * whether all of them completed. If one failed, `Task.WhenAll` throws and the two
   * `Clear()` calls are skipped.
   */
  function Stop(r: Relay, closesOk: bool): (s: Relay)
    ensures !r.running ==> s == r
    ensures r.running ==> !s.running
    ensures r.running ==> forall id :: id in s.sockets && id in r.clients ==> s.sockets[id] != Open
    ensures r.running && closesOk ==> s.clients == {} && s.channels == map[]
    ensures r.running && !closesOk ==> s.clients == r.clients && s.channels == r.channels
    ensures s.sent == r.sent && s.conversions == r.conversions
  {
    if !r.running then r
    else
      var closed := CloseRegistered(r.sockets, r.clients, r.clients);
      if closesOk then Notify(r.(running := false, sockets := closed, clients := {}, channels := map[]), ServerStopped)
      else Notify(r.(running := false, sockets := closed), StopFailed)
  }

  /** One accepted upgrade request: a fresh id registered with an open socket. */
  function Accept(r: Relay, id: ClientId): (s: Relay)
    requires r.running && id !in r.sockets
    ensures s.sockets == r.sockets[id := Open] && s.clients == r.clients + {id}
    ensures s.channels == r.channels && s.sent == r.sent
  {
    Notify(r.(sockets := r.sockets[id := Open], clients := r.clients + {id}), ClientConnected(id))
  }

  // ---------------------------------------------------------------- channel registry

  /** The bag of a channel, empty when the channel does not exist. */
  function Members(r: Relay, ch: string): seq<ClientId>
  {
    if ch in r.channels then r.channels[ch] else []
  }

  /** `SubscribeToChannel`: `GetOrAdd` the bag, then `Add` the id; repeats are kept. */
  function SubscribeToChannel(r: Relay, id: ClientId, ch: string): (s: Relay)
    ensures ch in s.channels && multiset(s.channels[ch]) == multiset(Members(r, ch)) + multiset{id}
    ensures forall c :: c != ch ==> (c in s.channels <==> c in r.channels)
    ensures forall c :: c != ch && c in r.channels ==> s.channels[c] == r.channels[c]
    ensures s.clients == r.clients && s.sockets == r.sockets && s.sent == r.sent && s.notices == r.notices
  {
    r.(channels := r.channels[ch := Members(r, ch) + [id]])
  }

  /**
   * LINQ `Except`: the elements of `bag` not in `seen`, each once, in the order of their
   * first occurrence.
   */
  function ExceptFrom(bag: seq<ClientId>, seen: set<ClientId>): (r: seq<ClientId>)
    ensures forall x :: x in r <==> x in bag && x !in seen
    ensures forall i, j :: 0 <= i < j < |r| ==> r[i] != r[j]
  {
    if bag == [] then []
    else if bag[0] in seen then ExceptFrom(bag[1..], seen)
    else
      var tail := ExceptFrom(bag[1..], seen + {bag[0]});
      assert bag[0] !in tail;
      [bag[0]] + tail
  }

  function Except(bag: seq<ClientId>, id: ClientId): seq<ClientId>
  {
    ExceptFrom(bag, {id})
  }

  /**
   * `UnsubscribeFromChannel`: the bag is rebuilt from `Except`, which drops `id` and also
   * collapses the other members' repeats; an emptied channel is removed.
   */
  function UnsubscribeFromChannel(r: Relay, id: ClientId, ch: string): (s: Relay)
    ensures ch !in r.channels ==> s == r
    ensures ch in s.channels ==> id !in s.channels[ch]
    ensures ch in r.channels ==>
      && (ch in s.channels <==> exists x :: x in r.channels[ch] && x != id)
      && (ch in s.channels ==> forall x :: x in s.channels[ch] <==> x in r.channels[ch] && x != id)
      && (ch in s.channels ==> forall i, j :: 0 <= i < j < |s.channels[ch]| ==> s.channels[ch][i] != s.channels[ch][j])
      && s.notices == r.notices + multiset{Unsubscribed(id, ch)}
    ensures forall c :: c != ch ==> (c in s.channels <==> c in r.channels)
    ensures forall c :: c != ch && c in r.channels ==> s.channels[c] == r.channels[c]
    ensures s.clients == r.clients && s.sockets == r.sockets && s.sent == r.sent
  {
    if ch !in r.channels then r
    else
      var rest := Except(r.channels[ch], id);
      assert rest == [] <==> !exists x :: x in r.channels[ch] && x != id by {
        if rest != [] { assert rest[0] in r.channels[ch]; }
      }
      Notify(r.(channels := if rest == [] then r.channels - {ch} else r.channels[ch := rest]), Unsubscribed(id, ch))
  }

  // ---------------------------------------------------------------- fan-out

  /** A member the broadcast reaches: registered, with an open socket. */
  predicate Live(clients: set<ClientId>, sockets: map<ClientId, SocketState>, id: ClientId)
  {
    id in clients && id in sockets && sockets[id] == Open
  }

  /** One send per bag entry whose connection is live, in bag order. */
  function Deliveries(bag: seq<ClientId>, clients: set<ClientId>, sockets: map<ClientId, SocketState>, frame: Frame)
    : seq<Delivery>
  {
    if bag == [] then []
    else
      var last := bag[|bag| - 1];
      Deliveries(bag[..|bag| - 1], clients, sockets, frame)
        + (if Live(clients, sockets, last) then [Delivery(last, frame)] else [])
  }

  /** `SendMessageToChannelAsync` / `SendBinaryToChannelAsync`. */
  function Broadcast(r: Relay, ch: string, frame: Frame): (s: Relay)
    ensures ch !in r.channels ==> s == r
    ensures s == r.(sent := r.sent + Deliveries(Members(r, ch), r.clients, r.sockets, frame))
  {
    if ch !in r.channels then r
    else r.(sent := r.sent + Deliveries(r.channels[ch], r.clients, r.sockets, frame))
  }

  // ---------------------------------------------------------------- disconnect

  /** The registry after `UnsubscribeFromChannel(id, ch)` for every `ch` in `done`. */
  function PruneMember(channels: map<string, seq<ClientId>>, id: ClientId, done: set<string>)
    : (m: map<string, seq<ClientId>>)
  {
    map ch | ch in channels && (ch !in done || Except(channels[ch], id) != []) ::
      if ch in done then Except(channels[ch], id) else channels[ch]
  }

  /** The notices those unsubscriptions post, one per channel. */
  function UnsubscribeNotices(id: ClientId, done: set<string>): multiset<Notice>
  {
    multiset(set ch | ch in done :: Unsubscribed(id, ch))
  }

  /**
   * `HandleClientDisconnectAsync`: if the registry still holds `id`, remove it, close its
   * socket if open, unsubscribe it from every channel and report the disconnect.
   */
  function Disconnect(r: Relay, id: ClientId): (s: Relay)
    ensures id !in r.clients ==> s == r
    ensures id !in s.clients && s.clients == r.clients - {id}
    ensures id in r.clients ==> forall ch :: ch in s.channels ==> id !in s.channels[ch]
    ensures forall ch :: ch in s.channels ==> ch in r.channels
    ensures id in r.clients ==> s.channels == PruneMember(r.channels, id, r.channels.Keys)
    ensures s.sockets == if id in r.clients && id in r.sockets && r.sockets[id] == Open then r.sockets[id := Closed] else r.sockets
    ensures s.sent == r.sent && s.conversions == r.conversions
  {
    if id !in r.clients then r
    else
      var sockets := if id in r.sockets && r.sockets[id] == Open then r.sockets[id := Closed] else r.sockets;
      var s := r.(clients := r.clients - {id}, sockets := sockets, channels := PruneMember(r.channels, id, r.channels.Keys),
                  notices := r.notices + UnsubscribeNotices(id, r.channels.Keys));
      Notify(s, ClientDisconnected(id))
  }

  // ---------------------------------------------------------------- text commands

  /** The text command grammar. `Ignored` is a recognised prefix whose arguments are not usable. */
  datatype Command =
    | Subscribe(channel: string)
    | Unsubscribe(channel: string)
    | SendToChannel(channel: string, message: string)
    | Ignored
    | Unrecognized

  /** The parsing half of `ProcessTextMessageAsync`. */
  function ParseCommand(message: string): (c: Command)
    ensures c.Subscribe? ==> c.channel != [] && c.channel == Trim(c.channel)
    ensures c.SendToChannel? ==> c.channel != [] && c.message != []
    ensures c.Unrecognized? <==> !(SubscribePrefix <= message) && !(UnsubscribePrefix <= message) && !(SendPrefix <= message)
  {
    if SubscribePrefix <= message then
      var ch := Trim(message[|SubscribePrefix|..]);
      TrimIdempotent(message[|SubscribePrefix|..]);
      if ch == [] then Ignored else Subscribe(ch)
    else if UnsubscribePrefix <= message then
      Unsubscribe(Trim(message[|UnsubscribePrefix|..]))
    else if SendPrefix <= message then
      match SplitFirst(message[|SendPrefix|..], ':')
      case None => Ignored
      case Some((before, after)) =>
        var ch, msg := Trim(before), Trim(after);
        if ch == [] || msg == [] then Ignored else SendToChannel(ch, msg)
    else Unrecognized
  }

  /** `ProcessTextMessageAsync` for the connection `id`. */
  function ProcessText(r: Relay, id: ClientId, message: string): (s: Relay)
    ensures ParseCommand(message).Ignored? || ParseCommand(message).Unrecognized? ==> s == r
    ensures s.clients == r.clients && s.sockets == r.sockets && s.conversions == r.conversions
  {
    match ParseCommand(message)
    case Subscribe(ch) => Notify(SubscribeToChannel(r, id, ch), Subscribed(id, ch))
    case Unsubscribe(ch) => UnsubscribeFromChannel(r, id, ch)
    case SendToChannel(ch, msg) => Notify(Broadcast(r, ch, Text(msg)), SentToChannel(id, ch, msg))
    case Ignored => r
    case Unrecognized => r
  }

  // ---------------------------------------------------------------- binary transfers

  /** How a binary transfer ends. */
  datatype Transfer =
    | ShortHeader
    | Interrupted(frame: Frame)
    | Mismatch(declared: int, received: nat)
    | TooLong
    | Faulted
    | Complete(payload: seq<byte>)

  /**
   * The receive loop of `ProcessBinaryMessageAsync`: while fewer than `declared` bytes
   * have arrived, take the next frame; a failed receive or a frame that is not binary
   * ends the transfer; a
   * MemoryStream cannot grow past `Int32Max` bytes, so a write beyond that throws. After
   * the loop a count other than `declared` is a mismatch. Returns the frames not consumed.
   */
  function Accumulate(declared: int, received: seq<byte>, frames: seq<Frame>): (res: (Transfer, seq<Frame>))
    ensures |res.1| <= |frames|
    ensures !res.0.ShortHeader?
    ensures declared < 0 ==> res == (Mismatch(declared, |received|), frames)
    ensures res.0.Complete? ==> |res.0.payload| == declared
    decreases |frames|
  {
    if |received| >= declared || frames == [] then
      (if |received| == declared then Complete(received) else Mismatch(declared, |received|), frames)
    else if frames[0].Fault? then (Faulted, frames[1..])
    else if !frames[0].Binary? then (Interrupted(frames[0]), frames[1..])
    else if |received| + |frames[0].data| > Int32Max then (TooLong, frames[1..])
    else Accumulate(declared, received + frames[0].data, frames[1..])
  }

  /** The header check, then the receive loop, starting from the bytes after the header. */
  function Reassemble(first: seq<byte>, more: seq<Frame>): (res: (Transfer, seq<Frame>))
    ensures |res.1| <= |more|
    ensures |first| < 4 <==> res.0 == ShortHeader
    ensures |first| < 4 ==> res.1 == more
  {
    if |first| < 4 then (ShortHeader, more)
    else Accumulate(DeclaredSize(first), first[4..], more)
  }

  /** What follows a completed transfer, given the converter's answer. */
  function AfterConversion(r: Relay, id: ClientId, converted: Option<seq<byte>>): (s: Relay)
  {
    match converted
    case None => Notify(r, AudioError(id))
    case Some(wav) =>
      if wav == [] then Notify(r, ConversionFailed(id))
      else Notify(Broadcast(r, AudioChannel, Binary(wav)), AudioRelayed(id))
  }

  /**
   * `ProcessBinaryMessageAsync` for the connection `id`, whose first binary frame is
   * `first` and whose later frames are `more`. Returns the frames it did not consume.
   */
  function ProcessBinary(r: Relay, id: ClientId, first: seq<byte>, more: seq<Frame>, convert: seq<byte> -> Option<seq<byte>>)
    : (res: (Relay, seq<Frame>))
    ensures |res.1| <= |more|
    ensures res.1 == Reassemble(first, more).1
    ensures res.0.clients == r.clients && res.0.channels == r.channels
    ensures res.0.sockets in {r.sockets, r.sockets[id := CloseReceived], r.sockets[id := Aborted]}
  {
    var (t, rest) := Reassemble(first, more);
    var s :=
      match t
      case ShortHeader => Notify(r, InvalidBinaryMessage(id))
      case Interrupted(f) =>
        Notify(if f.Close? then r.(sockets := r.sockets[id := CloseReceived]) else r, InvalidMessageFormat(id))
      case Mismatch(_, _) => Notify(r, ReceptionError(id))
      case TooLong => Notify(r, AudioError(id))
      case Faulted => Notify(r.(sockets := r.sockets[id := Aborted]), AudioError(id))
      case Complete(payload) => AfterConversion(r.(conversions := r.conversions + [payload]), id, convert(payload));
    (s, rest)
  }

  // ---------------------------------------------------------------- the handler

  /**
   * `HandleClientAsync`: while the socket is open, dispatch each received frame by type.
   * A close frame moves the socket to CloseReceived and a failed receive aborts it; the
   * handler then cleans up and its loop ends.
   */
  function HandleClient(r: Relay, id: ClientId, frames: seq<Frame>, convert: seq<byte> -> Option<seq<byte>>): Relay
    decreases |frames|
  {
    if frames == [] || id !in r.sockets || r.sockets[id] != Open then r
    else
      match frames[0]
      case Text(message) => HandleClient(ProcessText(r, id, message), id, frames[1..], convert)
      case Binary(data) =>
        var (s, rest) := ProcessBinary(r, id, data, frames[1..], convert);
        HandleClient(s, id, rest, convert)
      case Close => HandleClient(Disconnect(r.(sockets := r.sockets[id := CloseReceived]), id), id, frames[1..], convert)
      case Fault => HandleClient(Disconnect(r.(sockets := r.sockets[id := Aborted]), id), id, frames[1..], convert)
  }
}
