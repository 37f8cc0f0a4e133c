/**
 * The WebSocket relay as the object WebSocketServer.cs defines: fields that its methods
 * update in place, and loops where the source loops. Every method ends in the state the
 * matching function of RelaySpec computes from the state it started in, so the
 * properties proved about those functions hold for the object.
 */
module Relay {

  import opened Wrappers
  import opened Bytes
  import opened RelaySpec
  import RelayProperties

  class WebSocketServer {

    /** `_isRunning`. */
    var running: bool
    /** The state of every accepted connection's socket. */
    var sockets: map<ClientId, SocketState>
    /** The keys of `_clients`. */
    var clients: set<ClientId>
    /** `_channels`: each channel's bag of client ids. */
    var channels: map<string, seq<ClientId>>
    /** Every frame sent to a client, in order. */
    var sent: seq<Delivery>
    /** Every request made to the notification manager. */
    var notices: multiset<Notice>
    /** Every payload handed to the audio converter, in order. */
    var conversions: seq<seq<byte>>

    ghost function State(): Relay
      reads this
    {
      Relay(running, sockets, clients, channels, sent, notices, conversions)
    }

    ghost predicate Valid()
      reads this
    {
      RelaySpec.Valid(State()) && MembersRegistered(State())
    }

    constructor ()
      ensures State() == Initial && Valid()
    {
      running := false;
      sockets := map[];
      clients := {};
      channels := map[];
      sent := [];
      notices := multiset{};
      conversions := [];
    }

    method Notify(n: Notice)
      modifies this
      ensures State() == RelaySpec.Notify(old(State()), n)
    {
      notices := notices + multiset{n};
    }

    /** `StartAsync`; `listenerOk` is whether the HTTP listener starts. */
    method StartAsync(listenerOk: bool) returns (result: StartResult)
      modifies this
      ensures (result, State()) == Start(old(State()), listenerOk)
      ensures old(Valid()) ==> Valid()
    {
      if Valid() {
        RelayProperties.StartKeepsValid(State(), listenerOk);
      }
      if running {
        return AlreadyRunning;
      }
      if !listenerOk {
        Notify(StartFailed);
        return ListenerFailed;
      }
      running := true;
      Notify(ServerStarted);
      result := Started;
    }

    /** `StopAsync`; `closesOk` is whether every close handshake completes. */
    method StopAsync(closesOk: bool)
      modifies this
      ensures State() == Stop(old(State()), closesOk)
      ensures old(Valid()) ==> Valid()
      ensures old(Valid()) && old(running) ==> forall id :: id in sockets ==> sockets[id] != Open
    {
      ghost var r0 := State();
      if running {
        running := false;
        ghost var sockets0 := sockets;
        var pending := clients;
        ghost var done: set<ClientId> := {};
        while pending != {}
          invariant pending + done == clients && pending !! done
          invariant sockets == CloseRegistered(sockets0, clients, done)
          invariant running == false && sent == old(sent) && notices == old(notices) && conversions == old(conversions)
          invariant clients == old(clients) && channels == old(channels)
          decreases pending
        {
          var id :| id in pending;
          if id in sockets && sockets[id] == Open {
            sockets := sockets[id := Closed];
          }
          pending := pending - {id};
          done := done + {id};
        }
        if closesOk {
          clients := {};
          channels := map[];
          Notify(ServerStopped);
        } else {
          Notify(StopFailed);
        }
      }
      assert State() == Stop(r0, closesOk);
      if RelaySpec.Valid(r0) && MembersRegistered(r0) {
        RelayProperties.StopKeepsValid(r0, closesOk);
        if r0.running {
          RelayProperties.StopClosesAll(r0, closesOk);
        }
      }
    }

    /** One iteration of `AcceptConnectionsAsync` that accepts an upgrade; `id` is the fresh GUID. */
    method AcceptConnection(id: ClientId)
      requires running && id !in sockets
      modifies this
      ensures State() == Accept(old(State()), id)
      ensures old(Valid()) ==> Valid()
    {
      if Valid() {
        RelayProperties.AcceptKeepsValid(State(), id);
      }
      sockets := sockets[id := Open];
      clients := clients + {id};
      Notify(ClientConnected(id));
    }

    /** `SubscribeToChannel`. */
    method SubscribeToChannel(id: ClientId, ch: string)
      modifies this
      ensures State() == RelaySpec.SubscribeToChannel(old(State()), id, ch)
      ensures old(Valid()) && id in old(clients) ==> Valid()
    {
      if Valid() && id in clients {
        RelayProperties.SubscribeKeepsValid(State(), id, ch);
      }
      var bag := if ch in channels then channels[ch] else [];
      channels := channels[ch := bag + [id]];
    }

    /** `UnsubscribeFromChannel`. */
    method UnsubscribeFromChannel(id: ClientId, ch: string)
      modifies this
      ensures State() == RelaySpec.UnsubscribeFromChannel(old(State()), id, ch)
      ensures old(Valid()) ==> Valid()
    {
      if Valid() {
        RelayProperties.UnsubscribeKeepsValid(State(), id, ch);
      }
      if ch in channels {
        var rest := Except(channels[ch], id);
        if rest == [] {
          channels := channels - {ch};
        } else {
          channels := channels[ch := rest];
        }
        Notify(Unsubscribed(id, ch));
      }
    }

    /** The fan-out both channel sends share: one send per live entry of the bag. */
    method SendToChannel(ch: string, frame: Frame)
      modifies this
      ensures State() == Broadcast(old(State()), ch, frame)
      ensures old(Valid()) ==> Valid()
    {
      if Valid() {
        RelayProperties.BroadcastKeepsValid(State(), ch, frame);
      }
      if ch !in channels {
        return;
      }
      var bag := channels[ch];
      var i := 0;
      while i < |bag|
        invariant 0 <= i <= |bag|
        invariant sent == old(sent) + Deliveries(bag[..i], clients, sockets, frame)
        invariant State() == old(State()).(sent := sent)
      {
        var id := bag[i];
        assert bag[..i + 1][..i] == bag[..i];
        if id in clients && id in sockets && sockets[id] == Open {
          sent := sent + [Delivery(id, frame)];
        }
        i := i + 1;
      }
      assert bag[..|bag|] == bag;
    }

    /** `SendMessageToChannelAsync`. */
    method SendMessageToChannelAsync(ch: string, message: string)
      modifies this
      ensures State() == Broadcast(old(State()), ch, Text(message))
      ensures old(Valid()) ==> Valid()
    {
      SendToChannel(ch, Text(message));
    }

    /** `SendBinaryToChannelAsync`. */
    method SendBinaryToChannelAsync(ch: string, data: seq<byte>)
      modifies this
      ensures State() == Broadcast(old(State()), ch, Binary(data))
      ensures old(Valid()) ==> Valid()
    {
      SendToChannel(ch, Binary(data));
    }

    /** `HandleClientDisconnectAsync`. */
    method HandleClientDisconnectAsync(id: ClientId)
      modifies this
      ensures State() == Disconnect(old(State()), id)
      ensures old(Valid()) ==> Valid()
    {
      if Valid() {
        RelayProperties.DisconnectKeepsValid(State(), id);
      }
      if id !in clients {
        return;
      }
      clients := clients - {id};
      if id in sockets && sockets[id] == Open {
        sockets := sockets[id := Closed];
      }
      UnsubscribeFromAll(id);
      Notify(ClientDisconnected(id));
    }

    /** The cleanup loop: `UnsubscribeFromChannel` for each channel name of a snapshot of the keys. */
    method UnsubscribeFromAll(id: ClientId)
      modifies this
      ensures channels == PruneMember(old(channels), id, old(channels).Keys)
      ensures notices == old(notices) + UnsubscribeNotices(id, old(channels).Keys)
      ensures State() == old(State()).(channels := channels, notices := notices)
    {
      var keys := channels.Keys;
      var pending := keys;
      ghost var done: set<string> := {};
      while pending != {}
        invariant pending + done == keys && pending !! done
        invariant channels == PruneMember(old(channels), id, done)
        invariant notices == old(notices) + UnsubscribeNotices(id, done)
        invariant running == old(running) && sockets == old(sockets) && clients == old(clients)
        invariant sent == old(sent) && conversions == old(conversions)
        decreases pending
      {
        var ch :| ch in pending;
        UnsubscribeStep(State(), old(channels), id, done, ch);
        UnsubscribeFromChannel(id, ch);
        UnsubscribeNoticesStep(id, done, ch);
        pending := pending - {ch};
        done := done + {ch};
      }
    }

    /** `ProcessTextMessageAsync`. */
    method ProcessTextMessageAsync(id: ClientId, message: string)
      modifies this
      ensures State() == ProcessText(old(State()), id, message)
      ensures old(Valid()) && id in old(clients) ==> Valid()
    {
      if Valid() && id in clients {
        RelayProperties.ProcessTextKeepsValid(State(), id, message);
      }
      match ParseCommand(message)
      case Subscribe(ch) =>
        SubscribeToChannel(id, ch);
        Notify(Subscribed(id, ch));
      case Unsubscribe(ch) =>
        UnsubscribeFromChannel(id, ch);
      case SendToChannel(ch, msg) =>
        SendMessageToChannelAsync(ch, msg);
        Notify(SentToChannel(id, ch, msg));
      case Ignored =>
      case Unrecognized =>
    }

    /**
     * `ProcessBinaryMessageAsync` on the first binary frame `first`, reading further
     * frames from `frames`; returns the frames it did not consume.
     */
    method ProcessBinaryMessageAsync(id: ClientId, first: seq<byte>, frames: seq<Frame>, convert: seq<byte> -> Option<seq<byte>>)
      returns (rest: seq<Frame>)
      requires |first| <= BufferSize
      modifies this
      ensures (State(), rest) == ProcessBinary(old(State()), id, first, frames, convert)
      ensures old(Valid()) ==> Valid()
    {
      if Valid() {
        RelayProperties.ProcessBinaryKeepsValid(State(), id, first, frames, convert);
      }
      if |first| < 4 {
        Notify(InvalidBinaryMessage(id));
        return frames;
      }
      var fileSize := DeclaredSize(first);
      var stream := first[4..];
      var bytesReceived: int := |first| - 4;
      rest := frames;
      while bytesReceived < fileSize && rest != []
        invariant bytesReceived == |stream| && bytesReceived <= Int32Max
        invariant Accumulate(fileSize, stream, rest) == Accumulate(fileSize, first[4..], frames)
        invariant State() == old(State())
        decreases |rest|
      {
        var f := rest[0];
        rest := rest[1..];
        if f.Fault? {
          sockets := sockets[id := Aborted];
          Notify(AudioError(id));
          return;
        }
        if !f.Binary? {
          if f.Close? {
            sockets := sockets[id := CloseReceived];
          }
          Notify(InvalidMessageFormat(id));
          return;
        }
        if bytesReceived + |f.data| > Int32Max {
          Notify(AudioError(id));
          return;
        }
        stream := stream + f.data;
        bytesReceived := bytesReceived + |f.data|;
      }
      if bytesReceived != fileSize {
        Notify(ReceptionError(id));
        return;
      }
      conversions := conversions + [stream];
      var converted := convert(stream);
      match converted
      case None =>
        Notify(AudioError(id));
      case Some(wav) =>
        if wav == [] {
          Notify(ConversionFailed(id));
        } else {
          SendBinaryToChannelAsync(AudioChannel, wav);
          Notify(AudioRelayed(id));
        }
    }

    /**
     * `HandleClientAsync` for the connection `id`, whose socket delivers `frames`: the
     * server keeps its registry invariants.
     */
    method HandleClientAsync(id: ClientId, frames: seq<Frame>, convert: seq<byte> -> Option<seq<byte>>)
      requires FitsBuffer(frames)
      requires Valid()
      modifies this
      ensures State() == HandleClient(old(State()), id, frames, convert)
      ensures Valid()
    {
      var queue := frames;
      while queue != [] && id in sockets && sockets[id] == Open
        invariant FitsBuffer(queue)
        invariant HandleClient(State(), id, queue, convert) == HandleClient(old(State()), id, frames, convert)
        decreases |queue|
      {
        var f := queue[0];
        var later := queue[1..];
        RelayProperties.FitsBufferSuffix(queue, 1);
        match f
        case Text(message) =>
          ProcessTextMessageAsync(id, message);
          queue := later;
        case Binary(data) =>
          assert queue[0].Binary?;
          RelayProperties.ProcessBinaryLeavesFitting(State(), id, data, later, convert);
          queue := ProcessBinaryMessageAsync(id, data, later, convert);
        case Close =>
          sockets := sockets[id := CloseReceived];
          HandleClientDisconnectAsync(id);
          queue := later;
        case Fault =>
          sockets := sockets[id := Aborted];
          HandleClientDisconnectAsync(id);
          queue := later;
      }
      RelayProperties.HandleClientKeepsValid(old(State()), id, frames, convert);
    }
  }

  /** One more unsubscription prunes one more channel. */
  lemma UnsubscribeStep(r: Relay, channels: map<string, seq<ClientId>>, id: ClientId, done: set<string>, ch: string)
    requires ch in channels && ch !in done
    requires r.channels == PruneMember(channels, id, done)
    ensures RelaySpec.UnsubscribeFromChannel(r, id, ch)
         == r.(channels := PruneMember(channels, id, done + {ch}), notices := r.notices + multiset{Unsubscribed(id, ch)})
  {
  }

  /** One more unsubscription adds its one notice. */
  lemma UnsubscribeNoticesStep(id: ClientId, done: set<string>, ch: string)
    requires ch !in done
    ensures UnsubscribeNotices(id, done + {ch}) == UnsubscribeNotices(id, done) + multiset{Unsubscribed(id, ch)}
  {
    var before := set c | c in done :: Unsubscribed(id, c);
    var after := set c | c in done + {ch} :: Unsubscribed(id, c);
    assert after == before + {Unsubscribed(id, ch)};
    assert Unsubscribed(id, ch) !in before;
  }
}
