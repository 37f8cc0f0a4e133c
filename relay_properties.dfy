/**
 * What the relay promises across operations: the command grammar, the channel
 * registry's bag semantics, fan-out, reassembly of size-prefixed transfers, disconnect
 * cleanup and the invariant the client handler keeps.
 */
module RelayProperties {

  import opened Wrappers
  import opened Bytes
  import opened Strings
  import opened RelaySpec
  import Audio

  // ---------------------------------------------------------------- lifecycle

  /** Stopping a running server whose closes succeed and starting it again begins from empty registries. */
  lemma RestartBeginsEmpty(r: Relay)
    requires r.running
    ensures var (res, s) := Start(Stop(r, true), true);
      res == Started && s.running && s.clients == {} && s.channels == map[]
  {
  }

  /** Starting, whatever the listener does, keeps the registry invariants. */
  lemma StartKeepsValid(r: Relay, listenerOk: bool)
    requires Valid(r) && MembersRegistered(r)
    ensures Valid(Start(r, listenerOk).1) && MembersRegistered(Start(r, listenerOk).1)
  {
  }

  /** Stopping a running server leaves no socket open, whether or not every close completes. */
  lemma StopClosesAll(r: Relay, closesOk: bool)
    requires Valid(r) && r.running
    ensures forall id :: id in Stop(r, closesOk).sockets ==> Stop(r, closesOk).sockets[id] != Open
  {
  }

  /** Stopping keeps the registry invariants. */
  lemma StopKeepsValid(r: Relay, closesOk: bool)
    requires Valid(r) && MembersRegistered(r)
    ensures Valid(Stop(r, closesOk)) && MembersRegistered(Stop(r, closesOk))
  {
  }

  /** Accepting a connection keeps the registry invariants. */
  lemma AcceptKeepsValid(r: Relay, id: ClientId)
    requires Valid(r) && MembersRegistered(r)
    requires r.running && id !in r.sockets
    ensures Valid(Accept(r, id)) && MembersRegistered(Accept(r, id))
  {
  }

  /** A registered client's subscription keeps the registry invariants. */
  lemma SubscribeKeepsValid(r: Relay, id: ClientId, ch: string)
    requires Valid(r) && MembersRegistered(r) && id in r.clients
    ensures Valid(SubscribeToChannel(r, id, ch)) && MembersRegistered(SubscribeToChannel(r, id, ch))
  {
    var s := SubscribeToChannel(r, id, ch);
    forall c, x | c in s.channels && x in s.channels[c] ensures x in s.clients {
      if c == ch {
        assert x in multiset(s.channels[c]);
        assert x in Members(r, ch) || x == id;
      }
    }
  }

  /** An unsubscription keeps the registry invariants. */
  lemma UnsubscribeKeepsValid(r: Relay, id: ClientId, ch: string)
    requires Valid(r) && MembersRegistered(r)
    ensures Valid(UnsubscribeFromChannel(r, id, ch)) && MembersRegistered(UnsubscribeFromChannel(r, id, ch))
  {
    var s := UnsubscribeFromChannel(r, id, ch);
    if ch in r.channels {
      forall c, x | c in s.channels && x in s.channels[c] ensures x in s.clients {
        if c == ch { assert x in r.channels[ch]; }
      }
    }
  }

  /** A broadcast keeps the registry invariants. */
  lemma BroadcastKeepsValid(r: Relay, ch: string, frame: Frame)
    requires Valid(r) && MembersRegistered(r)
    ensures Valid(Broadcast(r, ch, frame)) && MembersRegistered(Broadcast(r, ch, frame))
  {
  }

  /** A binary transfer keeps the registry invariants, whatever the converter answers. */
  lemma ProcessBinaryKeepsValid(r: Relay, id: ClientId, first: seq<byte>, more: seq<Frame>,
                                convert: seq<byte> -> Option<seq<byte>>)
    requires Valid(r) && MembersRegistered(r)
    ensures Valid(ProcessBinary(r, id, first, more, convert).0) && MembersRegistered(ProcessBinary(r, id, first, more, convert).0)
  {
  }

  // ---------------------------------------------------------------- the command grammar

  lemma ParseSubscribe(name: string)
    ensures ParseCommand(SubscribePrefix + name) == if Trim(name) == [] then Ignored else Subscribe(Trim(name))
  {
    var m := SubscribePrefix + name;
    assert m[|SubscribePrefix|..] == name;
  }

  lemma ParseUnsubscribe(name: string)
    ensures ParseCommand(UnsubscribePrefix + name) == Unsubscribe(Trim(name))
  {
    var m := UnsubscribePrefix + name;
    assert m[0] == 'u';
    assert m[|UnsubscribePrefix|..] == name;
  }

  /**
   * `sendtochannel:<ch>:<msg>` splits at the first colon after the prefix: when the
   * channel part has no colon, the rest, colons included, is the message.
   */
  lemma ParseSendToChannel(ch: string, msg: string)
    requires ':' !in ch
    ensures ParseCommand(SendPrefix + ch + [':'] + msg)
         == if Trim(ch) == [] || Trim(msg) == [] then Ignored else SendToChannel(Trim(ch), Trim(msg))
  {
    var m := SendPrefix + ch + [':'] + msg;
    assert m[0] == 's' && m[1] == 'e';
    assert m[|SendPrefix|..] == ch + [':'] + msg;
    SplitFirstOfJoin(ch, ':', msg);
  }

  /** Without a colon after the prefix, `sendtochannel:` sends nothing. */
  lemma ParseSendWithoutColon(rest: string)
    requires ':' !in rest
    ensures ParseCommand(SendPrefix + rest) == Ignored
  {
    var m := SendPrefix + rest;
    assert m[0] == 's' && m[1] == 'e';
    assert m[|SendPrefix|..] == rest;
  }

  /** The message keeps its colons: `sendtochannel:chat:hello:world` sends `hello:world` to `chat`. */
  lemma MessageMayContainColons(message: string, ch: string, msg: string)
    requires ch == "chat" && msg == "hello:world"
    requires message == SendPrefix + ch + [':'] + msg
    ensures ParseCommand(message) == SendToChannel(ch, msg)
  {
    ExampleParts(ch, msg);
    ParseSendToChannel(ch, msg);
  }

  lemma ExampleParts(ch: string, msg: string)
    requires ch == "chat" && msg == "hello:world"
    ensures ':' !in ch && Trim(ch) == ch && Trim(msg) == msg && ch != [] && msg != []
  {
    TrimOfCore(ch);
    TrimOfCore(msg);
  }

  lemma TrimOfCore(x: string)
    requires x != [] && !IsWhiteSpace(x[0]) && !IsWhiteSpace(x[|x| - 1])
    ensures Trim(x) == x
  {
    assert [] + x + [] == x;
    TrimOfPadded([], x, []);
  }

  // ---------------------------------------------------------------- subscribe and unsubscribe

  /**
   * `subscribe:<name>` adds one entry for the sender to the trimmed channel, creating it if
   * needed; a blank name changes nothing.
   */
  lemma SubscribeCommand(r: Relay, id: ClientId, name: string)
    ensures var s := ProcessText(r, id, SubscribePrefix + name);
      if Trim(name) == [] then s == r
      else
        && Trim(name) in s.channels
        && multiset(s.channels[Trim(name)]) == multiset(Members(r, Trim(name))) + multiset{id}
        && s.notices == r.notices + multiset{Subscribed(id, Trim(name))}
  {
    ParseSubscribe(name);
  }

  /** The bag does not deduplicate: subscribing twice leaves two entries for the client. */
  lemma RepeatSubscribeKeepsTwoEntries(r: Relay, id: ClientId, ch: string)
    requires id !in Members(r, ch)
    ensures var s := SubscribeToChannel(SubscribeToChannel(r, id, ch), id, ch);
      multiset(s.channels[ch])[id] == 2
  {
    var s1 := SubscribeToChannel(r, id, ch);
    assert multiset(Members(s1, ch)) == multiset(Members(r, ch)) + multiset{id};
  }

  /** Subscribing to a new channel and unsubscribing again leaves the registry as it was. */
  lemma SubscribeThenUnsubscribe(r: Relay, id: ClientId, ch: string)
    requires ch !in r.channels
    ensures UnsubscribeFromChannel(SubscribeToChannel(r, id, ch), id, ch).channels == r.channels
  {
    var s := SubscribeToChannel(r, id, ch);
    assert s.channels[ch] == [id];
    var t := UnsubscribeFromChannel(s, id, ch);
    assert ch !in t.channels;
  }

  /** `unsubscribe:<name>` on a channel the server does not have changes nothing. */
  lemma UnsubscribeUnknownChannel(r: Relay, id: ClientId, name: string)
    requires Trim(name) !in r.channels
    ensures ProcessText(r, id, UnsubscribePrefix + name) == r
  {
    ParseUnsubscribe(name);
  }

  // ---------------------------------------------------------------- fan-out

  /**
   * Each bag entry whose connection is live gets the frame once per entry; a stale or
   * closed entry gets nothing.
   */
  lemma {:induction false} DeliveriesCount(bag: seq<ClientId>, clients: set<ClientId>, sockets: map<ClientId, SocketState>,
                                           frame: Frame, x: ClientId)
    ensures multiset(Deliveries(bag, clients, sockets, frame))[Delivery(x, frame)]
         == if Live(clients, sockets, x) then multiset(bag)[x] else 0
  {
    if bag != [] {
      var init := bag[..|bag| - 1];
      DeliveriesCount(init, clients, sockets, frame, x);
      assert bag == init + [bag[|bag| - 1]];
    }
  }

  /** Every send goes to a live member of the bag and carries the broadcast frame. */
  lemma {:induction false} DeliveriesAreLive(bag: seq<ClientId>, clients: set<ClientId>, sockets: map<ClientId, SocketState>,
                                             frame: Frame)
    ensures |Deliveries(bag, clients, sockets, frame)| <= |bag|
    ensures forall d :: d in Deliveries(bag, clients, sockets, frame) ==>
      d.frame == frame && d.client in bag && Live(clients, sockets, d.client)
  {
    if bag != [] {
      var init := bag[..|bag| - 1];
      DeliveriesAreLive(init, clients, sockets, frame);
      assert forall x :: x in init ==> x in bag;
    }
  }

  /**
   * `sendtochannel:<ch>:<msg>` with both parts non-blank broadcasts the trimmed message as a
   * text frame to the trimmed channel and posts one `SentToChannel` notice.
   */
  lemma SendCommandBroadcasts(r: Relay, id: ClientId, ch: string, msg: string)
    requires ':' !in ch && Trim(ch) != [] && Trim(msg) != []
    ensures ProcessText(r, id, SendPrefix + ch + [':'] + msg).sent
         == r.sent + Deliveries(Members(r, Trim(ch)), r.clients, r.sockets, Text(Trim(msg)))
    ensures ProcessText(r, id, SendPrefix + ch + [':'] + msg).notices
         == r.notices + multiset{SentToChannel(id, Trim(ch), Trim(msg))}
  {
    ParseSendToChannel(ch, msg);
  }

  // ---------------------------------------------------------------- reassembly

  /** The bytes a sequence of binary frames carries, in order. */
  function Payload(frames: seq<Frame>): seq<byte>
  {
    if frames == [] then []
    else (if frames[0].Binary? then frames[0].data else []) + Payload(frames[1..])
  }

  /** A suffix of frames that fit the receive buffer fits it too. */
  lemma FitsBufferSuffix(frames: seq<Frame>, k: nat)
    requires FitsBuffer(frames) && k <= |frames|
    ensures FitsBuffer(frames[k..])
  {
    forall i | 0 <= i < |frames[k..]| && frames[k..][i].Binary? ensures |frames[k..][i].data| <= BufferSize {
      assert frames[k..][i] == frames[k + i];
    }
  }

  /** Reassembly only consumes: what it leaves is a suffix of the queue. */
  lemma {:induction false} AccumulateLeavesSuffix(declared: int, received: seq<byte>, frames: seq<Frame>)
    ensures var rest := Accumulate(declared, received, frames).1;
      rest == frames[|frames| - |rest|..]
    decreases |frames|
  {
    if |received| < declared && frames != [] && frames[0].Binary? && |received| + |frames[0].data| <= Int32Max {
      AccumulateLeavesSuffix(declared, received + frames[0].data, frames[1..]);
      var rest := Accumulate(declared, received, frames).1;
      assert frames[1..][|frames| - 1 - |rest|..] == frames[|frames| - |rest|..];
    }
  }

  /** A binary frame's handling leaves a suffix of the later frames, so they still fit the buffer. */
  lemma ProcessBinaryLeavesFitting(r: Relay, id: ClientId, first: seq<byte>, more: seq<Frame>,
                                   convert: seq<byte> -> Option<seq<byte>>)
    requires FitsBuffer(more)
    ensures FitsBuffer(ProcessBinary(r, id, first, more, convert).1)
  {
    if |first| >= 4 {
      AccumulateLeavesSuffix(DeclaredSize(first), first[4..], more);
      FitsBufferSuffix(more, |more| - |Reassemble(first, more).1|);
    }
  }

  ghost predicate AllBinary(frames: seq<Frame>)
  {
    forall i :: 0 <= i < |frames| ==> frames[i].Binary?
  }

  /**
   * A completed transfer consumed a run of binary frames from the front of the queue,
   * left the rest untouched, and its payload is the received bytes followed by theirs.
   */
  lemma {:induction false} AccumulateComplete(declared: int, received: seq<byte>, frames: seq<Frame>)
    requires Accumulate(declared, received, frames).0.Complete?
    ensures var (t, rest) := Accumulate(declared, received, frames);
      var used := |frames| - |rest|;
      && frames[used..] == rest
      && AllBinary(frames[..used])
      && t.payload == received + Payload(frames[..used])
      && |t.payload| == declared
    decreases |frames|
  {
    if |received| >= declared || frames == [] {
      assert frames[..0] == [];
    } else {
      var f := frames[0];
      AccumulateComplete(declared, received + f.data, frames[1..]);
      var (t, rest) := Accumulate(declared, received, frames);
      var used := |frames| - |rest|;
      assert frames[1..][used - 1..] == frames[used..];
      assert frames[..used] == [f] + frames[1..][..used - 1];
      assert Payload(frames[..used]) == f.data + Payload(frames[1..][..used - 1]);
    }
  }

  /**
   * The received-byte counter never exceeds `int.MaxValue`, and an overshoot is smaller
   * than one buffer: the loop stops as soon as the declared size is reached, so at most
   * one frame carries it past.
   */
  lemma {:induction false} OvershootBelowOneFrame(declared: int, received: seq<byte>, frames: seq<Frame>)
    requires FitsBuffer(frames)
    requires |received| <= Int32Max
    requires |received| < (if declared < 0 then 0 else declared) + BufferSize
    ensures var t := Accumulate(declared, received, frames).0;
      t.Mismatch? ==> t.received <= Int32Max && t.received < (if declared < 0 then 0 else declared) + BufferSize
    decreases |frames|
  {
    if |received| < declared && frames != [] && frames[0].Binary? && |received| + |frames[0].data| <= Int32Max {
      assert FitsBuffer(frames[1..]) by {
        forall i | 0 <= i < |frames[1..]| && frames[1..][i].Binary? ensures |frames[1..][i].data| <= BufferSize {
          assert frames[1..][i] == frames[i + 1];
        }
      }
      OvershootBelowOneFrame(declared, received + frames[0].data, frames[1..]);
    }
  }

  /**
   * A ten-byte transfer sent as a bare header, then six bytes, then four: one conversion,
   * of the ten bytes in order, and the frames after them are left for the handler.
   */
  lemma TenBytesInThreeFrames(r: Relay, id: ClientId, a: seq<byte>, b: seq<byte>, later: seq<Frame>,
                              convert: seq<byte> -> Option<seq<byte>>)
    requires |a| == 6 && |b| == 4
    ensures var (s, rest) := ProcessBinary(r, id, EncodeInt32BigEndian(10), [Binary(a), Binary(b)] + later, convert);
      s.conversions == r.conversions + [a + b] && rest == later
  {
    var h := EncodeInt32BigEndian(10);
    assert h + [] == h;
    DeclaredSizeOfEncoded(10, []);
    assert h[4..] == [];
    var fs := [Binary(a), Binary(b)] + later;
    var fs1 := [Binary(b)] + later;
    assert fs[1..] == fs1 && fs1[1..] == later;
    assert [] + a == a;
    assert Reassemble(h, fs) == Accumulate(10, [], fs);
    assert Accumulate(10, [], fs) == Accumulate(10, a, fs1);
    assert Accumulate(10, a, fs1) == Accumulate(10, a + b, later);
    assert Accumulate(10, a + b, later) == (Complete(a + b), later);
  }

  /** A header, then more bytes than it declares in one frame: a mismatch, and no conversion. */
  lemma OvershootIsRejected(r: Relay, id: ClientId, extra: seq<byte>, later: seq<Frame>, convert: seq<byte> -> Option<seq<byte>>)
    requires |extra| == 8
    ensures var (s, rest) := ProcessBinary(r, id, EncodeInt32BigEndian(5), [Binary(extra)] + later, convert);
      && s.conversions == r.conversions
      && s.sent == r.sent
      && s.notices == r.notices + multiset{ReceptionError(id)}
      && rest == later
  {
    var h := EncodeInt32BigEndian(5);
    assert h + [] == h;
    DeclaredSizeOfEncoded(5, []);
    assert h[4..] == [];
    var fs := [Binary(extra)] + later;
    assert fs[1..] == later;
    assert [] + extra == extra;
    assert Reassemble(h, fs) == Accumulate(5, [], fs);
    assert Accumulate(5, [], fs) == Accumulate(5, extra, later);
    assert Accumulate(5, extra, later) == (Mismatch(5, 8), later);
  }

  /**
   * The converter is called exactly when the transfer completes, on the reassembled
   * payload; no other path sends anything. A failed or empty conversion sends nothing, a
   * non-empty one is broadcast as binary to the `audio` channel.
   */
  lemma ConversionExactlyOnComplete(r: Relay, id: ClientId, first: seq<byte>, more: seq<Frame>,
                                    convert: seq<byte> -> Option<seq<byte>>)
    ensures var t := Reassemble(first, more).0;
      var s := ProcessBinary(r, id, first, more, convert).0;
      && s.conversions == r.conversions + (if t.Complete? then [t.payload] else [])
      && (t.Complete? && convert(t.payload).Some? && convert(t.payload).value != [] ==>
            s.sent == r.sent + Deliveries(Members(r, AudioChannel), r.clients, s.sockets, Binary(convert(t.payload).value)))
      && (!(t.Complete? && convert(t.payload).Some? && convert(t.payload).value != []) ==> s.sent == r.sent)
  {
  }

  /** A header shorter than four bytes is rejected without calling the converter or sending. */
  lemma ShortHeaderRejected(r: Relay, id: ClientId, first: seq<byte>, more: seq<Frame>, convert: seq<byte> -> Option<seq<byte>>)
    requires |first| < 4
    ensures ProcessBinary(r, id, first, more, convert) == (Notify(r, InvalidBinaryMessage(id)), more)
  {
  }

  /**
   * A non-binary frame in the middle of a transfer ends it: that frame is consumed and is
   * not treated as a command.
   */
  lemma {:induction false} InterruptedConsumesFrame(declared: int, received: seq<byte>, frames: seq<Frame>)
    requires Accumulate(declared, received, frames).0.Interrupted?
    ensures var (t, rest) := Accumulate(declared, received, frames);
      var used := |frames| - |rest|;
      && 0 < used && frames[used..] == rest
      && frames[used - 1] == t.frame && !t.frame.Binary? && !t.frame.Fault?
      && AllBinary(frames[..used - 1])
    decreases |frames|
  {
    var tail := frames[1..];
    if frames[0].Binary? {
      var more := received + frames[0].data;
      assert Accumulate(declared, received, frames) == Accumulate(declared, more, tail);
      InterruptedConsumesFrame(declared, more, tail);
      var rest := Accumulate(declared, more, tail).1;
      var used := |frames| - |rest|;
      assert tail[used - 1..] == frames[used..];
      assert tail[used - 2] == frames[used - 1];
      forall i | 0 <= i < used - 1 ensures frames[i].Binary? {
        if i > 0 { assert frames[i] == tail[i - 1]; }
      }
    } else {
      assert frames[..0] == [];
    }
  }

  /** The audio converter never answers an empty byte array, so that branch of the relay is unreachable with it. */
  lemma ConverterNeverReturnsEmpty(data: seq<byte>, inPath: string, outPath: string, env: Audio.Env)
    ensures Audio.ConvertM4AToWav(data, inPath, outPath, env).result.ToOption() != Some([])
  {
  }

  // ---------------------------------------------------------------- disconnect and the handler

  /** After a disconnect the client is in no registry and gets no further sends; a second disconnect changes nothing. */
  lemma DisconnectIsFinal(r: Relay, id: ClientId, ch: string, frame: Frame)
    ensures var s := Disconnect(r, id);
      && Disconnect(s, id) == s
      && !Live(s.clients, s.sockets, id)
      && Delivery(id, frame) !in Deliveries(Members(s, ch), s.clients, s.sockets, frame)
  {
    var s := Disconnect(r, id);
    DeliveriesAreLive(Members(s, ch), s.clients, s.sockets, frame);
  }

  lemma DisconnectKeepsValid(r: Relay, id: ClientId)
    requires Valid(r) && MembersRegistered(r)
    ensures Valid(Disconnect(r, id)) && MembersRegistered(Disconnect(r, id))
  {
    if id in r.clients {
      var s := Disconnect(r, id);
      forall ch | ch in s.channels ensures s.channels[ch] != [] {
        assert Except(r.channels[ch], id) != [];
      }
      forall ch, x | ch in s.channels && x in s.channels[ch] ensures x in s.clients {
        assert x in r.channels[ch] && x != id;
      }
    }
  }

  lemma ProcessTextKeepsValid(r: Relay, id: ClientId, message: string)
    requires Valid(r) && MembersRegistered(r) && id in r.clients
    ensures Valid(ProcessText(r, id, message)) && MembersRegistered(ProcessText(r, id, message))
  {
    var s := ProcessText(r, id, message);
    match ParseCommand(message)
    case Subscribe(ch) =>
      forall c, x | c in s.channels && x in s.channels[c] ensures x in s.clients {
        if c == ch {
          assert x in multiset(s.channels[c]);
          assert x in Members(r, ch) || x == id;
        }
      }
    case Unsubscribe(ch) =>
      if ch in r.channels {
        forall c, x | c in s.channels && x in s.channels[c] ensures x in s.clients {
          if c == ch { assert x in r.channels[ch]; }
        }
      }
    case SendToChannel(_, _) =>
    case Ignored =>
    case Unrecognized =>
  }

  /**
   * The client handler keeps the registry invariants, whatever the client sends and
   * whatever the converter answers.
   */
  lemma {:induction false} HandleClientKeepsValid(r: Relay, id: ClientId, frames: seq<Frame>,
                                                  convert: seq<byte> -> Option<seq<byte>>)
    requires Valid(r) && MembersRegistered(r)
    ensures Valid(HandleClient(r, id, frames, convert)) && MembersRegistered(HandleClient(r, id, frames, convert))
    decreases |frames|
  {
    if frames != [] && id in r.sockets && r.sockets[id] == Open {
      match frames[0]
      case Text(message) =>
        ProcessTextKeepsValid(r, id, message);
        HandleClientKeepsValid(ProcessText(r, id, message), id, frames[1..], convert);
      case Binary(data) =>
        var (s, rest) := ProcessBinary(r, id, data, frames[1..], convert);
        HandleClientKeepsValid(s, id, rest, convert);
      case Close =>
        var c := r.(sockets := r.sockets[id := CloseReceived]);
        DisconnectKeepsValid(c, id);
        HandleClientKeepsValid(Disconnect(c, id), id, frames[1..], convert);
      case Fault =>
        var c := r.(sockets := r.sockets[id := Aborted]);
        DisconnectKeepsValid(c, id);
        HandleClientKeepsValid(Disconnect(c, id), id, frames[1..], convert);
    }
  }

  /** A close frame from an open connection triggers the disconnect cleanup and ends the handler. */
  lemma CloseFrameDisconnects(r: Relay, id: ClientId, later: seq<Frame>, convert: seq<byte> -> Option<seq<byte>>)
    requires id in r.sockets && r.sockets[id] == Open
    ensures HandleClient(r, id, [Close] + later, convert) == Disconnect(r.(sockets := r.sockets[id := CloseReceived]), id)
  {
    var s := Disconnect(r.(sockets := r.sockets[id := CloseReceived]), id);
    assert s.sockets[id] == CloseReceived;
    assert ([Close] + later)[1..] == later;
  }

  /**
   * A close frame that arrives while a transfer is still short of its declared size ends
   * the transfer, and the handler's loop then stops on the closed socket without the
   * disconnect cleanup: the client stays registered and keeps its subscriptions.
   */
  lemma CloseDuringTransferKeepsRegistration(r: Relay, id: ClientId, n: int, later: seq<Frame>,
                                             convert: seq<byte> -> Option<seq<byte>>)
    requires id in r.sockets && r.sockets[id] == Open
    requires 0 < n <= Int32Max
    ensures var s := HandleClient(r, id, [Binary(EncodeInt32BigEndian(n)), Close] + later, convert);
      && s.clients == r.clients && s.channels == r.channels
      && s.sockets == r.sockets[id := CloseReceived]
      && s.notices == r.notices + multiset{InvalidMessageFormat(id)}
      && ClientDisconnected(id) !in s.notices - r.notices
  {
    var h := EncodeInt32BigEndian(n);
    assert h + [] == h;
    DeclaredSizeOfEncoded(n, []);
    assert h[4..] == [];
    var fs := [Binary(h), Close] + later;
    assert fs[1..] == [Close] + later && ([Close] + later)[1..] == later;
    assert Accumulate(n, [], [Close] + later) == (Interrupted(Close), later);
    var s := Notify(r.(sockets := r.sockets[id := CloseReceived]), InvalidMessageFormat(id));
    assert ProcessBinary(r, id, h, [Close] + later, convert) == (s, later);
    assert HandleClient(r, id, fs, convert) == HandleClient(s, id, later, convert);
  }
}
