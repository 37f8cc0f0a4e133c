# AprendeMas relay and notification path, modelled in Dafny

AprendeMas is a Windows service with a companion tray program. This project models their core:

* **The WebSocket relay of the service.**
  * Clients connect, subscribe to named channels with `subscribe:<channel>` and leave them with `unsubscribe:<channel>`.
  * `sendtochannel:<channel>:<message>` broadcasts a text frame to every member of a channel.
  * A client can also upload an M4A recording as a binary transfer: a 4-byte big-endian size, then the payload, spread over 16 KiB receives.
  * If the transfer is complete and the audio converter accepts it, the resulting WAV is broadcast to the `audio` channel.
* **The audio converter.**
  * It checks the M4A signature (`ftyp` at offset 4 and a known brand at offset 8).
  * It runs ffmpeg with a fixed argument string and checks the WAV it produces.
* **The notification manager.** An on/off flag in front of the named pipe to the tray. It sends `START`/`STOP` when toggled, and forwards notifications only while running.
* **The service's command handler and shutdown.**
* **The tray notifier, in both of its versions** (`NotificationService.cs` and `Program.cs`).
  * It loads its persisted listening flag and shows an initial balloon.
  * It handles `START`/`STOP` (case-insensitively, persisting the flag) and shows any other message while listening.
  * The `Program.cs` version also ignores empty pipe lines.

## Layout

* **`relay_spec.dfy` (`RelaySpec`).**
  * The relay state is a value: running flag, socket states, client registry, channel bags, every frame sent, every notification requested, every payload handed to the converter.
  * Every operation of `WebSocketServer.cs` is a function of that state.
* **`relay_properties.dfy` (`RelayProperties`).** Lemmas about those functions: the command grammar, bag semantics, fan-out, reassembly, disconnect, and the registry invariants.
* **`relay_server.dfy` (`Relay`).**
  * The class `WebSocketServer`: fields its methods update in place, and loops where the source loops (close-all on stop, fan-out, the unsubscribe-all cleanup, the receive loop of a transfer, the handler loop).
  * Each method ensures it ends in the state the matching `RelaySpec` function computes.
* **`bytes.dfy`, `strings.dfy`.** The size header (`BitConverter.ToInt32` over reversed bytes), `Trim`, `Split` on the first colon, ASCII upper-casing and case-insensitive comparison.
* **`audio.dfy` (`Audio`).** `IsValidM4A`, the ffmpeg argument string, and `ConvertM4AToWav`/`ExecuteFFmpegConversionAsync` over an environment oracle for the file system and the ffmpeg process.
* **`notifications.dfy`, `service.dfy`.** `NotificationManager` and `AprendeMasService`, each as a function over a state value plus a class whose methods end in that function's result.
* **`tray_spec.dfy`, `tray.dfy`.** The tray state machine and the two tray programs as classes.
* **`pipe.dfy` (`Pipe`).** The named pipe from the manager to the tray. Each message goes on its own connection, written with `WriteLineAsync`; the tray reads one line with `ReadLineAsync`, so only the text before the first line break arrives.
* **`end_to_end.dfy`.** Manager, pipe and tray together, assuming every pipe send succeeds:
  * The tray handles the non-empty first lines of what the manager sent.
  * Its listening flag follows the manager's running flag as long as no notification's first line reads as `START` or `STOP`.
  * A forwarded notification shows its first line, or nothing when that line is empty.

Modelling conventions:

* **Frames.**
  * A client's socket is the sequence of its receive results: `Text`, `Binary`, `Close` or `Fault` (a receive that throws, or cancellation while receiving).
  * The end of that sequence stands for cancellation. The receive loop of a transfer then stops, and the handler loop ends.
* **Notifications** are recorded by kind (for example `ReceptionError(id)`), not by their Spanish text.

Behaviours of the code a client might not expect:

* **`unsubscribe:` rebuilds the bag with LINQ `Except`.** This also collapses the remaining members' duplicate entries. An `unsubscribe:` with an empty channel name is not ignored; it looks up the channel `""`.
* **Repeated subscriptions are kept.** A `ConcurrentBag` holds duplicates, so a client subscribed twice receives every broadcast twice (`RepeatSubscribeKeepsTwoEntries`, `DeliveriesCount`).
* **A transfer that gets more bytes than declared is rejected.** Receives are whole 16 KiB reads, so the count can overshoot the declared size; the overshoot is refused as a mismatch (`OvershootIsRejected`).
* **A close frame, or a failed receive, in the middle of a transfer ends the transfer without the disconnect cleanup.** The handler's loop stops on the non-open socket, so the client stays in the registry and in its channels until the server stops (`CloseDuringTransferKeepsRegistration`). Broadcasts skip it, because they only send to open sockets.
* **A failed close handshake during `StopAsync` stops the registry reset.** `Task.WhenAll` throws, so the registries are not cleared, and the server is still marked stopped.

## Model

| member | source | states |
|---|---|---|
| Bytes.ToInt32LittleEndian | AprendeMasWindowsService/WebSocket/WebSocketServer.cs:266 | the decoded size is a signed 32-bit value |
| Bytes.DeclaredSizeIsBigEndianSigned | AprendeMasWindowsService/WebSocket/WebSocketServer.cs:266 | reversing the first four bytes and reading little-endian is reading them big-endian as a two's-complement int32 |
| Bytes.DeclaredSizeNegativeIffHighBit | AprendeMasWindowsService/WebSocket/WebSocketServer.cs:266 | the declared size is negative exactly when the first byte's top bit is set |
| Bytes.DeclaredSizeOfEncoded | AprendeMasWindowsService/WebSocket/WebSocketServer.cs:266 | decoding the header a sender wrote for any int32 gives that int32 back, whatever follows |
| Bytes.EncodedOfDeclaredSize | AprendeMasWindowsService/WebSocket/WebSocketServer.cs:266 | every 4-byte header is the encoding of the size it declares |
| Strings.Trim | AprendeMasWindowsService/WebSocket/WebSocketServer.cs:206 | empty iff the input is all white space; otherwise it starts and ends with a non-white-space character; never longer than the input |
| Strings.TrimOfPadded | AprendeMasWindowsService/WebSocket/WebSocketServer.cs:206 | trimming white-space padding around a core without edge white space gives back that core |
| Strings.TrimIdempotent | AprendeMasWindowsService/WebSocket/WebSocketServer.cs:206 | trimming twice is trimming once |
| Strings.SplitFirst | AprendeMasWindowsService/WebSocket/WebSocketServer.cs:222-223 | the text splits at the first separator and the parts rejoin to the input; no separator gives None |
| Strings.SplitFirstOfJoin | AprendeMasWindowsService/WebSocket/WebSocketServer.cs:222-223 | splitting `a + ':' + b` where `a` has no colon gives `(a, b)`, whatever colons `b` holds |
| Strings.ToUpper | AprendeMasWindowsService/Service/AprendeMasService.cs:113 | same length, each character upper-cased |
| Strings.UpperEqualsIffIgnoreCase | AprendeMasWindowsService/Service/AprendeMasService.cs:113-122 | comparing the upper-cased command with an upper-case keyword is the same as comparing ignoring case |
| Audio.IsValidM4AExactly | AprendeMasWindowsService/Audio/AudioConverter.cs:107-123 | valid iff at least 12 bytes, `ftyp` at offset 4 and one of the known brands at offset 8 |
| Audio.ShortInputIsNotM4A | AprendeMasWindowsService/Audio/AudioConverter.cs:111 | fewer than 12 bytes is never valid |
| Audio.M4AHeaderIsValid | AprendeMasWindowsService/Audio/AudioConverter.cs:114-122 | any 4-byte size, then `ftyp` and the brand `M4A `, followed by anything, is valid |
| Audio.FfmpegArgumentsRoundTrip | AprendeMasWindowsService/Audio/AudioConverter.cs:152 | for an input path without a double quote, the two quoted paths can be read back from the argument string |
| Audio.ConvertM4AToWav | AprendeMasWindowsService/Audio/AudioConverter.cs:35-100 | empty input and a bad signature fail with no effect; ffmpeg runs only after a valid signature and a successful temp write; a success is the WAV ffmpeg left, of at least 44 bytes, after exit code 0, with write, run and read in that order |
| Audio.InvalidSignatureRejectedBeforeEffects | AprendeMasWindowsService/Audio/AudioConverter.cs:38-61 | input that is not M4A fails with no effect on the environment |
| Audio.NonZeroExitFails | AprendeMasWindowsService/Audio/AudioConverter.cs:171-175 | a non-zero ffmpeg exit code fails the conversion and nothing is read back |
| Audio.ConversionSucceeds | AprendeMasWindowsService/Audio/AudioConverter.cs:35-100 | a conversion succeeds iff the signature is valid, the temp write works, ffmpeg is found, starts and exits with 0, and its WAV has at least 44 bytes and is read back; the result is that WAV |
| Audio.ShortOutputFails | AprendeMasWindowsService/Audio/AudioConverter.cs:68-72 | a missing output or one of fewer than 44 bytes fails the conversion |
| RelaySpec.Start | AprendeMasWindowsService/WebSocket/WebSocketServer.cs:60-83 | a second start reports AlreadyRunning and changes nothing; a listener failure reports and stays stopped; registries untouched |
| RelaySpec.CloseRegistered | AprendeMasWindowsService/WebSocket/WebSocketServer.cs:100-104 | no socket of a registered id in `done` is left open; any other socket keeps its state; a socket that changed was open and is now closed |
| RelaySpec.Stop | AprendeMasWindowsService/WebSocket/WebSocketServer.cs:89-116 | no-op when stopped; otherwise stopped, every registered socket closed, registries cleared only when every close completes |
| RelaySpec.Accept | AprendeMasWindowsService/WebSocket/WebSocketServer.cs:128-139 | the fresh id is registered with an open socket; channels and sends untouched |
| RelaySpec.SubscribeToChannel | AprendeMasWindowsService/WebSocket/WebSocketServer.cs:329-334 | the channel exists and its bag gains exactly one entry for the id; other channels untouched |
| RelaySpec.ExceptFrom | AprendeMasWindowsService/WebSocket/WebSocketServer.cs:345 | membership is "in the bag and not excluded", with no repeats |
| RelaySpec.UnsubscribeFromChannel | AprendeMasWindowsService/WebSocket/WebSocketServer.cs:341-357 | unknown channel: no change; otherwise the id is gone, the channel survives iff another member remains, the rest are deduplicated, and others untouched |
| RelaySpec.Broadcast | AprendeMasWindowsService/WebSocket/WebSocketServer.cs:362-400 | one delivery per live bag entry appended to the sends; nothing else changes; unknown channel: no change |
| RelaySpec.Disconnect | AprendeMasWindowsService/WebSocket/WebSocketServer.cs:406-418 | unregistered: no change; otherwise the client leaves the registry and every channel, empty channels are pruned and its open socket is closed |
| RelaySpec.ParseCommand | AprendeMasWindowsService/WebSocket/WebSocketServer.cs:204-238 | unrecognized iff none of the three prefixes; subscribe and send carry non-empty trimmed parts |
| RelaySpec.ProcessText | AprendeMasWindowsService/WebSocket/WebSocketServer.cs:200-244 | ignored and unrecognized text changes nothing; text never changes registrations or sockets |
| RelaySpec.Accumulate | AprendeMasWindowsService/WebSocket/WebSocketServer.cs:278-300 | consumes frames only; a negative size is an immediate mismatch; a completed payload has exactly the declared length |
| RelaySpec.Reassemble | AprendeMasWindowsService/WebSocket/WebSocketServer.cs:259-279 | a first frame under four bytes is a short header and consumes nothing |
| RelaySpec.ProcessBinary | AprendeMasWindowsService/WebSocket/WebSocketServer.cs:254-322 | leaves the unconsumed frames, never registers or unsubscribes anyone, and changes at most this client's socket (close received or aborted) |
| RelayProperties.RestartBeginsEmpty | AprendeMasWindowsService/WebSocket/WebSocketServer.cs:60-116 | stop then start begins running from empty registries |
| RelayProperties.ParseSubscribe | AprendeMasWindowsService/WebSocket/WebSocketServer.cs:204-213 | `subscribe:` + name subscribes to the trimmed name, or is ignored when that is empty |
| RelayProperties.ParseUnsubscribe | AprendeMasWindowsService/WebSocket/WebSocketServer.cs:215-219 | `unsubscribe:` + name unsubscribes from the trimmed name, even an empty one |
| RelayProperties.ParseSendToChannel | AprendeMasWindowsService/WebSocket/WebSocketServer.cs:220-234 | `sendtochannel:` + channel + `:` + message sends the trimmed message to the trimmed channel when both are non-empty |
| RelayProperties.ParseSendWithoutColon | AprendeMasWindowsService/WebSocket/WebSocketServer.cs:222-223 | a send command without a second colon is ignored |
| RelayProperties.MessageMayContainColons | AprendeMasWindowsService/WebSocket/WebSocketServer.cs:222-226 | `sendtochannel:chat:hello:world` sends `hello:world` to `chat` |
| RelayProperties.SubscribeCommand | AprendeMasWindowsService/WebSocket/WebSocketServer.cs:204-213 | processing a subscribe command adds the id to the channel and posts the notice |
| RelayProperties.RepeatSubscribeKeepsTwoEntries | AprendeMasWindowsService/WebSocket/WebSocketServer.cs:329-334 | subscribing twice leaves two entries for the id |
| RelayProperties.SubscribeThenUnsubscribe | AprendeMasWindowsService/WebSocket/WebSocketServer.cs:329-357 | subscribing and then unsubscribing removes every entry of the id from the channel |
| RelayProperties.UnsubscribeUnknownChannel | AprendeMasWindowsService/WebSocket/WebSocketServer.cs:343-356 | unsubscribing from a channel that does not exist changes nothing and posts nothing |
| RelayProperties.DeliveriesCount | AprendeMasWindowsService/WebSocket/WebSocketServer.cs:362-377 | a live client receives the frame as many times as it appears in the bag; others receive nothing |
| RelayProperties.DeliveriesAreLive | AprendeMasWindowsService/WebSocket/WebSocketServer.cs:385-400 | every delivery carries the broadcast frame to a live client of the bag |
| RelayProperties.SendCommandBroadcasts | AprendeMasWindowsService/WebSocket/WebSocketServer.cs:220-231 | a send command broadcasts the trimmed message as a text frame to every live entry of the trimmed channel, and posts exactly one `SentToChannel` notice naming the sender, channel and message |
| RelayProperties.AccumulateLeavesSuffix | AprendeMasWindowsService/WebSocket/WebSocketServer.cs:279-293 | the frames left after a transfer are a suffix of those it was given |
| RelayProperties.AccumulateComplete | AprendeMasWindowsService/WebSocket/WebSocketServer.cs:278-303 | a completed payload is the received bytes followed by the data of a consumed all-binary prefix of the frames |
| RelayProperties.OvershootBelowOneFrame | AprendeMasWindowsService/WebSocket/WebSocketServer.cs:279-295 | a receive count past the declared size stays within int32 and overshoots by less than one buffer |
| RelayProperties.TenBytesInThreeFrames | AprendeMasWindowsService/WebSocket/WebSocketServer.cs:259-304 | a header-only frame then 6 and 4 bytes: one conversion of the 10 bytes, later frames left for the handler |
| RelayProperties.OvershootIsRejected | AprendeMasWindowsService/WebSocket/WebSocketServer.cs:295-300 | more bytes than declared: a reception error, no conversion and no send |
| RelayProperties.ConversionExactlyOnComplete | AprendeMasWindowsService/WebSocket/WebSocketServer.cs:295-315 | the converter is called once, with the payload, exactly when the transfer completes |
| RelayProperties.ShortHeaderRejected | AprendeMasWindowsService/WebSocket/WebSocketServer.cs:259-264 | a first frame under four bytes posts the invalid-message notice and changes nothing else |
| RelayProperties.InterruptedConsumesFrame | AprendeMasWindowsService/WebSocket/WebSocketServer.cs:282-288 | a non-binary frame mid-transfer is consumed, after only binary frames, and is not handled as a command |
| RelayProperties.ConverterNeverReturnsEmpty | AprendeMasWindowsService/WebSocket/WebSocketServer.cs:305-310 | the converter never answers an empty array, so the relay's empty-result branch is unreachable with it |
| RelayProperties.DisconnectIsFinal | AprendeMasWindowsService/WebSocket/WebSocketServer.cs:406-418 | after a disconnect the client is not live, gets no broadcast, and a second disconnect changes nothing |
| RelayProperties.DisconnectKeepsValid | AprendeMasWindowsService/WebSocket/WebSocketServer.cs:406-418 | disconnect keeps the registry invariants (no empty channel, every member registered, every open socket registered) |
| RelayProperties.ProcessTextKeepsValid | AprendeMasWindowsService/WebSocket/WebSocketServer.cs:200-244 | a registered client's text commands keep the registry invariants |
| RelayProperties.StartKeepsValid | AprendeMasWindowsService/WebSocket/WebSocketServer.cs:60-83 | starting keeps the registry invariants, whatever the listener does |
| RelayProperties.StopClosesAll | AprendeMasWindowsService/WebSocket/WebSocketServer.cs:89-116 | after stopping a running server no socket is open, whether or not every close completed |
| RelayProperties.StopKeepsValid | AprendeMasWindowsService/WebSocket/WebSocketServer.cs:89-116 | stopping keeps the registry invariants, on both the cleared and the uncleared path |
| RelayProperties.AcceptKeepsValid | AprendeMasWindowsService/WebSocket/WebSocketServer.cs:128-139 | accepting a fresh connection keeps the registry invariants |
| RelayProperties.SubscribeKeepsValid | AprendeMasWindowsService/WebSocket/WebSocketServer.cs:329-334 | a registered client's subscription keeps the registry invariants |
| RelayProperties.UnsubscribeKeepsValid | AprendeMasWindowsService/WebSocket/WebSocketServer.cs:341-357 | an unsubscription keeps the registry invariants |
| RelayProperties.BroadcastKeepsValid | AprendeMasWindowsService/WebSocket/WebSocketServer.cs:362-400 | a broadcast keeps the registry invariants |
| RelayProperties.ProcessBinaryKeepsValid | AprendeMasWindowsService/WebSocket/WebSocketServer.cs:254-322 | a binary transfer keeps the registry invariants, whatever the converter answers |
| RelayProperties.HandleClientKeepsValid | AprendeMasWindowsService/WebSocket/WebSocketServer.cs:164-193 | the handler keeps the registry invariants whatever the client sends and the converter answers |
| RelayProperties.CloseFrameDisconnects | AprendeMasWindowsService/WebSocket/WebSocketServer.cs:182-185 | a close frame on an open socket runs the disconnect cleanup and ends the handler |
| RelayProperties.CloseDuringTransferKeepsRegistration | AprendeMasWindowsService/WebSocket/WebSocketServer.cs:169-186 | a close frame mid-transfer ends the handler with the client still registered and subscribed and no disconnect notice |
| Relay.WebSocketServer.Notify | AprendeMasWindowsService/WebSocket/WebSocketServer.cs:73 | one more notice is requested of the notification manager; nothing else changes (the helper every `SendNotificationAsync` call of the server goes through) |
| Relay.WebSocketServer.constructor | AprendeMasWindowsService/WebSocket/WebSocketServer.cs:42-53 | a new server is stopped with empty registries |
| Relay.WebSocketServer.StartAsync | AprendeMasWindowsService/WebSocket/WebSocketServer.cs:60-83 | result and new state are those of `RelaySpec.Start`; the registry invariants are kept |
| Relay.WebSocketServer.StopAsync | AprendeMasWindowsService/WebSocket/WebSocketServer.cs:89-116 | the loop over the registry closes every registered open socket; new state is `RelaySpec.Stop`; the registry invariants are kept, and a running server ends with no socket open |
| Relay.WebSocketServer.AcceptConnection | AprendeMasWindowsService/WebSocket/WebSocketServer.cs:128-139 | new state is `RelaySpec.Accept`; the registry invariants are kept |
| Relay.WebSocketServer.SubscribeToChannel | AprendeMasWindowsService/WebSocket/WebSocketServer.cs:329-334 | new state is `RelaySpec.SubscribeToChannel`; for a registered client the registry invariants are kept |
| Relay.WebSocketServer.UnsubscribeFromChannel | AprendeMasWindowsService/WebSocket/WebSocketServer.cs:341-357 | new state is `RelaySpec.UnsubscribeFromChannel`; the registry invariants are kept |
| Relay.WebSocketServer.SendToChannel | AprendeMasWindowsService/WebSocket/WebSocketServer.cs:362-400 | the loop over the bag sends to each live entry in order; new state is `RelaySpec.Broadcast`; the registry invariants are kept |
| Relay.WebSocketServer.SendMessageToChannelAsync | AprendeMasWindowsService/WebSocket/WebSocketServer.cs:362-377 | a text broadcast; the registry invariants are kept |
| Relay.WebSocketServer.SendBinaryToChannelAsync | AprendeMasWindowsService/WebSocket/WebSocketServer.cs:385-400 | a binary broadcast; the registry invariants are kept |
| Relay.WebSocketServer.HandleClientDisconnectAsync | AprendeMasWindowsService/WebSocket/WebSocketServer.cs:406-418 | new state is `RelaySpec.Disconnect`; the registry invariants are kept |
| Relay.WebSocketServer.UnsubscribeFromAll | AprendeMasWindowsService/WebSocket/WebSocketServer.cs:411-414 | the loop over a snapshot of the channel names unsubscribes from each one, pruning emptied channels, one notice each |
| Relay.WebSocketServer.ProcessTextMessageAsync | AprendeMasWindowsService/WebSocket/WebSocketServer.cs:200-244 | new state is `RelaySpec.ProcessText`; for a registered client the registry invariants are kept |
| Relay.WebSocketServer.ProcessBinaryMessageAsync | AprendeMasWindowsService/WebSocket/WebSocketServer.cs:254-322 | the receive loop keeps the count equal to the stream length within int32; new state and remaining frames are `RelaySpec.ProcessBinary`; the registry invariants are kept |
| Relay.WebSocketServer.HandleClientAsync | AprendeMasWindowsService/WebSocket/WebSocketServer.cs:164-193 | the dispatch loop ends in `RelaySpec.HandleClient` and keeps the registry invariants |
| Notifications.Start | AprendeMasWindowsService/Notifications/NotificationManager.cs:37-65 | running: no change; otherwise `START` is sent and the flag ends set iff the send succeeded, rethrowing on failure |
| Notifications.Stop | AprendeMasWindowsService/Notifications/NotificationManager.cs:72-98 | always ends stopped; if running, `STOP` is sent after clearing the flag and a failed send rethrows |
| Notifications.Send | AprendeMasWindowsService/Notifications/NotificationManager.cs:106-130 | the message reaches the pipe iff running; the flag never changes |
| Notifications.StartThenStop | AprendeMasWindowsService/Notifications/NotificationManager.cs:37-98 | a successful start then a stop sends `START`, `STOP` and ends stopped; a failed start leaves the stop nothing to send |
| Notifications.RedundantCommandsAreSilent | AprendeMasWindowsService/Notifications/NotificationManager.cs:40-80 | a start while running or a stop while stopped sends nothing and changes nothing |
| Notifications.NotificationManager.constructor | AprendeMasWindowsService/Notifications/NotificationManager.cs:22-30 | a new manager is not running and has sent nothing |
| Notifications.NotificationManager.StartAsync | AprendeMasWindowsService/Notifications/NotificationManager.cs:37-65 | state and outcome are `Notifications.Start` |
| Notifications.NotificationManager.StopAsync | AprendeMasWindowsService/Notifications/NotificationManager.cs:72-98 | state and outcome are `Notifications.Stop` |
| Notifications.NotificationManager.SendNotificationAsync | AprendeMasWindowsService/Notifications/NotificationManager.cs:106-130 | state and outcome are `Notifications.Send` |
| Service.DispatchIsCaseInsensitive | AprendeMasWindowsService/Service/AprendeMasService.cs:113 | commands equal up to case have the same effect |
| Service.DispatchCases | AprendeMasWindowsService/Service/AprendeMasService.cs:113-133 | `START` in any case starts the manager, `STOP` in any case stops it, anything else changes nothing |
| Service.StopService | AprendeMasWindowsService/Service/AprendeMasService.cs:92-102 | the manager always ends stopped; the pipe server stops unless the manager's stop threw, which happens iff it was running and the send failed |
| Service.AprendeMasService.constructor | AprendeMasWindowsService/Service/AprendeMasService.cs:25-33 | a fresh, stopped manager and no pipe server yet |
| Service.AprendeMasService.StartPipeServer | AprendeMasWindowsService/Service/AprendeMasService.cs:48 | the command pipe server is listening |
| Service.AprendeMasService.HandleCommand | AprendeMasWindowsService/Service/AprendeMasService.cs:108-140 | the manager ends in `Service.Dispatch` of the command; nothing is thrown to the caller |
| Service.AprendeMasService.StopAsync | AprendeMasWindowsService/Service/AprendeMasService.cs:92-102 | manager state, pipe server and outcome are `Service.StopService` |
| TraySpec.LoadConfig | AprendeMasNotificationService/NotificationService.cs:135-157 | listening iff the file exists, deserializes and stores `true`; every failure means paused (the loader at Program.cs:106-122 is the same) |
| TraySpec.SaveConfig | AprendeMasNotificationService/NotificationService.cs:162-178 | a successful save stores the flag; a failed one leaves the file as it was |
| TraySpec.SaveThenLoad | AprendeMasNotificationService/NotificationService.cs:135-178 | loading after a successful save gives back the saved flag |
| TraySpec.InitialBalloon | AprendeMasNotificationService/NotificationService.cs:53-55 | the "Servicio Activo" balloon, with the listening or paused text by the flag |
| TraySpec.Startup | AprendeMasNotificationService/NotificationService.cs:41-58 | the flag is the loaded one and the initial balloon is the only one shown |
| TraySpec.HandleMessage | AprendeMasNotificationService/NotificationService.cs:85-129 | `START`/`STOP` in any case set, persist and announce the flag; other text is shown iff listening; nothing else changes |
| TraySpec.CommandsAreNeverDisplayed | AprendeMasNotificationService/NotificationService.cs:88-128 | a command's text is never shown as a notification |
| TraySpec.RestartResumesPersistedState | AprendeMasNotificationService/NotificationService.cs:88-157 | after a command whose save succeeds, a restart resumes in the commanded state |
| TraySpec.HandleAllListening | AprendeMasNotificationService/Program.cs:78-104 | after a run of messages the flag is set by the last command, or unchanged if there is none |
| TraySpec.NonEmptyLines | AprendeMasNotificationService/Program.cs:55-64 | every received non-empty line is handled, and nothing else: no null or empty line |
| TraySpec.NonEmptyLinesAppend | AprendeMasNotificationService/Program.cs:48-64 | the filter keeps the order of the lines: filtering two runs of lines is filtering each in turn |
| Tray.NotificationService.constructor | AprendeMasNotificationService/NotificationService.cs:41-58 | the state is `TraySpec.Startup` of the config file |
| Tray.NotificationService.HandleMessage | AprendeMasNotificationService/NotificationService.cs:85-129 | the new state is `TraySpec.HandleMessage` |
| Tray.Program.constructor | AprendeMasNotificationService/Program.cs:20-35 | the state is `TraySpec.Startup` of the config file |
| Tray.Program.HandleMessage | AprendeMasNotificationService/Program.cs:78-104 | the new state is `TraySpec.HandleMessage` |
| Tray.Program.ListenForMessagesAsync | AprendeMasNotificationService/Program.cs:48-76 | the loop handles the non-empty lines in order; the state is `TraySpec.HandleAll` of them (over the manager's messages the lines are `Pipe.Received` of them) |
| Pipe.ReadLine | AprendeMasNotificationService/Program.cs:58 | the line read is the prefix of the message before its first `\r` or `\n` |
| Pipe.ReadLineOfSingleLine | AprendeMasNotificationService/Program.cs:58 | a message without line breaks arrives whole |
| Pipe.ReadLineOfJoin | AprendeMasNotificationService/Program.cs:58 | of a message with several lines only the first arrives |
| Pipe.Received | AprendeMasWindowsService/Communication/NotifierPipeClient.cs:35-41 | one line per connection, in sending order, each the first line of its message |
| Pipe.ReceivedAppend | AprendeMasWindowsService/Communication/NotifierPipeClient.cs:35-41 | messages sent one after another are received one after another |
| EndToEnd.Apply | AprendeMasWindowsService/Service/AprendeMasService.cs:108-133 | a command or a notification only appends to the pipe |
| EndToEnd.Run | AprendeMasWindowsService/Service/AprendeMasService.cs:108-133 | over a run of events the pipe only grows |
| EndToEnd.DeliveredOne | AprendeMasNotificationService/Program.cs:58-61 | one message reaches the tray as its first line, or not at all when that line is empty |
| EndToEnd.DeliveredAppend | AprendeMasNotificationService/Program.cs:48-64 | what the tray handles for messages sent one after another is what it handles for each, in turn |
| EndToEnd.CommandsCrossWhole | AprendeMasWindowsService/Notifications/NotificationManager.cs:37-98 | the manager's `START` and `STOP` reach the tray unchanged |
| EndToEnd.StepAgrees | AprendeMasWindowsService/Notifications/NotificationManager.cs:37-130 | one event keeps the tray's flag equal to the manager's, when a notification's first line is not a command |
| EndToEnd.TrayFollowsManager | AprendeMasWindowsService/Notifications/NotificationManager.cs:37-130 | over any run of events whose notifications' first lines are not commands, the tray, handling the non-empty first lines that cross the pipe, ends listening iff the manager is running |
| EndToEnd.NotificationReachesTray | AprendeMasWindowsService/Notifications/NotificationManager.cs:106-130 | a running manager's notification shows its first line as the next balloon, and nothing when that line is empty; a stopped manager shows nothing |
| EndToEnd.StopLineInNotificationPausesTray | AprendeMasWindowsService/Notifications/NotificationManager.cs:106-130 | a notification whose first line reads `STOP` pauses the tray while the manager keeps running |

## Left out

- Concurrency: the accept loop, the per-client handlers and `Task.WhenAll` fan-out run concurrently in the source. The model runs each operation atomically, one at a time. Channel bags are enumerated in insertion order; a `ConcurrentBag` gives no order, and `DeliveriesCount` does not depend on one.
- The HTTP listener, the upgrade to a WebSocket and the 400 answer to other requests are left out. `AcceptConnection` models one successful upgrade, with the fresh GUID as a parameter.
- Transient accept errors and the accept loop's cancellation are left out.
- UTF-8 decoding of text frames is left out; a text frame carries its decoded string. Each receive is handled on its own, as the source does; `EndOfMessage` is not consulted.
- Send failures on a client socket are left out: every delivery to an open socket succeeds.
- Failures of the notification manager inside the relay are left out; the relay records each notification it requests. The manager's own gating and send failures are modelled in `Notifications`.
- The logger and the notification texts are left out; notices are kinds.
- Relay.WebSocketServer.StopAsync: one flag covers whether all close handshakes complete. It does not say which one failed, and a socket whose handshake failed is still taken as closed.
- The ffmpeg process, the temporary files and their paths are left out. They are the `Env` oracle and parameters. The GUID-named paths and the (disabled) temporary-file cleanup are not modelled.
- `BitConverter` is taken to be little-endian, as on Windows.
- RelaySpec.ParseCommand: `StartsWith` is culture-sensitive in the source and modelled as an ordinal prefix test.
- Strings.Trim: the character set is the Unicode white-space set.
- Strings.ToUpper: case folding covers ASCII letters only. This applies to `ToUpper` and to `OrdinalIgnoreCase` comparisons; other letters are left unchanged.
- `ExecuteAsync`'s one-second delay loop, the hosting framework and `base.StartAsync`/`base.StopAsync` are left out. The command pipe server is a flag.
- The tray's `NotifyIcon` is left out: icons, balloon durations, `Application.Run` and disposal. A balloon is its title and text, and `shown` lists them in order.
- JSON serialization of the config file is left out. The file is one of missing, unreadable, null, or a stored flag.
- Tray.Program.ListenForMessagesAsync: one `saveOk` covers every save in one run. Each connection's outcome (a line, no line, or an error) comes already decided, as an `Option`.
- The tray's `PipeServer.cs` class, the UI (`AprendeMas.UI`), mDNS, `AppConfig`, `Worker.cs` and the service's own `PipeServer.cs` are not part of this model.
- `NotifierPipeClient.cs` is modelled by its effect only. Its connect, write and catch are the `sendOk` flag, the messages it wrote are the manager's `pipe` record, and `Pipe.Received` gives what the tray reads from them. The named-pipe stream, the 5-second connect timeout and the text encoding are left out.
- Pipe.ReadLine: `ReadLineAsync` returning null on an empty stream does not arise, because `WriteLineAsync` always ends the message with a line break. Connection failures on the tray side stay the `Option` outcomes of `Tray.Program.ListenForMessagesAsync`.
