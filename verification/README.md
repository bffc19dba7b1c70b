# Thread dongles: serial framing, wire codec and dispatch, in Dafny

This project models the byte-level protocol logic of a family of Thread
(OpenThread / Zephyr) dongles:

- a **server** dongle. It keeps a wifi/presence status store. The store is
  filled by `~…#` frames read from its serial port and is served over CoAP
  as the `ressources`, `wifi` and `presence` resources. The server also
  takes commands over the `commands` resource and writes them to its
  serial port.
- four **clients**:
  - the camera client. It caches the server status, buffers one command
    and sends it, and sends an alarm.
  - the button client. It writes the cached status to its serial port as
    a framed status line, forwards every frame it reads as a command, and
    sends the alarm on button 1.
  - the power-strip client. It keeps four relays in line with the
    server's ` outlet:` report and sends keep-alives.
  - the buttons-matrix client. It maps a row/line reading to one of four
    command numbers and sends it as `CMD` plus a digit.
- a **legacy** client. It runs the same forwarding decoder but accepts
  only one-byte serial events.

Bytes are `char`; NUL is `'\0'`. A C string is the prefix of a buffer
before its first NUL (`CStrings.CStr`). `strchr` is `CStrings.FindChar`,
where `None` stands for NULL. `strstr` is `CStrings.Occurs` on the C string.
A read past the end of a payload reads NUL.

The model is organised by what the source does:

- The stateful parts are classes whose methods update their fields and
  arrays in place:
  - the frame decoder (`rx_msg_buf` / `rx_offset`);
  - the server context (`srv_context`, `msg_buf`);
  - the client caches and command buffers;
  - the connectivity gate with its work queue and LEDs;
  - the relays, the matrix lines and the button client's `tx_buf`.
- Every such method is proved against a specification function:
  - `Framing.Step` / `Framing.Run` for the frame decoder;
  - `WireCodec.ApplyStatus` and `WireCodec.DecodeOutlets` for the decoders;
  - `ServerCoap.HandleStatusRequest` / `ServerCoap.HandleCommands` for the
    request gating;
  - `ButtonsMatrix.CommandFor` for the matrix.
- The properties of those functions (round trips, chunking independence,
  the buffer bound) are lemmas.

The source does not bound the frame append. The model uses a
**drop-when-full** policy: a byte that arrives while the 10-byte frame
buffer is full is discarded. The as-written unbounded append is modelled
as well (`Framing.RunUnchecked`) to exhibit the overflow listed under
Findings.

## Model

| member | source | states |
|---|---|---|
| CStrings.CStr | thread_dongle_client_camera/src/coap_client_utils.c:73 | the C string is a NUL-free prefix of the buffer, ended by its first NUL or by the end of the buffer |
| CStrings.FindChar | thread_dongle_server/src/coap_server.c:51-52 | `strchr`: the index returned holds `c`, and no earlier byte is `c` or NUL; NULL exactly when `c` is not in the C string |
| CStrings.OccursAt | thread_dongle_client_camera/src/coap_client_utils.c:73 | the `strstr` scan finds the needle exactly when it sits at some offset of the haystack |
| CStrings.FindCharPadded | thread_dongle_server/src/coap_server.c:37-39 | `strchr` gives the same answer on a frame and on that frame followed by any number of NUL bytes |
| WireCodec.RessourcesRoundTrip | thread_dongle_server/src/ot_coap_utils.c:106-134 | the aggregate payload `wifi:X prs:Y` decodes, by the clients' first-'w'+5 / first-'p'+4 rule, to exactly the encoded status, whatever was cached |
| WireCodec.WifiRoundTrip | thread_dongle_server/src/ot_coap_utils.c:202-203 | the wifi payload decodes to its value; it has no 'p', so presence stays as cached |
| WireCodec.PresenceRoundTrip | thread_dongle_server/src/ot_coap_utils.c:271-272 | the presence payload decodes to its value; it has no 'w', so wifi stays as cached |
| WireCodec.StatusLineRoundTrip | thread_dongle_client_button/src/thread_dongle_client.c:33-57 | the status line is 14 bytes: '~' at 0, the wifi digit at 6, the presence digit at 11, '#' at 12; its frame, if kept whole, decodes back to the status |
| WireCodec.StatusLineLayout | thread_dongle_client_button/src/thread_dongle_client.c:41-51 | the status line is '~', the 11-byte frame `wifi:Xprs:Y`, '#' and NUL, with the digits at indices 6 and 11 |
| WireCodec.StatusFrameDecodes | thread_dongle_server/src/coap_server.c:51-64 | the 11-byte frame between the delimiters of the status line decodes to the status it was built from |
| WireCodec.OutletDigits | thread_dongle_client_power_strip/src/coap_client_utils.c:102-119 | a payload ` outlet:` + d1 d2 d3 d4 decodes to four relays, each on exactly when its digit is '1' |
| WireCodec.OutletsRoundTrip | thread_dongle_client_power_strip/src/coap_client_utils.c:102-119 | the outlet layout decodes to exactly the relay bits it encodes |
| WireCodec.OutletsOffsetsAreAbsolute | thread_dongle_client_power_strip/src/coap_client_utils.c:105-112 | the offsets 8..11 are absolute, not relative to the 'o': without the leading space every digit is read one place late and r4 reads the end of the payload |
| WireCodec.AckRecognised | thread_dongle_server/src/ot_coap_utils.c:340-341 | the server's `CMD:OK` acknowledgement passes the clients' `strstr` ack check |
| WireCodec.CommandPayloadDigit | thread_dongle_client_buttons_matrix/src/coap_client_utils.c:70-72 | for a command number 0..9, the matrix payload is the 4 bytes `CMD` and the ASCII digit of that number |
| WireCodec.DecodeIgnoresPadding | thread_dongle_server/src/coap_server.c:51-64 | decoding the whole zero-padded buffer gives the same status as decoding the frame alone |
| Framing.RunConcat | thread_dongle_server/src/coap_server.c:79-83 | feeding chunk `a` and then chunk `b` leaves the same frame and hands on the same frames, in order, as feeding `a + b` |
| Framing.RunWithinBuffer | thread_dongle_server/src/coap_server.c:67-71 | under the drop-when-full policy the frame never exceeds MSG_MAX_SIZE and holds no delimiter, and neither does any frame handed on |
| Framing.EndEmits | thread_dongle_server/src/coap_server.c:43-66 | '#' hands on the frame collected so far and keeps it unchanged |
| Framing.OneFrame | thread_dongle_client_button/src/thread_dongle_client.c:61-84 | `~a#` hands on `a` whatever frame came before, for any frame `a` that fits |
| Framing.TwoFrames | thread_dongle_client_button/src/thread_dongle_client.c:61-84 | two frames in a row are handed on in order, each exactly as sent |
| Framing.Restart | thread_dongle_client_button/src/thread_dongle_client.c:61-84 | a '~' discards the partial frame before it: `~a~b#` hands on only `b` |
| Framing.FramingExamples | thread_dongle_client_button/src/thread_dongle_client.c:61-84 | `~ABC#~DE#` hands on `ABC` then `DE`; `~AB~CD#` hands on only `CD` |
| Framing.RunAfterStart | thread_dongle_server/src/coap_server.c:35-42 | after a '~' the stream is decoded as if from an empty frame, whatever was collected before |
| Framing.FullFrameDropsByte | thread_dongle_server/src/coap_server.c:67-71 | with the drop-when-full policy, a byte arriving at a full buffer is discarded and the following '#' hands on the full 10-byte frame |
| Framing.StatusLineOverrunsBuffer | thread_dongle_server/src/coap_server.c:67-71 | with the unbounded append as written, the status line's 11 payload bytes grow the frame to MSG_MAX_SIZE + 1 |
| Framing.StatusLineTruncated | thread_dongle_client_button/src/thread_dongle_client.c:41-51 | under the drop-when-full policy the status line is handed on as its first 10 payload bytes, `wifi:Xprs:`, without the presence digit |
| Framing.FrameDecoder.constructor | thread_dongle_server/src/coap_server.c:28-29 | the static buffer starts zeroed with offset 0: the frame is empty |
| Framing.FrameDecoder.Cells | thread_dongle_server/src/coap_server.c:37-39 | the whole buffer is the frame followed by NUL bytes |
| Framing.FrameDecoder.ProcessReceivedChar | thread_dongle_server/src/coap_server.c:33-72 | the new frame and the frame handed on are exactly `Step` of the old frame: '~' zeroes every cell and the offset; '#' hands on `rx_msg_buf[0..rx_offset)` and changes nothing; any other byte is stored at the old offset, which grows by one, unless the buffer is full |
| Mesh.Dispatcher.constructor | thread_dongle_client_camera/src/coap_client_utils.c:18 | not connected, nothing queued, LEDs off |
| Mesh.Dispatcher.OnThreadStateChanged | thread_dongle_client_camera/src/coap_client_utils.c:189-209 | on a role change, connected exactly for Child, Router or Leader, with the connect or disconnect work queued; without the role flag nothing changes |
| Mesh.Dispatcher.SubmitWorkIfConnected | thread_dongle_client_camera/src/coap_client_utils.c:215-222 | the item is queued exactly when connected (a pending item is not queued twice); nothing else changes |
| Mesh.ResubmitIsIdempotent | thread_dongle_client_camera/src/coap_client_utils.c:215-222 | submitting an item a second time leaves the queue as one submission does |
| Mesh.Dispatcher.Dequeue | thread_dongle_client_camera/src/coap_client_utils.c:229-235 | a work item that starts running is off the queue; nothing else changes |
| Mesh.Dispatcher.OnCommandsMsgReply | thread_dongle_client_camera/src/coap_client_utils.c:57-79 | the status LED goes off; the commands LED goes off exactly when `CMD:OK` occurs in the reply, and otherwise keeps its state |
| ServerCoap.HandleStatusRequest | thread_dongle_server/src/ot_coap_utils.c:153-173 | a status resource answers exactly a non-confirmable GET, with its payload; a callback is invoked exactly when that response was sent, and it is always the ressources-status callback |
| ServerCoap.ReadLength | thread_dongle_server/src/ot_coap_utils.c:385 | `otMessageRead` copies the whole payload, or MSG_BUFF_SIZE bytes when the payload is longer |
| ServerCoap.HandleCommands | thread_dongle_server/src/ot_coap_utils.c:358-390 | only a non-confirmable PUT is answered, always with `CMD:OK`; the payload is forwarded only after the ack was sent, as its first ReadLength bytes with the one-byte length `n % 256` |
| ServerCoap.ForwardedCommand | thread_dongle_server/src/coap_server.c:93-111 | the bytes written to the serial port are a prefix of the request payload, and the whole payload when it is shorter than 256 bytes |
| ServerCoap.ResponseSizes | thread_dongle_server/src/ot_coap_utils.c:106-134 | each response is a C string followed by its NUL: 13 bytes for ressources, 7 for wifi, 6 for presence, 7 for `CMD:OK` |
| ServerCoap.ServerContext.Init | thread_dongle_server/src/ot_coap_utils.c:401-411 | wifi and presence start false; the commands buffer is empty and zero |
| ServerCoap.ServerContext.SetWifiStatus | thread_dongle_server/src/ot_coap_utils.c:71-74 | only the wifi status changes, to the given value |
| ServerCoap.ServerContext.SetPresenceStatus | thread_dongle_server/src/ot_coap_utils.c:75-78 | only the presence status changes, to the given value |
| ServerCoap.ServerContext.BuildRessourcesPayload | thread_dongle_server/src/ot_coap_utils.c:106-134 | the index loop builds exactly the aggregate payload of the stored status, wifi first, NUL last |
| ServerCoap.ServerContext.RessourcesStatusRequestHandler | thread_dongle_server/src/ot_coap_utils.c:153-173 | the handler's outcome is `HandleStatusRequest` for the ressources resource and the stored status |
| ServerCoap.ServerContext.WifiStatusRequestHandler | thread_dongle_server/src/ot_coap_utils.c:222-242 | the handler's outcome is `HandleStatusRequest` for the wifi resource: on success it invokes the ressources-status callback |
| ServerCoap.ServerContext.PresenceStatusRequestHandler | thread_dongle_server/src/ot_coap_utils.c:291-311 | the handler's outcome is `HandleStatusRequest` for the presence resource: on success it invokes the ressources-status callback |
| ServerCoap.ServerContext.CommandsRequestHandler | thread_dongle_server/src/ot_coap_utils.c:358-390 | the outcome is `HandleCommands`; after a sent ack the payload is copied into `msg_buf` and `msg_len`, otherwise the buffer is untouched; the status never changes |
| ServerNode.AbsorbConcat | thread_dongle_server/src/coap_server.c:79-83 | decoding frames `a` then frames `b` into the store is decoding `a + b` |
| ServerNode.ChunkingIrrelevant | thread_dongle_server/src/coap_server.c:79-83 | the frame and the store after two chunks equal those after their concatenation: the split of the stream does not matter |
| ServerNode.ValueBeyondFrameIsFalse | thread_dongle_server/src/coap_server.c:53-54 | a tag whose value position lies past the frame reads a zeroed cell and decodes as false |
| ServerNode.StatusLineLosesPresence | thread_dongle_client_button/src/thread_dongle_client.c:41-51 | a status line written by the button dongle reaches the server store with its wifi digit, and presence reads false |
| ServerNode.Server.constructor | thread_dongle_server/src/coap_server.c:27-29 | empty frame, store (false, false), connection LED off |
| ServerNode.Server.ProcessReceivedChar | thread_dongle_server/src/coap_server.c:33-72 | the decoder steps; on '#' the store becomes `ApplyStatus` of the old store and frame, so a missing tag keeps its field; on any other byte the store is unchanged |
| ServerNode.Server.DecodeFrame | thread_dongle_server/src/coap_server.c:49-64 | decoding the whole zero-padded buffer stores `ApplyStatus` of the frame |
| ServerNode.Server.DecodeBuffer | thread_dongle_server/src/coap_server.c:50-64 | wifi from the byte 5 after the first 'w', presence from the byte 4 after the first 'p'; a missing tag keeps its field |
| ServerNode.Server.OnUartMessage | thread_dongle_server/src/coap_server.c:76-90 | a chunk leaves the frame `Run` gives and the store `Absorb` of the frames `Run` hands on, in order; the response length `msg_len` is unchanged |
| ServerNode.Server.CommandsRequest | thread_dongle_server/src/coap_server.c:93-111 | the serial port receives the first `msg_len` bytes of `msg_buf` exactly when the commands callback runs |
| ServerNode.Server.OnThreadStateChanged | thread_dongle_server/src/coap_server.c:148-166 | on a role change the connection LED is on exactly for Child, Router or Leader; without the role flag it keeps its state |
| CameraClient.ServerReplyUpdatesCache | thread_dongle_client_camera/src/coap_client_utils.c:117-130 | each server status response updates the client cache as intended: the aggregate one copies both fields, wifi and presence replies copy only their own field |
| CameraClient.Client.constructor | thread_dongle_client_camera/src/coap_client_utils.c:52-55 | the cache starts (false, false), the command buffer empty and zero, nothing queued |
| CameraClient.Client.GetServerWifiStatus | thread_dongle_client_camera/src/coap_client_utils.c:277-279 | the cached wifi field of `Cache()` |
| CameraClient.Client.GetServerPresenceStatus | thread_dongle_client_camera/src/coap_client_utils.c:281-283 | the cached presence field of `Cache()` |
| CameraClient.Client.SendCommandsToServerMessage | thread_dongle_client_camera/src/coap_client_utils.c:241-249 | the command replaces the buffer contents even when disconnected; the send is queued only when connected; the LEDs and the cache keep their state |
| CameraClient.Client.SendCommandsWork | thread_dongle_client_camera/src/coap_client_utils.c:82-99 | the buffered command is sent as a PUT to `commands`, the commands LED goes on, the buffer is emptied (length 0, every cell zero) and the item leaves the queue |
| CameraClient.Client.OnRessourceStatusReply | thread_dongle_client_camera/src/coap_client_utils.c:101-134 | the status LED goes off and the cache becomes `ApplyStatus` of the old cache and the payload |
| CameraClient.Client.SendStatusRequest | thread_dongle_client_camera/src/coap_client_utils.c:136-146 | a GET of the given status resource; the status LED goes on and that resource's work item leaves the queue |
| CameraClient.Client.SendAlarmWork | thread_dongle_client_camera/src/coap_client_utils.c:148-162 | a PUT to `commands` of the alarm text and its NUL; the commands LED goes on and the alarm item leaves the queue |
| CameraClient.Client.Submit | thread_dongle_client_camera/src/coap_client_utils.c:251-269 | the request work item is queued exactly when connected |
| PowerStripClient.Client.constructor | thread_dongle_client_power_strip/src/coap_client_utils.c:47-52 | the relay cache starts all off and nothing is queued |
| PowerStripClient.Client.GetServerStatus | thread_dongle_client_power_strip/src/coap_client_utils.c:152-166 | for relay n in 1..4, the cached state of relay n (`Relay(Cache(), n)`) |
| PowerStripClient.Client.OnPowerStripStatusReply | thread_dongle_client_power_strip/src/coap_client_utils.c:78-122 | the status LED goes off; with an 'o' in the payload all four cached relays are read together from bytes 8..11, otherwise none changes |
| PowerStripClient.Client.SendKeepAliveWork | thread_dongle_client_power_strip/src/coap_client_utils.c:124-138 | a PUT to `commands` of the keep-alive text and its NUL; the commands LED goes on and the keep-alive item leaves the queue |
| PowerStripClient.Client.SendPowerStripStatusWork | thread_dongle_client_power_strip/src/coap_client_utils.c:140-150 | a GET of the power-strip resource; the status LED goes on and the status item leaves the queue |
| PowerStripClient.Client.Submit | thread_dongle_client_power_strip/src/coap_client_utils.c:194-201 | the work item is queued exactly when connected |
| PowerStripNode.WithRelayChangesOnlyOne | thread_dongle_client_power_strip/src/thread_dongle_client_power_strip.c:62-87 | setting relay n in 1..4 changes relay n and no other; any other n changes nothing |
| PowerStripNode.KeepAliveSchedule | thread_dongle_client_power_strip/src/thread_dongle_client_power_strip.c:144-161 | `wait_loops_for_ka` is 2; after every round the counter is 1 or 2, alternating; after n rounds (n - 1) / 2 keep-alives were sent |
| PowerStripNode.PowerStrip.constructor | thread_dongle_client_power_strip/src/thread_dongle_client_power_strip.c:131-148 | at startup every relay is on and the client cache is all off |
| PowerStripNode.PowerStrip.SetRelaysStatus | thread_dongle_client_power_strip/src/thread_dongle_client_power_strip.c:48-60 | all four relays take the given values |
| PowerStripNode.PowerStrip.SetSingleRelayStatus | thread_dongle_client_power_strip/src/thread_dongle_client_power_strip.c:62-87 | the relays become `WithRelay` of the old relays: only relay n changes |
| PowerStripNode.PowerStrip.UpdatePowerStripStatus | thread_dongle_client_power_strip/src/thread_dongle_client_power_strip.c:89-99 | the relays equal the cached server report |
| PowerStripNode.PowerStrip.MainLoop | thread_dongle_client_power_strip/src/thread_dongle_client_power_strip.c:144-161 | after `rounds` rounds the counter and the number of keep-alives follow the schedule; the relays follow the cache; the status and keep-alive requests are queued when connected and nothing else is; the LEDs keep their state |
| ButtonClient.PatchedLine | thread_dongle_client_button/src/thread_dongle_client.c:41-51 | a line that keeps the template except at indices 6 and 11, patched with the two digits, is the status line |
| ButtonClient.Node.constructor | thread_dongle_client_button/src/thread_dongle_client.c:28-30 | empty frame, `tx_buf` holding the template, cache (false, false) |
| ButtonClient.Node.UartSendServerRessourcesStatus | thread_dongle_client_button/src/thread_dongle_client.c:33-57 | `tx_buf` and the 14 bytes sent are the status line of the cached status; the template bytes stay as they were |
| ButtonClient.Node.ProcessReceivedChar | thread_dongle_client_button/src/thread_dongle_client.c:59-86 | the decoder steps; on '#' exactly `rx_msg_buf[0..rx_offset)` becomes the pending command, and the send is added to the queue exactly when connected; other bytes leave buffer and queue as they were; LEDs and cache never change |
| ButtonClient.Node.OnUartMessage | thread_dongle_client_button/src/thread_dongle_client.c:89-104 | the commands forwarded for a chunk are exactly the frames `Run` hands on, in order; the client's buffer holds the last one; the send is queued exactly when at least one was forwarded and the device is connected, and nothing else is |
| ButtonClient.Node.OnButtonChanged | thread_dongle_client_button/src/thread_dongle_client.c:118-124 | the alarm is queued exactly when bit 0 of `button_state & has_changed` is set and the device is connected; the LEDs keep their state |
| LegacyClient.RunEventsIsRunOfDelivered | src/thread_dongle_client/src/thread_dongle_client.c:65-82 | decoding a sequence of receive events is decoding the bytes of the one-byte events; every other event vanishes |
| LegacyClient.SingletonsDeliverStream | src/thread_dongle_client/src/thread_dongle_client.c:69-75 | a stream sent one byte per event reaches the decoder whole |
| LegacyClient.Node.ProcessReceivedChar | src/thread_dongle_client/src/thread_dongle_client.c:34-61 | the decoder steps; '#' leaves buffer and offset unchanged and makes `rx_msg_buf[0..rx_offset)` the pending command, added to the queue exactly when connected; other bytes leave buffer and queue as they were; LEDs and cache never change |
| LegacyClient.Node.OnUartMessage | src/thread_dongle_client/src/thread_dongle_client.c:65-82 | an event whose length is not 1 changes neither decoder nor client; a one-byte event is one decoder step, with the client updated as for that byte |
| MatrixClient.Client.constructor | thread_dongle_client_buttons_matrix/src/coap_client_utils.c:25 | no pending command number, nothing queued |
| MatrixClient.Client.SendCommandToServerMessage | thread_dongle_client_buttons_matrix/src/coap_client_utils.c:148-155 | the number is stored even when disconnected, replacing any earlier one; the send is queued only when connected |
| MatrixClient.Client.SendCommandsWork | thread_dongle_client_buttons_matrix/src/coap_client_utils.c:64-82 | the PUT payload is `CommandPayload` of the stored number: `CMD` and `'0' + n` kept to one byte; the number is reset to 0 and the item leaves the queue |
| MatrixClient.Client.SendKeepAliveWork | thread_dongle_client_buttons_matrix/src/coap_client_utils.c:84-98 | a PUT to `commands` of `bt_3_30` and its NUL; the commands LED goes on and the keep-alive item leaves the queue |
| MatrixClient.Client.SendKeepAlive | thread_dongle_client_buttons_matrix/src/coap_client_utils.c:157-160 | the keep-alive is queued exactly when connected; the LEDs keep their state |
| MatrixClient.LastWriteWins | thread_dongle_client_buttons_matrix/src/coap_client_utils.c:148-155 | of two numbers submitted before a send, the later one is sent |
| ButtonsMatrix.CommandFor | thread_dongle_client_buttons_matrix/src/thread_dongle_client_buttons_matrix.c:60-93 | no command without an active row; otherwise a number in 1..4, at most 2 exactly when row 1 is active, odd exactly when line 1 is on |
| ButtonsMatrix.CommandIdentifiesSwitch | thread_dongle_client_buttons_matrix/src/thread_dongle_client_buttons_matrix.c:65-92 | the number identifies the row and the line phase; row 2 matters only when row 1 is idle |
| ButtonsMatrix.Matrix.constructor | thread_dongle_client_buttons_matrix/src/thread_dongle_client_buttons_matrix.c:130-131 | line 1 status false, line 2 status true: opposite phases |
| ButtonsMatrix.Matrix.ToggleMatrixLines | thread_dongle_client_buttons_matrix/src/thread_dongle_client_buttons_matrix.c:48-58 | both line statuses flip, so they stay opposite |
| ButtonsMatrix.Matrix.CheckButtons | thread_dongle_client_buttons_matrix/src/thread_dongle_client_buttons_matrix.c:60-93 | at most one command per call, the one `CommandFor` names; it is stored, and the send is added to the queue exactly when one was sent and the device is connected; after a command the status LED is off (it blinks), otherwise it and the commands LED keep their state |

## Left out

- OpenThread and CoAP library calls are left out. Building and sending a response becomes the outcome parameter `sent`, and reading a reply payload becomes the payload sequence. Tokens, message IDs and addresses are not modelled.
- The Zephyr work queue becomes a set of pending work items, and resubmitting a pending item leaves it queued once. Running an item is calling its `…Work` method, which first takes the item off the queue. Which item the worker thread runs next, and when, is not modelled. Sleeps, periods, timing and the float multipliers of the request period are left out.
- UART, GPIO, LED and button drivers are modelled only by their values. These are the bytes sent, the LED booleans of the dispatcher and the server, the relay and line statuses, and the button bit masks passed in. LED blinks and their timing are left out, except that `check_buttons` leaves the status LED off after a command. The relay GPIO writes are left out.
- Interleaving of interrupts and the worker thread on the shared `rx_msg_buf`, `msg_buf` and `cmd_to_send_nb` is not modelled; only the sequential behaviour is.
- `malloc`, `free` and every `printk` are left out. If the allocation in the aggregate builder fails, the request gets no response; that path is not modelled.
- A read past the end of a buffer reads NUL. Adjacent memory is not modelled.
- When a tag is missing, `strchr` returns NULL and the source dereferences it. The model treats this as "no update" for that field.
- Framing.FrameDecoder.ProcessReceivedChar: the append is bounded by dropping a byte that arrives at a full buffer, where the source writes past the end (see Findings).
- The macros of headers that are not part of this model become parameters or constants. `ALARM` is the camera client's `alarm` text. The power-strip keep-alive id is the client's `keepAliveId`. `POWER_STRIP_URI_PATH` is the `PowerStripUri` case. `DK_BTN1_MSK` is bit 0.
- The legacy client's own CoAP client is not part of this model. Its node uses the camera client for the forwarded command.
- ButtonClient.Node: the button dongle's own CoAP client (its `coap_client_utils.h`) is not part of this model. The camera client stands in for its command buffer, connectivity gate and alarm. The main loop that sends a keep-alive every 20 seconds calls `coap_client_send_keep_alive` of that client and is not modelled.
- src/thread_dongle_server/src/coap_server.c is not part of this model. It holds LED-blink callbacks and calls functions that are defined in no file here.
- The server's `on_button_changed` does nothing and is not modelled. The status-request callbacks only blink an LED and are not modelled either.
- Functions that are only declared (`set_electrical_status`, `set_power_strip_status`, the six-argument `ot_coap_init` declaration, the camera header's electrical getters) are not part of this model.
- PowerStripNode.PowerStrip.MainLoop: a round is modelled without server replies and without the worker thread running between its steps, so the relays follow whatever the cache held and the queue only grows. The count of keep-alive submissions it returns is a ghost value; the firmware keeps no such counter.
- PowerStripNode.PowerStrip.SetSingleRelayStatus: the relay number is a `uint16_t`, stated as the precondition `n < 0x10000`.
- CameraClient.Client.SendCommandsToServerMessage: the source copies without a bound check; the model requires `|msg| <= MSG_BUFF_SIZE`.
- MatrixClient.Client.SendCommandToServerMessage: the number is a `uint16_t`, stated as the precondition `n <= UINT16_MAX`.

## Findings

| source | as written | input that shows it | evidently intended | confidence | as-written member | corrected member |
|---|---|---|---|---|---|---|
| thread_dongle_server/src/coap_server.c:67-71 | a byte that is not a delimiter is stored at `rx_msg_buf[rx_offset]` with no bound check. The buffer holds MSG_MAX_SIZE = 10 bytes (thread_dongle_server/interface/thread_dongle_interface.h:13). | The status line `~wifi:Xprs:Y#` that the button dongle writes carries 11 payload bytes, so the eleventh is written at index 10, one past the end. Under a drop-when-full bound the presence digit is lost instead (ServerNode.StatusLineLosesPresence). | the frame never outgrows the buffer | high (not executed) | Framing.StatusLineOverrunsBuffer | Framing.RunWithinBuffer |
