# WWAN clients: framing, delivery, rendezvous and reconnecting

A model of the open logic of the WWAN clients and proofs about it, in Dafny 4.11.
`dafny verify dfyconfig.toml` checks the project.

Two clients talk JSON over a local socket that delivers bytes with arbitrary
boundaries. The **device client** cuts objects out of the stream with a backtracking
framer and shares one receive buffer between a slot, a drain and two synchronous calls
that read the socket themselves; every device report must reach its callback once and
in order whichever of them read it. The **flash tool client** has a framer of its own
and a latch on which responses, progress reports, the timeout and aborts race while
`TriggerFlash` waits. Both carry the same reconnect machine. Beside them stand the
streaming compression loop, and the ICCID and AT coding of the LPA code.

| file | what it holds |
|---|---|
| `ByteStrings.dfy` | bytes, whitespace, chunks |
| `JsonStream.dfy` | `extractJsonObjects`: specification, loop in place, work bound |
| `ChunkInvariance.dfy` | the framer's answer does not depend on the cutting |
| `Tiling.dfy` | the framer's answer without its loop |
| `Resync.dfy` | when the framer recovers behind a refused slice |
| `JsonText.dfy` | RFC 8259 texts (sections 2 to 7) and their round trip |
| `ToolStream.dfy` | the tool client's framer and its agreement with the first |
| `Reconnect.dfy` | the reconnect machine of both clients |
| `DeviceModel.dfy`, `Delivery.dfy`, `DeviceRuns.dfy` | the device client on values, the delivery invariant, whole runs |
| `DeviceStream.dfy` | what can be seen of the device client, as a function of the events alone |
| `DeviceClient.dfy` | the device client as a class, each method proved equal to the model |
| `FlashWait.dfy` | the flash-wait rendezvous in atomic steps |
| `ToolClient.dfy` | the tool client as a class |
| `XzStream.dfy` | `Xz::XzCompressFile` |
| `Iccid.dfy`, `AtCommand.dfy` | ICCID text and AT commands |

The JSON parser is open: a function from slices to messages (`parse`), or a predicate
(`accepts`), over which every theorem is quantified. The network is a script: each read
returns the next chunk, each wait ends as the script says. In the device client's state
`log` lists the calls of `onIndicationReceived`, an entry saying whether it came off the
wire or was made up by a refresh, and `calls` the callbacks run; `wire` and `mark` are
there for the theorems only.

Where the code falls short of what its comments promise, the model follows the code and
says when it does not:

* A refused slice can swallow the object behind it (`Resync.RecoversForIff`,
  `Resync.QuotedBraceSwallows`), although `json_stream.h:8-11` promises recovery.
* A completer between the reset and the publication of the loop leaves the waiter without
  a quit (`FlashWait.FairRunLeavesIff`, `FlashWait.LostForever`), and one that straddles
  the reset can overwrite the verdict (`FlashWait.VerdictIffClean`,
  `FlashWait.StaleVerdict`).
* The tool client, unlike the device client, keeps its receive buffer over a reconnect
  (`wwan_func_tool.cpp:834-840`, `877-882`): an object cut off by the old connection
  swallows messages of the new one (`ToolStream.LeftoverHarmlessIff`).
* An empty payload in a modem response is not extracted as empty
  (`AtCommand.ReplyIffNonEmpty`, `AtCommand.EmptyPayloadExample`).
* Commands longer than their buffer go out with a wrong declared length
  (`AtCommand.SelectFramedIff`, `AtCommand.SendFramedIff`).
* An empty file is never compressed successfully, and every other file is where nothing
  goes wrong (`XzStream.Xz.XzCompressFile`).
* An ICCID text of 22 characters or more overruns the ten-byte array (`Iccid.DecodeFits`).

## Model

| member | source | states |
|---|---|---|
| `DeviceStream.RunRefines` | src/wsf/wwan_dev_service/wwan_dev_lib/ClientImpl.cpp:108-745 | Over every run, all that can be seen of the client - link, stored callbacks, bytes read, requests written, reports and callbacks, signals, each in order - is what a machine without receive buffer, framer state and queues yields from the events alone: every read takes in all its bytes; every indication that they complete is reported at once; every response but those that a wait consumes is signalled; every connect starts the stream anew, asks again for the stored kinds and fetches a report |
| `DeviceStream.StreamDelivered` | src/wsf/wwan_dev_service/wwan_dev_lib/ClientImpl.cpp:108-534 | From a new client on, at every point of every run: the reports off the wire since the last clear are the indications framed from all bytes read since, in one piece, those bytes being a function of the events alone |
| `DeviceStream.ReadyReadDoes` | src/wsf/wwan_dev_service/wwan_dev_lib/ClientImpl.cpp:459-534 | A `readyRead` takes in both chunks whole, reports each indication that they complete and signals each response: for function 0 the report and its status, for 1 the status, for 2 the bare event |
| `DeviceStream.GetInfoDoes` | src/wsf/wwan_dev_service/wwan_dev_lib/ClientImpl.cpp:108-182 | `GetDeviceinfo`, once its request is written, reads the chunks up to the first response of function 0, or all, and then the rest of the socket; it reports every indication in what it reads, and signals the responses in the rest only |
| `DeviceStream.SubscribeDoes` | src/wsf/wwan_dev_service/wwan_dev_lib/ClientImpl.cpp:327-408 | `SubscribeDeviceEvent` for a known kind on an open socket reads the chunks up to the first ok response of function 2, or all, none where the request is not written, and then the rest of the socket; it reports every indication, and signals the responses of functions 0 and 1 that its wait read and all in the rest |
| `DeviceStream.NothingRead` | src/wsf/wwan_dev_service/wwan_dev_lib/ClientImpl.cpp:109-136 | Calls that give up, closed sockets and events without bytes leave stream, reports and signals alone; `Deinit` and a disconnect empty the buffer and log nothing |
| `DeviceStream.ConnectDoes` | src/wsf/wwan_dev_service/wwan_dev_lib/ClientImpl.cpp:411-457 | Every event in which the connection comes up, `Init` included: the stream starts anew; EVENT requests go out for exactly the stored kinds in the order added, removed, changed, then one report request where there is one; behind entries off the wire one is made up exactly where the first response of function 0 to it has status ok, typed removed exactly where the id is empty and the port state is NO-PORT in any case |
| `DeviceRuns.EveryIndicationOnce` | src/wsf/wwan_dev_service/wwan_dev_lib/ClientImpl.cpp:108-534 | Over every interleaving of reads, `GetDeviceinfo` (answered, refused, timed out, not written), `SubscribeDeviceEvent`, drains, connects and disconnects, with the stream cut anywhere: the indications passed on since the last clear of the receive buffer are the `ind` messages framed from all bytes read since, taken in one piece - each once, in wire order - and no stored callback is ever removed |
| `DeviceRuns.EveryEntryCalledOnce` | src/wsf/wwan_dev_service/wwan_dev_lib/ClientImpl.cpp:731-745 | Over every run, new subscriptions included, the user's callbacks run for exactly the logged entries whose kind has one, with the callback stored when the entry was logged, each once and in order |
| `DeviceRuns.ServerStreamDelivered` | src/wsf/wwan_dev_service/wwan_dev_lib/ClientImpl.cpp:459-534 | If the bytes since the last clear are RFC 8259 objects with anything but opening braces between them, the client has passed on exactly the indications among those objects |
| `DeviceRuns.StepKeeps` | src/wsf/wwan_dev_service/wwan_dev_lib/ClientImpl.cpp:108-729 | One event of any kind keeps the delivery invariant, keeps all callbacks, runs callbacks for the new entries only, and moves the reconnect machine by its own step and no other |
| `ChunkInvariance.Append` | src/wsf/wwan_dev_service/wwan_dev_lib/json_stream.h:12-77 | Framing `a`, then its residue with `b` behind it, emits the objects of `a + b` framed in one go; the residues agree up to leading whitespace |
| `ChunkInvariance.ChunkInvariant` | src/wsf/wwan_dev_service/wwan_dev_lib/json_stream.h:12-77 | The same for any number of chunks, also when the bytes kept so far are known up to leading whitespace only |
| `ChunkInvariance.TwoCuttings` | src/wsf/wwan_dev_service/wwan_dev_lib/json_stream.h:12-77 | Two cuttings of one stream cannot be told apart |
| `Tiling.FramingIffExtract` | src/wsf/wwan_dev_service/wwan_dev_lib/json_stream.h:17-76 | A loop-free definition of the answer - disjoint in-order brace-matched accepted slices, dropped bytes that are no brace or start a refused slice, kept bytes that wait for a closing brace - has exactly one solution on every buffer, and a call returns it |
| `Tiling.CloseIsFirstZero` | src/wsf/wwan_dev_service/wwan_dev_lib/json_stream.h:30-59 | A scan stops at a position exactly when the depth, counted outside strings, is zero there and positive behind every shorter prefix |
| `Tiling.ExtractIdempotent` | src/wsf/wwan_dev_service/wwan_dev_lib/json_stream.h:60-76 | Extracting again from the residue emits nothing and changes nothing |
| `Resync.RecoversForIff` | src/wsf/wwan_dev_service/wwan_dev_lib/json_stream.h:63-71 | For the parser at hand: the rescan behind a slice that it refuses goes on with what follows as if that came first, for every continuation, if and only if every brace inside the slice that never closes there lies in an inner slice that the framer takes |
| `Resync.RecoversIff` | src/wsf/wwan_dev_service/wwan_dev_lib/json_stream.h:63-71 | For all parsers at once: the rescan recovers whatever the parser and whatever follows if and only if every brace inside the slice closes inside it |
| `Resync.Swallowed` | src/wsf/wwan_dev_service/wwan_dev_lib/json_stream.h:63-71 | Where the condition fails, an object that follows is not emitted but kept, waiting for more |
| `Resync.QuoteFreeRecovers` | src/wsf/wwan_dev_service/wwan_dev_lib/json_stream.h:8-11 | A refused slice without a quote byte is always recovered from |
| `Resync.QuotedBraceSwallows` | src/wsf/wwan_dev_service/wwan_dev_lib/json_stream.h:63-71 | With quotes it can fail, against the header comment: for every parser that refuses `{"{"}`, nothing is emitted from it with a valid object behind it |
| `JsonText.RoundTrip` | src/wsf/wwan_dev_service/wwan_dev_lib/json_stream.h:12-77 | Print any RFC 8259 objects (nested, with strings of braces, quotes and backslashes, any whitespace inside), separate them by anything but opening braces, cut the text anywhere: the framer gives back exactly those objects and keeps no byte |
| `JsonText.ObjectCloses` | src/wsf/wwan_dev_service/wwan_dev_lib/json_stream.h:30-59 | The scan of a printed object first reaches depth zero at its last byte |
| `JsonStream.WorkBound` | src/wsf/wwan_dev_service/wwan_dev_lib/json_stream.h:17-72 | Despite the backtrack the outer index grows every round, and all inner scans together read at most n(n+1)/2 bytes |
| `JsonStream.ScanObject` | src/wsf/wwan_dev_service/wwan_dev_lib/json_stream.h:30-59 | The inner loop computes where the first matching brace is, in as many steps as the work measure says |
| `JsonStream.ExtractJsonObjects` | src/wsf/wwan_dev_service/wwan_dev_lib/json_stream.h:12-77 | The loop on the buffer in place returns the objects and leaves the residue of the specification, in at most n(n+1)/2 inner steps |
| `ToolStream.FramersAgreeIff` | src/wsf/wwan_func_service/wwan_func_lib_tool/wwan_func_tool.cpp:653-709 | The tool's framer and `extractJsonObjects` yield the same slices, and residues equal up to leading whitespace, if and only if the parser accepts every slice that the tool's framer cuts |
| `ToolStream.CutChunkInvariant` | src/wsf/wwan_func_service/wwan_func_lib_tool/wwan_func_tool.cpp:658-708 | The tool's framer is chunk invariant with exactly equal residues |
| `ToolStream.CutIdempotent` | src/wsf/wwan_func_service/wwan_func_lib_tool/wwan_func_tool.cpp:660-704 | Cutting again what was kept yields nothing and keeps it |
| `ToolStream.CutMessages` | src/wsf/wwan_func_service/wwan_func_lib_tool/wwan_func_tool.cpp:660-708 | The loop that consumes the receive buffer in place computes the specification of the tool's framer |
| `ToolStream.HandledAgreeIff` | src/wsf/wwan_func_service/wwan_func_lib_tool/wwan_func_tool.cpp:653-719 | At every moment of a stream, `extractJsonObjects` yields exactly the slices that the tool client's handler does not drop, with residues equal up to leading whitespace, if and only if every slice that the parser refuses holds nothing to emit or keep behind its first brace |
| `ToolStream.PassedIffBarren` | src/wsf/wwan_dev_service/wwan_dev_lib/json_stream.h:63-71 | The device client's framer passes over a refused slice, whatever follows, if and only if the slice holds nothing to emit or keep behind its first brace |
| `ToolStream.LeftoverHarmlessIff` | src/wsf/wwan_func_service/wwan_func_lib_tool/wwan_func_tool.cpp:653-709 | The receive buffer is not cleared between connections: what an old one left does no harm to the messages of the new one, whatever they are, if and only if it left nothing |
| `FlashWait.VerdictIffClean` | src/wsf/wwan_func_service/wwan_func_lib_tool/wwan_func_tool.cpp:188-208 | The exact condition, whatever went before: from a waiter in its loop every continuation makes this wait return `completed` with the verdict of the first exchange since its reset, if and only if the state is clean - before any exchange nobody half-way through and no quit posted, after it whoever is about to store brings the first verdict, and that verdict is stored once somebody is about to post or has posted |
| `FlashWait.FirstCompleterWins` | src/wsf/wwan_func_service/wwan_func_lib_tool/wwan_func_tool.cpp:188-208 | Over every run of any number of waits and completers in single atomic steps in which each wait is clean when its loop is published: every wait returns the verdict of the completer whose exchange came first since its reset |
| `FlashWait.QuietIsClean` | src/wsf/wwan_func_service/wwan_func_lib_tool/wwan_func_tool.cpp:227-249 | If no completer runs between the reset and the publication of the loop and none straddles the reset, every wait is clean and returns the first verdict |
| `FlashWait.OneQuit` | src/wsf/wwan_func_service/wwan_func_lib_tool/wwan_func_tool.cpp:227-273 | Under the proviso a wait is posted at most one quit, and has it exactly when some completer has run and none is half-way through |
| `FlashWait.EveryFairRunLeaves` | src/wsf/wwan_func_service/wwan_func_lib_tool/wwan_func_tool.cpp:227-273 | No lost wake-up: on every fair run without end, under the proviso, a waiter in its loop leaves it. Fair means that every completer not done acts at some time, that a waiter with a quit posted goes on, and that one completer, the timer, comes to every wait behind the publication of its loop unless the wait ends before |
| `FlashWait.FairRunLeavesIff` | src/wsf/wwan_func_service/wwan_func_lib_tool/wwan_func_tool.cpp:197-208 | On every fair run without end, the proviso kept or not and however few completers there are, a waiter in its loop leaves it if and only if it is not in the state completed, nobody under way, no quit posted |
| `FlashWait.LostForever` | src/wsf/wwan_func_service/wwan_func_lib_tool/wwan_func_tool.cpp:229-248 | The lost wake-up on a fair run without end: a response between reset and publication, then the timer in the wait, and the waiter stays in its loop for ever |
| `FlashWait.KeptRunIsFair` | src/wsf/wwan_func_service/wwan_func_lib_tool/wwan_func_tool.cpp:227-273 | A fair run that keeps the proviso, with a single completer and a wait that it completes |
| `FlashWait.LeavesIffNotStuck` | src/wsf/wwan_func_service/wwan_func_lib_tool/wwan_func_tool.cpp:197-208 | Without the proviso: a waiter in its loop can still leave if and only if it is not in the state completed, nobody under way, no quit posted |
| `FlashWait.LostWakeUp` | src/wsf/wwan_func_service/wwan_func_lib_tool/wwan_func_tool.cpp:229-248 | A run that reaches that state: a completer between reset and publication takes the latch and posts nothing |
| `FlashWait.StaleVerdict` | src/wsf/wwan_func_service/wwan_func_lib_tool/wwan_func_tool.cpp:188-208 | A run in which a completer caught half-way by the reset overwrites the verdict: success is returned although the first verdict of the wait was failure |
| `ToolClient.ForceIsUninterrupted` | src/wsf/wwan_func_service/wwan_func_lib_tool/wwan_func_tool.cpp:197-208 | A completer that runs its atomic steps undisturbed does to the latch what the one-step specification of `ForceCompleteFlashWait` says |
| `ToolClient.FollowStream` | src/wsf/wwan_func_service/wwan_func_lib_tool/wwan_func_tool.cpp:653-761 | A wait that reads chunk by chunk finds the first verdict of the whole stream, however it is cut; it reads up to the chunk that brings that verdict and no chunk more, or else all, and takes out exactly the messages complete in what it reads |
| `ToolClient.ResetIsUninterrupted` | src/wsf/wwan_func_service/wwan_func_lib_tool/wwan_func_tool.cpp:188-192 | The reset, undisturbed, clears all three atomics, on entry before the loop is published and on exit behind the reads |
| `ToolClient.AbortIsUninterrupted` | src/wsf/wwan_func_service/wwan_func_lib_tool/wwan_func_tool.cpp:193-196 | An abort that runs its atomic steps undisturbed stores its flag and does to the latch what completing with failure does |
| `ToolClient.WwanClientImpl.TriggerFlash` | src/wsf/wwan_func_service/wwan_func_lib_tool/wwan_func_tool.cpp:227-284 | True, and a true flash result, only on an open socket, and there exactly when the first message of the stream that is a response of function 1001 or a report with progress of 99 or more is a response with final result and status ok, or a report whose text speaks neither of `fail` nor of `error` in any case; with no such message the timer and an abort mean failure, and another thread's verdict counts. Exactly the reports among the messages read are passed on, in order; the latch is left reset |
| `ToolClient.WwanClientImpl.HandleOneSocketMessage` | src/wsf/wwan_func_service/wwan_func_lib_tool/wwan_func_tool.cpp:710-761 | One message, in a wait or outside: a report with progress of 99 or more takes the latch at any time, a response of function 1001 only during a wait, each with what it says; every report is passed on to the subscriber, and nothing else |
| `Reconnect.ReconnectInvariant` | src/wsf/wwan_dev_service/wwan_dev_lib/ClientImpl.cpp:547-729 | Over every run after `Init`, for both clients: the retry timer is active exactly when the client is not stopping and the socket is not connected, `retryCount` is the number of ticks since the connection last came up, and a connect is issued only while not stopping by a socket neither connected nor connecting |
| `Reconnect.InitConnects` | src/wsf/wwan_dev_service/wwan_dev_lib/ClientImpl.cpp:411-422 | `Init` issues exactly one attempt unless the device client's socket is connected or connecting already; a connection that comes up stops the timer and clears the count, and otherwise a tick is due |
| `Reconnect.DeinitCloses` | src/wsf/wwan_dev_service/wwan_dev_lib/ClientImpl.cpp:424-446 | `Deinit` leaves the client stopping with no tick due; an open socket is gone where it closed in time and unconnected where it was aborted |
| `Reconnect.SignalsStartTimer` | src/wsf/wwan_dev_service/wwan_dev_lib/ClientImpl.cpp:708-729 | A disconnect, and an error with the socket not connected, start the timer unless the client is stopping, and change nothing else |
| `Reconnect.TickRetries` | src/wsf/wwan_dev_service/wwan_dev_lib/ClientImpl.cpp:698-706 | While not stopping, not connected and not connecting, a tick is due and issues a connect |
| `DeviceRuns.DeviceReconnects` | src/wsf/wwan_dev_service/wwan_dev_lib/ClientImpl.cpp:411-457 | The reconnect invariant, retry count included, holds of the device client with reads and synchronous calls anywhere between its events |
| `Delivery.ConnectRefreshes` | src/wsf/wwan_dev_service/wwan_dev_lib/ClientImpl.cpp:448-596 | After a connect with the socket open: EVENT requests for exactly the stored kinds in the order added, removed, changed, then one report request if there is a subscriber; at most one notification is made up, behind all those off the wire, only if the fetch succeeded, typed removed exactly when the id is empty and the port state is NO-PORT in any case |
| `DeviceRuns.ConnectReports` | src/wsf/wwan_dev_service/wwan_dev_lib/ClientImpl.cpp:567-596 | A connect makes a notification up exactly when there is a subscriber and the first GET_DEVICE_INFO response framed in its fetch, from the bytes behind the subscriptions, has status ok, and then from that response's report |
| `DeviceRuns.RoutingPartition` | src/wsf/wwan_dev_service/wwan_dev_lib/ClientImpl.cpp:360-394 | In one `SubscribeDeviceEvent` call every framed message is exactly one of queued indication, consumed EVENT response, leftover; each of the three keeps its order, and the queue holds what the indications report |
| `DeviceRuns.SubscribeAnswer` | src/wsf/wwan_dev_service/wwan_dev_lib/ClientImpl.cpp:327-408 | `SubscribeDeviceEvent` returns true exactly when the kind is known and, on an open socket, one of the messages framed in the call, the next ones of the wire, is an EVENT response that says ok |
| `DeviceRuns.InfoAnswer` | src/wsf/wwan_dev_service/wwan_dev_lib/ClientImpl.cpp:108-195 | `GetDeviceinfo` delivers a report exactly when the first GET_DEVICE_INFO response framed in the call has status ok, and then that response's report; the framed messages are the wire's next ones, none on a closed socket or when the request is not written in time |
| `DeviceRuns.PollStops` | src/wsf/wwan_dev_service/wwan_dev_lib/ClientImpl.cpp:141-176 | A wait loop ends before its timeout only with an answer, and reads nothing behind the batch that brought it |
| `Delivery.GetInfoDelivers` | src/wsf/wwan_dev_service/wwan_dev_lib/ClientImpl.cpp:108-196 | `GetDeviceinfo` keeps the delivery invariant however it ends, and changes no callback |
| `Delivery.SubscribeDelivers` | src/wsf/wwan_dev_service/wwan_dev_lib/ClientImpl.cpp:327-409 | `SubscribeDeviceEvent` keeps the delivery invariant, stores the callback before anything else, and writes one request on an open socket |
| `DeviceClient.DevClientImpl.GetDeviceinfo` | src/wsf/wwan_dev_service/wwan_dev_lib/ClientImpl.cpp:108-196 | The method on the object's fields is the model's call: whole new state, result and report |
| `DeviceClient.DevClientImpl.SubscribeDeviceEvent` | src/wsf/wwan_dev_service/wwan_dev_lib/ClientImpl.cpp:327-409 | The method on the object's fields is the model's call: whole new state and result |
| `DeviceClient.DevClientImpl.OnReadyRead` | src/wsf/wwan_dev_service/wwan_dev_lib/ClientImpl.cpp:459-479 | The slot on the object's fields is the model's event |
| `DeviceClient.DevClientImpl.DrainSocketMessages` | src/wsf/wwan_dev_service/wwan_dev_lib/ClientImpl.cpp:481-493 | The drain on the object's fields is the model's |
| `DeviceClient.DevClientImpl.SortInfoMessages` | src/wsf/wwan_dev_service/wwan_dev_lib/ClientImpl.cpp:151-175 | The classifying loop queues all indications in order and keeps the first device report |
| `DeviceClient.DevClientImpl.SortEventMessages` | src/wsf/wwan_dev_service/wwan_dev_lib/ClientImpl.cpp:372-393 | The classifying loop queues all indications, sets aside what is neither indication nor EVENT response, and succeeds exactly on an ok EVENT response |
| `DeviceClient.DevClientImpl.RefreshAfterReconnect` | src/wsf/wwan_dev_service/wwan_dev_lib/ClientImpl.cpp:567-596 | The refresh on the object's fields is the model's |
| `DeviceClient.DevClientImpl.Init` | src/wsf/wwan_dev_service/wwan_dev_lib/ClientImpl.cpp:411-422 | The call on the object's fields is the model's event |
| `DeviceClient.DevClientImpl.Deinit` | src/wsf/wwan_dev_service/wwan_dev_lib/ClientImpl.cpp:424-446 | The call on the object's fields is the model's event; true exactly when an open socket closed in time |
| `DeviceClient.DevClientImpl.RetryConnection` | src/wsf/wwan_dev_service/wwan_dev_lib/ClientImpl.cpp:698-706 | The tick on the object's fields is the reconnect machine's |
| `ToolClient.WwanClientImpl.Init` | src/wsf/wwan_func_service/wwan_func_lib_tool/wwan_func_tool.cpp:563-580 | The tool client's `Init` on its fields is the reconnect machine's event |
| `ToolClient.WwanClientImpl.Deinit` | src/wsf/wwan_func_service/wwan_func_lib_tool/wwan_func_tool.cpp:582-602 | The tool client's `Deinit` on its fields is the reconnect machine's event |
| `ToolClient.WwanClientImpl.RetryConnection` | src/wsf/wwan_func_service/wwan_func_lib_tool/wwan_func_tool.cpp:824-832 | The tool client's tick on its fields is the reconnect machine's |
| `XzStream.Xz.XzCompressFile` | src/afal/adapter_product/common/compress.cc:146-253 | For every encoder obeying the consume/produce contract: true is returned only for a non-empty file with its bytes fed whole and in order, FINISH given last, and exactly the produced bytes written. Where reads bring bytes, writes are whole, nobody stops and the encoder makes progress with bounded output, the loop ends and returns true if and only if the file is not empty. It stops, with the output removed, exactly at the first turn that ends with code Ok and the user asking for it; it fails only for a read error, a short write or another code. At any end, progress starts at 0, strictly increases, stays within 100, and is 100 once the last byte is read |
| `XzStream.Xz.Encode` | src/afal/adapter_product/common/compress.cc:193-213 | One encoder call and the write behind it keep: written plus pending equals produced, fed plus waiting equals read |
| `XzStream.Xz.Report` | src/afal/adapter_product/common/compress.cc:179-185 | A report after any read keeps the sequence of reported percentages strictly increasing and ending at the current one |
| `XzStream.Xz.Turn` | src/afal/adapter_product/common/compress.cc:164-252 | One turn goes on after code Ok unless the user asked to stop, succeeds at the end of the stream, and fails for a read error, a short write or another code and for nothing else |
| `XzStream.PercentFloor` | src/afal/adapter_product/common/compress.cc:180 | The percentage is the whole part of what was read in hundredths of the file |
| `XzStream.PercentBound` | src/afal/adapter_product/common/compress.cc:180 | A percentage is at most 100, and of a non-empty file it is 100 exactly at the end |
| `XzStream.PercentMonotone` | src/afal/adapter_product/common/compress.cc:180 | Percentages never fall, the truncating division included |
| `AtCommand.SelectFraming` | src/afal/adapter_product/lpa/lpa.cpp:516-545 | For an even-length AID whose command fits the 128-byte buffer: the text ends in the closing quote, the declared length is the number of characters between the quotes, the payload is SELECT by AID on that channel - class digit the channel modulo 16, Lc half the AID's length, the AID whole - and the text is the unpatched command but for that one digit |
| `AtCommand.SelectText` | src/afal/adapter_product/lpa/lpa.cpp:523-545 | A well framed SELECT, letter by letter: `AT+CSIM=` and the length for preset 0, `AT+CGLA=`, the channel and the length for preset 1, the numbers in decimal without leading zeros, then the quoted APDU with lower-case Lc and upper-case class digit |
| `AtCommand.SendText` | src/afal/adapter_product/lpa/lpa.cpp:607-613 | The same for the APDU that `AfalLpaSendApduSync` sends, which is carried unchanged |
| `AtCommand.GivesUpIff` | src/afal/adapter_product/lpa/lpa.cpp:509-536 | Both calls send nothing exactly without an open channel, for an odd number of characters, and for a preset that is neither 0 nor 1 |
| `AtCommand.SelectFramedIff` | src/afal/adapter_product/lpa/lpa.cpp:520-545 | For every AID of even length, the text is well framed if and only if the whole command fits into the buffer |
| `AtCommand.AidFits` | src/afal/adapter_product/lpa/lpa.cpp:520-527 | The command fits for every AID of at most 16 bytes on every channel below 1000 |
| `AtCommand.PatchedCommand` | src/afal/adapter_product/lpa/lpa.cpp:538-545 | The patch replaces the second payload character and nothing else |
| `AtCommand.SendFramedIff` | src/afal/adapter_product/lpa/lpa.cpp:605-616 | The same for `AfalLpaSendApduSync` and its 4096-byte buffer; the APDU is then carried whole and unchanged, and one that is not empty only then |
| `AtCommand.ReplyIffNonEmpty` | src/afal/adapter_product/lpa/lpa.cpp:554-573 | From every response `+CSIM: n,"payload"` or `+CGLA: n,"payload"` with any text behind it, the text between the quotes is extracted if and only if it is not empty |
| `AtCommand.ReplyNeedsTag` | src/afal/adapter_product/lpa/lpa.cpp:554-573 | A response without the tag `+CSIM` for preset 0, `+CGLA` for preset 1, gives an error; every other gives its second token |
| `AtCommand.EmptyPayloadExample` | src/afal/adapter_product/lpa/lpa.cpp:564-567 | With nothing between the quotes the rest of the line is returned as the payload |
| `AtCommand.Tokenise` | src/afal/adapter_product/lpa/lpa.cpp:564-567 | The two `strtok` calls find the second token of the specification |
| `AtCommand.BuildSelect` | src/afal/adapter_product/lpa/lpa.cpp:509-545 | The buffer built and patched in place holds the command of the specification, or the call gives up |
| `Iccid.DecodeDisplay` | src/afal/adapter_product/lpa/lpa.cpp:153-162 | Decoding the nibble-swapped display of any bytes gives the bytes back |
| `Iccid.DisplayDecode` | src/afal/adapter_product/lpa/lpa.cpp:211-220 | Displaying the decoding of any hex text, in either case, gives the text in upper case, less the last character of an odd length |
| `Iccid.DecodeFits` | src/afal/adapter_product/lpa/lpa.cpp:209-220 | What the decoding loop writes stays inside the ten-byte array exactly for texts of at most 21 characters |
| `Iccid.DecodeInto` | src/afal/adapter_product/lpa/lpa.cpp:209-220 | The pointer loop fills the array with the decoding and touches nothing behind it |
| `Iccid.DisplayOf` | src/afal/adapter_product/lpa/lpa.cpp:151-162 | The printing loop computes the display of the bytes |

## Left out

- Qt's sockets, event loop, timers and the wall clock: chunks, wait outcomes and ticks come from scripts, over which everything is quantified.
- Callbacks that call the client again, and disconnects while signals are blocked: the theorems about runs do not cover them; the code drops those signals.
- Threads and mutexes of the device client: its calls and slots run one at a time.
- JSON parsing and field extraction beyond kind, function id, status and the reported fields: open parameters.
- `ResetDevice`, the one-shot switch requests of both clients, and `wwan_func.cpp`: request and wait without a framer of their own.
- FlashWait.EveryFairRunLeaves, FlashWait.VerdictIffClean: one waiter, and only it resets; `WwanFuncSvcClientTool::ResetFlashWait` (`wwan_func_tool.cpp:113-117`), which lets any thread reset, and a second `TriggerFlash` nested in the event loop of the first are not modelled.
- ToolClient.WwanClientImpl.TriggerFlash: a completer on another thread runs between two reads, undisturbed; completers that overlap with each other and with the wait are in `FlashWait`. The unsynchronised pointer to the loop, an application-wide quit, and reads between a posted quit and its arrival are not modelled.
- ToolClient.WwanClientImpl.HandleOneSocketMessage: of the responses only the flash response is followed, the others go to one-shot requests.
- XzStream.Xz.XzCompressFile: the loop is cut off after a given number of turns, and termination is that no run where nothing goes wrong gets as far as that number; the overflow of the 64-bit product in the percentage is not modelled, and the encoder is its contract. That the output file decompresses is not stated.
- JsonStream.ExtractJsonObjects: the nested loop is split into three methods, one for each level.
- Iccid.DecodeInto: demands room for half the text; what the source's writes behind the ten-byte array do (`Iccid.DecodeFits` says when there are any) is not modelled.
- Iccid.DisplayOf: demands that the size lies within the array, as the source relies on.
- AtCommand.BuildSelect: a negative channel other than the closed mark is not modelled; the modem exchange itself is not either.
- Nickname and EID text, opening and closing of channels, and the hand-over of `g_channel`: no property beyond single bodies.
- The LPA kit, liblzma, MBIM, udev, logging, factories and build files.
