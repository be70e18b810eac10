/** The device client as the class it is: fields that its slots and calls update in
    place, proved step by step against the model on values. */
module DeviceClient {
  import opened ByteStrings
  import opened JsonStream
  import opened DeviceModel
  import opened Delivery
  import R = Reconnect

  class DevClientImpl {
    const parse: Parser
    const rxBuffer: ByteBuffer
    var func: map<int, Callback>
    var sock: R.Sock
    var stopping: bool
    var retryTimer: R.Timer
    var retryCount: nat

    // What the outside sees, in order.
    var attempts: seq<R.Attempt>
    var sent: seq<Request>
    var log: seq<Entry>
    var calls: seq<Call>
    var signals: seq<Signal>

    // The bytes read since the receive buffer was last cleared.
    ghost var wire: Bytes
    ghost var mark: nat

    ghost function Link(): R.Link
      reads this
    {
      R.Link(sock, stopping, retryTimer, retryCount, attempts)
    }

    /** The object's state as a value of the model. */
    ghost function View(): Client
      reads this, rxBuffer
    {
      Client(Link(), rxBuffer.data, func, sent, log, calls, signals, wire, mark)
    }

    constructor (parse: Parser)
      ensures View() == NEW && this.parse == parse && fresh(rxBuffer)
    {
      this.parse := parse;
      rxBuffer := new ByteBuffer();
      func, sock, stopping, retryTimer, retryCount := map[], R.NoSocket, false, R.NoTimer, 0;
      attempts, sent, log, calls, signals := [], [], [], [], [];
      wire, mark := [], 0;
    }

    method IsOpen() returns (open: bool)
      ensures open == R.IsOpen(Link())
    {
      open := sock == R.Connected || sock == R.Closing;
    }

    // ----- Messages

    method OnIndicationReceived(e: Entry)
      modifies this
      ensures View() == OnIndication(old(View()), e)
    {
      log := log + [e];
      if e.info.kind in func {
        calls := calls + [Call(func[e.info.kind], e.info)];
      }
    }

    method DeliverQueued(queued: seq<Info>)
      modifies this
      ensures View() == Deliver(old(View()), queued)
    {
      var k := 0;
      while k < |queued|
        invariant k <= |queued|
        invariant Deliver(View(), queued[k..]) == Deliver(old(View()), queued)
      {
        assert queued[k..][1..] == queued[k + 1..];
        OnIndicationReceived(FromWire(queued[k]));
        k := k + 1;
      }
    }

    method DispatchJsonMessage(msg: Bytes)
      modifies this
      ensures View() == Dispatch(parse, old(View()), msg)
    {
      var doc := parse(msg);
      if doc.None? {
        return;
      }
      var m := doc.value;
      if m.kind == "ind" {
        OnIndicationReceived(FromWire(m.info));
      } else if m.kind == "resp" {
        if m.functionId == GET_DEVICE_INFO {
          signals := signals + [InfoSignal(m.info, m.ok)];
        } else if m.functionId == RESET_DEVICE {
          signals := signals + [ResetSignal(m.ok)];
        } else if m.functionId == EVENT {
          signals := signals + [EventSignal];
        }
      }
    }

    method DispatchMessages(msgs: seq<Bytes>)
      modifies this
      ensures View() == DispatchAll(parse, old(View()), msgs)
    {
      var k := 0;
      while k < |msgs|
        invariant k <= |msgs|
        invariant DispatchAll(parse, View(), msgs[k..]) == DispatchAll(parse, old(View()), msgs)
      {
        assert msgs[k..][1..] == msgs[k + 1..];
        DispatchJsonMessage(msgs[k]);
        k := k + 1;
      }
    }

    /** `rxBuffer += readAll()`, then the framer. */
    method ReadAndExtract(chunk: Bytes) returns (msgs: seq<Bytes>)
      modifies this, rxBuffer
      ensures View() == Read(parse, old(View()), chunk)
      ensures msgs == FramedNext(parse, old(View()), chunk)
    {
      rxBuffer.data := rxBuffer.data + chunk;
      wire := wire + chunk;
      ghost var steps;
      msgs, steps := ExtractJsonObjects(rxBuffer, Accepts(parse));
    }

    method OnReadyRead(first: Bytes, more: Bytes)
      modifies this, rxBuffer
      ensures View() == Step(parse, old(View()), ReadyRead(first, more))
    {
      rxBuffer.data := rxBuffer.data + first;
      wire := wire + first;
      assert old(rxBuffer.data) + first + more == old(rxBuffer.data) + (first + more);
      assert old(wire) + first + more == old(wire) + (first + more);
      var msgs := ReadAndExtract(more);
      DispatchMessages(msgs);
    }

    method DrainSocketMessages(chunk: Bytes)
      modifies this, rxBuffer
      ensures View() == Drain(parse, old(View()), chunk)
    {
      var msgs := ReadAndExtract(chunk);
      DispatchMessages(msgs);
    }

    // ----- Synchronous calls

    /** The body of `GetDeviceinfo`'s inner loop: indications are queued, the first
        device report wins, anything else is skipped. */
    method SortInfoMessages(msgs: seq<Bytes>, queued: seq<Info>, resp: Option<Message>)
      returns (queued': seq<Info>, resp': Option<Message>)
      requires resp.None?
      ensures queued' == queued + Inds(parse, msgs)
      ensures resp' == FirstInfoResp(parse, msgs)
    {
      queued', resp' := queued, resp;
      var k := 0;
      while k < |msgs|
        invariant k <= |msgs|
        invariant queued' + Inds(parse, msgs[k..]) == queued + Inds(parse, msgs)
        invariant FirstInfoResp(parse, msgs) == if resp'.Some? then resp' else FirstInfoResp(parse, msgs[k..])
      {
        assert msgs[k..][1..] == msgs[k + 1..];
        var doc := parse(msgs[k]);
        if doc.Some? {
          var m := doc.value;
          if m.kind == "ind" {
            queued' := queued' + [m.info];
          } else if m.kind == "resp" && m.functionId == GET_DEVICE_INFO {
            if resp'.None? {
              resp' := doc;
            }
          }
        }
        k := k + 1;
      }
    }

    /** The wait loop of `GetDeviceinfo`. */
    method AwaitInfo(chunks: seq<Bytes>) returns (queued: seq<Info>, resp: Option<Message>, ghost msgs: seq<Bytes>)
      modifies this, rxBuffer
      ensures Poll(parse, old(View()), chunks, IsInfoResp).client == View()
      ensures Poll(parse, old(View()), chunks, IsInfoResp).msgs == msgs
      ensures queued == Inds(parse, msgs) && resp == FirstInfoResp(parse, msgs)
    {
      queued, resp, msgs := [], None, [];
      var k := 0;
      ghost var whole := Poll(parse, View(), chunks, IsInfoResp);
      while resp.None? && k < |chunks|
        invariant k <= |chunks|
        invariant queued == Inds(parse, msgs) && resp == FirstInfoResp(parse, msgs)
        invariant if resp.Some? then whole.client == View() && whole.msgs == msgs
                  else var p := Poll(parse, View(), chunks[k..], IsInfoResp);
                       whole.client == p.client && whole.msgs == msgs + p.msgs
      {
        ghost var before := View();
        var batch := ReadAndExtract(chunks[k]);
        PollUnfold(parse, before, chunks, k, IsInfoResp, msgs);
        IndsAppend(parse, msgs, batch);
        FirstInfoRespAppend(parse, msgs, batch);
        FirstInfoRespAny(parse, batch);
        queued, resp := SortInfoMessages(batch, queued, resp);
        msgs := msgs + batch;
        k := k + 1;
      }
      assert msgs + [] == msgs;
    }

    method GetDeviceinfo(force: bool, io: Io) returns (ok: bool, info: Option<Info>)
      modifies this, rxBuffer
      ensures (View(), info) == GetInfo(parse, old(View()), force, io)
      ensures ok == info.Some?
    {
      var open := IsOpen();
      if !open {
        return false, None;
      }
      sent := sent + [InfoRequest(force)];
      if !io.written {
        return false, None;
      }
      var queued, resp;
      ghost var msgs;
      queued, resp, msgs := AwaitInfo(io.chunks);
      DeliverQueued(queued);
      DrainSocketMessages(io.tail);
      if resp.None? {
        return false, None;
      }
      if !resp.value.ok {
        return false, None;
      }
      return true, Some(resp.value.info);
    }

    /** The body of `SubscribeDeviceEvent`'s inner loop. */
    method SortEventMessages(msgs: seq<Bytes>, queued: seq<Info>, leftover: seq<Bytes>)
      returns (queued': seq<Info>, leftover': seq<Bytes>, success: bool)
      ensures queued' == queued + Inds(parse, msgs)
      ensures leftover' == leftover + Leftovers(parse, msgs)
      ensures success == Any(parse, IsEventOk, msgs)
    {
      queued', leftover', success := queued, leftover, false;
      var k := 0;
      while k < |msgs|
        invariant k <= |msgs|
        invariant queued' + Inds(parse, msgs[k..]) == queued + Inds(parse, msgs)
        invariant leftover' + Leftovers(parse, msgs[k..]) == leftover + Leftovers(parse, msgs)
        invariant success <==> exists j :: 0 <= j < k && Holds(parse, IsEventOk, msgs[j])
      {
        assert msgs[k..][1..] == msgs[k + 1..];
        var doc := parse(msgs[k]);
        if doc.Some? {
          var m := doc.value;
          if m.kind == "ind" {
            queued' := queued' + [m.info];
          } else if m.kind == "resp" && m.functionId == EVENT {
            if m.ok {
              success := true;
            }
          } else {
            leftover' := leftover' + [msgs[k]];
          }
        }
        k := k + 1;
      }
    }

    /** The wait loop of `SubscribeDeviceEvent`. */
    method AwaitEvent(chunks: seq<Bytes>)
      returns (queued: seq<Info>, leftover: seq<Bytes>, success: bool, ghost msgs: seq<Bytes>)
      modifies this, rxBuffer
      ensures Poll(parse, old(View()), chunks, IsEventOk).client == View()
      ensures Poll(parse, old(View()), chunks, IsEventOk).msgs == msgs
      ensures queued == Inds(parse, msgs) && leftover == Leftovers(parse, msgs)
      ensures success == Any(parse, IsEventOk, msgs)
    {
      queued, leftover, success, msgs := [], [], false, [];
      var k := 0;
      ghost var whole := Poll(parse, View(), chunks, IsEventOk);
      while !success && k < |chunks|
        invariant k <= |chunks|
        invariant queued == Inds(parse, msgs) && leftover == Leftovers(parse, msgs)
        invariant success == Any(parse, IsEventOk, msgs)
        invariant if success then whole.client == View() && whole.msgs == msgs
                  else var p := Poll(parse, View(), chunks[k..], IsEventOk);
                       whole.client == p.client && whole.msgs == msgs + p.msgs
      {
        ghost var before := View();
        var batch := ReadAndExtract(chunks[k]);
        PollUnfold(parse, before, chunks, k, IsEventOk, msgs);
        IndsAppend(parse, msgs, batch);
        LeftoversAppend(parse, msgs, batch);
        AnyAppend(parse, IsEventOk, msgs, batch);
        queued, leftover, success := SortEventMessages(batch, queued, leftover);
        msgs := msgs + batch;
        k := k + 1;
      }
      assert msgs + [] == msgs;
    }

    method SubscribeDeviceEvent(kind: int, callback: Callback, io: Io) returns (success: bool)
      modifies this, rxBuffer
      ensures (View(), success) == Subscribe(parse, old(View()), kind, callback, io)
    {
      if kind != DEVICE_ADDED && kind != DEVICE_REMOVED && kind != DEVICE_CHANGED {
        return false;
      }
      func := func[kind := callback];
      var open := IsOpen();
      if !open {
        return true;
      }
      success := false;
      var queued, leftover: seq<Bytes> := [], [];
      sent := sent + [EventRequest(kind)];
      if io.written {
        ghost var msgs;
        queued, leftover, success, msgs := AwaitEvent(io.chunks);
      }
      DispatchMessages(leftover);
      DeliverQueued(queued);
      DrainSocketMessages(io.tail);
    }

    // ----- Reconnecting

    method StartReconnectTimer()
      modifies this
      ensures View() == old(View()).(link := R.StartTimer(old(Link())))
    {
      if stopping {
        return;
      }
      if retryTimer == R.NoTimer {
        retryTimer := R.Idle;
      }
      if retryTimer != R.Ticking {
        retryTimer := R.Ticking;
      }
    }

    method StopReconnectTimer()
      modifies this
      ensures View() == old(View()).(link := R.StopTimer(old(Link())))
    {
      if retryTimer != R.NoTimer {
        retryTimer := R.Idle;
      }
    }

    method ConnectToServer()
      modifies this
      ensures View() == old(View()).(link := R.Connect(R.Device, old(Link())))
    {
      if stopping {
        return;
      }
      if sock == R.NoSocket {
        sock := R.Unconnected;
      }
      if sock == R.Connected || sock == R.Connecting {
        return;
      }
      attempts := attempts + [R.Attempt(sock, stopping)];
      if sock != R.Unconnected {
        sock := R.Unconnected;
      }
      sock := R.Connecting;
    }

    method RetryConnection()
      modifies this
      ensures View() == old(View()).(link := R.Retry(R.Device, old(Link())))
    {
      if stopping {
        StopReconnectTimer();
        return;
      }
      retryCount := retryCount + 1;
      ConnectToServer();
    }

    method OnError(now: R.Sock)
      modifies this
      ensures View() == Step(parse, old(View()), SocketErrored(now))
    {
      sock := now;
      if stopping {
        return;
      }
      if sock == R.Connected {
        return;
      }
      StartReconnectTimer();
    }

    method ClearRxBuffer()
      modifies this, rxBuffer
      ensures View() == ClearRx(old(View()))
    {
      rxBuffer.data := [];
      wire, mark := [], |log|;
    }

    method OnDisconnected()
      modifies this, rxBuffer
      ensures View() == DeviceModel.OnDisconnected(old(View()))
    {
      ClearRxBuffer();
      if stopping {
        return;
      }
      StartReconnectTimer();
    }

    method Resubscribe(kind: int, io: Io) returns (had: bool)
      modifies this, rxBuffer
      ensures View() == DeviceModel.Resubscribe(parse, old(View()), kind, io)
      ensures had <==> kind in old(func)
    {
      had := kind in func;
      if had {
        var _ := SubscribeDeviceEvent(kind, func[kind], io);
      }
    }

    method RefreshAfterReconnect(script: Script)
      modifies this, rxBuffer
      ensures View() == Refresh(parse, old(View()), script)
    {
      var open := IsOpen();
      if !open {
        return;
      }
      var added := Resubscribe(DEVICE_ADDED, script.added);
      var removed := Resubscribe(DEVICE_REMOVED, script.removed);
      var changed := Resubscribe(DEVICE_CHANGED, script.changed);
      if !(added || removed || changed) {
        return;
      }
      var ok, info := GetDeviceinfo(false, script.info);
      if !ok {
        return;
      }
      var report := info.value;
      if report.deviceId == "" && SaysNoPort(report.portState) {
        report := report.(kind := DEVICE_REMOVED);
      } else {
        report := report.(kind := DEVICE_CHANGED);
      }
      OnIndicationReceived(MadeUp(report));
    }

    method OnConnected(script: Script)
      modifies this, rxBuffer
      ensures View() == DeviceModel.OnConnected(parse, old(View()), script)
    {
      ClearRxBuffer();
      StopReconnectTimer();
      retryCount := 0;
      RefreshAfterReconnect(script);
    }

    method Init(wait: R.Wait, script: Script) returns (ok: bool)
      modifies this, rxBuffer
      ensures View() == DeviceModel.Init(parse, old(View()), wait, script)
      ensures ok
    {
      stopping := false;
      ConnectToServer();
      if sock != R.Connected {
        match wait {
          case CameUp =>
            sock := R.Connected;
            OnConnected(script);
          case Refused =>
            OnError(R.Unconnected);
          case TimedOut =>
        }
      }
      if sock != R.Connected {
        StartReconnectTimer();
      }
      return true;
    }

    /** True where the connection was closed in time. */
    method Deinit(closed: bool) returns (ok: bool)
      modifies this, rxBuffer
      ensures View() == DeviceModel.Deinit(old(View()), closed)
      ensures ok <==> closed && R.IsOpen(old(Link()))
    {
      stopping := true;
      ClearRxBuffer();
      StopReconnectTimer();
      var open := IsOpen();
      if open {
        sock := R.Unconnected;
        if !closed {
          return false;
        }
        OnDisconnected();
        sock := R.NoSocket;
        return true;
      }
      return false;
    }
  }

  lemma PollUnfold(parse: Parser, c: Client, chunks: seq<Bytes>, k: nat, done: Message -> bool, msgs: seq<Bytes>)
    requires k < |chunks|
    ensures var batch, d := FramedNext(parse, c, chunks[k]), Read(parse, c, chunks[k]);
            var p, q := Poll(parse, c, chunks[k..], done), Poll(parse, d, chunks[k + 1..], done);
            if Any(parse, done, batch) then p.client == d && msgs + p.msgs == msgs + batch
            else p.client == q.client && msgs + p.msgs == msgs + batch + q.msgs
  {
    assert chunks[k..][1..] == chunks[k + 1..];
    var batch, d := FramedNext(parse, c, chunks[k]), Read(parse, c, chunks[k]);
    assert msgs + batch + Poll(parse, d, chunks[k + 1..], done).msgs ==
           msgs + (batch + Poll(parse, d, chunks[k + 1..], done).msgs);
  }
}
