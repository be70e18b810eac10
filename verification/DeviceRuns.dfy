/** The device client over whole runs, and what its calls return. */
module DeviceRuns {
  import opened ByteStrings
  import opened JsonStream
  import opened DeviceModel
  import opened Delivery
  import JsonText
  import R = Reconnect

  // ----- Steps

  lemma InitDelivers(parse: Parser, c: Client, wait: R.Wait, script: Script)
    requires Delivered(parse, c)
    ensures var d := Init(parse, c, wait, script);
            && Delivered(parse, d) && CalledBack(c, d) && d.func == c.func
            && d.link == R.Step(R.Device, c.link, R.Init(wait))
  {
    var c1 := c.(link := R.InitConnect(R.Device, c.link));
    NothingLogged(c, c1);
    if wait.CameUp? && !c1.link.sock.Connected? {
      var _, _, _ := ConnectRefreshes(parse, c1.(link := c1.link.(sock := R.Connected)), script);
    }
  }

  /** One event: nothing is lost or repeated, callbacks stay stored and run once for
      each new entry, and the reconnect machine takes its own step and no other. */
  lemma StepKeeps(parse: Parser, c: Client, e: Event)
    requires Delivered(parse, c)
    ensures var d := Step(parse, c, e);
            && Delivered(parse, d) && CalledBack(c, d) && c.func.Keys <= d.func.Keys
            && d.link == match LinkEvent(e)
                         case Some(l) => R.Step(R.Device, c.link, l)
                         case None => c.link
  {
    match e
    case ReadyRead(first, more) => DrainServed(parse, c, first + more);
    case CallGetInfo(force, io) => GetInfoDelivers(parse, c, force, io);
    case CallSubscribe(kind, callback, io) => SubscribeDelivers(parse, c, kind, callback, io);
    case CallInit(wait, script) => InitDelivers(parse, c, wait, script);
    case SocketOpened(script) =>
      var _, _, _ := ConnectRefreshes(parse, c.(link := c.link.(sock := R.Connected)), script);
    case _ => QuietKeeps(parse, c, e);
  }

  /** The events that read nothing: they may clear the buffer. */
  lemma QuietKeeps(parse: Parser, c: Client, e: Event)
    requires Delivered(parse, c)
    requires e.CallDeinit? || e.SocketDropped? || e.SocketErrored? || e.TimerTick?
    ensures var d := Step(parse, c, e);
            && Delivered(parse, d) && CalledBack(c, d) && d.func == c.func
            && d.link == R.Step(R.Device, c.link, LinkEvent(e).value)
  {
    var d := Step(parse, c, e);
    var link := R.Step(R.Device, c.link, LinkEvent(e).value);
    assert d == if e.CallDeinit? || e.SocketDropped? then ClearRx(c).(link := link) else c.(link := link);
    RelinkedDelivers(parse, c, link);
  }

  lemma RelinkedDelivers(parse: Parser, c: Client, link: R.Link)
    requires Delivered(parse, c)
    ensures Delivered(parse, c.(link := link)) && CalledBack(c, c.(link := link))
    ensures Delivered(parse, ClearRx(c).(link := link)) && CalledBack(c, ClearRx(c).(link := link))
  {
    NothingLogged(c, c.(link := link));
    NothingLogged(c, ClearRx(c).(link := link));
    ClearDelivers(parse, ClearRx(c).(link := link));
  }

  // ----- Runs

  /** Over any interleaving of reads, calls, connects and disconnects, and at every
      point of it: the indications passed on since the buffer was last cleared are
      exactly those framed from the bytes read since, each once, in wire order; and
      no stored callback is ever removed. */
  lemma {:induction false} EveryIndicationOnce(parse: Parser, c: Client, es: seq<Event>)
    requires Delivered(parse, c)
    ensures Delivered(parse, Run(parse, c, es)) && c.func.Keys <= Run(parse, c, es).func.Keys
    decreases |es|
  {
    if es != [] {
      StepKeeps(parse, c, es[0]);
      EveryIndicationOnce(parse, Step(parse, c, es[0]), es[1..]);
    }
  }

  /** A new client has nothing to account for. */
  lemma NewDelivered(parse: Parser)
    ensures Delivered(parse, NEW)
  {
    ClearDelivers(parse, NEW);
  }

  /** The callbacks in force during an event: a subscription stores its own before
      anything is read. */
  function Table(c: Client, e: Event): map<int, Callback> {
    if e.CallSubscribe? && DEVICE_ADDED <= e.kind <= DEVICE_CHANGED then c.func[e.kind := e.callback] else c.func
  }

  function NewEntries(c: Client, d: Client): seq<Entry> {
    if |c.log| <= |d.log| then d.log[|c.log|..] else []
  }

  /** The callbacks that a run owes: for every entry the one in force when the entry
      is logged. */
  function OwedCalls(parse: Parser, c: Client, es: seq<Event>): seq<Call>
    decreases |es|
  {
    if es == [] then []
    else
      var d := Step(parse, c, es[0]);
      CallsFor(Table(c, es[0]), NewEntries(c, d)) + OwedCalls(parse, d, es[1..])
  }

  /** Over any run, new subscriptions included, the callbacks run are exactly those
      owed for the logged entries, each once and in order. */
  lemma {:induction false} EveryEntryCalledOnce(parse: Parser, c: Client, es: seq<Event>)
    requires Delivered(parse, c)
    ensures c.log <= Run(parse, c, es).log
    ensures Run(parse, c, es).calls == c.calls + OwedCalls(parse, c, es)
    decreases |es|
  {
    if es == [] {
      assert c.calls + [] == c.calls;
    } else {
      var d := Step(parse, c, es[0]);
      StepKeeps(parse, c, es[0]);
      StepTable(parse, c, es[0]);
      EveryEntryCalledOnce(parse, d, es[1..]);
      CallsGlue(c.calls, CallsFor(d.func, NewEntries(c, d)), OwedCalls(parse, d, es[1..]));
    }
  }

  lemma CallsGlue(xs: seq<Call>, ys: seq<Call>, zs: seq<Call>)
    ensures xs + ys + zs == xs + (ys + zs)
  {
  }

  /** An event stores the callback of its subscription and no other. */
  lemma StepTable(parse: Parser, c: Client, e: Event)
    requires Delivered(parse, c)
    ensures Step(parse, c, e).func == Table(c, e)
  {
    match e
    case ReadyRead(first, more) => DrainServed(parse, c, first + more);
    case CallGetInfo(force, io) => GetInfoDelivers(parse, c, force, io);
    case CallSubscribe(kind, callback, io) => SubscribeDelivers(parse, c, kind, callback, io);
    case CallInit(wait, script) => InitDelivers(parse, c, wait, script);
    case SocketOpened(script) =>
      var _, _, _ := ConnectRefreshes(parse, c.(link := c.link.(sock := R.Connected)), script);
    case _ => QuietKeeps(parse, c, e);
  }

  /** The events of a run that the reconnect machine sees. */
  function LinkEvents(es: seq<Event>): seq<R.Event> {
    if es == [] then []
    else (match LinkEvent(es[0]) case Some(l) => [l] case None => []) + LinkEvents(es[1..])
  }

  /** Reads and calls in between leave the reconnect machine alone. */
  lemma {:induction false} RunReconnects(parse: Parser, c: Client, es: seq<Event>)
    requires Delivered(parse, c) && EnabledRun(parse, c, es)
    ensures Run(parse, c, es).link == R.Run(R.Device, c.link, LinkEvents(es))
    ensures R.EnabledRun(R.Device, c.link, LinkEvents(es))
    decreases |es|
  {
    if es != [] {
      StepKeeps(parse, c, es[0]);
      RunReconnects(parse, Step(parse, c, es[0]), es[1..]);
      assert LinkEvents(es)[if LinkEvent(es[0]).Some? then 1 else 0..] == LinkEvents(es[1..]);
    }
  }

  /** The reconnect invariant of the device client, with reads and calls anywhere
      between its events. */
  lemma DeviceReconnects(parse: Parser, wait: R.Wait, script: Script, es: seq<Event>)
    requires EnabledRun(parse, NEW, [CallInit(wait, script)] + es)
    ensures var all := [CallInit(wait, script)] + es;
            var l := Run(parse, NEW, all).link;
            && R.Watching(l) && R.Disciplined(l.attempts)
            && l.retryCount == R.TicksSinceUp(R.Device, R.NEW, LinkEvents(all), 0)
  {
    var all := [CallInit(wait, script)] + es;
    NewDelivered(parse);
    RunReconnects(parse, NEW, all);
    assert all[1..] == es;
    assert LinkEvents(all) == [R.Init(wait)] + LinkEvents(es);
    R.ReconnectInvariant(R.Device, wait, LinkEvents(es));
  }

  /** Whatever RFC 8259 objects a server sends since the last clear, with anything
      but opening braces between them, the client passes on exactly the indications
      among them, in order. */
  lemma ServerStreamDelivered(parse: Parser, c: Client, entries: seq<JsonText.Entry>, tail: Bytes)
    requires Delivered(parse, c) && c.wire == JsonText.PrintEntries(entries, tail)
    requires JsonText.EntriesOk(entries) && JsonText.NoBrace(tail)
    requires forall k :: 0 <= k < |entries| ==> parse(JsonText.Print(entries[k].doc)).Some?
    ensures Wired(Recent(c)) == Inds(parse, JsonText.Printed(entries))
  {
    JsonText.StreamExtract(Accepts(parse), entries, tail);
    assert Wired(Recent(c)) + [] == Wired(Recent(c));
  }

  // ----- What the calls return

  /** The `k`-th slice is the first to satisfy `want`. */
  predicate IsFirst(parse: Parser, want: Message -> bool, msgs: seq<Bytes>, k: nat) {
    k < |msgs| && Holds(parse, want, msgs[k]) && forall j :: 0 <= j < k ==> !Holds(parse, want, msgs[j])
  }

  lemma {:induction false} FirstInfoRespIs(parse: Parser, msgs: seq<Bytes>)
    ensures match FirstInfoResp(parse, msgs)
            case None => !Any(parse, IsInfoResp, msgs)
            case Some(m) => exists k: nat :: IsFirst(parse, IsInfoResp, msgs, k) && parse(msgs[k]) == Some(m)
    decreases |msgs|
  {
    if msgs != [] {
      if Holds(parse, IsInfoResp, msgs[0]) {
        assert IsFirst(parse, IsInfoResp, msgs, 0);
      } else {
        FirstInfoRespIs(parse, msgs[1..]);
        if FirstInfoResp(parse, msgs).Some? {
          var k: nat :| IsFirst(parse, IsInfoResp, msgs[1..], k) && parse(msgs[1..][k]) == FirstInfoResp(parse, msgs);
          assert forall j :: 0 < j < |msgs| ==> msgs[j] == msgs[1..][j - 1];
          assert IsFirst(parse, IsInfoResp, msgs, k + 1);
        } else {
          AnyTail(parse, IsInfoResp, msgs);
        }
      }
    }
  }

  /** Some slice is the first GET_DEVICE_INFO response and carries `info` with
      status ok. */
  ghost predicate AnsweredWith(parse: Parser, msgs: seq<Bytes>, info: Info) {
    exists k: nat :: IsFirst(parse, IsInfoResp, msgs, k) &&
                     parse(msgs[k]).value.ok && parse(msgs[k]).value.info == info
  }

  lemma AnswerIs(parse: Parser, msgs: seq<Bytes>, info: Info)
    ensures var resp := FirstInfoResp(parse, msgs);
            AnsweredWith(parse, msgs, info) <==> resp.Some? && resp.value.ok && resp.value.info == info
  {
    FirstInfoRespIs(parse, msgs);
  }

  /** `GetDeviceinfo` returns true, with the report it carries, exactly when the first
      GET_DEVICE_INFO response framed in the call has status ok; indications framed
      before or behind it make no difference, and a call with a closed socket or a
      request not written frames nothing. */
  lemma InfoAnswer(parse: Parser, c: Client, force: bool, io: Io, info: Info)
    returns (p: Polled)
    requires Delivered(parse, c)
    ensures p == if R.IsOpen(c.link) && io.written
                 then Poll(parse, c.(sent := c.sent + [InfoRequest(force)]), io.chunks, IsInfoResp)
                 else Polled(c, [], 0)
    ensures WireMessages(parse, p.client) == WireMessages(parse, c) + p.msgs
    ensures GetInfo(parse, c, force, io).1 == Some(info) <==> AnsweredWith(parse, p.msgs, info)
  {
    if R.IsOpen(c.link) && io.written {
      var c1 := c.(sent := c.sent + [InfoRequest(force)]);
      p := Poll(parse, c1, io.chunks, IsInfoResp);
      PollAccounted(parse, c1, [], io.chunks, IsInfoResp);
    } else {
      p := Polled(c, [], 0);
      assert WireMessages(parse, c) + [] == WireMessages(parse, c);
    }
    AnswerIs(parse, p.msgs, info);
  }

  /** What a connect makes up is the report of the first GET_DEVICE_INFO response
      framed in its fetch, and it makes something up exactly when there is a
      subscriber and that response has status ok; `p` holds the fetch's messages,
      the wire's next ones behind the subscriptions. */
  lemma ConnectReports(parse: Parser, c: Client, script: Script)
    returns (wired: Client, made: seq<Entry>, p: Polled)
    requires R.IsOpen(c.link)
    ensures OnConnected(parse, c, script).log == wired.log + made && WireOnly(c, wired) && |made| <= 1
    ensures var before := Resubscribed(parse, Fresh(c), script).0;
            && p == Poll(parse, before.(sent := before.sent + [InfoRequest(false)]), script.info.chunks, IsInfoResp)
            && WireMessages(parse, p.client) == WireMessages(parse, before) + p.msgs
    ensures made == [] <==> !HasSubscribers(c) || !script.info.written ||
                            !exists info :: AnsweredWith(parse, p.msgs, info)
    ensures made != [] ==> exists info :: AnsweredWith(parse, p.msgs, info) && RefreshEntry(c, Some(info), made)
  {
    var c0 := Fresh(c);
    var before := Resubscribed(parse, c0, script).0;
    var info;
    wired, info, made := ConnectRefreshes(parse, c, script);
    ClearDelivers(parse, c0);
    ResubscribedDelivers(parse, c0, script);
    p := Poll(parse, before.(sent := before.sent + [InfoRequest(false)]), script.info.chunks, IsInfoResp);
    PollAccounted(parse, before.(sent := before.sent + [InfoRequest(false)]), [], script.info.chunks, IsInfoResp);
    if HasSubscribers(c) && script.info.written {
      FetchedIs(parse, before, script.info, p.msgs);
      assert info.Some? ==> AnsweredWith(parse, p.msgs, info.value);
    }
  }

  lemma FetchedIs(parse: Parser, c: Client, io: Io, msgs: seq<Bytes>)
    requires R.IsOpen(c.link) && io.written
    requires msgs == Poll(parse, c.(sent := c.sent + [InfoRequest(false)]), io.chunks, IsInfoResp).msgs
    ensures forall info :: GetInfo(parse, c, false, io).1 == Some(info) <==> AnsweredWith(parse, msgs, info)
  {
    forall info ensures GetInfo(parse, c, false, io).1 == Some(info) <==> AnsweredWith(parse, msgs, info) {
      AnswerIs(parse, msgs, info);
    }
  }

  /** A wait loop stops early only with an answer, and reads nothing behind the
      batch that brought it. */
  lemma {:induction false} PollStops(parse: Parser, c: Client, chunks: seq<Bytes>, done: Message -> bool, n: nat)
    ensures var p := Poll(parse, c, chunks, done);
            && (p.used < |chunks| ==> Any(parse, done, p.msgs))
            && (n < p.used ==> !Any(parse, done, Poll(parse, c, chunks[..n], done).msgs))
    decreases |chunks|
  {
    if chunks != [] {
      var msgs := FramedNext(parse, c, chunks[0]);
      var c' := Read(parse, c, chunks[0]);
      if !Any(parse, done, msgs) {
        var p := Poll(parse, c', chunks[1..], done);
        PollStops(parse, c', chunks[1..], done, if n > 0 then n - 1 else 0);
        AnyAppend(parse, done, msgs, p.msgs);
        if 0 < n < p.used + 1 {
          assert chunks[..n][1..] == chunks[1..][..n - 1];
          AnyAppend(parse, done, msgs, Poll(parse, c', chunks[1..][..n - 1], done).msgs);
        }
      }
    }
  }

  // ----- Routing in a subscription call

  function Pick(parse: Parser, want: Message -> bool, msgs: seq<Bytes>): seq<Bytes> {
    if msgs == [] then []
    else if Holds(parse, want, msgs[0]) then [msgs[0]] + Pick(parse, want, msgs[1..])
    else Pick(parse, want, msgs[1..])
  }

  function IsEventResp(): Message -> bool {
    m => IsResp(m, EVENT)
  }

  /** `xs` is `ys` with some elements left out. */
  predicate Subsequence(xs: seq<Bytes>, ys: seq<Bytes>) {
    if xs == [] then true
    else ys != [] && ((xs[0] == ys[0] && Subsequence(xs[1..], ys[1..])) || Subsequence(xs, ys[1..]))
  }

  lemma {:induction false} LeftoversPicked(parse: Parser, msgs: seq<Bytes>)
    ensures Leftovers(parse, msgs) == Pick(parse, IsLeftover, msgs)
    decreases |msgs|
  {
    if msgs != [] {
      LeftoversPicked(parse, msgs[1..]);
    }
  }

  function PickOne(parse: Parser, want: Message -> bool, msg: Bytes): multiset<Bytes> {
    if Holds(parse, want, msg) then multiset{msg} else multiset{}
  }

  lemma PickCons(parse: Parser, want: Message -> bool, msgs: seq<Bytes>)
    requires msgs != []
    ensures multiset(Pick(parse, want, msgs)) == PickOne(parse, want, msgs[0]) + multiset(Pick(parse, want, msgs[1..]))
  {
  }

  lemma OneRoute(parse: Parser, msg: Bytes)
    requires parse(msg).Some?
    ensures PickOne(parse, IsInd, msg) + PickOne(parse, IsEventResp(), msg) + PickOne(parse, IsLeftover, msg) == multiset{msg}
  {
  }

  lemma Regroup(a: multiset<Bytes>, b: multiset<Bytes>, c: multiset<Bytes>,
                x: multiset<Bytes>, y: multiset<Bytes>, z: multiset<Bytes>)
    ensures (a + x) + (b + y) + (c + z) == (a + b + c) + (x + y + z)
  {
  }

  lemma {:induction false} PickedOnce(parse: Parser, msgs: seq<Bytes>)
    requires forall k :: 0 <= k < |msgs| ==> parse(msgs[k]).Some?
    ensures multiset(msgs) == multiset(Pick(parse, IsInd, msgs)) + multiset(Pick(parse, IsEventResp(), msgs)) +
                              multiset(Pick(parse, IsLeftover, msgs))
    decreases |msgs|
  {
    if msgs != [] {
      var msg, rest := msgs[0], msgs[1..];
      PickedOnce(parse, rest);
      OneRoute(parse, msg);
      PickCons(parse, IsInd, msgs);
      PickCons(parse, IsEventResp(), msgs);
      PickCons(parse, IsLeftover, msgs);
      Regroup(PickOne(parse, IsInd, msg), PickOne(parse, IsEventResp(), msg), PickOne(parse, IsLeftover, msg),
              multiset(Pick(parse, IsInd, rest)), multiset(Pick(parse, IsEventResp(), rest)),
              multiset(Pick(parse, IsLeftover, rest)));
      assert msgs == [msg] + rest;
      assert multiset(msgs) == multiset{msg} + multiset(rest);
    }
  }

  lemma {:induction false} PickIsSubsequence(parse: Parser, want: Message -> bool, msgs: seq<Bytes>)
    ensures Subsequence(Pick(parse, want, msgs), msgs)
    decreases |msgs|
  {
    if msgs != [] {
      PickIsSubsequence(parse, want, msgs[1..]);
      if Holds(parse, want, msgs[0]) {
        assert Pick(parse, want, msgs)[1..] == Pick(parse, want, msgs[1..]);
      }
    }
  }

  /** What a wait loop frames, the parser takes. */
  lemma {:induction false} PolledParsed(parse: Parser, c: Client, chunks: seq<Bytes>, done: Message -> bool)
    ensures forall msg :: msg in Poll(parse, c, chunks, done).msgs ==> parse(msg).Some?
    decreases |chunks|
  {
    if chunks != [] {
      EmittedAccepted(Accepts(parse), c.rx + chunks[0], 0);
      PolledParsed(parse, Read(parse, c, chunks[0]), chunks[1..], done);
    }
  }

  /** The queue holds what the indications among the messages report. */
  lemma {:induction false} QueuedIndications(parse: Parser, msgs: seq<Bytes>)
    ensures |Inds(parse, msgs)| == |Pick(parse, IsInd, msgs)|
    ensures forall k :: 0 <= k < |Inds(parse, msgs)| ==>
              parse(Pick(parse, IsInd, msgs)[k]).Some? &&
              Inds(parse, msgs)[k] == parse(Pick(parse, IsInd, msgs)[k]).value.info
    decreases |msgs|
  {
    if msgs != [] {
      var rest := msgs[1..];
      QueuedIndications(parse, rest);
      if Holds(parse, IsInd, msgs[0]) {
        assert Pick(parse, IsInd, msgs) == [msgs[0]] + Pick(parse, IsInd, rest);
        assert Inds(parse, msgs) == [parse(msgs[0]).value.info] + Inds(parse, rest);
      } else {
        assert Inds(parse, msgs) == Inds(parse, rest);
      }
    }
  }

  /** In a subscription call every framed message goes exactly one way, and each way
      keeps their order: what the indications report is queued, EVENT responses are
      consumed, the rest is dispatched behind the wait. */
  lemma RoutingPartition(parse: Parser, c: Client, io: Io)
    returns (msgs: seq<Bytes>)
    ensures msgs == Await(parse, c, io).msgs
    ensures multiset(msgs) == multiset(Pick(parse, IsInd, msgs)) + multiset(Pick(parse, IsEventResp(), msgs)) +
                              multiset(Leftovers(parse, msgs))
    ensures Subsequence(Pick(parse, IsInd, msgs), msgs) && Subsequence(Pick(parse, IsEventResp(), msgs), msgs) &&
            Subsequence(Leftovers(parse, msgs), msgs)
    ensures |Inds(parse, msgs)| == |Pick(parse, IsInd, msgs)|
    ensures forall k :: 0 <= k < |Inds(parse, msgs)| ==>
              parse(Pick(parse, IsInd, msgs)[k]).Some? &&
              Inds(parse, msgs)[k] == parse(Pick(parse, IsInd, msgs)[k]).value.info
  {
    msgs := Await(parse, c, io).msgs;
    PolledParsed(parse, c, if io.written then io.chunks else [], IsEventOk);
    PickedOnce(parse, msgs);
    LeftoversPicked(parse, msgs);
    PickIsSubsequence(parse, IsInd, msgs);
    PickIsSubsequence(parse, IsEventResp(), msgs);
    PickIsSubsequence(parse, IsLeftover, msgs);
    QueuedIndications(parse, msgs);
  }

  /** `SubscribeDeviceEvent` on an open socket returns true, for a known kind, exactly
      when one of the messages that the call framed - the wire's next messages - is
      an EVENT response that says ok; on a closed one, for every known kind. */
  lemma SubscribeAnswer(parse: Parser, c: Client, kind: int, callback: Callback, io: Io)
    returns (p: Polled)
    requires Delivered(parse, c)
    ensures WireMessages(parse, p.client) == WireMessages(parse, c) + p.msgs
    ensures p == Await(parse, c.(func := c.func[kind := callback], sent := c.sent + [EventRequest(kind)]), io)
    ensures Subscribe(parse, c, kind, callback, io).1 <==>
            && DEVICE_ADDED <= kind <= DEVICE_CHANGED
            && (R.IsOpen(c.link) ==> exists msg :: msg in p.msgs && Holds(parse, IsEventOk, msg))
  {
    var c1 := c.(func := c.func[kind := callback], sent := c.sent + [EventRequest(kind)]);
    p := Await(parse, c1, io);
    if io.written {
      PollAccounted(parse, c1, [], io.chunks, IsEventOk);
    } else {
      assert WireMessages(parse, c) + [] == WireMessages(parse, c);
    }
    assert forall msg :: msg in p.msgs && Holds(parse, IsEventOk, msg) ==> Any(parse, IsEventOk, p.msgs);
  }
}
