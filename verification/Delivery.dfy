/** What the device client promises over whole runs: every indication on the wire
    reaches `onIndicationReceived` once and in order, whichever call read it. */
module Delivery {
  import opened ByteStrings
  import opened JsonStream
  import opened ChunkInvariance
  import opened DeviceModel
  import R = Reconnect

  function OffWire(e: Entry): seq<Info> {
    if e.FromWire? then [e.info] else []
  }

  /** The entries that came off the wire. */
  function Wired(log: seq<Entry>): seq<Info> {
    if log == [] then [] else OffWire(log[0]) + Wired(log[1..])
  }

  lemma {:induction false} WiredAppend(xs: seq<Entry>, ys: seq<Entry>)
    ensures Wired(xs + ys) == Wired(xs) + Wired(ys)
    decreases |xs|
  {
    if xs == [] {
      assert xs + ys == ys;
    } else {
      assert (xs + ys)[1..] == xs[1..] + ys;
      WiredAppend(xs[1..], ys);
      assert OffWire(xs[0]) + (Wired(xs[1..]) + Wired(ys)) == Wired(xs) + Wired(ys);
    }
  }

  /** The callbacks that entries run, `func` being stored. */
  function CallsFor(func: map<int, Callback>, log: seq<Entry>): seq<Call> {
    if log == [] then []
    else
      var info := log[0].info;
      (if info.kind in func then [Call(func[info.kind], info)] else []) + CallsFor(func, log[1..])
  }

  lemma {:induction false} CallsAppend(func: map<int, Callback>, xs: seq<Entry>, ys: seq<Entry>)
    ensures CallsFor(func, xs + ys) == CallsFor(func, xs) + CallsFor(func, ys)
    decreases |xs|
  {
    if xs == [] {
      assert xs + ys == ys;
    } else {
      assert (xs + ys)[1..] == xs[1..] + ys;
      CallsAppend(func, xs[1..], ys);
    }
  }

  lemma {:induction false} IndsAppend(parse: Parser, xs: seq<Bytes>, ys: seq<Bytes>)
    ensures Inds(parse, xs + ys) == Inds(parse, xs) + Inds(parse, ys)
    decreases |xs|
  {
    if xs == [] {
      assert xs + ys == ys;
    } else {
      assert (xs + ys)[1..] == xs[1..] + ys;
      IndsAppend(parse, xs[1..], ys);
    }
  }

  lemma {:induction false} LeftoversAppend(parse: Parser, xs: seq<Bytes>, ys: seq<Bytes>)
    ensures Leftovers(parse, xs + ys) == Leftovers(parse, xs) + Leftovers(parse, ys)
    decreases |xs|
  {
    if xs == [] {
      assert xs + ys == ys;
    } else {
      assert (xs + ys)[1..] == xs[1..] + ys;
      LeftoversAppend(parse, xs[1..], ys);
    }
  }

  /** A message set aside is no indication. */
  lemma {:induction false} LeftoversAreNoInds(parse: Parser, msgs: seq<Bytes>)
    ensures Inds(parse, Leftovers(parse, msgs)) == []
    decreases |msgs|
  {
    if msgs != [] {
      LeftoversAreNoInds(parse, msgs[1..]);
      var m := parse(msgs[0]);
      IndsAppend(parse, if m.Some? && IsLeftover(m.value) then [msgs[0]] else [], Leftovers(parse, msgs[1..]));
    }
  }

  lemma AnyTail(parse: Parser, want: Message -> bool, msgs: seq<Bytes>)
    requires msgs != [] && !Holds(parse, want, msgs[0]) && !Any(parse, want, msgs[1..])
    ensures !Any(parse, want, msgs)
  {
    forall k | 0 <= k < |msgs| ensures !Holds(parse, want, msgs[k]) {
      if k > 0 {
        assert msgs[k] == msgs[1..][k - 1];
      }
    }
  }

  lemma AnyAppend(parse: Parser, want: Message -> bool, xs: seq<Bytes>, ys: seq<Bytes>)
    ensures Any(parse, want, xs + ys) <==> Any(parse, want, xs) || Any(parse, want, ys)
  {
    assert forall k :: 0 <= k < |xs| ==> (xs + ys)[k] == xs[k];
    assert forall k :: 0 <= k < |ys| ==> (xs + ys)[|xs| + k] == ys[k];
    forall k | 0 <= k < |xs + ys| && Holds(parse, want, (xs + ys)[k]) && k >= |xs| ensures Any(parse, want, ys) {
      assert ys[k - |xs|] == (xs + ys)[k];
    }
  }

  lemma {:induction false} FirstInfoRespAppend(parse: Parser, xs: seq<Bytes>, ys: seq<Bytes>)
    ensures FirstInfoResp(parse, xs + ys) ==
            if FirstInfoResp(parse, xs).Some? then FirstInfoResp(parse, xs) else FirstInfoResp(parse, ys)
    decreases |xs|
  {
    if xs == [] {
      assert xs + ys == ys;
    } else {
      assert (xs + ys)[1..] == xs[1..] + ys;
      FirstInfoRespAppend(parse, xs[1..], ys);
    }
  }

  lemma {:induction false} FirstInfoRespAny(parse: Parser, msgs: seq<Bytes>)
    ensures FirstInfoResp(parse, msgs).Some? <==> Any(parse, IsInfoResp, msgs)
    decreases |msgs|
  {
    if msgs != [] {
      FirstInfoRespAny(parse, msgs[1..]);
      assert Holds(parse, IsInfoResp, msgs[0]) || forall k :: 0 < k < |msgs| ==> msgs[k] == msgs[1..][k - 1];
      if Any(parse, IsInfoResp, msgs[1..]) {
        var k :| 0 <= k < |msgs[1..]| && Holds(parse, IsInfoResp, msgs[1..][k]);
        assert Holds(parse, IsInfoResp, msgs[k + 1]);
      }
    }
  }

  // ----- The invariant

  /** All that was framed from the bytes read since the last clear. */
  function WireMessages(parse: Parser, c: Client): seq<Bytes> {
    Extract(Accepts(parse), c.wire).objects
  }

  /** The entries made since the last clear. */
  function Recent(c: Client): seq<Entry>
    requires c.mark <= |c.log|
  {
    c.log[c.mark..]
  }

  /** What was delivered since the last clear, together with what is queued, is
      what was framed; and the receive buffer keeps what the framer keeps. */
  predicate Accounted(parse: Parser, c: Client, queued: seq<Info>) {
    && c.mark <= |c.log|
    && Wired(Recent(c)) + queued == Inds(parse, WireMessages(parse, c))
    && Keeps(Accepts(parse), c.wire, c.rx)
  }

  predicate Delivered(parse: Parser, c: Client) {
    Accounted(parse, c, [])
  }

  /** All entries that `d` logged after `c` came off the wire. */
  predicate WireOnly(c: Client, d: Client) {
    c.log <= d.log && forall k :: |c.log| <= k < |d.log| ==> d.log[k].FromWire?
  }

  /** Every entry that `d` logged after `c` ran the callback stored for its kind,
      once and in order, and nothing else did. */
  predicate CalledBack(c: Client, d: Client) {
    c.log <= d.log && d.calls == c.calls + CallsFor(d.func, d.log[|c.log|..])
  }

  lemma CalledBackTransitive(c: Client, d: Client, e: Client)
    requires CalledBack(c, d) && CalledBack(d, e) && d.func == e.func
    ensures CalledBack(c, e)
  {
    assert e.log[|c.log|..] == d.log[|c.log|..] + e.log[|d.log|..];
    CallsAppend(e.func, d.log[|c.log|..], e.log[|d.log|..]);
  }

  lemma NothingLogged(c: Client, d: Client)
    requires c.log == d.log && c.calls == d.calls
    ensures CalledBack(c, d)
  {
    assert d.log[|c.log|..] == [];
  }

  /** The two clients differ in what they logged, called and signalled only. */
  predicate OnlyReports(c: Client, d: Client) {
    && WireOnly(c, d) && CalledBack(c, d) && c.signals <= d.signals
    && d == c.(log := d.log, calls := d.calls, signals := d.signals)
  }

  lemma OnlyReportsTransitive(c: Client, d: Client, e: Client)
    requires OnlyReports(c, d) && OnlyReports(d, e)
    ensures OnlyReports(c, e)
  {
    CalledBackTransitive(c, d, e);
    assert forall k :: 0 <= k < |d.log| ==> e.log[k] == d.log[k];
  }

  /** What was delivered since the last clear grew by `infos`. */
  predicate Grew(c: Client, d: Client, infos: seq<Info>)
    requires c.mark <= |c.log| && d.mark <= |d.log|
  {
    Wired(Recent(d)) == Wired(Recent(c)) + infos
  }

  lemma GrewTransitive(c: Client, d: Client, e: Client, xs: seq<Info>, ys: seq<Info>)
    requires c.mark <= |c.log| && d.mark <= |d.log| && e.mark <= |e.log|
    requires Grew(c, d, xs) && Grew(d, e, ys)
    ensures Grew(c, e, xs + ys)
  {
    assert Wired(Recent(c)) + xs + ys == Wired(Recent(c)) + (xs + ys);
  }

  lemma IndicationLogged(c: Client, e: Entry)
    requires c.mark <= |c.log|
    ensures CalledBack(c, OnIndication(c, e))
    ensures e.FromWire? ==> OnlyReports(c, OnIndication(c, e))
    ensures Grew(c, OnIndication(c, e), OffWire(e))
  {
    assert Recent(OnIndication(c, e)) == Recent(c) + [e];
    WiredAppend(Recent(c), [e]);
    assert [e][1..] == [];
    assert OnIndication(c, e).log[|c.log|..] == [e];
  }

  lemma {:induction false} DeliverLogged(c: Client, infos: seq<Info>)
    requires c.mark <= |c.log|
    ensures OnlyReports(c, Deliver(c, infos))
    ensures Grew(c, Deliver(c, infos), infos)
    decreases |infos|
  {
    if infos == [] {
      NothingLogged(c, c);
    } else {
      var d := OnIndication(c, FromWire(infos[0]));
      IndicationLogged(c, FromWire(infos[0]));
      DeliverLogged(d, infos[1..]);
      OnlyReportsTransitive(c, d, Deliver(d, infos[1..]));
      GrewTransitive(c, d, Deliver(d, infos[1..]), [infos[0]], infos[1..]);
      assert infos == [infos[0]] + infos[1..];
    }
  }

  lemma DispatchLogged(parse: Parser, c: Client, msg: Bytes)
    requires c.mark <= |c.log|
    ensures OnlyReports(c, Dispatch(parse, c, msg))
    ensures Grew(c, Dispatch(parse, c, msg), Inds(parse, [msg]))
  {
    var m := parse(msg);
    assert [msg][1..] == [];
    if m.Some? && IsInd(m.value) {
      IndicationLogged(c, FromWire(m.value.info));
    } else {
      NothingLogged(c, Dispatch(parse, c, msg));
    }
  }

  lemma {:induction false} DispatchAllLogged(parse: Parser, c: Client, msgs: seq<Bytes>)
    requires c.mark <= |c.log|
    ensures OnlyReports(c, DispatchAll(parse, c, msgs))
    ensures Grew(c, DispatchAll(parse, c, msgs), Inds(parse, msgs))
    decreases |msgs|
  {
    if msgs == [] {
      NothingLogged(c, c);
    } else {
      var d := Dispatch(parse, c, msgs[0]);
      DispatchLogged(parse, c, msgs[0]);
      DispatchAllLogged(parse, d, msgs[1..]);
      OnlyReportsTransitive(c, d, DispatchAll(parse, d, msgs[1..]));
      GrewTransitive(c, d, DispatchAll(parse, d, msgs[1..]), Inds(parse, [msgs[0]]), Inds(parse, msgs[1..]));
      assert msgs == [msgs[0]] + msgs[1..];
      IndsAppend(parse, [msgs[0]], msgs[1..]);
    }
  }

  /** Reading a chunk queues the indications it completes. */
  lemma ReadAccounted(parse: Parser, c: Client, queued: seq<Info>, chunk: Bytes)
    requires Accounted(parse, c, queued)
    ensures WireMessages(parse, Read(parse, c, chunk)) == WireMessages(parse, c) + FramedNext(parse, c, chunk)
    ensures Accounted(parse, Read(parse, c, chunk), queued + Inds(parse, FramedNext(parse, c, chunk)))
  {
    TakeChunk(Accepts(parse), c.wire, c.rx, chunk);
    IndsAppend(parse, WireMessages(parse, c), FramedNext(parse, c, chunk));
  }

  lemma JoinTake(chunks: seq<Bytes>, n: nat)
    requires n < |chunks|
    ensures Join(chunks[..n + 1]) == chunks[0] + Join(chunks[1..][..n])
  {
    assert chunks[..n + 1][1..] == chunks[1..][..n];
  }

  lemma JoinBehind(wire: Bytes, chunks: seq<Bytes>, n: nat)
    requires n < |chunks|
    ensures wire + Join(chunks[..n + 1]) == wire + chunks[0] + Join(chunks[1..][..n])
    ensures n == 0 ==> wire + Join(chunks[..n + 1]) == wire + chunks[0]
  {
    JoinTake(chunks, n);
    assert wire + (chunks[0] + Join(chunks[1..][..n])) == wire + chunks[0] + Join(chunks[1..][..n]);
  }

  /** A wait loop reads a prefix of the chunks and changes the buffer only. */
  lemma {:induction false} PollReads(parse: Parser, c: Client, chunks: seq<Bytes>, done: Message -> bool)
    ensures var p := Poll(parse, c, chunks, done);
            p.client == c.(rx := p.client.rx, wire := c.wire + Join(chunks[..p.used]))
    decreases |chunks|
  {
    if chunks == [] {
      assert c.wire + Join(chunks[..0]) == c.wire;
    } else {
      var c' := Read(parse, c, chunks[0]);
      PollReads(parse, c', chunks[1..], done);
      var n := Poll(parse, c', chunks[1..], done).used;
      JoinBehind(c.wire, chunks, n);
      JoinBehind(c.wire, chunks, 0);
    }
  }

  /** A wait loop queues the indications among what it frames. */
  lemma {:induction false} PollAccounted(parse: Parser, c: Client, queued: seq<Info>, chunks: seq<Bytes>, done: Message -> bool)
    requires Accounted(parse, c, queued)
    ensures var p := Poll(parse, c, chunks, done);
            && Accounted(parse, p.client, queued + Inds(parse, p.msgs))
            && WireMessages(parse, p.client) == WireMessages(parse, c) + p.msgs
    decreases |chunks|
  {
    if chunks == [] {
      assert queued + [] == queued;
      assert WireMessages(parse, c) + [] == WireMessages(parse, c);
    } else {
      ReadAccounted(parse, c, queued, chunks[0]);
      var msgs := FramedNext(parse, c, chunks[0]);
      var c' := Read(parse, c, chunks[0]);
      if !Any(parse, done, msgs) {
        PollAccounted(parse, c', queued + Inds(parse, msgs), chunks[1..], done);
        var p := Poll(parse, c', chunks[1..], done);
        PollGlue(parse, WireMessages(parse, c), queued, msgs, p.msgs);
      }
    }
  }

  lemma PollGlue(parse: Parser, framed: seq<Bytes>, queued: seq<Info>, xs: seq<Bytes>, ys: seq<Bytes>)
    ensures queued + Inds(parse, xs) + Inds(parse, ys) == queued + Inds(parse, xs + ys)
    ensures framed + xs + ys == framed + (xs + ys)
  {
    IndsAppend(parse, xs, ys);
    assert queued + Inds(parse, xs) + Inds(parse, ys) == queued + (Inds(parse, xs) + Inds(parse, ys));
  }

  // ----- Calls

  /** What no call made while connected takes back: the link stays, logs grow,
      callbacks stay stored, and nothing is cleared. */
  predicate Extends(c: Client, d: Client) {
    && d.link == c.link && d.mark == c.mark
    && CalledBack(c, d) && c.signals <= d.signals && c.sent <= d.sent
    && c.wire <= d.wire && c.func.Keys <= d.func.Keys
  }

  /** `d` comes from `c` by calls that wrote the requests `sent` and kept the
      stored callbacks `func`; nothing was made up. */
  predicate Served(c: Client, d: Client, func: map<int, Callback>, sent: seq<Request>) {
    Extends(c, d) && WireOnly(c, d) && d.func == func && d.sent == c.sent + sent
  }

  lemma ServedTransitive(c: Client, d: Client, e: Client, sent: seq<Request>, sent': seq<Request>)
    requires Served(c, d, d.func, sent) && Served(d, e, d.func, sent')
    ensures Served(c, e, e.func, sent + sent')
  {
    assert c.sent + sent + sent' == c.sent + (sent + sent');
    assert forall k :: 0 <= k < |d.log| ==> e.log[k] == d.log[k];
    CalledBackTransitive(c, d, e);
  }

  lemma DrainServed(parse: Parser, c: Client, chunk: Bytes)
    requires Delivered(parse, c)
    ensures Delivered(parse, Drain(parse, c, chunk))
    ensures Served(c, Drain(parse, c, chunk), c.func, [])
  {
    var r := Read(parse, c, chunk);
    var msgs := FramedNext(parse, c, chunk);
    ReadAccounted(parse, c, [], chunk);
    DispatchAllLogged(parse, r, msgs);
    assert [] + Inds(parse, msgs) == Inds(parse, msgs);
    ReadServed(parse, c, chunk);
    ReportsServed(r, DispatchAll(parse, r, msgs));
    ServedTransitive(c, r, DispatchAll(parse, r, msgs), [], []);
  }

  lemma ReadServed(parse: Parser, c: Client, chunk: Bytes)
    ensures Served(c, Read(parse, c, chunk), c.func, [])
  {
    NothingLogged(c, Read(parse, c, chunk));
  }

  lemma ReportsServed(c: Client, d: Client)
    requires OnlyReports(c, d)
    ensures Served(c, d, c.func, [])
  {
  }

  lemma DeliverServed(parse: Parser, c: Client, queued: seq<Info>)
    requires Accounted(parse, c, queued)
    ensures Delivered(parse, Deliver(c, queued)) && Served(c, Deliver(c, queued), c.func, [])
  {
    DeliverLogged(c, queued);
  }

  lemma GetInfoDelivers(parse: Parser, c: Client, force: bool, io: Io)
    requires Delivered(parse, c)
    ensures var d := GetInfo(parse, c, force, io).0;
            && Delivered(parse, d)
            && Served(c, d, c.func, if R.IsOpen(c.link) then [InfoRequest(force)] else [])
  {
    if R.IsOpen(c.link) && io.written {
      var c1 := c.(sent := c.sent + [InfoRequest(force)]);
      var p := Poll(parse, c1, io.chunks, IsInfoResp);
      PollReads(parse, c1, io.chunks, IsInfoResp);
      PollAccounted(parse, c1, [], io.chunks, IsInfoResp);
      assert [] + Inds(parse, p.msgs) == Inds(parse, p.msgs);
      DeliverServed(parse, p.client, Inds(parse, p.msgs));
      var c2 := Deliver(p.client, Inds(parse, p.msgs));
      DrainServed(parse, c2, io.tail);
      ServedTransitive(c, p.client, c2, [InfoRequest(force)], []);
      ServedTransitive(c, c2, Drain(parse, c2, io.tail), [InfoRequest(force)] + [], []);
      assert [InfoRequest(force)] + [] + [] == [InfoRequest(force)];
    }
  }

  lemma AwaitAccounted(parse: Parser, c: Client, io: Io)
    requires Delivered(parse, c)
    ensures var p := Await(parse, c, io);
            && Accounted(parse, p.client, Inds(parse, p.msgs))
            && p.client == c.(rx := p.client.rx, wire := p.client.wire) && c.wire <= p.client.wire
  {
    if io.written {
      PollReads(parse, c, io.chunks, IsEventOk);
      PollAccounted(parse, c, [], io.chunks, IsEventOk);
      var p := Poll(parse, c, io.chunks, IsEventOk);
      assert [] + Inds(parse, p.msgs) == Inds(parse, p.msgs);
    }
  }

  lemma LeftoversServed(parse: Parser, p: Polled)
    requires Accounted(parse, p.client, Inds(parse, p.msgs))
    ensures var c := DispatchAll(parse, p.client, Leftovers(parse, p.msgs));
            Accounted(parse, c, Inds(parse, p.msgs)) && Served(p.client, c, p.client.func, [])
  {
    DispatchAllLogged(parse, p.client, Leftovers(parse, p.msgs));
    LeftoversAreNoInds(parse, p.msgs);
    ReportsServed(p.client, DispatchAll(parse, p.client, Leftovers(parse, p.msgs)));
  }

  lemma SettleDelivers(parse: Parser, p: Polled, tail: Bytes)
    requires Accounted(parse, p.client, Inds(parse, p.msgs))
    ensures Delivered(parse, Settle(parse, p, tail))
    ensures Served(p.client, Settle(parse, p, tail), p.client.func, [])
  {
    var c := DispatchAll(parse, p.client, Leftovers(parse, p.msgs));
    LeftoversServed(parse, p);
    DeliverServed(parse, c, Inds(parse, p.msgs));
    var d := Deliver(c, Inds(parse, p.msgs));
    DrainServed(parse, d, tail);
    ServedTransitive(p.client, c, d, [], []);
    var none: seq<Request> := [];
    assert none + none == none;
    ServedTransitive(p.client, d, Drain(parse, d, tail), [], []);
  }

  lemma SubscribeDelivers(parse: Parser, c: Client, kind: int, callback: Callback, io: Io)
    requires Delivered(parse, c)
    ensures var d := Subscribe(parse, c, kind, callback, io).0;
            && Delivered(parse, d)
            && Served(c, d, if DEVICE_ADDED <= kind <= DEVICE_CHANGED then c.func[kind := callback] else c.func,
                      if DEVICE_ADDED <= kind <= DEVICE_CHANGED && R.IsOpen(c.link) then [EventRequest(kind)] else [])
  {
    if DEVICE_ADDED <= kind <= DEVICE_CHANGED && R.IsOpen(c.link) {
      var c0 := c.(func := c.func[kind := callback]);
      var c1 := c0.(sent := c0.sent + [EventRequest(kind)]);
      AwaitAccounted(parse, c1, io);
      var p := Await(parse, c1, io);
      SettleDelivers(parse, p, io.tail);
      ServedTransitive(c, p.client, Settle(parse, p, io.tail), [EventRequest(kind)], []);
      assert [EventRequest(kind)] + [] == [EventRequest(kind)];
    }
  }

  // ----- Reconnecting

  predicate HasSubscribers(c: Client) {
    DEVICE_ADDED in c.func || DEVICE_REMOVED in c.func || DEVICE_CHANGED in c.func
  }

  /** The EVENT request that a reconnect owes to the callback of one kind. */
  function OwedFor(func: map<int, Callback>, kind: int): seq<Request> {
    if kind in func then [EventRequest(kind)] else []
  }

  function Owed(func: map<int, Callback>): seq<Request> {
    OwedFor(func, DEVICE_ADDED) + OwedFor(func, DEVICE_REMOVED) + OwedFor(func, DEVICE_CHANGED)
  }

  lemma ResubscribeDelivers(parse: Parser, c: Client, kind: int, io: Io)
    requires Delivered(parse, c) && DEVICE_ADDED <= kind <= DEVICE_CHANGED && R.IsOpen(c.link)
    ensures var d := Resubscribe(parse, c, kind, io);
            Delivered(parse, d) && Served(c, d, c.func, OwedFor(c.func, kind))
  {
    if kind in c.func {
      SubscribeDelivers(parse, c, kind, c.func[kind], io);
      assert c.func[kind := c.func[kind]] == c.func;
    }
  }

  lemma ResubscribedDelivers(parse: Parser, c: Client, script: Script)
    requires Delivered(parse, c) && R.IsOpen(c.link)
    ensures var (d, hadSubscribers) := Resubscribed(parse, c, script);
            && Delivered(parse, d) && Served(c, d, c.func, Owed(c.func))
            && (hadSubscribers <==> HasSubscribers(c))
  {
    ResubscribeDelivers(parse, c, DEVICE_ADDED, script.added);
    var c1 := Resubscribe(parse, c, DEVICE_ADDED, script.added);
    ResubscribeDelivers(parse, c1, DEVICE_REMOVED, script.removed);
    var c2 := Resubscribe(parse, c1, DEVICE_REMOVED, script.removed);
    ResubscribeDelivers(parse, c2, DEVICE_CHANGED, script.changed);
    var c3 := Resubscribe(parse, c2, DEVICE_CHANGED, script.changed);
    ServedTransitive(c, c1, c2, OwedFor(c.func, DEVICE_ADDED), OwedFor(c.func, DEVICE_REMOVED));
    ServedTransitive(c, c2, c3, OwedFor(c.func, DEVICE_ADDED) + OwedFor(c.func, DEVICE_REMOVED),
                     OwedFor(c.func, DEVICE_CHANGED));
  }

  /** The entry that a refresh makes up, if any. */
  predicate RefreshEntry(c: Client, info: Option<Info>, made: seq<Entry>) {
    if HasSubscribers(c) && info.Some? then
      && |made| == 1 && made[0] == MadeUp(info.value.(kind := made[0].info.kind))
      && made[0].info.kind in {DEVICE_REMOVED, DEVICE_CHANGED}
      && (made[0].info.kind == DEVICE_REMOVED <==> info.value.deviceId == "" && SaysNoPort(info.value.portState))
    else made == []
  }

  /** The client that a connect leaves to the refresh. */
  function Fresh(c: Client): Client {
    ClearRx(c).(link := R.OnConnected(c.link))
  }

  /** What the refresh's `GetDeviceinfo` returns, where there is a subscriber. */
  function Fetched(parse: Parser, c: Client, script: Script): Option<Info> {
    if HasSubscribers(c) then GetInfo(parse, Resubscribed(parse, c, script).0, false, script.info).1 else None
  }

  /** After a connect, with the socket open: EVENT requests go out for exactly the
      stored kinds, in the order added, removed, changed, then one request for the
      device report where there is a subscriber; behind all entries off the wire at
      most one is made up, from the report fetched, and all callbacks stay. */
  lemma ConnectRefreshes(parse: Parser, c: Client, script: Script)
    returns (wired: Client, info: Option<Info>, made: seq<Entry>)
    requires R.IsOpen(c.link)
    ensures info == Fetched(parse, Fresh(c), script)
    ensures var d := OnConnected(parse, c, script);
            && d.func == c.func && d.mark == |c.log| && CalledBack(c, d)
            && d.sent == c.sent + Owed(c.func) + (if HasSubscribers(c) then [InfoRequest(false)] else [])
            && wired.log <= d.log && d.log == wired.log + made && RefreshEntry(c, info, made)
            && WireOnly(c, wired) && Delivered(parse, wired) && Delivered(parse, d)
            && d.link == R.OnConnected(c.link)
  {
    var c0 := Fresh(c);
    ClearDelivers(parse, c0);
    NothingLogged(c, c0);
    var d;
    wired, info, made, d := RefreshDelivers(parse, c0, script);
    CalledBackTransitive(c, c0, d);
  }

  lemma RefreshDelivers(parse: Parser, c: Client, script: Script)
    returns (wired: Client, info: Option<Info>, made: seq<Entry>, d: Client)
    requires R.IsOpen(c.link) && Delivered(parse, c)
    ensures info == Fetched(parse, c, script) && d == Refresh(parse, c, script)
    ensures && d.func == c.func && d.mark == c.mark && d.link == c.link && CalledBack(c, d)
            && d.sent == c.sent + Owed(c.func) + (if HasSubscribers(c) then [InfoRequest(false)] else [])
            && wired.log <= d.log && d.log == wired.log + made && RefreshEntry(c, info, made)
            && WireOnly(c, wired) && Delivered(parse, wired) && Delivered(parse, d)
  {
    wired, info := RefreshServed(parse, c, script);
    if info.None? {
      made, d := [], wired;
      return;
    }
    made, d := [MadeUp(Synthesise(info.value))], OnIndication(wired, MadeUp(Synthesise(info.value)));
    MadeUpServed(parse, c, wired, info.value);
    assert d.log == wired.log + made;
  }

  lemma MadeUpServed(parse: Parser, c: Client, wired: Client, info: Info)
    requires HasSubscribers(c) && Delivered(parse, wired)
    requires CalledBack(c, wired) && wired.func == c.func
    ensures var made := MadeUp(Synthesise(info));
            var d := OnIndication(wired, made);
            && d == wired.(log := wired.log + [made], calls := d.calls) && CalledBack(c, d)
            && RefreshEntry(c, Some(info), [made]) && Delivered(parse, d)
  {
    MadeUpDelivers(parse, wired, info);
    CalledBackTransitive(c, wired, OnIndication(wired, MadeUp(Synthesise(info))));
  }

  /** A refresh with the socket open, up to the entry that it makes up. */
  lemma RefreshServed(parse: Parser, c: Client, script: Script)
    returns (wired: Client, info: Option<Info>)
    requires R.IsOpen(c.link) && Delivered(parse, c)
    ensures info == Fetched(parse, c, script)
    ensures Delivered(parse, wired) && (info.Some? ==> HasSubscribers(c))
    ensures Served(c, wired, c.func, Owed(c.func) + (if HasSubscribers(c) then [InfoRequest(false)] else []))
    ensures Refresh(parse, c, script) ==
            if info.None? then wired else OnIndication(wired, MadeUp(Synthesise(info.value)))
  {
    ResubscribedDelivers(parse, c, script);
    var c1 := Resubscribed(parse, c, script).0;
    wired, info := c1, None;
    if HasSubscribers(c) {
      GetInfoDelivers(parse, c1, false, script.info);
      wired, info := GetInfo(parse, c1, false, script.info).0, GetInfo(parse, c1, false, script.info).1;
      ServedTransitive(c, c1, wired, Owed(c.func), [InfoRequest(false)]);
    } else {
      assert Owed(c.func) + [] == Owed(c.func);
    }
  }

  lemma MadeUpDelivers(parse: Parser, c: Client, info: Info)
    requires Delivered(parse, c)
    ensures Delivered(parse, OnIndication(c, MadeUp(Synthesise(info))))
    ensures CalledBack(c, OnIndication(c, MadeUp(Synthesise(info))))
  {
    IndicationLogged(c, MadeUp(Synthesise(info)));
  }

  /** With nothing read since the last clear there is nothing to deliver. */
  lemma ClearDelivers(parse: Parser, c: Client)
    requires c.wire == [] && c.rx == [] && c.mark == |c.log|
    ensures Delivered(parse, c)
  {
    assert Recent(c) == [];
  }
}
