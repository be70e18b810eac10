/** What the device client does, told from the outside: a machine that sees the
    stream of bytes and the events, and has no receive buffer, no framer that keeps a
    rest, no queues and no order of reading them. The client refines it. */
module DeviceStream {
  import opened ByteStrings
  import opened JsonStream
  import opened DeviceModel
  import opened Delivery
  import D = DeviceRuns
  import R = Reconnect

  /** All that can be seen of the client, and the bytes read since the last connect,
      disconnect or `Deinit`, when there were `mark` entries. */
  datatype Account = Account(
    link: R.Link, func: map<int, Callback>, wire: Bytes, mark: nat,
    sent: seq<Request>, log: seq<Entry>, calls: seq<Call>, signals: seq<Signal>)

  function AccountOf(c: Client): Account {
    Account(c.link, c.func, c.wire, c.mark, c.sent, c.log, c.calls, c.signals)
  }

  // ----- Messages of a stream

  function Framing(parse: Parser, wire: Bytes): seq<Bytes> {
    Extract(Accepts(parse), wire).objects
  }

  /** The messages that the bytes from `before` to `after` complete. */
  function Completed(parse: Parser, before: Bytes, after: Bytes): seq<Bytes> {
    var n := |Framing(parse, before)|;
    if n <= |Framing(parse, after)| then Framing(parse, after)[n..] else []
  }

  function EntryOf(m: Option<Message>): seq<Entry> {
    if m.Some? && m.value.kind == "ind" then [FromWire(m.value.info)] else []
  }

  /** The reports among messages, as entries. */
  function Entries(parse: Parser, msgs: seq<Bytes>): seq<Entry> {
    if msgs == [] then [] else EntryOf(parse(msgs[0])) + Entries(parse, msgs[1..])
  }

  function SignalOf(m: Option<Message>, events: bool): seq<Signal> {
    if m.None? || m.value.kind != "resp" then []
    else if m.value.functionId == 0 then [InfoSignal(m.value.info, m.value.ok)]
    else if m.value.functionId == 1 then [ResetSignal(m.value.ok)]
    else if m.value.functionId == 2 && events then [EventSignal]
    else []
  }

  /** The signals owed for the responses among messages: for function 0 the report and
      its status, for 1 the status, and for 2, where `events`, the bare signal. */
  function Signals(parse: Parser, msgs: seq<Bytes>, events: bool): seq<Signal> {
    if msgs == [] then [] else SignalOf(parse(msgs[0]), events) + Signals(parse, msgs[1..], events)
  }

  /** The callbacks owed for entries. */
  function Ringing(func: map<int, Callback>, entries: seq<Entry>): seq<Call> {
    if entries == [] then []
    else
      var info := entries[0].info;
      (if info.kind in func then [Call(func[info.kind], info)] else []) + Ringing(func, entries[1..])
  }

  /** The report in the first response of function 0, where it has status ok. */
  function FirstReport(parse: Parser, msgs: seq<Bytes>): Option<Info> {
    if msgs == [] then None
    else
      var m := parse(msgs[0]);
      if m.Some? && m.value.kind == "resp" && m.value.functionId == 0 then
        if m.value.ok then Some(m.value.info) else None
      else FirstReport(parse, msgs[1..])
  }

  predicate AnswersFetch(m: Message) {
    m.kind == "resp" && m.functionId == 0
  }

  predicate AnswersAsk(m: Message) {
    m.kind == "resp" && m.functionId == 2 && m.ok
  }

  // ----- Bytes read by the waits

  predicate AnswerIn(parse: Parser, want: Message -> bool, msgs: seq<Bytes>) {
    exists k :: 0 <= k < |msgs| && parse(msgs[k]).Some? && want(parse(msgs[k]).value)
  }

  /** How many chunks a wait reads: up to the first that completes an answer, or all. */
  function ChunksRead(parse: Parser, want: Message -> bool, wire: Bytes, chunks: seq<Bytes>, n: nat): (r: nat)
    requires n <= |chunks|
    ensures n <= r <= |chunks|
    decreases |chunks| - n
  {
    if n == |chunks| || AnswerIn(parse, want, Completed(parse, wire, wire + Join(chunks[..n]))) then n
    else ChunksRead(parse, want, wire, chunks, n + 1)
  }

  function Awaited(parse: Parser, want: Message -> bool, wire: Bytes, chunks: seq<Bytes>): Bytes {
    wire + Join(chunks[..ChunksRead(parse, want, wire, chunks, 0)])
  }

  // ----- The machine

  /** Entries reach `onIndicationReceived`, and their callbacks run. */
  function Note(a: Account, entries: seq<Entry>): Account {
    a.(log := a.log + entries, calls := a.calls + Ringing(a.func, entries))
  }

  /** Bytes are read and all messages that they complete are handled. */
  function Hear(parse: Parser, a: Account, bytes: Bytes): Account {
    var msgs := Completed(parse, a.wire, a.wire + bytes);
    Note(a, Entries(parse, msgs)).(wire := a.wire + bytes, signals := a.signals + Signals(parse, msgs, true))
  }

  /** A wait: reports reach the user. Responses go to the call that waits; where
      `passOn`, only those of function 2 do, and the others are signalled. */
  function Heed(parse: Parser, a: Account, now: Bytes, passOn: bool): Account {
    var msgs := Completed(parse, a.wire, now);
    Note(a, Entries(parse, msgs)).
      (wire := now, signals := a.signals + if passOn then Signals(parse, msgs, false) else [])
  }

  /** `GetDeviceinfo` */
  function Fetch(parse: Parser, a: Account, force: bool, io: Io): Account {
    if !R.IsOpen(a.link) then a
    else
      var asked := a.(sent := a.sent + [InfoRequest(force)]);
      if !io.written then asked
      else Hear(parse, Heed(parse, asked, Awaited(parse, AnswersFetch, a.wire, io.chunks), false), io.tail)
  }

  /** The report that `GetDeviceinfo` returns. */
  function Fetched(parse: Parser, a: Account, io: Io): Option<Info> {
    if !R.IsOpen(a.link) || !io.written then None
    else FirstReport(parse, Completed(parse, a.wire, Awaited(parse, AnswersFetch, a.wire, io.chunks)))
  }

  /** The request of `SubscribeDeviceEvent`, on an open socket. */
  function Ask(parse: Parser, a: Account, kind: int, io: Io): Account {
    var now := if io.written then Awaited(parse, AnswersAsk, a.wire, io.chunks) else a.wire;
    Hear(parse, Heed(parse, a.(sent := a.sent + [EventRequest(kind)]), now, true), io.tail)
  }

  function AskAgain(parse: Parser, a: Account, kind: int, io: Io): Account {
    if kind in a.func then Ask(parse, a, kind, io) else a
  }

  /** No device and no port, in any case of the letters. */
  predicate Gone(info: Info) {
    && info.deviceId == "" && |info.portState| == 7
    && forall k :: 0 <= k < 7 ==> info.portState[k] == "NO-PORT"[k] || info.portState[k] == "no-port"[k]
  }

  /** The connection comes up: the stream starts anew, every stored kind is asked for
      again, and where there is one a report is fetched and passed on. */
  function ComeUp(parse: Parser, a: Account, link: R.Link, script: Script): Account {
    var a0 := a.(link := link, wire := [], mark := |a.log|);
    var a1 := AskAgain(parse, a0, 0, script.added);
    var a2 := AskAgain(parse, a1, 1, script.removed);
    var a3 := AskAgain(parse, a2, 2, script.changed);
    if !(0 in a.func || 1 in a.func || 2 in a.func) then a3
    else
      var info := Fetched(parse, a3, script.info);
      var a4 := Fetch(parse, a3, false, script.info);
      if info.None? then a4
      else Note(a4, [MadeUp(info.value.(kind := if Gone(info.value) then 1 else 2))])
  }

  /** What one event does. */
  function Expected(parse: Parser, a: Account, e: Event): Account {
    match e
    case ReadyRead(first, more) => Hear(parse, a, first + more)
    case CallGetInfo(force, io) => Fetch(parse, a, force, io)
    case CallSubscribe(kind, callback, io) =>
      if kind < 0 || kind > 2 then a
      else
        var stored := a.(func := a.func[kind := callback]);
        if R.IsOpen(a.link) then Ask(parse, stored, kind, io) else stored
    case CallInit(wait, script) =>
      var link := R.Step(R.Device, a.link, R.Init(wait));
      if R.CameUpIn(R.Device, a.link, R.Init(wait)) then ComeUp(parse, a, link, script) else a.(link := link)
    case SocketOpened(script) => ComeUp(parse, a, R.Step(R.Device, a.link, R.Opened), script)
    case CallDeinit(closed) =>
      a.(link := R.Step(R.Device, a.link, R.Deinit(closed)), wire := [], mark := |a.log|)
    case SocketDropped => a.(link := R.Step(R.Device, a.link, R.Dropped), wire := [], mark := |a.log|)
    case SocketErrored(now) => a.(link := R.Step(R.Device, a.link, R.Errored(now)))
    case TimerTick => a.(link := R.Step(R.Device, a.link, R.Tick))
  }

  function ExpectedRun(parse: Parser, a: Account, es: seq<Event>): Account
    decreases |es|
  {
    if es == [] then a else ExpectedRun(parse, Expected(parse, a, es[0]), es[1..])
  }

  // ----- The client's parts

  lemma CompletedNext(parse: Parser, c: Client, queued: seq<Info>, chunk: Bytes)
    requires Accounted(parse, c, queued)
    ensures Completed(parse, c.wire, c.wire + chunk) == FramedNext(parse, c, chunk)
  {
    ReadAccounted(parse, c, queued, chunk);
  }

  lemma {:induction false} EntriesAppend(parse: Parser, xs: seq<Bytes>, ys: seq<Bytes>)
    ensures Entries(parse, xs + ys) == Entries(parse, xs) + Entries(parse, ys)
    decreases |xs|
  {
    if xs == [] {
      assert xs + ys == ys;
    } else {
      assert (xs + ys)[1..] == xs[1..] + ys;
      EntriesAppend(parse, xs[1..], ys);
    }
  }

  lemma {:induction false} RingingIs(func: map<int, Callback>, entries: seq<Entry>)
    ensures Ringing(func, entries) == CallsFor(func, entries)
    decreases |entries|
  {
    if entries != [] {
      RingingIs(func, entries[1..]);
    }
  }

  lemma NoteNote(a: Account, xs: seq<Entry>, ys: seq<Entry>)
    ensures Note(Note(a, xs), ys) == Note(a, xs + ys)
  {
    RingingIs(a.func, xs);
    RingingIs(a.func, ys);
    RingingIs(a.func, xs + ys);
    CallsAppend(a.func, xs, ys);
    assert a.log + xs + ys == a.log + (xs + ys);
    assert a.calls + CallsFor(a.func, xs) + CallsFor(a.func, ys) ==
           a.calls + (CallsFor(a.func, xs) + CallsFor(a.func, ys));
  }

  lemma NoteNothing(a: Account)
    ensures Note(a, []) == a
  {
  }

  lemma IndicationNoted(c: Client, e: Entry)
    ensures AccountOf(OnIndication(c, e)) == Note(AccountOf(c), [e])
  {
    assert [e][1..] == [];
    assert Ringing(c.func, [e]) == if e.info.kind in c.func then [Call(c.func[e.info.kind], e.info)] else [];
    assert c.calls + [] == c.calls;
  }

  function AllFromWire(infos: seq<Info>): seq<Entry> {
    seq(|infos|, k requires 0 <= k < |infos| => FromWire(infos[k]))
  }

  lemma {:induction false} DeliverNoted(c: Client, infos: seq<Info>)
    ensures AccountOf(Deliver(c, infos)) == Note(AccountOf(c), AllFromWire(infos))
    decreases |infos|
  {
    if infos == [] {
      NoteNothing(AccountOf(c));
      assert AllFromWire(infos) == [];
    } else {
      var e := FromWire(infos[0]);
      IndicationNoted(c, e);
      DeliverNoted(OnIndication(c, e), infos[1..]);
      NoteNote(AccountOf(c), [e], AllFromWire(infos[1..]));
      assert AllFromWire(infos) == [e] + AllFromWire(infos[1..]);
    }
  }

  lemma {:induction false} QueuedEntries(parse: Parser, msgs: seq<Bytes>)
    ensures AllFromWire(Inds(parse, msgs)) == Entries(parse, msgs)
    decreases |msgs|
  {
    if msgs != [] {
      QueuedEntries(parse, msgs[1..]);
      var m := parse(msgs[0]);
      assert AllFromWire((if m.Some? && IsInd(m.value) then [m.value.info] else []) + Inds(parse, msgs[1..])) ==
             EntryOf(m) + AllFromWire(Inds(parse, msgs[1..]));
    }
  }

  /** Entries and signals together: what dispatching does. */
  function Dispatched(a: Account, entries: seq<Entry>, signals: seq<Signal>): Account {
    Note(a, entries).(signals := a.signals + signals)
  }

  lemma DispatchedTwice(a: Account, xs: seq<Entry>, ys: seq<Entry>, ss: seq<Signal>, ts: seq<Signal>)
    ensures Dispatched(Dispatched(a, xs, ss), ys, ts) == Dispatched(a, xs + ys, ss + ts)
  {
    NoteNote(a, xs, ys);
    assert a.signals + ss + ts == a.signals + (ss + ts);
  }

  lemma OneDispatched(parse: Parser, c: Client, msg: Bytes)
    ensures AccountOf(Dispatch(parse, c, msg)) ==
            Dispatched(AccountOf(c), EntryOf(parse(msg)), SignalOf(parse(msg), true))
  {
    var m := parse(msg);
    NoteNothing(AccountOf(c));
    assert c.signals + [] == c.signals;
    if m.Some? && m.value.kind == "ind" {
      IndicationNoted(c, FromWire(m.value.info));
    }
  }

  lemma {:induction false} AllDispatched(parse: Parser, c: Client, msgs: seq<Bytes>)
    ensures AccountOf(DispatchAll(parse, c, msgs)) ==
            Dispatched(AccountOf(c), Entries(parse, msgs), Signals(parse, msgs, true))
    decreases |msgs|
  {
    if msgs == [] {
      NoteNothing(AccountOf(c));
      assert c.signals + [] == c.signals;
    } else {
      var m := parse(msgs[0]);
      OneDispatched(parse, c, msgs[0]);
      AllDispatched(parse, Dispatch(parse, c, msgs[0]), msgs[1..]);
      DispatchedTwice(AccountOf(c), EntryOf(m), Entries(parse, msgs[1..]),
                      SignalOf(m, true), Signals(parse, msgs[1..], true));
    }
  }

  /** What is set aside brings no entries, and the signals of all but the EVENT
      responses. */
  lemma {:induction false} LeftoverSignals(parse: Parser, msgs: seq<Bytes>)
    ensures Entries(parse, Leftovers(parse, msgs)) == []
    ensures Signals(parse, Leftovers(parse, msgs), true) == Signals(parse, msgs, false)
    decreases |msgs|
  {
    if msgs != [] {
      LeftoverSignals(parse, msgs[1..]);
      var m := parse(msgs[0]);
      if m.Some? && IsLeftover(m.value) {
        assert Leftovers(parse, msgs) == [msgs[0]] + Leftovers(parse, msgs[1..]);
        assert Leftovers(parse, msgs)[1..] == Leftovers(parse, msgs[1..]);
      } else {
        assert Leftovers(parse, msgs) == Leftovers(parse, msgs[1..]);
      }
    }
  }

  /** The drain, and a slot's read. */
  lemma DrainHears(parse: Parser, c: Client, bytes: Bytes)
    requires Delivered(parse, c)
    ensures AccountOf(Drain(parse, c, bytes)) == Hear(parse, AccountOf(c), bytes)
  {
    CompletedNext(parse, c, [], bytes);
    AllDispatched(parse, Read(parse, c, bytes), FramedNext(parse, c, bytes));
  }

  // ----- The waits

  lemma {:induction false} ChunksReadIs(parse: Parser, want: Message -> bool, wire: Bytes, chunks: seq<Bytes>, n: nat, r: nat)
    requires n <= r <= |chunks|
    requires forall k: nat :: n <= k < r ==> !AnswerIn(parse, want, Completed(parse, wire, wire + Join(chunks[..k])))
    requires r == |chunks| || AnswerIn(parse, want, Completed(parse, wire, wire + Join(chunks[..r])))
    ensures ChunksRead(parse, want, wire, chunks, n) == r
    decreases r - n
  {
    if n < r {
      ChunksReadIs(parse, want, wire, chunks, n + 1, r);
    }
  }

  lemma AnswerIsAny(parse: Parser, want: Message -> bool, done: Message -> bool, msgs: seq<Bytes>)
    requires forall m :: want(m) == done(m)
    ensures AnswerIn(parse, want, msgs) <==> Any(parse, done, msgs)
  {
    if AnswerIn(parse, want, msgs) {
      var k :| 0 <= k < |msgs| && parse(msgs[k]).Some? && want(parse(msgs[k]).value);
      assert Holds(parse, done, msgs[k]);
    }
  }

  /** What a wait frames is what the bytes that it reads complete. */
  lemma PollCompletes(parse: Parser, c: Client, queued: seq<Info>, chunks: seq<Bytes>, done: Message -> bool)
    requires Accounted(parse, c, queued)
    ensures var p := Poll(parse, c, chunks, done);
            && AccountOf(p.client) == AccountOf(c).(wire := c.wire + Join(chunks[..p.used]))
            && Completed(parse, c.wire, c.wire + Join(chunks[..p.used])) == p.msgs
  {
    PollReads(parse, c, chunks, done);
    PollAccounted(parse, c, queued, chunks, done);
  }

  /** Before the end of a wait, no answer has been completed. */
  lemma NoAnswerYet(parse: Parser, c: Client, chunks: seq<Bytes>, want: Message -> bool, done: Message -> bool, k: nat)
    requires Delivered(parse, c) && (forall m :: want(m) == done(m)) && k < Poll(parse, c, chunks, done).used
    ensures !AnswerIn(parse, want, Completed(parse, c.wire, c.wire + Join(chunks[..k])))
  {
    D.PollStops(parse, c, chunks, done, k);
    D.PollStops(parse, c, chunks[..k], done, k);
    var q := Poll(parse, c, chunks[..k], done);
    PollCompletes(parse, c, [], chunks[..k], done);
    assert chunks[..k][..q.used] == chunks[..k];
    AnswerIsAny(parse, want, done, q.msgs);
  }

  lemma PollAwaits(parse: Parser, c: Client, chunks: seq<Bytes>, want: Message -> bool, done: Message -> bool)
    requires Delivered(parse, c) && forall m :: want(m) == done(m)
    ensures var p := Poll(parse, c, chunks, done);
            var now := Awaited(parse, want, c.wire, chunks);
            && AccountOf(p.client) == AccountOf(c).(wire := now) && Completed(parse, c.wire, now) == p.msgs
            && Accounted(parse, p.client, Inds(parse, p.msgs))
  {
    var p := Poll(parse, c, chunks, done);
    PollCompletes(parse, c, [], chunks, done);
    PollAccounted(parse, c, [], chunks, done);
    assert [] + Inds(parse, p.msgs) == Inds(parse, p.msgs);
    D.PollStops(parse, c, chunks, done, 0);
    AnswerIsAny(parse, want, done, p.msgs);
    forall k: nat | k < p.used
      ensures !AnswerIn(parse, want, Completed(parse, c.wire, c.wire + Join(chunks[..k])))
    {
      NoAnswerYet(parse, c, chunks, want, done, k);
    }
    ChunksReadIs(parse, want, c.wire, chunks, 0, p.used);
  }

  // ----- Calls and events

  lemma {:induction false} FirstReportIs(parse: Parser, msgs: seq<Bytes>)
    ensures var resp := FirstInfoResp(parse, msgs);
            FirstReport(parse, msgs) == if resp.Some? && resp.value.ok then Some(resp.value.info) else None
    decreases |msgs|
  {
    if msgs != [] {
      FirstReportIs(parse, msgs[1..]);
    }
  }

  /** Delivering what a wait queued. */
  lemma QueueNoted(parse: Parser, c: Client, msgs: seq<Bytes>)
    ensures AccountOf(Deliver(c, Inds(parse, msgs))) == Note(AccountOf(c), Entries(parse, msgs))
  {
    DeliverNoted(c, Inds(parse, msgs));
    QueuedEntries(parse, msgs);
  }

  lemma FetchIs(parse: Parser, c: Client, force: bool, io: Io)
    requires Delivered(parse, c)
    ensures AccountOf(GetInfo(parse, c, force, io).0) == Fetch(parse, AccountOf(c), force, io)
    ensures GetInfo(parse, c, force, io).1 == Fetched(parse, AccountOf(c), io)
  {
    if R.IsOpen(c.link) && io.written {
      var c1 := c.(sent := c.sent + [InfoRequest(force)]);
      var p := Poll(parse, c1, io.chunks, IsInfoResp);
      PollAwaits(parse, c1, io.chunks, AnswersFetch, IsInfoResp);
      FirstReportIs(parse, p.msgs);
      WaitHeeded(parse, p, AccountOf(c1));
      DeliverServed(parse, p.client, Inds(parse, p.msgs));
      DrainHears(parse, Deliver(p.client, Inds(parse, p.msgs)), io.tail);
    }
  }

  lemma WaitHeeded(parse: Parser, p: Polled, a: Account)
    requires AccountOf(p.client) == a.(wire := p.client.wire) && p.msgs == Completed(parse, a.wire, p.client.wire)
    ensures AccountOf(Deliver(p.client, Inds(parse, p.msgs))) == Heed(parse, a, p.client.wire, false)
  {
    QueueNoted(parse, p.client, p.msgs);
    assert a.signals + [] == a.signals;
  }

  lemma LeftoversHeeded(parse: Parser, p: Polled, a: Account)
    requires AccountOf(p.client) == a.(wire := p.client.wire) && p.msgs == Completed(parse, a.wire, p.client.wire)
    ensures var c := DispatchAll(parse, p.client, Leftovers(parse, p.msgs));
            AccountOf(Deliver(c, Inds(parse, p.msgs))) == Heed(parse, a, p.client.wire, true)
  {
    var c := DispatchAll(parse, p.client, Leftovers(parse, p.msgs));
    AllDispatched(parse, p.client, Leftovers(parse, p.msgs));
    LeftoverSignals(parse, p.msgs);
    NoteNothing(AccountOf(p.client));
    QueueNoted(parse, c, p.msgs);
  }

  lemma AskIs(parse: Parser, c: Client, kind: int, callback: Callback, io: Io)
    requires Delivered(parse, c) && R.IsOpen(c.link) && 0 <= kind <= 2
    ensures AccountOf(Subscribe(parse, c, kind, callback, io).0) ==
            Ask(parse, AccountOf(c).(func := c.func[kind := callback]), kind, io)
  {
    var c1 := c.(func := c.func[kind := callback], sent := c.sent + [EventRequest(kind)]);
    var p := DeviceModel.Await(parse, c1, io);
    if io.written {
      PollAwaits(parse, c1, io.chunks, AnswersAsk, IsEventOk);
    }
    AskSettles(parse, p, AccountOf(c1), io.tail);
  }

  lemma AskSettles(parse: Parser, p: Polled, a: Account, tail: Bytes)
    requires Accounted(parse, p.client, Inds(parse, p.msgs))
    requires AccountOf(p.client) == a.(wire := p.client.wire) && p.msgs == Completed(parse, a.wire, p.client.wire)
    ensures AccountOf(Settle(parse, p, tail)) == Hear(parse, Heed(parse, a, p.client.wire, true), tail)
  {
    LeftoversHeeded(parse, p, a);
    LeftoversServed(parse, p);
    var c := DispatchAll(parse, p.client, Leftovers(parse, p.msgs));
    DeliverServed(parse, c, Inds(parse, p.msgs));
    DrainHears(parse, Deliver(c, Inds(parse, p.msgs)), tail);
  }

  lemma AskAgainIs(parse: Parser, c: Client, kind: int, io: Io)
    requires Delivered(parse, c) && R.IsOpen(c.link) && 0 <= kind <= 2
    ensures var d := Resubscribe(parse, c, kind, io);
            && AccountOf(d) == AskAgain(parse, AccountOf(c), kind, io)
            && Delivered(parse, d) && d.link == c.link && d.func == c.func
  {
    ResubscribeDelivers(parse, c, kind, io);
    if kind in c.func {
      AskIs(parse, c, kind, c.func[kind], io);
      assert c.func[kind := c.func[kind]] == c.func;
    }
  }

  lemma GoneIs(info: Info)
    ensures Gone(info) <==> info.deviceId == "" && SaysNoPort(info.portState)
  {
  }

  lemma ComeUpIs(parse: Parser, c: Client, script: Script)
    requires R.IsOpen(c.link)
    ensures AccountOf(OnConnected(parse, c, script)) == ComeUp(parse, AccountOf(c), R.OnConnected(c.link), script)
  {
    var c0 := Fresh(c);
    ClearDelivers(parse, c0);
    AskAgainIs(parse, c0, 0, script.added);
    var c1 := Resubscribe(parse, c0, 0, script.added);
    AskAgainIs(parse, c1, 1, script.removed);
    var c2 := Resubscribe(parse, c1, 1, script.removed);
    AskAgainIs(parse, c2, 2, script.changed);
    var c3 := Resubscribe(parse, c2, 2, script.changed);
    assert Resubscribed(parse, c0, script).0 == c3;
    FetchIs(parse, c3, false, script.info);
    var info := Fetched(parse, AccountOf(c3), script.info);
    if info.Some? {
      GoneIs(info.value);
      IndicationNoted(GetInfo(parse, c3, false, script.info).0, MadeUp(Synthesise(info.value)));
    }
  }

  /** The client refines the machine, event by event. */
  lemma StepRefines(parse: Parser, c: Client, e: Event)
    requires Delivered(parse, c)
    ensures AccountOf(Step(parse, c, e)) == Expected(parse, AccountOf(c), e)
  {
    match e
    case ReadyRead(first, more) => DrainHears(parse, c, first + more);
    case CallGetInfo(force, io) => FetchIs(parse, c, force, io);
    case CallSubscribe(kind, callback, io) =>
      if R.IsOpen(c.link) && 0 <= kind <= 2 {
        AskIs(parse, c, kind, callback, io);
      }
    case CallInit(wait, script) => InitIs(parse, c, wait, script);
    case SocketOpened(script) => ComeUpIs(parse, c.(link := c.link.(sock := R.Connected)), script);
    case _ => QuietIs(parse, c, e);
  }

  lemma QuietIs(parse: Parser, c: Client, e: Event)
    requires e.CallDeinit? || e.SocketDropped? || e.SocketErrored? || e.TimerTick?
    ensures AccountOf(Step(parse, c, e)) == Expected(parse, AccountOf(c), e)
  {
    match e
    case CallDeinit(closed) =>
    case SocketDropped =>
    case SocketErrored(now) =>
    case TimerTick =>
  }

  lemma InitLink(l: R.Link, wait: R.Wait)
    ensures var m := R.InitConnect(R.Device, l);
            if R.CameUpIn(R.Device, l, R.Init(wait))
            then R.Step(R.Device, l, R.Init(wait)) == R.OnConnected(m.(sock := R.Connected))
            else R.Step(R.Device, l, R.Init(wait)) == R.InitDone(R.InitWait(m, wait))
  {
  }

  lemma InitIs(parse: Parser, c: Client, wait: R.Wait, script: Script)
    requires Delivered(parse, c)
    ensures AccountOf(Init(parse, c, wait, script)) == Expected(parse, AccountOf(c), CallInit(wait, script))
  {
    var c1 := c.(link := R.InitConnect(R.Device, c.link));
    InitLink(c.link, wait);
    if R.CameUpIn(R.Device, c.link, R.Init(wait)) {
      var up := c1.(link := c1.link.(sock := R.Connected));
      ComeUpIs(parse, up, script);
      ComeUpFromStream(parse, AccountOf(c), AccountOf(up), R.OnConnected(up.link), script);
      ComeUpLinked(parse, up, script);
      assert Init(parse, c, wait, script) == Opened(parse, c1, script);
    } else {
      assert Init(parse, c, wait, script) == c.(link := R.Step(R.Device, c.link, R.Init(wait)));
    }
  }

  /** A connection that comes up forgets the link it had. */
  lemma ComeUpFromStream(parse: Parser, a: Account, b: Account, link: R.Link, script: Script)
    requires a == b.(link := a.link)
    ensures ComeUp(parse, a, link, script) == ComeUp(parse, b, link, script)
  {
  }

  lemma ComeUpLinked(parse: Parser, c: Client, script: Script)
    requires c.link.sock.Connected?
    ensures R.InitDone(OnConnected(parse, c, script).link) == OnConnected(parse, c, script).link
  {
    var _, _, _ := ConnectRefreshes(parse, c, script);
  }

  /** The client refines the machine over all runs: what can be seen of it is a
      function of the events alone. */
  lemma {:induction false} RunRefines(parse: Parser, c: Client, es: seq<Event>)
    requires Delivered(parse, c)
    ensures AccountOf(Run(parse, c, es)) == ExpectedRun(parse, AccountOf(c), es)
    decreases |es|
  {
    if es != [] {
      StepRefines(parse, c, es[0]);
      D.StepKeeps(parse, c, es[0]);
      RunRefines(parse, Step(parse, c, es[0]), es[1..]);
    }
  }

  // ----- The same, said of single events and of whole runs

  /** How far a wait reads: it has not read an answer before its last chunk, and has
      one then unless all chunks are read. */
  predicate WaitReads(parse: Parser, want: Message -> bool, wire: Bytes, chunks: seq<Bytes>, n: nat) {
    && n <= |chunks|
    && (forall k: nat :: k < n ==> !AnswerIn(parse, want, Completed(parse, wire, wire + Join(chunks[..k]))))
    && (n == |chunks| || AnswerIn(parse, want, Completed(parse, wire, wire + Join(chunks[..n]))))
  }

  lemma {:induction false} ChunksReadMeans(parse: Parser, want: Message -> bool, wire: Bytes, chunks: seq<Bytes>, i: nat)
    requires i <= |chunks|
    requires forall k: nat :: k < i ==> !AnswerIn(parse, want, Completed(parse, wire, wire + Join(chunks[..k])))
    ensures WaitReads(parse, want, wire, chunks, ChunksRead(parse, want, wire, chunks, i))
    decreases |chunks| - i
  {
    if !(i == |chunks| || AnswerIn(parse, want, Completed(parse, wire, wire + Join(chunks[..i])))) {
      ChunksReadMeans(parse, want, wire, chunks, i + 1);
    }
  }

  /** A read takes in all of both chunks, logs a report for each indication that they
      complete, and signals for each response. */
  lemma ReadyReadDoes(parse: Parser, c: Client, first: Bytes, more: Bytes)
    requires Delivered(parse, c)
    ensures var d := Step(parse, c, ReadyRead(first, more));
            var msgs := Completed(parse, c.wire, c.wire + first + more);
            && d.wire == c.wire + first + more && d.mark == c.mark && d.sent == c.sent
            && d.log == c.log + Entries(parse, msgs) && d.signals == c.signals + Signals(parse, msgs, true)
  {
    StepRefines(parse, c, ReadyRead(first, more));
    assert c.wire + (first + more) == c.wire + first + more;
  }

  /** `GetDeviceinfo` on an open socket, once its request is written, takes in the
      chunks up to the first response of function 0 and then the tail; reports are
      logged from all of it, signals come from what the tail completes. */
  lemma GetInfoDoes(parse: Parser, c: Client, force: bool, io: Io)
    returns (n: nat)
    requires Delivered(parse, c) && R.IsOpen(c.link) && io.written
    ensures WaitReads(parse, AnswersFetch, c.wire, io.chunks, n)
    ensures var d := Step(parse, c, CallGetInfo(force, io));
            var now := c.wire + Join(io.chunks[..n]);
            var (waited, behind) := (Completed(parse, c.wire, now), Completed(parse, now, now + io.tail));
            && d.wire == c.wire + Join(io.chunks[..n]) + io.tail && d.mark == c.mark
            && d.sent == c.sent + [InfoRequest(force)]
            && d.log == c.log + Entries(parse, waited) + Entries(parse, behind)
            && d.signals == c.signals + Signals(parse, behind, true)
  {
    StepRefines(parse, c, CallGetInfo(force, io));
    n := ChunksRead(parse, AnswersFetch, c.wire, io.chunks, 0);
    ChunksReadMeans(parse, AnswersFetch, c.wire, io.chunks, 0);
    assert c.signals + [] == c.signals;
  }

  /** `SubscribeDeviceEvent` for a known kind on an open socket takes in the chunks up
      to the first response of function 2 with status ok, none where the request is
      not written, and then the tail. Reports are logged from all of it; signals come
      from the responses of functions 0 and 1 that the wait read, and from all
      responses that the tail completes. */
  lemma SubscribeDoes(parse: Parser, c: Client, kind: int, callback: Callback, io: Io)
    returns (n: nat)
    requires Delivered(parse, c) && R.IsOpen(c.link) && 0 <= kind <= 2
    ensures if io.written then WaitReads(parse, AnswersAsk, c.wire, io.chunks, n)
            else n == 0
    ensures n <= |io.chunks|
    ensures var d := Step(parse, c, CallSubscribe(kind, callback, io));
            var now := c.wire + Join(io.chunks[..n]);
            var (waited, behind) := (Completed(parse, c.wire, now), Completed(parse, now, now + io.tail));
            && d.wire == c.wire + Join(io.chunks[..n]) + io.tail && d.mark == c.mark
            && d.sent == c.sent + [EventRequest(kind)] && d.func == c.func[kind := callback]
            && d.log == c.log + Entries(parse, waited) + Entries(parse, behind)
            && d.signals == c.signals + Signals(parse, waited, false) + Signals(parse, behind, true)
  {
    StepRefines(parse, c, CallSubscribe(kind, callback, io));
    n := 0;
    if io.written {
      n := ChunksRead(parse, AnswersAsk, c.wire, io.chunks, 0);
      ChunksReadMeans(parse, AnswersAsk, c.wire, io.chunks, 0);
    } else {
      assert c.wire + Join(io.chunks[..0]) == c.wire;
    }
  }

  /** The calls that give up, and the events without bytes: what they leave alone. */
  lemma NothingRead(parse: Parser, c: Client, e: Event)
    requires Delivered(parse, c)
    ensures var d := Step(parse, c, e);
            match e
            case CallGetInfo(force, io) =>
              !(R.IsOpen(c.link) && io.written) ==>
                && (d.wire, d.mark, d.log, d.signals, d.func) == (c.wire, c.mark, c.log, c.signals, c.func)
                && d.sent == c.sent + if R.IsOpen(c.link) then [InfoRequest(force)] else []
            case CallSubscribe(kind, callback, io) =>
              !(R.IsOpen(c.link) && 0 <= kind <= 2) ==>
                && (d.wire, d.mark, d.log, d.signals, d.sent) == (c.wire, c.mark, c.log, c.signals, c.sent)
                && d.func == if 0 <= kind <= 2 then c.func[kind := callback] else c.func
            case CallInit(wait, _) =>
              !R.CameUpIn(R.Device, c.link, R.Init(wait)) ==> d == c.(link := d.link)
            case CallDeinit(_) => d == c.(link := d.link, rx := [], wire := [], mark := |c.log|)
            case SocketDropped => d == c.(link := d.link, rx := [], wire := [], mark := |c.log|)
            case SocketErrored(_) => d == c.(link := d.link)
            case TimerTick => d == c.(link := d.link)
            case _ => true
  {
    match e
    case CallGetInfo(force, io) => StepRefines(parse, c, e);
    case CallSubscribe(kind, callback, io) => StepRefines(parse, c, e);
    case CallInit(wait, _) => InitLink(c.link, wait);
    case _ =>
  }

  predicate OffWire(entries: seq<Entry>) {
    forall k :: 0 <= k < |entries| ==> entries[k].FromWire?
  }

  lemma {:induction false} EntriesOffWire(parse: Parser, msgs: seq<Bytes>)
    ensures OffWire(Entries(parse, msgs))
    decreases |msgs|
  {
    if msgs != [] {
      EntriesOffWire(parse, msgs[1..]);
    }
  }

  /** `b` comes from `a` by bytes and requests: `sent` is written, `wired` is logged. */
  predicate Follows(a: Account, b: Account, sent: seq<Request>, wired: seq<Entry>) {
    && b.sent == a.sent + sent && b.log == a.log + wired && OffWire(wired)
    && b.func == a.func && b.link == a.link && b.mark == a.mark
  }

  lemma HearFollows(parse: Parser, a: Account, bytes: Bytes) returns (wired: seq<Entry>)
    ensures Follows(a, Hear(parse, a, bytes), [], wired)
  {
    wired := Entries(parse, Completed(parse, a.wire, a.wire + bytes));
    EntriesOffWire(parse, Completed(parse, a.wire, a.wire + bytes));
  }

  lemma HeedFollows(parse: Parser, a: Account, now: Bytes, passOn: bool) returns (wired: seq<Entry>)
    ensures Follows(a, Heed(parse, a, now, passOn), [], wired)
  {
    wired := Entries(parse, Completed(parse, a.wire, now));
    EntriesOffWire(parse, Completed(parse, a.wire, now));
  }

  lemma FollowsOn(a: Account, b: Account, c: Account, ss: seq<Request>, ts: seq<Request>, xs: seq<Entry>, ys: seq<Entry>)
    requires Follows(a, b, ss, xs) && Follows(b, c, ts, ys)
    ensures Follows(a, c, ss + ts, xs + ys)
  {
    assert a.sent + ss + ts == a.sent + (ss + ts) && a.log + xs + ys == a.log + (xs + ys);
  }

  lemma AskFollows(parse: Parser, a: Account, kind: int, io: Io) returns (wired: seq<Entry>)
    ensures Follows(a, Ask(parse, a, kind, io), [EventRequest(kind)], wired)
  {
    var asked := a.(sent := a.sent + [EventRequest(kind)]);
    var now := if io.written then Awaited(parse, AnswersAsk, a.wire, io.chunks) else a.wire;
    var heeded := Heed(parse, asked, now, true);
    assert Follows(a, asked, [EventRequest(kind)], []);
    var xs := HeedFollows(parse, asked, now, true);
    var ys := HearFollows(parse, heeded, io.tail);
    FollowsOn(a, asked, heeded, [EventRequest(kind)], [], [], xs);
    FollowsOn(a, heeded, Hear(parse, heeded, io.tail), [EventRequest(kind)] + [], [], [] + xs, ys);
    assert [EventRequest(kind)] + [] + [] == [EventRequest(kind)];
    wired := [] + xs + ys;
  }

  lemma FetchFollows(parse: Parser, a: Account, io: Io) returns (wired: seq<Entry>)
    requires R.IsOpen(a.link)
    ensures Follows(a, Fetch(parse, a, false, io), [InfoRequest(false)], wired)
  {
    var asked := a.(sent := a.sent + [InfoRequest(false)]);
    assert Follows(a, asked, [InfoRequest(false)], []);
    wired := [];
    if io.written {
      var now := Awaited(parse, AnswersFetch, a.wire, io.chunks);
      var heeded := Heed(parse, asked, now, false);
      var xs := HeedFollows(parse, asked, now, false);
      var ys := HearFollows(parse, heeded, io.tail);
      FollowsOn(a, asked, heeded, [InfoRequest(false)], [], [], xs);
      FollowsOn(a, heeded, Hear(parse, heeded, io.tail), [InfoRequest(false)] + [], [], [] + xs, ys);
      assert [InfoRequest(false)] + [] + [] == [InfoRequest(false)];
      wired := [] + xs + ys;
    }
  }

  function OwedTo(func: map<int, Callback>, kind: int): seq<Request> {
    if kind in func then [EventRequest(kind)] else []
  }

  lemma AskAgainFollows(parse: Parser, a: Account, kind: int, io: Io) returns (wired: seq<Entry>)
    ensures Follows(a, AskAgain(parse, a, kind, io), OwedTo(a.func, kind), wired)
    ensures kind !in a.func ==> AskAgain(parse, a, kind, io) == a && wired == []
  {
    wired := [];
    if kind in a.func {
      wired := AskFollows(parse, a, kind, io);
    }
  }

  /** The three kinds in turn. */
  lemma AskAllFollow(parse: Parser, a: Account, script: Script) returns (asked: Account, wired: seq<Entry>)
    ensures asked == AskAgain(parse, AskAgain(parse, AskAgain(parse, a, 0, script.added), 1, script.removed), 2, script.changed)
    ensures Follows(a, asked, OwedTo(a.func, 0) + OwedTo(a.func, 1) + OwedTo(a.func, 2), wired)
    ensures 0 !in a.func && 1 !in a.func && 2 !in a.func ==> asked == a && wired == []
  {
    var a1 := AskAgain(parse, a, 0, script.added);
    var a2 := AskAgain(parse, a1, 1, script.removed);
    asked := AskAgain(parse, a2, 2, script.changed);
    var xs := AskAgainFollows(parse, a, 0, script.added);
    var ys := AskAgainFollows(parse, a1, 1, script.removed);
    var zs := AskAgainFollows(parse, a2, 2, script.changed);
    FollowsOn(a, a1, a2, OwedTo(a.func, 0), OwedTo(a.func, 1), xs, ys);
    FollowsOn(a, a2, asked, OwedTo(a.func, 0) + OwedTo(a.func, 1), OwedTo(a.func, 2), xs + ys, zs);
    wired := xs + ys + zs;
  }

  /** What a connection that comes up leaves, with the open socket `link`. */
  lemma ComeUpSays(parse: Parser, a: Account, link: R.Link, script: Script)
    returns (asked: Account, wired: seq<Entry>, info: Option<Info>)
    requires R.IsOpen(link)
    ensures var b := ComeUp(parse, a, link, script);
            && b.mark == |a.log| && b.func == a.func && b.link == link
            && b.sent == a.sent + (OwedTo(a.func, 0) + OwedTo(a.func, 1) + OwedTo(a.func, 2)) +
                         (if 0 in a.func || 1 in a.func || 2 in a.func then [InfoRequest(false)] else [])
            && b.log == a.log + wired + (if info.None? then []
                                         else [MadeUp(info.value.(kind := if Gone(info.value) then 1 else 2))])
            && OffWire(wired)
            && (0 !in a.func && 1 !in a.func && 2 !in a.func ==> b.wire == [] && wired == [])
    ensures asked.link == link
    ensures info == if 0 in a.func || 1 in a.func || 2 in a.func then Fetched(parse, asked, script.info) else None
  {
    var a0 := a.(link := link, wire := [], mark := |a.log|);
    asked, wired := AskAllFollow(parse, a0, script);
    info := None;
    if 0 in a.func || 1 in a.func || 2 in a.func {
      info := Fetched(parse, asked, script.info);
      var ys := FetchFollows(parse, asked, script.info);
      FollowsOn(a0, asked, Fetch(parse, asked, false, script.info),
                OwedTo(a.func, 0) + OwedTo(a.func, 1) + OwedTo(a.func, 2), [InfoRequest(false)], wired, ys);
      wired := wired + ys;
      assert a.sent + (OwedTo(a.func, 0) + OwedTo(a.func, 1) + OwedTo(a.func, 2) + [InfoRequest(false)]) ==
             a.sent + (OwedTo(a.func, 0) + OwedTo(a.func, 1) + OwedTo(a.func, 2)) + [InfoRequest(false)];
    }
  }

  /** Every event in which the connection comes up, `Init` included: the stream starts
      anew; EVENT requests go out for exactly the stored kinds in the order added,
      removed, changed, and one report request where there is one; and behind entries
      off the wire one is made up exactly where the first response of function 0 to
      that request has status ok, from its report, typed removed exactly where there
      is no device and no port. */
  lemma ConnectDoes(parse: Parser, c: Client, e: Event)
    returns (asked: Account, wired: seq<Entry>, info: Option<Info>)
    requires Delivered(parse, c) && (e.CallInit? || e.SocketOpened?)
    requires R.CameUpIn(R.Device, c.link, LinkEvent(e).value)
    ensures var d := Step(parse, c, e);
            && d.mark == |c.log| && d.func == c.func && R.IsOpen(d.link)
            && d.sent == c.sent + (OwedTo(c.func, 0) + OwedTo(c.func, 1) + OwedTo(c.func, 2)) +
                         (if 0 in c.func || 1 in c.func || 2 in c.func then [InfoRequest(false)] else [])
            && d.log == c.log + wired + (if info.None? then []
                                         else [MadeUp(info.value.(kind := if Gone(info.value) then 1 else 2))])
            && OffWire(wired)
            && (0 !in c.func && 1 !in c.func && 2 !in c.func ==> d.wire == [] && wired == [])
    ensures R.IsOpen(asked.link)
    ensures info == if 0 in c.func || 1 in c.func || 2 in c.func then Fetched(parse, asked, e.script.info) else None
  {
    var link := R.Step(R.Device, c.link, LinkEvent(e).value);
    StepRefines(parse, c, e);
    asked, wired, info := ComeUpSays(parse, AccountOf(c), link, e.script);
  }

  /** From a new client on, at every point of every run: the reports logged off the
      wire since the last clear are the indications framed from all bytes read since,
      which the events alone tell. */
  lemma StreamDelivered(parse: Parser, es: seq<Event>)
    ensures var c := Run(parse, NEW, es);
            var wire := ExpectedRun(parse, AccountOf(NEW), es).wire;
            c.mark <= |c.log| && Wired(Recent(c)) == Inds(parse, Framing(parse, wire))
  {
    D.NewDelivered(parse);
    RunRefines(parse, NEW, es);
    D.EveryIndicationOnce(parse, NEW, es);
    var c := Run(parse, NEW, es);
    assert Wired(Recent(c)) + [] == Wired(Recent(c));
  }
}
