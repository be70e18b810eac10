/** The device client on values: what each of its entry points does with the bytes
    it reads, the messages framed from them and the callbacks it has stored. */
module DeviceModel {
  import opened ByteStrings
  import opened JsonStream
  import R = Reconnect

  // ----- Messages

  const GET_DEVICE_INFO := 0
  const RESET_DEVICE := 1
  const EVENT := 2

  const DEVICE_ADDED := 0
  const DEVICE_REMOVED := 1
  const DEVICE_CHANGED := 2

  /** The fields of a device report that the client looks at. */
  datatype Info = Info(kind: int, deviceId: string, portState: string)

  /** A document's `type`, `function_id` and `status == "ok"`, and the device report
      that `deserializeFromJson` reads from it. */
  datatype Message = Message(kind: string, functionId: int, ok: bool, info: Info)

  /** The JSON parser, left open: a document, or None where it yields neither an
      object nor an array. */
  type Parser = Bytes -> Option<Message>

  function Accepts(parse: Parser): Bytes -> bool {
    b => parse(b).Some?
  }

  predicate IsInd(m: Message) {
    m.kind == "ind"
  }

  predicate IsResp(m: Message, functionId: int) {
    m.kind == "resp" && m.functionId == functionId
  }

  predicate IsInfoResp(m: Message) {
    IsResp(m, GET_DEVICE_INFO)
  }

  predicate IsEventOk(m: Message) {
    IsResp(m, EVENT) && m.ok
  }

  /** The indications among framed slices, in order. */
  function Inds(parse: Parser, msgs: seq<Bytes>): seq<Info> {
    if msgs == [] then []
    else
      var m := parse(msgs[0]);
      (if m.Some? && IsInd(m.value) then [m.value.info] else []) + Inds(parse, msgs[1..])
  }

  /** What a subscription call sets aside: neither indication nor EVENT response. */
  predicate IsLeftover(m: Message) {
    !IsInd(m) && !IsResp(m, EVENT)
  }

  function Leftovers(parse: Parser, msgs: seq<Bytes>): seq<Bytes> {
    if msgs == [] then []
    else
      var m := parse(msgs[0]);
      (if m.Some? && IsLeftover(m.value) then [msgs[0]] else []) + Leftovers(parse, msgs[1..])
  }

  predicate Holds(parse: Parser, done: Message -> bool, msg: Bytes) {
    var m := parse(msg);
    m.Some? && done(m.value)
  }

  predicate Any(parse: Parser, done: Message -> bool, msgs: seq<Bytes>) {
    exists k :: 0 <= k < |msgs| && Holds(parse, done, msgs[k])
  }

  /** The first GET_DEVICE_INFO response among framed slices. */
  function FirstInfoResp(parse: Parser, msgs: seq<Bytes>): Option<Message> {
    if msgs == [] then None
    else if Holds(parse, IsInfoResp, msgs[0]) then parse(msgs[0])
    else FirstInfoResp(parse, msgs[1..])
  }

  // ----- The client

  type Callback = nat

  datatype Request = InfoRequest(force: bool) | EventRequest(kind: int)

  /** An entry of `onIndicationReceived`: off the wire, or made up after a
      reconnect. */
  datatype Entry = FromWire(info: Info) | MadeUp(info: Info)

  datatype Call = Call(callback: Callback, info: Info)

  datatype Signal = InfoSignal(info: Info, ok: bool) | ResetSignal(ok: bool) | EventSignal

  /** `log`, `calls`, `signals` and `sent` record, in order, the calls of
      `onIndicationReceived`, the callbacks run, the response signals emitted and
      the requests written. `wire` holds all bytes read since the receive buffer
      was last cleared, which was when `log` had `mark` entries. */
  datatype Client = Client(
    link: R.Link, rx: Bytes, func: map<int, Callback>,
    sent: seq<Request>, log: seq<Entry>, calls: seq<Call>, signals: seq<Signal>,
    wire: Bytes, mark: nat)

  const NEW := Client(R.NEW, [], map[], [], [], [], [], [], 0)

  function OnIndication(c: Client, e: Entry): Client {
    c.(log := c.log + [e],
       calls := if e.info.kind in c.func then c.calls + [Call(c.func[e.info.kind], e.info)] else c.calls)
  }

  function Deliver(c: Client, infos: seq<Info>): Client
    decreases |infos|
  {
    if infos == [] then c else Deliver(OnIndication(c, FromWire(infos[0])), infos[1..])
  }

  function Dispatch(parse: Parser, c: Client, msg: Bytes): Client {
    match parse(msg)
    case None => c
    case Some(m) =>
      if IsInd(m) then OnIndication(c, FromWire(m.info))
      else if IsResp(m, GET_DEVICE_INFO) then c.(signals := c.signals + [InfoSignal(m.info, m.ok)])
      else if IsResp(m, RESET_DEVICE) then c.(signals := c.signals + [ResetSignal(m.ok)])
      else if IsResp(m, EVENT) then c.(signals := c.signals + [EventSignal])
      else c
  }

  function DispatchAll(parse: Parser, c: Client, msgs: seq<Bytes>): Client
    decreases |msgs|
  {
    if msgs == [] then c else DispatchAll(parse, Dispatch(parse, c, msgs[0]), msgs[1..])
  }

  /** Reads a chunk: the buffer keeps what the framer leaves of it. */
  function Read(parse: Parser, c: Client, chunk: Bytes): Client {
    c.(rx := Extract(Accepts(parse), c.rx + chunk).residue, wire := c.wire + chunk)
  }

  function FramedNext(parse: Parser, c: Client, chunk: Bytes): seq<Bytes> {
    Extract(Accepts(parse), c.rx + chunk).objects
  }

  function Drain(parse: Parser, c: Client, chunk: Bytes): Client {
    DispatchAll(parse, Read(parse, c, chunk), FramedNext(parse, c, chunk))
  }

  /** What the socket does during one synchronous call: whether the request gets
      written in time, what each read of the wait loop returns until the wait times
      out, and what is left for the drain at the end. */
  datatype Io = Io(written: bool, chunks: seq<Bytes>, tail: Bytes)

  /** The slices framed by a wait loop, and the reads it made: it stops behind the
      first batch with a message it is `done` with. */
  datatype Polled = Polled(client: Client, msgs: seq<Bytes>, used: nat)

  function Poll(parse: Parser, c: Client, chunks: seq<Bytes>, done: Message -> bool): (p: Polled)
    ensures p.used <= |chunks|
    decreases |chunks|
  {
    if chunks == [] then Polled(c, [], 0)
    else
      var msgs := FramedNext(parse, c, chunks[0]);
      var c' := Read(parse, c, chunks[0]);
      if Any(parse, done, msgs) then Polled(c', msgs, 1)
      else
        var p := Poll(parse, c', chunks[1..], done);
        Polled(p.client, msgs + p.msgs, p.used + 1)
  }

  /** `GetDeviceinfo`: queued indications are delivered, then the socket is drained;
      None where the call returns false. */
  function GetInfo(parse: Parser, c: Client, force: bool, io: Io): (Client, Option<Info>) {
    if !R.IsOpen(c.link) then (c, None)
    else
      var c1 := c.(sent := c.sent + [InfoRequest(force)]);
      if !io.written then (c1, None)
      else
        var p := Poll(parse, c1, io.chunks, IsInfoResp);
        var c2 := Drain(parse, Deliver(p.client, Inds(parse, p.msgs)), io.tail);
        var resp := FirstInfoResp(parse, p.msgs);
        (c2, if resp.Some? && resp.value.ok then Some(resp.value.info) else None)
  }

  /** The wait of a subscription call; nothing is read when the write fails. */
  function Await(parse: Parser, c: Client, io: Io): Polled {
    if io.written then Poll(parse, c, io.chunks, IsEventOk) else Polled(c, [], 0)
  }

  /** Behind the wait: leftovers are dispatched, queued indications are delivered,
      then the socket is drained. */
  function Settle(parse: Parser, p: Polled, tail: Bytes): Client {
    var c := DispatchAll(parse, p.client, Leftovers(parse, p.msgs));
    Drain(parse, Deliver(c, Inds(parse, p.msgs)), tail)
  }

  /** `SubscribeDeviceEvent`: true where the kind is known and the socket is closed
      or an EVENT response says ok. */
  function Subscribe(parse: Parser, c: Client, kind: int, callback: Callback, io: Io): (Client, bool) {
    if !(DEVICE_ADDED <= kind <= DEVICE_CHANGED) then (c, false)
    else
      var c0 := c.(func := c.func[kind := callback]);
      if !R.IsOpen(c.link) then (c0, true)
      else
        var p := Await(parse, c0.(sent := c0.sent + [EventRequest(kind)]), io);
        (Settle(parse, p, io.tail), Any(parse, IsEventOk, p.msgs))
  }

  // ----- Reconnecting

  /** The socket's part in the calls made after a reconnect. */
  datatype Script = Script(added: Io, removed: Io, changed: Io, info: Io)

  function Resubscribe(parse: Parser, c: Client, kind: int, io: Io): Client {
    if kind in c.func then Subscribe(parse, c, kind, c.func[kind], io).0 else c
  }

  function UpperCase(ch: char): char {
    if 'a' <= ch <= 'z' then ch - 'a' + 'A' else ch
  }

  /** `portState` says NO-PORT, in any case. */
  predicate SaysNoPort(portState: string) {
    |portState| == 7 && forall k :: 0 <= k < 7 ==> UpperCase(portState[k]) == "NO-PORT"[k]
  }

  /** The three kinds in turn; true where one of them has a subscriber. */
  function Resubscribed(parse: Parser, c: Client, script: Script): (Client, bool) {
    var c1 := Resubscribe(parse, c, DEVICE_ADDED, script.added);
    var c2 := Resubscribe(parse, c1, DEVICE_REMOVED, script.removed);
    (Resubscribe(parse, c2, DEVICE_CHANGED, script.changed),
     DEVICE_ADDED in c.func || DEVICE_REMOVED in c1.func || DEVICE_CHANGED in c2.func)
  }

  function Synthesise(info: Info): Info {
    info.(kind := if info.deviceId == "" && SaysNoPort(info.portState) then DEVICE_REMOVED else DEVICE_CHANGED)
  }

  function Refresh(parse: Parser, c: Client, script: Script): Client {
    if !R.IsOpen(c.link) then c
    else
      var (c1, hadSubscribers) := Resubscribed(parse, c, script);
      if !hadSubscribers then c1
      else
        var (c2, info) := GetInfo(parse, c1, false, script.info);
        if info.None? then c2 else OnIndication(c2, MadeUp(Synthesise(info.value)))
  }

  function ClearRx(c: Client): Client {
    c.(rx := [], wire := [], mark := |c.log|)
  }

  function OnConnected(parse: Parser, c: Client, script: Script): Client {
    var c1 := ClearRx(c);
    Refresh(parse, c1.(link := R.OnConnected(c1.link)), script)
  }

  function Opened(parse: Parser, c: Client, script: Script): Client {
    OnConnected(parse, c.(link := c.link.(sock := R.Connected)), script)
  }

  function OnDisconnected(c: Client): Client {
    ClearRx(c).(link := R.OnDisconnected(c.link))
  }

  function Init(parse: Parser, c: Client, wait: R.Wait, script: Script): Client {
    var c1 := c.(link := R.InitConnect(R.Device, c.link));
    var c2 := if wait.CameUp? && !c1.link.sock.Connected? then Opened(parse, c1, script)
              else c1.(link := R.InitWait(c1.link, wait));
    c2.(link := R.InitDone(c2.link))
  }

  function Deinit(c: Client, closed: bool): Client {
    ClearRx(c).(link := R.ShutDown(c.link, closed))
  }

  // ----- Runs

  datatype Event =
    | ReadyRead(first: Bytes, more: Bytes)
    | CallGetInfo(force: bool, io: Io)
    | CallSubscribe(kind: int, callback: Callback, io: Io)
    | CallInit(wait: R.Wait, script: Script)
    | CallDeinit(closed: bool)
    | SocketOpened(script: Script)
    | SocketDropped
    | SocketErrored(now: R.Sock)
    | TimerTick

  /** The reconnect machine's view of an event; None where it sees nothing. */
  function LinkEvent(e: Event): Option<R.Event> {
    match e
    case CallInit(wait, _) => Some(R.Init(wait))
    case CallDeinit(closed) => Some(R.Deinit(closed))
    case SocketOpened(_) => Some(R.Opened)
    case SocketDropped => Some(R.Dropped)
    case SocketErrored(now) => Some(R.Errored(now))
    case TimerTick => Some(R.Tick)
    case _ => None
  }

  predicate Enabled(c: Client, e: Event) {
    LinkEvent(e).Some? ==> R.Enabled(c.link, LinkEvent(e).value)
  }

  function Step(parse: Parser, c: Client, e: Event): Client {
    match e
    case ReadyRead(first, more) => Drain(parse, c, first + more)
    case CallGetInfo(force, io) => GetInfo(parse, c, force, io).0
    case CallSubscribe(kind, callback, io) => Subscribe(parse, c, kind, callback, io).0
    case CallInit(wait, script) => Init(parse, c, wait, script)
    case CallDeinit(closed) => Deinit(c, closed)
    case SocketOpened(script) => Opened(parse, c, script)
    case SocketDropped => OnDisconnected(c.(link := c.link.(sock := R.Unconnected)))
    case SocketErrored(now) => c.(link := R.OnError(c.link.(sock := now)))
    case TimerTick => c.(link := R.Retry(R.Device, c.link))
  }

  predicate EnabledRun(parse: Parser, c: Client, es: seq<Event>)
    decreases |es|
  {
    es == [] || (Enabled(c, es[0]) && EnabledRun(parse, Step(parse, c, es[0]), es[1..]))
  }

  function Run(parse: Parser, c: Client, es: seq<Event>): Client
    decreases |es|
  {
    if es == [] then c else Run(parse, Step(parse, c, es[0]), es[1..])
  }
}
