/** The reconnect machine that the device client and the flash tool client both
    carry: socket state, `stopping`, retry timer and retry count, driven by the
    socket's signals, the timer and the calls `Init` and `Deinit`. */
module Reconnect {

  /** Which of the two copies of the machine. */
  datatype Kind = Device | Tool

  datatype Sock = NoSocket | Unconnected | Connecting | Connected | Closing

  datatype Timer = NoTimer | Idle | Ticking

  /** A connect request, with what held when it was made. */
  datatype Attempt = Attempt(sock: Sock, stopping: bool)

  datatype Link = Link(sock: Sock, stopping: bool, timer: Timer, retryCount: nat, attempts: seq<Attempt>)

  const NEW := Link(NoSocket, false, NoTimer, 0, [])

  /** `isOpen` of the socket. */
  predicate IsOpen(l: Link) {
    l.sock.Connected? || l.sock.Closing?
  }

  function StartTimer(l: Link): Link {
    if l.stopping then l else l.(timer := Ticking)
  }

  function StopTimer(l: Link): Link {
    if l.timer.NoTimer? then l else l.(timer := Idle)
  }

  /** The device client makes a missing socket, the tool client gives up. A socket
      in any state but unconnected, connecting or connected is aborted first. */
  function Connect(kind: Kind, l: Link): Link {
    if l.stopping || (kind.Tool? && l.sock.NoSocket?) then l
    else
      var m := if l.sock.NoSocket? then l.(sock := Unconnected) else l;
      if m.sock.Connected? || m.sock.Connecting? then m
      else m.(sock := Connecting, attempts := m.attempts + [Attempt(m.sock, m.stopping)])
  }

  function OnConnected(l: Link): Link {
    StopTimer(l).(retryCount := 0)
  }

  function OnDisconnected(l: Link): Link {
    StartTimer(l)
  }

  function OnError(l: Link): Link {
    if l.stopping || l.sock.Connected? then l else StartTimer(l)
  }

  function Retry(kind: Kind, l: Link): Link {
    if l.stopping then StopTimer(l)
    else Connect(kind, l.(retryCount := l.retryCount + 1))
  }

  /** How the three-second wait for a connection inside `Init` ends. */
  datatype Wait = CameUp | Refused | TimedOut

  /** `Init` up to the point where it waits. */
  function InitConnect(kind: Kind, l: Link): Link {
    var m := l.(stopping := false);
    Connect(kind, if kind.Tool? then m.(sock := Unconnected) else m)
  }

  /** The signal that ends the wait runs its slot before the wait returns. */
  function InitWait(l: Link, wait: Wait): Link {
    if l.sock.Connected? then l
    else
      match wait
      case CameUp => OnConnected(l.(sock := Connected))
      case Refused => OnError(l.(sock := Unconnected))
      case TimedOut => l
  }

  function InitDone(l: Link): Link {
    if l.sock.Connected? then l else StartTimer(l)
  }

  function ShutDown(l: Link, closed: bool): Link {
    var m := StopTimer(l.(stopping := true));
    if !IsOpen(m) then m
    else if closed then OnDisconnected(m.(sock := Unconnected)).(sock := NoSocket)
    else m.(sock := Unconnected)
  }

  /** What can happen between two returns to the event loop. `Errored` carries the
      state the socket is in when the error is signalled. */
  datatype Event =
    | Init(wait: Wait)
    | Deinit(closed: bool)
    | Opened
    | Dropped
    | Errored(now: Sock)
    | Tick

  /** What the socket and the timer can signal in a given state. */
  predicate Enabled(l: Link, e: Event) {
    match e
    case Init(_) => true
    case Deinit(_) => true
    case Opened => l.sock.Connecting?
    case Dropped => l.sock.Connected? || l.sock.Closing?
    case Errored(now) => !l.sock.NoSocket? && !now.NoSocket? && (now.Connected? ==> l.sock.Connected?)
    case Tick => l.timer.Ticking?
  }

  function Step(kind: Kind, l: Link, e: Event): Link {
    match e
    case Init(wait) => InitDone(InitWait(InitConnect(kind, l), wait))
    case Deinit(closed) => ShutDown(l, closed)
    case Opened => OnConnected(l.(sock := Connected))
    case Dropped => OnDisconnected(l.(sock := Unconnected))
    case Errored(now) => OnError(l.(sock := now))
    case Tick => Retry(kind, l)
  }

  predicate EnabledRun(kind: Kind, l: Link, es: seq<Event>)
    decreases |es|
  {
    es == [] || (Enabled(l, es[0]) && EnabledRun(kind, Step(kind, l, es[0]), es[1..]))
  }

  function Run(kind: Kind, l: Link, es: seq<Event>): Link
    decreases |es|
  {
    if es == [] then l else Run(kind, Step(kind, l, es[0]), es[1..])
  }

  /** The timer ticks exactly while the client wants a connection and has none. */
  predicate Watching(l: Link) {
    && (l.timer.Ticking? <==> !l.stopping && !l.sock.Connected?)
    && (l.sock.NoSocket? ==> l.stopping)
  }

  /** The connection came up in this event. */
  predicate CameUpIn(kind: Kind, l: Link, e: Event) {
    e.Opened? || (e.Init? && e.wait.CameUp? && !InitConnect(kind, l).sock.Connected?)
  }

  /** Timer ticks since the connection last came up, `n` having gone before. */
  function TicksSinceUp(kind: Kind, l: Link, es: seq<Event>, n: nat): nat
    decreases |es|
  {
    if es == [] then n
    else
      var e := es[0];
      TicksSinceUp(kind, Step(kind, l, e), es[1..],
                   if CameUpIn(kind, l, e) then 0 else if e.Tick? then n + 1 else n)
  }

  predicate Disciplined(attempts: seq<Attempt>) {
    forall k :: 0 <= k < |attempts| ==>
      !attempts[k].stopping && (attempts[k].sock.Unconnected? || attempts[k].sock.Closing?)
  }

  /** Every event keeps the machine watching, and the first `Init` makes it so. */
  lemma StepWatches(kind: Kind, l: Link, e: Event)
    requires Enabled(l, e) && (Watching(l) || (e.Init? && l == NEW))
    ensures Watching(Step(kind, l, e))
  {
  }

  lemma StepAttempts(kind: Kind, l: Link, e: Event)
    requires Enabled(l, e) && Disciplined(l.attempts)
    ensures Disciplined(Step(kind, l, e).attempts)
  {
    var m := Step(kind, l, e);
    assert m.attempts == l.attempts || |m.attempts| == |l.attempts| + 1;
  }

  lemma StepCounts(kind: Kind, l: Link, e: Event)
    requires Enabled(l, e) && (Watching(l) || e.Init?)
    ensures Step(kind, l, e).retryCount ==
            if CameUpIn(kind, l, e) then 0 else l.retryCount + if e.Tick? then 1 else 0
  {
  }

  lemma {:induction false} RunWatches(kind: Kind, l: Link, es: seq<Event>)
    requires Watching(l) && Disciplined(l.attempts) && EnabledRun(kind, l, es)
    ensures var m := Run(kind, l, es);
            Watching(m) && Disciplined(m.attempts) && m.retryCount == TicksSinceUp(kind, l, es, l.retryCount)
    decreases |es|
  {
    if es != [] {
      StepWatches(kind, l, es[0]);
      StepAttempts(kind, l, es[0]);
      StepCounts(kind, l, es[0]);
      RunWatches(kind, Step(kind, l, es[0]), es[1..]);
    }
  }

  /** After `Init`, over any run: the retry timer is active exactly when the client
      is not stopping and the socket is not connected; the retry count is the
      number of ticks since the connection last came up; a connect is issued only
      while not stopping and by a socket neither connected nor connecting. */
  lemma ReconnectInvariant(kind: Kind, wait: Wait, es: seq<Event>)
    requires EnabledRun(kind, NEW, [Init(wait)] + es)
    ensures var l := Run(kind, NEW, [Init(wait)] + es);
            Watching(l) && Disciplined(l.attempts) &&
            l.retryCount == TicksSinceUp(kind, NEW, [Init(wait)] + es, 0)
  {
    var all := [Init(wait)] + es;
    assert all[1..] == es;
    StepWatches(kind, NEW, Init(wait));
    StepAttempts(kind, NEW, Init(wait));
    StepCounts(kind, NEW, Init(wait));
    RunWatches(kind, Step(kind, NEW, Init(wait)), es);
  }

  /** The client never gets stuck without a connection: while it is not stopping and
      no attempt is under way, the next tick is due and issues one. */
  lemma TickRetries(kind: Kind, l: Link)
    requires Watching(l) && !l.stopping && !l.sock.Connected? && !l.sock.Connecting?
    ensures Enabled(l, Tick)
    ensures Step(kind, l, Tick).sock == Connecting
    ensures Step(kind, l, Tick).attempts == l.attempts + [Attempt(l.sock, false)]
  {
  }

  /** `Deinit` leaves the machine stopping with no tick due. An open socket is closed:
      it is gone where it closed in time, and unconnected where it was aborted. */
  lemma DeinitCloses(kind: Kind, l: Link, closed: bool)
    ensures var m := Step(kind, l, Deinit(closed));
            && m.stopping && !m.timer.Ticking? && m.attempts == l.attempts && m.retryCount == l.retryCount
            && m.sock == (if !(l.sock.Connected? || l.sock.Closing?) then l.sock
                          else if closed then NoSocket else Unconnected)
  {
  }

  /** `Init` issues exactly one attempt, by a client that is not stopping, unless the
      device client's socket is connected or connecting already; a connection that
      comes up stops the timer, and otherwise a tick is due. The tool client starts
      with a new socket. */
  lemma InitConnects(kind: Kind, l: Link, wait: Wait)
    ensures var m := Step(kind, l, Init(wait));
            var already := kind.Device? && (l.sock.Connected? || l.sock.Connecting?);
            && !m.stopping
            && m.attempts == (if already then l.attempts
                              else l.attempts + [Attempt(if kind.Tool? || l.sock.NoSocket? then Unconnected else l.sock, false)])
            && (m.sock.Connected? <==> wait.CameUp? || (already && l.sock.Connected?))
            && (!m.sock.Connected? ==> m.timer.Ticking? && m.sock == if wait.Refused? then Unconnected else Connecting)
            && (wait.CameUp? && !(already && l.sock.Connected?) ==> !m.timer.Ticking? && m.retryCount == 0)
  {
  }

  /** A disconnect and an error start the timer unless the client is stopping, or the
      error comes to a connected socket. */
  lemma SignalsStartTimer(kind: Kind, l: Link, now: Sock)
    ensures Step(kind, l, Dropped) ==
            l.(sock := Unconnected, timer := if l.stopping then l.timer else Ticking)
    ensures Step(kind, l, Errored(now)) ==
            l.(sock := now, timer := if l.stopping || now.Connected? then l.timer else Ticking)
  {
  }
}
