/** The rendezvous of `TriggerFlash` with whoever completes the flash: one waiter
    and any number of completers on other threads, in single atomic steps. */
module FlashWait {
  import opened ByteStrings

  /** Where `TriggerFlash` is. `ClearingN` and `ClosingN` come before the N-th store
      of the reset on entry and of the reset on exit. */
  datatype Pc =
    | Home
    | Clearing2
    | Clearing3
    | Cleared
    | Waiting
    | Left
    | ReadCompleted(completed: bool)
    | ReadBoth(completed: bool, success: bool)
    | Closing2(completed: bool, success: bool)
    | Closing3(completed: bool, success: bool)
    | Closed(completed: bool, success: bool)

  /** A completer - a response, a progress of 99 or more, the timeout or an abort -
      and the step of `ForceCompleteFlashWait` that it takes next. */
  datatype Completer =
    | Aborting
    | Ready(verdict: bool)
    | Won(verdict: bool)
    | Stored(verdict: bool)
    | Done

  /** What a wait read, with the verdict of the completer whose exchange came first
      since the reset on entry. */
  datatype Outcome = Outcome(completed: bool, success: bool, first: Option<bool>)

  /** The three atomics, the published loop and the quits posted to it. `exchanged`
      lists the verdicts of all exchanges since the waiter cleared `completed`. */
  datatype State = State(
    pc: Pc, completed: bool, success: bool, abort: bool, loop: bool, quits: nat,
    actors: seq<Completer>, exchanged: seq<bool>, outcomes: seq<Outcome>)

  const INITIAL := State(Home, false, false, false, false, 0, [], [], [])

  /** A completer comes, completer `k` takes a step, the waiter takes one, or nobody
      does anything. */
  datatype Action = Spawn(actor: Completer) | Act(k: nat) | Wait(open: bool) | Idle

  predicate Enabled(s: State, a: Action) {
    match a
    case Spawn(actor) => actor.Aborting? || actor.Ready?
    case Act(k) => k < |s.actors| && !s.actors[k].Done?
    case Wait(_) => s.pc.Waiting? ==> s.quits > 0
    case Idle => true
  }

  /** One step of `AbortFlashWait` or `ForceCompleteFlashWait`. */
  function ActStep(s: State, k: nat): State
    requires k < |s.actors|
  {
    match s.actors[k]
    case Aborting => s.(abort := true, actors := s.actors[k := Ready(false)])
    case Ready(v) => s.(completed := true, exchanged := s.exchanged + [v],
                        actors := s.actors[k := if s.completed then Done else Won(v)])
    case Won(v) => s.(success := v, actors := s.actors[k := Stored(v)])
    case Stored(v) => s.(quits := if s.loop then s.quits + 1 else s.quits, actors := s.actors[k := Done])
    case Done => s
  }

  /** The verdict of the first exchange since the reset on entry. */
  function First(s: State): Option<bool> {
    if s.exchanged == [] then None else Some(s.exchanged[0])
  }

  /** One step of `TriggerFlash`; `open` is what the socket says when asked. */
  function WaitStep(s: State, open: bool): State {
    match s.pc
    case Home => s.(pc := Clearing2, completed := false, exchanged := [])
    case Clearing2 => s.(pc := Clearing3, success := false)
    case Clearing3 => s.(pc := Cleared, abort := false)
    case Cleared => if open then s.(pc := Waiting, loop := true, quits := 0) else s.(pc := Home)
    case Waiting => s.(pc := Left)
    case Left => s.(pc := ReadCompleted(s.completed))
    case ReadCompleted(c) => s.(pc := ReadBoth(c, s.success))
    case ReadBoth(c, v) =>
      s.(pc := Closing2(c, v), completed := false,
         outcomes := s.outcomes + [Outcome(c, v, First(s))])
    case Closing2(c, v) => s.(pc := Closing3(c, v), success := false)
    case Closing3(c, v) => s.(pc := Closed(c, v), abort := false)
    case Closed(_, _) => s.(pc := Home, loop := false)
  }

  function Step(s: State, a: Action): State
    requires Enabled(s, a)
  {
    match a
    case Spawn(actor) => s.(actors := s.actors + [actor])
    case Act(k) => ActStep(s, k)
    case Wait(open) => WaitStep(s, open)
    case Idle => s
  }

  predicate InFlight(actor: Completer) {
    actor.Won? || actor.Stored?
  }

  predicate NoneInFlight(s: State) {
    forall k :: 0 <= k < |s.actors| ==> !InFlight(s.actors[k])
  }

  /** The proviso: no completer runs between the reset on entry and the publication
      of the loop, and none is half-way through when the reset begins. */
  predicate Quiet(s: State, a: Action) {
    && (a.Act? ==> !(s.pc.Clearing2? || s.pc.Clearing3? || s.pc.Cleared?))
    && (a.Wait? && s.pc.Home? ==> NoneInFlight(s))
  }

  predicate EnabledRun(s: State, acts: seq<Action>)
    decreases |acts|
  {
    acts == [] || (Enabled(s, acts[0]) && EnabledRun(Step(s, acts[0]), acts[1..]))
  }

  predicate QuietRun(s: State, acts: seq<Action>)
    decreases |acts|
  {
    acts == [] || (Enabled(s, acts[0]) && Quiet(s, acts[0]) && QuietRun(Step(s, acts[0]), acts[1..]))
  }

  function Run(s: State, acts: seq<Action>): State
    requires EnabledRun(s, acts)
    decreases |acts|
  {
    if acts == [] then s else Run(Step(s, acts[0]), acts[1..])
  }

  predicate Entering(s: State) {
    s.pc.Clearing2? || s.pc.Clearing3? || s.pc.Cleared?
  }

  predicate Listening(s: State) {
    s.pc.Waiting? || s.pc.Left? || s.pc.ReadCompleted? || s.pc.ReadBoth?
  }

  // ----- The first completer wins

  predicate Good(o: Outcome) {
    o.completed && o.first == Some(o.success)
  }

  /** Nobody is left over who could tell another verdict than the first: before any
      exchange nobody is half-way through and no quit is posted; after it whoever is
      about to store brings the first verdict, and once somebody is about to post,
      or has, that verdict is stored. */
  predicate Clean(s: State) {
    if s.exchanged == [] then NoneInFlight(s) && s.quits == 0
    else
      && (forall k :: 0 <= k < |s.actors| && s.actors[k].Won? ==> s.actors[k].verdict == s.exchanged[0])
      && (s.quits > 0 || AnyStored(s) ==> s.success == s.exchanged[0])
  }

  predicate AnyStored(s: State) {
    exists k :: 0 <= k < |s.actors| && s.actors[k].Stored?
  }

  predicate AnyWon(s: State) {
    exists k :: 0 <= k < |s.actors| && s.actors[k].Won?
  }

  /** `completed` says whether there was an exchange since the reset on entry, and a
      waiter in its loop has published it. */
  predicate Synced(s: State) {
    && (Entering(s) || Listening(s) ==> (s.completed <==> s.exchanged != []))
    && (Listening(s) ==> s.loop)
  }

  /** A clean wait, and what it has read so far. */
  predicate WaitSound(s: State) {
    && Listening(s) && Synced(s) && Clean(s)
    && (!s.pc.Waiting? ==> s.quits > 0)
    && (s.pc.ReadCompleted? || s.pc.ReadBoth? ==> s.pc.completed)
    && (s.pc.ReadBoth? ==> s.pc.success == s.exchanged[0])
  }

  lemma SyncedStep(s: State, a: Action)
    requires Enabled(s, a) && Synced(s)
    ensures Synced(Step(s, a))
  {
    match a
    case Spawn(_) =>
    case Act(k) =>
    case Wait(open) => SyncedWait(s, open);
    case Idle =>
  }

  lemma SyncedWait(s: State, open: bool)
    requires Synced(s)
    ensures Synced(WaitStep(s, open))
  {
    match s.pc
    case Home =>
    case Cleared =>
    case _ =>
  }

  lemma ActKeepsClean(s: State, k: nat)
    requires k < |s.actors| && !s.actors[k].Done? && Listening(s) && Synced(s) && Clean(s)
    ensures Clean(ActStep(s, k)) && ActStep(s, k).quits >= s.quits
    ensures s.exchanged <= ActStep(s, k).exchanged
  {
    var t := ActStep(s, k);
    assert forall j :: 0 <= j < |s.actors| && j != k ==> t.actors[j] == s.actors[j];
  }

  lemma SpawnKeepsClean(s: State, actor: Completer)
    requires Clean(s) && !InFlight(actor)
    ensures Clean(s.(actors := s.actors + [actor]))
  {
    var t := s.(actors := s.actors + [actor]);
    assert forall k :: 0 <= k < |s.actors| ==> t.actors[k] == s.actors[k];
  }

  lemma WaitSoundStep(s: State, a: Action)
    requires Enabled(s, a) && WaitSound(s)
    ensures var t := Step(s, a);
            if s.pc.ReadBoth? && a.Wait? then |t.outcomes| == |s.outcomes| + 1 && s.outcomes <= t.outcomes &&
                                              Good(t.outcomes[|s.outcomes|]) && !Listening(t)
            else WaitSound(t) && t.outcomes == s.outcomes
  {
    SyncedStep(s, a);
    match a
    case Spawn(actor) => SpawnKeepsClean(s, actor);
    case Act(k) => ActKeepsClean(s, k);
    case Wait(_) =>
    case Idle =>
  }

  predicate Publishes(s: State, a: Action) {
    a.Wait? && a.open && s.pc.Cleared?
  }

  /** Every wait is clean when it publishes its loop. */
  predicate CleanRun(s: State, acts: seq<Action>)
    decreases |acts|
  {
    acts == [] || (Enabled(s, acts[0]) && (Publishes(s, acts[0]) ==> Clean(Step(s, acts[0]))) &&
                   CleanRun(Step(s, acts[0]), acts[1..]))
  }

  predicate AllGood(s: State) {
    forall k :: 0 <= k < |s.outcomes| ==> Good(s.outcomes[k])
  }

  lemma CleanStepSound(s: State, a: Action)
    requires Synced(s) && AllGood(s) && (Listening(s) ==> WaitSound(s))
    requires Enabled(s, a) && (Publishes(s, a) ==> Clean(Step(s, a)))
    ensures var t := Step(s, a); Synced(t) && AllGood(t) && (Listening(t) ==> WaitSound(t))
  {
    SyncedStep(s, a);
    if Listening(s) {
      WaitSoundStep(s, a);
    } else {
      ElsewhereStep(s, a);
    }
  }

  lemma ElsewhereStep(s: State, a: Action)
    requires Enabled(s, a) && !Listening(s)
    ensures Step(s, a).outcomes == s.outcomes
    ensures Listening(Step(s, a)) ==> Publishes(s, a) && Step(s, a).pc.Waiting?
  {
    match a
    case Spawn(_) =>
    case Act(k) => ActKeepsPc(s, k);
    case Wait(_) =>
    case Idle =>
  }

  lemma ActKeepsPc(s: State, k: nat)
    requires k < |s.actors|
    ensures ActStep(s, k).pc == s.pc && ActStep(s, k).outcomes == s.outcomes && ActStep(s, k).loop == s.loop
    ensures s.exchanged <= ActStep(s, k).exchanged
  {
  }

  lemma {:induction false} CleanRunSound(s: State, acts: seq<Action>)
    requires Synced(s) && AllGood(s) && (Listening(s) ==> WaitSound(s)) && CleanRun(s, acts)
    ensures EnabledRun(s, acts) && AllGood(Run(s, acts))
    decreases |acts|
  {
    if acts != [] {
      CleanStepSound(s, acts[0]);
      CleanRunSound(Step(s, acts[0]), acts[1..]);
    }
  }

  /** Over any run of any number of waits and completers in which every wait is clean
      when it publishes its loop: every wait that leaves the loop returns with
      `completed` set and the verdict of the completer whose exchange came first
      since its reset. */
  lemma FirstCompleterWins(acts: seq<Action>)
    requires CleanRun(INITIAL, acts)
    ensures EnabledRun(INITIAL, acts) && AllGood(Run(INITIAL, acts))
  {
    CleanRunSound(INITIAL, acts);
  }

  predicate NextGood(s: State, t: State) {
    |t.outcomes| > |s.outcomes| ==> Good(t.outcomes[|s.outcomes|])
  }

  lemma OutcomesGrow(s: State, a: Action)
    requires Enabled(s, a)
    ensures s.outcomes <= Step(s, a).outcomes
  {
    match a
    case Spawn(_) =>
    case Act(k) => ActKeepsPc(s, k);
    case Wait(_) =>
    case Idle =>
  }

  lemma {:induction false} OutcomesStay(s: State, acts: seq<Action>)
    requires EnabledRun(s, acts)
    ensures s.outcomes <= Run(s, acts).outcomes
    decreases |acts|
  {
    if acts != [] {
      OutcomesGrow(s, acts[0]);
      OutcomesStay(Step(s, acts[0]), acts[1..]);
    }
  }

  lemma {:induction false} CleanNext(s: State, acts: seq<Action>)
    requires WaitSound(s) && EnabledRun(s, acts)
    ensures NextGood(s, Run(s, acts))
    decreases |acts|
  {
    if acts != [] {
      var t := Step(s, acts[0]);
      WaitSoundStep(s, acts[0]);
      if s.pc.ReadBoth? && acts[0].Wait? {
        OutcomesStay(t, acts[1..]);
      } else {
        CleanNext(t, acts[1..]);
      }
    }
  }

  /** The exact condition, whatever happened before: from a waiter in its loop, every
      continuation makes this wait return the first completer's verdict if and only
      if the state is clean. */
  lemma VerdictIffClean(s: State)
    requires s.pc.Waiting? && Synced(s)
    ensures (forall acts :: EnabledRun(s, acts) ==> NextGood(s, Run(s, acts))) <==> Clean(s)
  {
    if Clean(s) {
      forall acts | EnabledRun(s, acts) ensures NextGood(s, Run(s, acts)) {
        CleanNext(s, acts);
      }
    } else {
      var acts, end := WrongVerdict(s);
      assert Run(s, acts) == end;
    }
  }

  /** What was left over finishes, and the waiter leaves with what it finds. */
  lemma WrongVerdict(s: State) returns (acts: seq<Action>, end: State)
    requires s.pc.Waiting? && Synced(s) && !Clean(s)
    ensures Reaches(s, acts, end) && !NextGood(s, end)
  {
    if s.quits > 0 && (s.exchanged == [] || s.success != s.exchanged[0]) {
      acts, end := LeaveBefore(s);
    } else if AnyStored(s) && (s.exchanged == [] || s.success != s.exchanged[0]) {
      var k :| 0 <= k < |s.actors| && s.actors[k].Stored?;
      acts, end := PostBefore(s, k);
    } else {
      var k :| 0 <= k < |s.actors| && s.actors[k].Won? &&
               (s.exchanged == [] || s.actors[k].verdict != s.exchanged[0]);
      var t := ActStep(s, k);
      acts, end := PostBefore(t, k);
      acts := Before(s, Act(k), t, acts, end);
    }
  }

  lemma PostBefore(s: State, k: nat) returns (acts: seq<Action>, end: State)
    requires s.pc.Waiting? && s.loop && k < |s.actors| && s.actors[k].Stored?
    ensures Reaches(s, acts, end)
    ensures end.outcomes == s.outcomes + [Outcome(s.completed, s.success, First(s))]
  {
    var t := ActStep(s, k);
    acts, end := LeaveBefore(t);
    acts := Before(s, Act(k), t, acts, end);
  }

  // ----- The proviso

  /** One winner at most is under way; it carries the first verdict; once it is
      done, that verdict is stored and exactly one quit is posted. */
  predicate LatchOk(s: State) {
    && (s.completed <==> s.exchanged != [])
    && (forall j, k :: 0 <= j < k < |s.actors| ==> !(InFlight(s.actors[j]) && InFlight(s.actors[k])))
    && (forall k :: 0 <= k < |s.actors| && InFlight(s.actors[k]) ==>
          s.quits == 0 && s.exchanged != [] && s.actors[k].verdict == s.exchanged[0])
    && (forall k :: 0 <= k < |s.actors| && s.actors[k].Stored? ==> s.success == s.actors[k].verdict)
    && (s.exchanged == [] ==> s.quits == 0)
    && (s.exchanged != [] && NoneInFlight(s) ==> s.quits == 1 && s.success == s.exchanged[0])
  }

  predicate Ok(s: State) {
    && (Entering(s) ==> s.exchanged == [] && !s.completed && NoneInFlight(s))
    && (Listening(s) ==> s.loop && LatchOk(s))
  }

  lemma ActKeepsLatch(s: State, k: nat)
    requires k < |s.actors| && !s.actors[k].Done? && s.loop && LatchOk(s)
    ensures LatchOk(ActStep(s, k))
    ensures s.quits > 0 ==> ActStep(s, k).success == s.success && ActStep(s, k).quits == s.quits
  {
    var t := ActStep(s, k);
    assert forall j :: 0 <= j < |s.actors| && j != k ==> t.actors[j] == s.actors[j];
    if s.actors[k].Ready? && !s.completed {
      assert InFlight(t.actors[k]);
    }
    if s.actors[k].Won? {
      assert InFlight(t.actors[k]);
    }
    if NoneInFlight(t) && !InFlight(s.actors[k]) {
      assert forall j :: 0 <= j < |s.actors| ==> j == k || !InFlight(t.actors[j]);
      assert NoneInFlight(s);
    }
  }

  lemma SpawnKeepsLatch(s: State, actor: Completer)
    requires LatchOk(s) && !InFlight(actor)
    ensures LatchOk(s.(actors := s.actors + [actor]))
  {
    var t := s.(actors := s.actors + [actor]);
    if NoneInFlight(t) {
      assert forall k :: 0 <= k < |s.actors| ==> t.actors[k] == s.actors[k];
    }
  }

  lemma StepOk(s: State, a: Action)
    requires Ok(s) && Enabled(s, a) && Quiet(s, a)
    ensures Ok(Step(s, a))
  {
    match a
    case Spawn(actor) =>
      if Listening(s) {
        SpawnKeepsLatch(s, actor);
      }
    case Act(k) =>
      if Listening(s) {
        ActKeepsLatch(s, k);
      }
    case Wait(open) => WaitOk(s, open);
    case Idle =>
  }

  lemma WaitOk(s: State, open: bool)
    requires Ok(s) && Enabled(s, Wait(open)) && Quiet(s, Wait(open))
    ensures Ok(WaitStep(s, open))
  {
    if Listening(s) {
      LeavingOk(s, open);
    } else if s.pc.Cleared? {
      PublishingOk(s, open);
    } else {
      EnteringOk(s, open);
    }
  }

  lemma LeavingOk(s: State, open: bool)
    requires Ok(s) && Listening(s)
    ensures Ok(WaitStep(s, open))
  {
    if !s.pc.ReadBoth? {
      LatchSame(s, WaitStep(s, open));
    }
  }

  lemma PublishingOk(s: State, open: bool)
    requires Ok(s) && s.pc.Cleared?
    ensures Ok(WaitStep(s, open))
  {
  }

  lemma EnteringOk(s: State, open: bool)
    requires Ok(s) && !Listening(s) && !s.pc.Cleared? && (s.pc.Home? ==> NoneInFlight(s))
    ensures Ok(WaitStep(s, open))
  {
    assert !Listening(WaitStep(s, open));
  }

  lemma LatchSame(s: State, t: State)
    requires LatchOk(s) && t == s.(pc := t.pc)
    ensures LatchOk(t)
  {
  }

  lemma {:induction false} QuietRunOk(s: State, acts: seq<Action>)
    requires Ok(s) && QuietRun(s, acts)
    ensures EnabledRun(s, acts) && Ok(Run(s, acts)) && CleanRun(s, acts)
    decreases |acts|
  {
    if acts != [] {
      StepOk(s, acts[0]);
      QuietRunOk(Step(s, acts[0]), acts[1..]);
    }
  }

  /** The proviso makes every wait clean: no completer between the reset and the
      publication, none that straddles the reset. */
  lemma QuietIsClean(acts: seq<Action>)
    requires QuietRun(INITIAL, acts)
    ensures CleanRun(INITIAL, acts) && EnabledRun(INITIAL, acts) && AllGood(Run(INITIAL, acts))
  {
    QuietRunOk(INITIAL, acts);
    FirstCompleterWins(acts);
  }

  // ----- No lost wake-up

  /** Under the proviso a wait gets exactly one quit, and has it as soon as some
      completer has run and none is half-way through. */
  lemma OneQuit(acts: seq<Action>)
    requires QuietRun(INITIAL, acts)
    ensures EnabledRun(INITIAL, acts)
    ensures var s := Run(INITIAL, acts);
            s.pc.Waiting? ==> s.quits <= 1 && (s.exchanged != [] && NoneInFlight(s) <==> s.quits == 1)
  {
    QuietRunOk(INITIAL, acts);
    var s := Run(INITIAL, acts);
    if s.pc.Waiting? && !NoneInFlight(s) {
      var k :| 0 <= k < |s.actors| && InFlight(s.actors[k]);
    }
  }

  /** How many steps of completers are needed before the quit is posted. */
  function Distance(s: State): nat {
    if s.quits > 0 then 0 else if AnyStored(s) then 1 else if AnyWon(s) then 2 else 3
  }

  /** A waiter that no quit will reach: completed, nobody under way, no quit. */
  predicate Stuck(s: State) {
    s.pc.Waiting? && s.completed && s.quits == 0 && NoneInFlight(s)
  }

  /** A waiter that is in its loop and not stuck. */
  predicate Waits(s: State) {
    s.pc.Waiting? && s.loop && !Stuck(s)
  }

  /** While the waiter waits, no step of a completer leads away from the quit or
      makes it stuck; the step of whoever is furthest leads closer. */
  lemma ActsApproachQuit(s: State, k: nat)
    requires Waits(s) && k < |s.actors| && !s.actors[k].Done?
    ensures Waits(ActStep(s, k)) && Distance(ActStep(s, k)) <= Distance(s)
    ensures Furthest(s, k) ==> Distance(ActStep(s, k)) < Distance(s)
  {
    var t := ActStep(s, k);
    assert forall j :: 0 <= j < |s.actors| && j != k ==> t.actors[j] == s.actors[j];
    assert t.actors[k].Stored? ==> AnyStored(t);
    assert t.actors[k].Won? ==> AnyWon(t);
  }

  predicate Furthest(s: State, k: nat)
    requires k < |s.actors|
  {
    match Distance(s)
    case 0 => false
    case 1 => s.actors[k].Stored?
    case 2 => s.actors[k].Won?
    case _ => s.actors[k].Ready?
  }

  lemma SpawnApproachesQuit(s: State, actor: Completer)
    requires Waits(s) && !InFlight(actor)
    ensures var t := s.(actors := s.actors + [actor]); Waits(t) && Distance(t) == Distance(s)
  {
    var t := s.(actors := s.actors + [actor]);
    assert forall j :: 0 <= j < |s.actors| ==> t.actors[j] == s.actors[j];
  }

  // ----- Fair runs without end

  type Trace = nat -> State

  type Schedule = nat -> Action

  predicate StepsAt(st: Trace, sched: Schedule, n: nat) {
    Enabled(st(n), sched(n)) && st(n + 1) == Step(st(n), sched(n))
  }

  ghost predicate IsTrace(st: Trace, sched: Schedule) {
    st(0) == INITIAL && forall n: nat :: StepsAt(st, sched, n)
  }

  predicate Live(s: State, k: nat) {
    k < |s.actors| && !s.actors[k].Done?
  }

  /** From `n` on something comes to pass at `m`. */
  predicate ActsAt(sched: Schedule, n: nat, k: nat, m: nat) {
    n <= m && sched(m) == Act(k)
  }

  predicate WaiterAt(sched: Schedule, n: nat, m: nat) {
    n <= m && sched(m).Wait?
  }

  predicate SpawnAt(sched: Schedule, n: nat, m: nat) {
    n <= m && sched(m).Spawn?
  }

  predicate PublishesAt(st: Trace, sched: Schedule, n: nat) {
    Publishes(st(n), sched(n))
  }

  predicate LeftAt(st: Trace, n: nat, m: nat) {
    n < m && st(m).pc.Left?
  }

  /** The wait published at `n` gets a completer at `m`, or is over then. */
  predicate TimerAt(st: Trace, sched: Schedule, n: nat, m: nat) {
    SpawnAt(sched, n + 1, m) || LeftAt(st, n, m)
  }

  /** Every completer that is not done acts at some time; a waiter with a quit posted
      takes its step at some time; and to every wait one completer comes behind the
      publication of its loop, the timer, unless the wait ends before. */
  ghost predicate Fair(st: Trace, sched: Schedule) {
    && (forall n: nat, k: nat :: Live(st(n), k) ==> exists m: nat :: ActsAt(sched, n, k, m))
    && (forall n: nat :: st(n).pc.Waiting? && st(n).quits > 0 ==> exists m: nat :: WaiterAt(sched, n, m))
    && (forall n: nat :: PublishesAt(st, sched, n) ==> exists m: nat :: TimerAt(st, sched, n, m))
  }

  lemma {:induction false} TraceSynced(st: Trace, sched: Schedule, n: nat)
    requires IsTrace(st, sched)
    ensures Synced(st(n))
  {
    if n > 0 {
      TraceSynced(st, sched, n - 1);
      assert StepsAt(st, sched, n - 1);
      SyncedStep(st(n - 1), sched(n - 1));
    }
  }

  /** One step of a waiter's wait. */
  lemma WaitsStep(st: Trace, sched: Schedule, n: nat)
    requires IsTrace(st, sched) && Waits(st(n))
    ensures if sched(n).Wait? then st(n + 1).pc.Left?
            else Waits(st(n + 1)) && Distance(st(n + 1)) <= Distance(st(n))
    ensures sched(n).Act? && Live(st(n), sched(n).k) && Furthest(st(n), sched(n).k) ==> Distance(st(n + 1)) < Distance(st(n))
  {
    assert StepsAt(st, sched, n);
    match sched(n)
    case Spawn(actor) => SpawnApproachesQuit(st(n), actor);
    case Act(k) => ActsApproachQuit(st(n), k);
    case Wait(_) =>
    case Idle =>
  }

  /** Up to `m` the waiter either leaves or gets no further away from its quit. */
  lemma {:induction false} WaitsUntil(st: Trace, sched: Schedule, n: nat, m: nat)
    returns (left: bool, j: nat)
    requires IsTrace(st, sched) && Waits(st(n)) && n <= m
    ensures if left then LeftAt(st, n, j) else Waits(st(m)) && Distance(st(m)) <= Distance(st(n))
    decreases m - n
  {
    left, j := false, m;
    if n < m {
      WaitsStep(st, sched, n);
      if sched(n).Wait? {
        return true, n + 1;
      }
      left, j := WaitsUntil(st, sched, n + 1, m);
    }
  }

  /** The first time from `n` on that completer `k` acts; until then it is as it was. */
  lemma {:induction false} FirstAct(st: Trace, sched: Schedule, n: nat, k: nat, m: nat)
    returns (f: nat)
    requires IsTrace(st, sched) && Live(st(n), k) && ActsAt(sched, n, k, m)
    ensures ActsAt(sched, n, k, f) && k < |st(f).actors| && st(f).actors[k] == st(n).actors[k]
    decreases m - n
  {
    if sched(n) == Act(k) {
      return n;
    }
    assert StepsAt(st, sched, n);
    f := FirstAct(st, sched, n + 1, k, m);
  }

  /** A completer that is ready, else one that is aborting, else none yet. */
  function Rank(s: State): nat {
    if exists k :: 0 <= k < |s.actors| && s.actors[k].Ready? then 0
    else if exists k :: 0 <= k < |s.actors| && s.actors[k].Aborting? then 1
    else 2
  }

  predicate Closer(t: State, s: State) {
    Distance(t) < Distance(s) || (Distance(t) == Distance(s) && Rank(t) < Rank(s))
  }

  /** Who leads closer to the quit, if anybody does yet. */
  lemma Leader(s: State) returns (k: nat)
    requires Waits(s) && s.quits == 0 && (Distance(s) < 3 || Rank(s) < 2)
    ensures Live(s, k) && (Furthest(s, k) || (Distance(s) == 3 && Rank(s) == 1 && s.actors[k].Aborting?))
  {
    if AnyStored(s) {
      k :| 0 <= k < |s.actors| && s.actors[k].Stored?;
    } else if AnyWon(s) {
      k :| 0 <= k < |s.actors| && s.actors[k].Won?;
    } else if exists j :: 0 <= j < |s.actors| && s.actors[j].Ready? {
      k :| 0 <= k < |s.actors| && s.actors[k].Ready?;
    } else {
      k :| 0 <= k < |s.actors| && s.actors[k].Aborting?;
    }
  }

  /** Something fair happens next: the waiter leaves, or gets closer to its quit. */
  lemma Progress(st: Trace, sched: Schedule, n: nat) returns (left: bool, j: nat)
    requires IsTrace(st, sched) && Fair(st, sched) && Waits(st(n)) && st(n).quits == 0
    ensures if left then LeftAt(st, n, j)
            else n <= j && Waits(st(j)) && Closer(st(j), st(n))
  {
    if Distance(st(n)) < 3 || Rank(st(n)) < 2 {
      var k := Leader(st(n));
      left, j := LeaderActs(st, sched, n, k);
    } else {
      left, j := SomebodyComes(st, sched, n);
    }
  }

  lemma LeaderActs(st: Trace, sched: Schedule, n: nat, k: nat) returns (left: bool, j: nat)
    requires IsTrace(st, sched) && Fair(st, sched) && Waits(st(n)) && Live(st(n), k)
    requires Furthest(st(n), k) || (Distance(st(n)) == 3 && Rank(st(n)) == 1 && st(n).actors[k].Aborting?)
    ensures if left then LeftAt(st, n, j)
            else n <= j && Waits(st(j)) && Closer(st(j), st(n))
  {
    var m: nat :| ActsAt(sched, n, k, m);
    m := FirstAct(st, sched, n, k, m);
    left, j := WaitsUntil(st, sched, n, m);
    if !left {
      j := m;
      if Distance(st(m)) == Distance(st(n)) {
        assert StepsAt(st, sched, m);
        WaitsStep(st, sched, m);
        j := m + 1;
        assert st(n).actors[k].Aborting? ==> st(j).actors[k].Ready?;
      }
    }
  }

  ghost predicate WaitingThroughout(st: Trace, p: nat, n: nat) {
    forall i: nat :: p < i <= n ==> st(i).pc.Waiting?
  }

  /** When the present wait published its loop. */
  lemma {:induction false} Publication(st: Trace, sched: Schedule, n: nat) returns (p: nat)
    requires IsTrace(st, sched) && st(n).pc.Waiting?
    ensures p < n && PublishesAt(st, sched, p) && WaitingThroughout(st, p, n)
  {
    p := n - 1;
    assert StepsAt(st, sched, p);
    if st(p).pc.Waiting? {
      p := Publication(st, sched, p);
    }
  }

  /** As long as nobody has exchanged in a wait, a completer that came to it is still
      to complete it. */
  lemma {:induction false} Unspent(st: Trace, sched: Schedule, m: nat, n: nat, k: nat)
    requires IsTrace(st, sched) && m <= n && st(m).pc.Waiting? && WaitingThroughout(st, m, n)
    requires k < |st(m).actors| && Unstarted(st(m).actors[k]) && st(n).exchanged == []
    ensures k < |st(n).actors| && Unstarted(st(n).actors[k])
    decreases n
  {
    if m < n {
      assert StepsAt(st, sched, n - 1);
      assert st(n - 1).pc.Waiting? && st(n).pc.Waiting?;
      ExchangedGrows(st(n - 1), sched(n - 1));
      Unspent(st, sched, m, n - 1, k);
      UnstartedStep(st(n - 1), sched(n - 1), k);
    }
  }

  lemma ExchangedGrows(s: State, a: Action)
    requires Enabled(s, a) && s.pc.Waiting?
    ensures s.exchanged <= Step(s, a).exchanged
  {
    match a
    case Spawn(_) =>
    case Act(k) => ActKeepsPc(s, k);
    case Wait(_) =>
    case Idle =>
  }

  lemma UnstartedStep(s: State, a: Action, k: nat)
    requires Enabled(s, a) && s.pc.Waiting? && k < |s.actors| && Unstarted(s.actors[k])
    requires Step(s, a).exchanged == []
    ensures k < |Step(s, a).actors| && Unstarted(Step(s, a).actors[k])
  {
    match a
    case Spawn(_) =>
    case Act(j) =>
    case Wait(_) =>
    case Idle =>
  }

  predicate Unstarted(actor: Completer) {
    actor.Ready? || actor.Aborting?
  }

  /** With all completers done and no exchange yet, the one that every wait gets is
      still to come. */
  lemma StillToCome(st: Trace, sched: Schedule, n: nat) returns (left: bool, m: nat)
    requires IsTrace(st, sched) && Fair(st, sched) && Waits(st(n)) && Rank(st(n)) == 2 && Distance(st(n)) == 3
    ensures if left then LeftAt(st, n, m) else SpawnAt(sched, n, m)
  {
    var p := Publication(st, sched, n);
    m :| TimerAt(st, sched, p, m);
    left := LeftAt(st, p, m);
    TraceSynced(st, sched, n);
    NobodyYet(st(n));
    if !left && m < n {
      var k := |st(m).actors|;
      assert StepsAt(st, sched, m);
      assert st(m).pc.Waiting? && st(m + 1).pc.Waiting?;
      Unspent(st, sched, m + 1, n, k);
      assert false;
    }
  }

  lemma NobodyYet(s: State)
    requires Waits(s) && Synced(s) && Rank(s) == 2 && Distance(s) == 3
    ensures s.exchanged == []
    ensures forall k :: 0 <= k < |s.actors| ==> !Unstarted(s.actors[k])
  {
    assert NoneInFlight(s);
  }

  lemma SomebodyComes(st: Trace, sched: Schedule, n: nat) returns (left: bool, j: nat)
    requires IsTrace(st, sched) && Fair(st, sched) && Waits(st(n)) && Rank(st(n)) == 2 && Distance(st(n)) == 3
    ensures if left then LeftAt(st, n, j)
            else n <= j && Waits(st(j)) && Closer(st(j), st(n))
  {
    var m: nat;
    left, m := StillToCome(st, sched, n);
    if left {
      return true, m;
    }
    left, j := WaitsUntil(st, sched, n, m);
    if !left {
      assert StepsAt(st, sched, m);
      WaitsStep(st, sched, m);
      j := m + 1;
      var last := |st(m).actors|;
      assert st(j).actors[last].Ready? || st(j).actors[last].Aborting?;
    }
  }

  lemma {:induction false} FairLeaves(st: Trace, sched: Schedule, n: nat) returns (j: nat)
    requires IsTrace(st, sched) && Fair(st, sched) && Waits(st(n))
    ensures LeftAt(st, n, j)
    decreases Distance(st(n)), Rank(st(n))
  {
    var left: bool;
    if st(n).quits > 0 {
      var m: nat :| WaiterAt(sched, n, m);
      left, j := WaitsUntil(st, sched, n, m);
      if !left {
        WaitsStep(st, sched, m);
        j := m + 1;
      }
    } else {
      left, j := Progress(st, sched, n);
      if !left {
        j := FairLeaves(st, sched, j);
      }
    }
  }

  /** On every fair run without end, the proviso kept or not: a waiter in its loop
      leaves it if and only if it is not stuck. */
  lemma FairRunLeavesIff(st: Trace, sched: Schedule, n: nat)
    requires IsTrace(st, sched) && Fair(st, sched) && st(n).pc.Waiting?
    ensures (exists j: nat :: LeftAt(st, n, j)) <==> !Stuck(st(n))
  {
    TraceSynced(st, sched, n);
    if Stuck(st(n)) {
      forall j: nat ensures !LeftAt(st, n, j) {
        if n < j {
          StuckStays(st, sched, n, j);
        }
      }
    } else {
      var j := FairLeaves(st, sched, n);
    }
  }

  lemma {:induction false} StuckStays(st: Trace, sched: Schedule, n: nat, m: nat)
    requires IsTrace(st, sched) && Stuck(st(n)) && n <= m
    ensures Stuck(st(m))
    decreases m - n
  {
    if n < m {
      assert StepsAt(st, sched, n);
      StuckStep(st(n), sched(n));
      StuckStays(st, sched, n + 1, m);
    }
  }

  /** Under the proviso no waiter is ever stuck: every fair run leaves the loop, as
      often as it enters it. */
  lemma EveryFairRunLeaves(st: Trace, sched: Schedule, n: nat)
    requires IsTrace(st, sched) && Fair(st, sched) && st(n).pc.Waiting?
    requires forall i: nat :: i < n ==> Quiet(st(i), sched(i))
    ensures exists j: nat :: LeftAt(st, n, j)
  {
    QuietTraceOk(st, sched, n);
    FairRunLeavesIff(st, sched, n);
  }

  lemma {:induction false} QuietTraceOk(st: Trace, sched: Schedule, n: nat)
    requires IsTrace(st, sched) && forall i: nat :: i < n ==> Quiet(st(i), sched(i))
    ensures Ok(st(n))
  {
    if n > 0 {
      QuietTraceOk(st, sched, n - 1);
      assert StepsAt(st, sched, n - 1);
      StepOk(st(n - 1), sched(n - 1));
    }
  }

  /** A run in which a response comes to a wait that keeps the proviso. */
  function KeptRun(n: nat): State {
    var s := INITIAL.(pc := Waiting, loop := true);
    if n == 0 then INITIAL
    else if n == 1 then INITIAL.(pc := Clearing2)
    else if n == 2 then INITIAL.(pc := Clearing3)
    else if n == 3 then INITIAL.(pc := Cleared)
    else if n == 4 then s
    else if n == 5 then s.(actors := [Ready(true)])
    else if n == 6 then s.(completed := true, exchanged := [true], actors := [Won(true)])
    else if n == 7 then s.(completed := true, success := true, exchanged := [true], actors := [Stored(true)])
    else
      s.(pc := if n == 8 then Waiting else Left, completed := true, success := true, exchanged := [true],
         quits := 1, actors := [Done])
  }

  function KeptSchedule(n: nat): Action {
    if n < 4 || n == 8 then Wait(true)
    else if n == 4 then Spawn(Ready(true))
    else if n < 8 then Act(0)
    else Idle
  }

  /** Fair runs that keep the proviso and wait exist, with a single completer. */
  lemma KeptRunIsFair()
    ensures IsTrace(KeptRun, KeptSchedule) && KeptRun(4).pc.Waiting?
    ensures forall n: nat :: Quiet(KeptRun(n), KeptSchedule(n))
    ensures forall n: nat :: KeptSchedule(n).Spawn? ==> n == 4
    ensures Fair(KeptRun, KeptSchedule)
  {
    KeptIsTrace();
    KeptIsFair();
  }

  lemma KeptIsTrace()
    ensures IsTrace(KeptRun, KeptSchedule)
    ensures forall n: nat :: Quiet(KeptRun(n), KeptSchedule(n))
  {
    forall n: nat ensures StepsAt(KeptRun, KeptSchedule, n) && Quiet(KeptRun(n), KeptSchedule(n)) {
      KeptStep(n);
    }
  }

  lemma KeptIsFair()
    ensures Fair(KeptRun, KeptSchedule)
  {
    var st, sched := KeptRun, KeptSchedule;
    forall n: nat, k: nat | Live(st(n), k) ensures exists m: nat :: ActsAt(sched, n, k, m) {
      KeptTimes(n, k);
      assert ActsAt(sched, n, k, 7);
    }
    forall n: nat | st(n).pc.Waiting? && st(n).quits > 0 ensures exists m: nat :: WaiterAt(sched, n, m) {
      KeptTimes(n, 0);
      assert WaiterAt(sched, n, 8);
    }
    forall n: nat | PublishesAt(st, sched, n)
      ensures exists m: nat :: TimerAt(st, sched, n, m)
    {
      KeptTimes(n, 0);
      assert TimerAt(st, sched, n, 4);
    }
  }

  lemma KeptTimes(n: nat, k: nat)
    ensures Live(KeptRun(n), k) ==> n <= 7 && k == 0
    ensures KeptRun(n).pc.Waiting? && KeptRun(n).quits > 0 ==> n == 8
    ensures Publishes(KeptRun(n), KeptSchedule(n)) ==> n == 3
  {
  }

  lemma KeptStep(n: nat)
    ensures StepsAt(KeptRun, KeptSchedule, n) && Quiet(KeptRun(n), KeptSchedule(n))
  {
    var s, a, t := KeptRun(n), KeptSchedule(n), KeptRun(n + 1);
    if n < 4 {
      assert t == WaitStep(s, true);
    } else if n == 4 || n > 8 {
      assert t == Step(s, a);
    } else if n < 8 {
      assert t == ActStep(s, 0);
    } else {
      assert t == WaitStep(s, true);
    }
  }

  /** A run in which a response comes between the reset and the publication, and
      then the timer to a latch already taken. */
  function LostRun(n: nat): State {
    var s := INITIAL.(pc := Cleared, completed := true, exchanged := [true]);
    if n == 0 then INITIAL
    else if n == 1 then INITIAL.(actors := [Ready(true)])
    else if n == 2 then INITIAL.(actors := [Ready(true)], pc := Clearing2)
    else if n == 3 then INITIAL.(actors := [Ready(true)], pc := Clearing3)
    else if n == 4 then INITIAL.(actors := [Ready(true)], pc := Cleared)
    else if n == 5 then s.(actors := [Won(true)])
    else if n == 6 then s.(success := true, actors := [Stored(true)])
    else if n == 7 then s.(success := true, actors := [Done])
    else
      var w := s.(success := true, pc := Waiting, loop := true);
      if n == 8 then w.(actors := [Done])
      else if n == 9 then w.(actors := [Done, Ready(false)])
      else w.(exchanged := [true, false], actors := [Done, Done])
  }

  function LostSchedule(n: nat): Action {
    if n == 0 then Spawn(Ready(true))
    else if n < 4 || n == 7 then Wait(true)
    else if n < 7 then Act(0)
    else if n == 8 then Spawn(Ready(false))
    else if n == 9 then Act(1)
    else Idle
  }

  /** The lost wake-up on a fair run without end: the timer comes to the wait, and the
      waiter stays in its loop for ever. */
  lemma LostForever()
    ensures IsTrace(LostRun, LostSchedule) && Fair(LostRun, LostSchedule)
    ensures PublishesAt(LostRun, LostSchedule, 7) && forall n: nat :: n > 7 ==> LostRun(n).pc.Waiting?
  {
    LostIsTrace();
    LostIsFair();
    forall n: nat ensures n > 7 ==> LostRun(n).pc.Waiting? {
      LostTimes(n, 0);
    }
  }

  lemma LostIsTrace()
    ensures IsTrace(LostRun, LostSchedule)
  {
    forall n: nat ensures StepsAt(LostRun, LostSchedule, n) {
      LostStep(n);
    }
  }

  lemma LostIsFair()
    ensures Fair(LostRun, LostSchedule)
  {
    var st, sched := LostRun, LostSchedule;
    forall n: nat, k: nat | Live(st(n), k) ensures exists m: nat :: ActsAt(sched, n, k, m) {
      LostTimes(n, k);
      assert ActsAt(sched, n, k, if k == 0 then 6 else 9);
    }
    forall n: nat ensures st(n).quits == 0 {
      LostTimes(n, 0);
    }
    forall n: nat | PublishesAt(st, sched, n)
      ensures exists m: nat :: TimerAt(st, sched, n, m)
    {
      LostTimes(n, 0);
      assert TimerAt(st, sched, n, 8);
    }
  }

  lemma LostTimes(n: nat, k: nat)
    ensures Live(LostRun(n), k) ==> if k == 0 then n <= 6 else k == 1 && n == 9
    ensures LostRun(n).quits == 0 && (n > 7 ==> LostRun(n).pc.Waiting?)
    ensures Publishes(LostRun(n), LostSchedule(n)) ==> n == 7
  {
  }

  lemma LostStep(n: nat)
    ensures StepsAt(LostRun, LostSchedule, n)
  {
    var s, a, t := LostRun(n), LostSchedule(n), LostRun(n + 1);
    if 0 < n < 4 || n == 7 {
      assert t == WaitStep(s, true);
    } else if 3 < n < 7 {
      assert t == ActStep(s, 0);
    } else if n == 9 {
      assert t == ActStep(s, 1);
    } else {
      assert t == Step(s, a);
    }
  }

  // ----- Stuck waiters

  lemma StuckStep(s: State, a: Action)
    requires Stuck(s) && Enabled(s, a)
    ensures Stuck(Step(s, a))
  {
    var t := Step(s, a);
    assert forall j :: 0 <= j < |s.actors| && !(a.Act? && a.k == j) ==> t.actors[j] == s.actors[j];
  }

  lemma {:induction false} StuckForever(s: State, acts: seq<Action>)
    requires Stuck(s) && EnabledRun(s, acts)
    ensures Stuck(Run(s, acts))
    decreases |acts|
  {
    if acts != [] {
      StuckStep(s, acts[0]);
      StuckForever(Step(s, acts[0]), acts[1..]);
    }
  }

  lemma ActTwice(s: State, k: nat)
    requires s.pc.Waiting? && s.loop && k < |s.actors| && s.actors[k].Won?
    ensures EnabledRun(s, [Act(k), Act(k), Wait(true)]) && Run(s, [Act(k), Act(k), Wait(true)]).pc.Left?
  {
    var s1 := ActStep(s, k);
    var s2 := ActStep(s1, k);
    assert [Act(k), Act(k), Wait(true)][1..] == [Act(k), Wait(true)];
    ActOnce(s1, k);
  }

  lemma ActOnce(s: State, k: nat)
    requires s.pc.Waiting? && s.loop && k < |s.actors| && s.actors[k].Stored?
    ensures EnabledRun(s, [Act(k), Wait(true)]) && Run(s, [Act(k), Wait(true)]).pc.Left?
  {
    assert [Act(k), Wait(true)][1..] == [Wait(true)] && [Wait(true)][1..] == [];
    var t := ActStep(s, k);
    assert Run(t, [Wait(true)]) == Step(t, Wait(true));
  }

  /** A way out of the loop: the winner finishes, or else the timer completes. */
  lemma WayOut(s: State) returns (acts: seq<Action>)
    requires s.pc.Waiting? && s.loop && !Stuck(s)
    ensures EnabledRun(s, acts) && Run(s, acts).pc.Left?
  {
    if s.quits > 0 {
      acts := [Wait(true)];
      assert acts[1..] == [];
    } else if exists k :: 0 <= k < |s.actors| && s.actors[k].Stored? {
      var k :| 0 <= k < |s.actors| && s.actors[k].Stored?;
      ActOnce(s, k);
      acts := [Act(k), Wait(true)];
    } else if exists k :: 0 <= k < |s.actors| && s.actors[k].Won? {
      var k :| 0 <= k < |s.actors| && s.actors[k].Won?;
      ActTwice(s, k);
      acts := [Act(k), Act(k), Wait(true)];
    } else {
      var k := |s.actors|;
      var s1 := Step(s, Spawn(Ready(false)));
      var s2 := ActStep(s1, k);
      ActTwice(s2, k);
      var rest := [Act(k), Act(k), Wait(true)];
      acts := [Spawn(Ready(false)), Act(k)] + rest;
      assert acts[1..] == [Act(k)] + rest && acts[1..][1..] == rest;
      assert EnabledRun(s1, acts[1..]) && Run(s1, acts[1..]) == Run(s2, rest);
    }
  }

  /** Without the proviso: from any state in the loop, the waiter can still leave
      exactly when it is not stuck. */
  lemma LeavesIffNotStuck(s: State)
    requires s.pc.Waiting? && s.loop
    ensures (exists acts :: EnabledRun(s, acts) && Run(s, acts).pc.Left?) <==> !Stuck(s)
  {
    if Stuck(s) {
      forall acts | EnabledRun(s, acts) ensures !Run(s, acts).pc.Left? {
        StuckForever(s, acts);
      }
    } else {
      var acts := WayOut(s);
    }
  }

  // ----- Why the proviso is needed

  predicate Reaches(s: State, acts: seq<Action>, t: State) {
    EnabledRun(s, acts) && Run(s, acts) == t
  }

  /** One more step in front of a run. */
  lemma Before(s: State, a: Action, m: State, acts: seq<Action>, t: State)
    returns (longer: seq<Action>)
    requires Enabled(s, a) && Step(s, a) == m && Reaches(m, acts, t)
    ensures Reaches(s, longer, t)
  {
    longer := [a] + acts;
    assert longer[1..] == acts;
  }

  /** The waiter's first three steps, its reset. */
  lemma ResetBefore(s: State, acts: seq<Action>, t: State)
    returns (longer: seq<Action>)
    requires s.pc.Home?
    requires Reaches(s.(pc := Cleared, completed := false, success := false, abort := false, exchanged := []), acts, t)
    ensures Reaches(s, longer, t)
  {
    var s1 := WaitStep(s, true);
    var s2 := WaitStep(s1, true);
    var s3 := WaitStep(s2, true);
    longer := Before(s2, Wait(true), s3, acts, t);
    longer := Before(s1, Wait(true), s2, longer, t);
    longer := Before(s, Wait(true), s1, longer, t);
  }

  /** A completer that runs between the reset and the publication takes the latch
      and posts no quit: the waiter enters its loop stuck. */
  lemma LostWakeUp(v: bool)
    returns (acts: seq<Action>, end: State)
    ensures Reaches(INITIAL, acts, end) && Stuck(end)
  {
    var s0 := INITIAL.(actors := [Ready(v)]);
    acts, end := Unheard(v, s0.(pc := Cleared));
    acts := ResetBefore(s0, acts, end);
    acts := Before(INITIAL, Spawn(Ready(v)), s0, acts, end);
  }

  lemma Unheard(v: bool, s: State)
    returns (acts: seq<Action>, end: State)
    requires s == INITIAL.(actors := [Ready(v)], pc := Cleared)
    ensures Reaches(s, acts, end) && Stuck(end)
  {
    var s2 := s.(completed := true, exchanged := [v], actors := [Won(v)]);
    var s3 := s2.(success := v, actors := [Stored(v)]);
    var s4 := s3.(actors := [Done]);
    end := s4.(pc := Waiting, loop := true);
    acts := Before(s4, Wait(true), end, [], end);
    acts := Before(s3, Act(0), s4, acts, end);
    acts := Before(s2, Act(0), s3, acts, end);
    acts := Before(s, Act(0), s2, acts, end);
  }

  /** From the quit on, the waiter returns what it finds stored. */
  lemma LeaveBefore(s: State) returns (acts: seq<Action>, end: State)
    requires s.pc.Waiting? && s.quits > 0
    ensures Reaches(s, acts, end)
    ensures end.outcomes == s.outcomes + [Outcome(s.completed, s.success, First(s))]
  {
    var c, v := s.completed, s.success;
    var s1 := s.(pc := Left);
    var s2 := s.(pc := ReadCompleted(c));
    var s3 := s.(pc := ReadBoth(c, v));
    end := s.(pc := Closing2(c, v), completed := false, outcomes := s.outcomes + [Outcome(c, v, First(s))]);
    acts := Before(s3, Wait(true), end, [], end);
    acts := Before(s2, Wait(true), s3, acts, end);
    acts := Before(s1, Wait(true), s2, acts, end);
    acts := Before(s, Wait(true), s1, acts, end);
  }

  /** A completer left half-way through by the reset stores its verdict over the
      first completer's: the wait returns success although the first verdict of
      this wait was failure. */
  lemma StaleVerdict() returns (acts: seq<Action>, end: State)
    ensures Reaches(INITIAL, acts, end)
    ensures end.outcomes == [Outcome(true, true, Some(false))]
  {
    var s0 := INITIAL.(actors := [Ready(true)]);
    var s1 := s0.(completed := true, exchanged := [true], actors := [Won(true)]);
    var s2 := s1.(pc := Cleared, completed := false, exchanged := []);
    var s3 := s2.(pc := Waiting, loop := true);
    acts, end := Overwritten(s3);
    acts := Before(s2, Wait(true), s3, acts, end);
    acts := ResetBefore(s1, acts, end);
    acts := Before(s0, Act(0), s1, acts, end);
    acts := Before(INITIAL, Spawn(Ready(true)), s0, acts, end);
  }

  /** A second completer exchanges and stores before the one left over stores. */
  lemma Overwritten(s: State) returns (acts: seq<Action>, end: State)
    requires s == INITIAL.(pc := Waiting, loop := true, actors := [Won(true)])
    ensures Reaches(s, acts, end)
    ensures end.outcomes == [Outcome(true, true, Some(false))]
  {
    var s1 := s.(actors := [Won(true), Ready(false)]);
    var s2 := s1.(completed := true, exchanged := [false], actors := [Won(true), Won(false)]);
    var s3 := s2.(success := false, actors := [Won(true), Stored(false)]);
    var s4 := s3.(success := true, actors := [Stored(true), Stored(false)]);
    var s5 := s4.(quits := 1, actors := [Stored(true), Done]);
    acts, end := LeaveBefore(s5);
    acts := Before(s4, Act(1), s5, acts, end);
    acts := Before(s3, Act(0), s4, acts, end);
    acts := Before(s2, Act(1), s3, acts, end);
    acts := Before(s1, Act(1), s2, acts, end);
    acts := Before(s, Spawn(Ready(false)), s1, acts, end);
  }
}
