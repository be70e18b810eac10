/** The flash tool client: what its messages do to the flash wait, `TriggerFlash` on
    its worker thread, and its copy of the reconnect machine. */
module ToolClient {
  import opened ByteStrings
  import opened JsonStream
  import opened ToolStream
  import R = Reconnect
  import F = FlashWait

  const FUNCTION_FLASH := 1001

  /** A document from the flash service: `type`, `function_id`, `finalresult`,
      `status == "ok"`, and the progress report that `abstractFromJson` reads. */
  datatype Message = Message(kind: string, functionId: int, finalResult: bool, ok: bool,
                             progress: int, text: string)

  type Parser = Bytes -> Option<Message>

  function LowerCase(ch: char): char {
    if 'A' <= ch <= 'Z' then ch - 'A' + 'a' else ch
  }

  predicate MentionsAt(text: string, word: string, i: nat) {
    i + |word| <= |text| && forall k :: 0 <= k < |word| ==> LowerCase(text[i + k]) == word[k]
  }

  /** `text` contains `word`, which is in lower case, in any case. */
  predicate Mentions(text: string, word: string) {
    exists i :: 0 <= i <= |text| && MentionsAt(text, word, i)
  }

  predicate IsTerminalSuccess(text: string) {
    !Mentions(text, "fail") && !Mentions(text, "error")
  }

  /** What a message says to a waiting `TriggerFlash`, if anything. */
  function Verdict(m: Message): Option<bool> {
    if m.kind == "ind" then if m.progress >= 99 then Some(IsTerminalSuccess(m.text)) else None
    else if m.kind == "resp" && m.functionId == FUNCTION_FLASH then Some(m.finalResult && m.ok)
    else None
  }

  /** What a message does to the latch: a flash response is heard only by a waiting
      `TriggerFlash`, a progress report of 99 or more takes the latch at any time. */
  function Heard(listening: bool, m: Message): Option<bool> {
    if listening || m.kind == "ind" then Verdict(m) else None
  }

  /** The verdict of the first message that has one. */
  function FirstVerdict(parse: Parser, listening: bool, slices: seq<Bytes>): Option<bool> {
    if slices == [] then None
    else
      var m := parse(slices[0]);
      if m.Some? && Heard(listening, m.value).Some? then Heard(listening, m.value)
      else FirstVerdict(parse, listening, slices[1..])
  }

  /** The progress reports among messages. */
  function Reports(parse: Parser, slices: seq<Bytes>): seq<Message> {
    if slices == [] then [] else ReportOf(parse(slices[0])) + Reports(parse, slices[1..])
  }

  /** The reports passed on. */
  function Passed(subscribed: bool, parse: Parser, slices: seq<Bytes>): seq<Message> {
    if subscribed then Reports(parse, slices) else []
  }

  lemma {:induction false} FirstVerdictAppend(parse: Parser, listening: bool, xs: seq<Bytes>, ys: seq<Bytes>)
    ensures FirstVerdict(parse, listening, xs + ys) ==
            if FirstVerdict(parse, listening, xs).Some? then FirstVerdict(parse, listening, xs) else FirstVerdict(parse, listening, ys)
    decreases |xs|
  {
    if xs == [] {
      assert xs + ys == ys;
    } else {
      assert (xs + ys)[1..] == xs[1..] + ys;
      FirstVerdictAppend(parse, listening, xs[1..], ys);
    }
  }

  function ReportOf(m: Option<Message>): seq<Message> {
    if m.Some? && m.value.kind == "ind" then [m.value] else []
  }

  lemma {:induction false} ReportsAppend(parse: Parser, xs: seq<Bytes>, ys: seq<Bytes>)
    ensures Reports(parse, xs + ys) == Reports(parse, xs) + Reports(parse, ys)
    decreases |xs|
  {
    if xs == [] {
      assert xs + ys == ys;
    } else {
      assert (xs + ys)[1..] == xs[1..] + ys;
      ReportsAppend(parse, xs[1..], ys);
      PassedGlue(ReportOf(parse(xs[0])), Reports(parse, xs[1..]), Reports(parse, ys));
    }
  }

  /** The latch of the flash wait, as one thread sees it. */
  datatype Latch = Latch(completed: bool, success: bool, loop: bool, quits: nat)

  /** `ForceCompleteFlashWait` with nobody in between. */
  function Force(l: Latch, verdict: bool): Latch {
    if l.completed then l
    else l.(completed := true, success := verdict, quits := if l.loop then l.quits + 1 else l.quits)
  }

  function ForceFirst(l: Latch, verdict: Option<bool>): Latch {
    if verdict.Some? then Force(l, verdict.value) else l
  }

  /** Of two completers in a row, the first that has a verdict decides. */
  lemma ForceInOrder(l: Latch, v: Option<bool>, w: Option<bool>)
    ensures ForceFirst(ForceFirst(l, v), w) == ForceFirst(l, if v.Some? then v else w)
  {
  }

  /** One message and the rest of them, for the loop that handles them in turn. */
  lemma HandledNext(parse: Parser, listening: bool, slices: seq<Bytes>, k: nat, l: Latch, subscribed: bool, reported: seq<Message>)
    requires k < |slices|
    ensures ForceFirst(l, FirstVerdict(parse, listening, slices[k..])) ==
            ForceFirst(ForceFirst(l, FirstVerdict(parse, listening, [slices[k]])),
                       FirstVerdict(parse, listening, slices[k + 1..]))
    ensures reported + Passed(subscribed, parse, slices[k..]) ==
            reported + Passed(subscribed, parse, [slices[k]]) + Passed(subscribed, parse, slices[k + 1..])
  {
    var head, rest := [slices[k]], slices[k + 1..];
    assert slices[k..] == head + rest;
    FirstVerdictAppend(parse, listening, head, rest);
    ForceInOrder(l, FirstVerdict(parse, listening, head), FirstVerdict(parse, listening, rest));
    ReportsAppend(parse, head, rest);
    PassedGlue(reported, Passed(subscribed, parse, head), Passed(subscribed, parse, rest));
  }

  lemma PassedGlue(xs: seq<Message>, ys: seq<Message>, zs: seq<Message>)
    ensures xs + ys + zs == xs + (ys + zs)
  {
  }

  function LatchOf(s: F.State): Latch {
    Latch(s.completed, s.success, s.loop, s.quits)
  }

  /** A completer that takes its steps uninterrupted does what `Force` says. */
  lemma ForceIsUninterrupted(s: F.State, k: nat)
    requires k < |s.actors| && s.actors[k].Ready?
    ensures var s1 := F.ActStep(s, k);
            var s2 := F.ActStep(s1, k);
            var s3 := F.ActStep(s2, k);
            LatchOf(s3) == Force(LatchOf(s), s.actors[k].verdict) && s3.actors[k].Done?
  {
    var s1 := F.ActStep(s, k);
    assert s1.actors[k] == if s.completed then F.Done else F.Won(s.actors[k].verdict);
    var s2 := F.ActStep(s1, k);
    assert s2.actors[k] == if s.completed then F.Done else F.Stored(s.actors[k].verdict);
  }

  /** The same for `AbortFlashWait`, which stores its own flag before. */
  lemma AbortIsUninterrupted(s: F.State, k: nat)
    requires k < |s.actors| && s.actors[k].Aborting?
    ensures var s1 := F.ActStep(s, k);
            var s2 := F.ActStep(s1, k);
            var s3 := F.ActStep(s2, k);
            var s4 := F.ActStep(s3, k);
            LatchOf(s4) == Force(LatchOf(s), false) && s4.abort && s4.actors[k].Done?
  {
    var s1 := F.ActStep(s, k);
    assert s1.actors[k] == F.Ready(false) && LatchOf(s1) == LatchOf(s);
    ForceIsUninterrupted(s1, k);
  }

  /** The reset on entry, undisturbed, clears all three atomics before the loop is
      published, and the reset on exit clears them behind the reads. */
  lemma ResetIsUninterrupted(s: F.State)
    requires s.pc.Home? || s.pc.ReadBoth?
    ensures var t := F.WaitStep(F.WaitStep(F.WaitStep(s, true), true), true);
            && !t.completed && !t.success && !t.abort && t.actors == s.actors && t.quits == s.quits
            && (if s.pc.Home? then t.pc.Cleared? else t.pc == F.Closed(s.pc.completed, s.pc.success))
  {
    var t1 := F.WaitStep(s, true);
    var t2 := F.WaitStep(t1, true);
    assert !t2.completed && !t2.success;
  }

  /** The latch of a wait that nobody has completed. */
  const WAITING := Latch(false, false, true, 0)

  /** Who completes a wait that no message has completed: the timer, an abort, or
      another thread through `ForceCompleteFlashWait`. */
  datatype Ending = TimedOut | Aborted | Forced(verdict: bool)

  function EndingVerdict(ending: Ending): bool {
    ending.Forced? && ending.verdict
  }

  function VerdictOr(verdict: Option<bool>, ending: Ending): bool {
    if verdict.Some? then verdict.value else EndingVerdict(ending)
  }

  /** How far a wait reads: `used` chunks, which leave `data` in the receive buffer
      and bring `slices`, among them the first one with a verdict, if any. */
  datatype Wait = Wait(used: nat, data: Bytes, slices: seq<Bytes>, verdict: Option<bool>)

  /** The event loop of `TriggerFlash`, chunk by chunk. */
  function Follow(parse: Parser, data: Bytes, chunks: seq<Bytes>): Wait
    decreases |chunks|
  {
    if chunks == [] then Wait(0, data, [], None)
    else
      var f := Cut(data + chunks[0]);
      var v := FirstVerdict(parse, true, f.objects);
      if v.Some? then Wait(1, f.residue, f.objects, v)
      else
        var w := Follow(parse, f.residue, chunks[1..]);
        Wait(w.used + 1, w.data, f.objects + w.slices, w.verdict)
  }

  /** The first verdict of a stream, of which `kept` was read before. */
  function Answer(parse: Parser, kept: Bytes, chunks: seq<Bytes>): Option<bool> {
    FirstVerdict(parse, true, Cut(kept + Join(chunks)).objects)
  }

  /** What the first of some chunks and the others bring. */
  lemma CutFirst(parse: Parser, kept: Bytes, chunks: seq<Bytes>)
    requires chunks != []
    ensures var f := Cut(kept + chunks[0]);
            && Cut(kept + Join(chunks)) == Prepend(f.objects, Cut(f.residue + Join(chunks[1..])))
            && Answer(parse, kept, chunks) == if FirstVerdict(parse, true, f.objects).Some?
                                              then FirstVerdict(parse, true, f.objects)
                                              else Answer(parse, f.residue, chunks[1..])
  {
    assert kept + Join(chunks) == (kept + chunks[0]) + Join(chunks[1..]);
    CutAppend(kept + chunks[0], Join(chunks[1..]), 0);
    var f := Cut(kept + chunks[0]);
    FirstVerdictAppend(parse, true, f.objects, Cut(f.residue + Join(chunks[1..])).objects);
  }

  /** Said of the bytes as a stream, however they are cut: a wait finds the first
      verdict of the whole stream; it reads up to the chunk that brings that one, and
      no chunk more, or else all of them; and it takes out every message complete in
      what it reads. */
  lemma {:induction false} FollowStream(parse: Parser, kept: Bytes, chunks: seq<Bytes>)
    requires Cut(kept) == Framed([], kept)
    ensures var w := Follow(parse, kept, chunks);
            && w.verdict == Answer(parse, kept, chunks)
            && w.used <= |chunks| && Cut(w.data) == Framed([], w.data)
            && Cut(kept + Join(chunks[..w.used])) == Framed(w.slices, w.data)
            && Answer(parse, kept, chunks[..w.used]) == w.verdict
            && (if w.verdict.None? then w.used == |chunks|
                else w.used > 0 && Answer(parse, kept, chunks[..w.used - 1]).None?)
    decreases |chunks|
  {
    if chunks == [] {
      NothingRead(parse, kept, chunks);
    } else {
      var f := Cut(kept + chunks[0]);
      CutIdempotent(kept + chunks[0], 0);
      CutFirst(parse, kept, chunks);
      NothingRead(parse, kept, chunks);
      NothingRead(parse, f.residue, chunks[1..]);
      FollowStream(parse, f.residue, chunks[1..]);
      var w := Follow(parse, kept, chunks);
      PrefixFirst(parse, kept, chunks, w.used);
      if w.used > 1 {
        PrefixFirst(parse, kept, chunks, w.used - 1);
      }
    }
  }

  lemma NothingRead(parse: Parser, kept: Bytes, chunks: seq<Bytes>)
    requires Cut(kept) == Framed([], kept)
    ensures Cut(kept + Join(chunks[..0])) == Framed([], kept) && Answer(parse, kept, chunks[..0]).None?
  {
    assert chunks[..0] == [] && kept + Join([]) == kept;
  }

  lemma PrefixFirst(parse: Parser, kept: Bytes, chunks: seq<Bytes>, n: nat)
    requires 0 < n <= |chunks|
    ensures var f := Cut(kept + chunks[0]);
            && Cut(kept + Join(chunks[..n])) == Prepend(f.objects, Cut(f.residue + Join(chunks[1..][..n - 1])))
            && Answer(parse, kept, chunks[..n]) == if FirstVerdict(parse, true, f.objects).Some?
                                                   then FirstVerdict(parse, true, f.objects)
                                                   else Answer(parse, f.residue, chunks[1..][..n - 1])
  {
    assert chunks[..n][1..] == chunks[1..][..n - 1];
    CutFirst(parse, kept, chunks[..n]);
  }

  lemma PassedAppend(subscribed: bool, parse: Parser, xs: seq<Bytes>, ys: seq<Bytes>, reported: seq<Message>)
    ensures reported + Passed(subscribed, parse, xs) + Passed(subscribed, parse, ys) ==
            reported + Passed(subscribed, parse, xs + ys)
  {
    ReportsAppend(parse, xs, ys);
    PassedGlue(reported, Passed(subscribed, parse, xs), Passed(subscribed, parse, ys));
  }

  // ----- The outcome in terms of messages

  /** A flash response, or a progress report of 99 or more. */
  predicate Decides(m: Message) {
    (m.kind == "resp" && m.functionId == 1001) || (m.kind == "ind" && m.progress >= 99)
  }

  /** Letter by letter in lower or in upper case. */
  predicate InAnyCase(text: string, lower: string, upper: string)
    requires |lower| == |upper|
  {
    exists i :: 0 <= i <= |text| - |lower| && SpeltAt(text, lower, upper, i)
  }

  predicate SpeltAt(text: string, lower: string, upper: string, i: nat)
    requires |lower| == |upper| && i + |lower| <= |text|
  {
    forall k :: 0 <= k < |lower| ==> text[i + k] == lower[k] || text[i + k] == upper[k]
  }

  /** A response with final result and status ok, or a report that speaks of no
      failure and no error. */
  predicate GoodNews(m: Message) {
    if m.kind == "resp" then m.finalResult && m.ok
    else !InAnyCase(m.text, "fail", "FAIL") && !InAnyCase(m.text, "error", "ERROR")
  }

  predicate DecidesAt(parse: Parser, msgs: seq<Bytes>, k: nat)
    requires k < |msgs|
  {
    parse(msgs[k]).Some? && Decides(parse(msgs[k]).value)
  }

  predicate DecidesFirst(parse: Parser, msgs: seq<Bytes>, k: nat)
    requires k < |msgs|
  {
    DecidesAt(parse, msgs, k) && forall j :: 0 <= j < k ==> !DecidesAt(parse, msgs, j)
  }

  /** The first deciding message decides; without one, the timer and an abort mean
      failure, and another thread says what it means. */
  predicate OutcomeOf(parse: Parser, msgs: seq<Bytes>, ending: Ending, result: bool) {
    && (forall k :: 0 <= k < |msgs| && DecidesFirst(parse, msgs, k) ==> result == GoodNews(parse(msgs[k]).value))
    && ((forall k :: 0 <= k < |msgs| ==> !DecidesAt(parse, msgs, k)) ==>
          match ending
          case TimedOut => !result
          case Aborted => !result
          case Forced(verdict) => result == verdict)
  }

  lemma MentionsLetters(text: string, lower: string, upper: string)
    requires |lower| == |upper|
    requires forall k :: 0 <= k < |lower| ==> 'a' <= lower[k] <= 'z' && upper[k] == lower[k] - 'a' + 'A'
    ensures Mentions(text, lower) <==> InAnyCase(text, lower, upper)
  {
    forall i | 0 <= i <= |text| - |lower| ensures MentionsAt(text, lower, i) <==> SpeltAt(text, lower, upper, i) {
    }
    if Mentions(text, lower) {
      var i :| 0 <= i <= |text| && MentionsAt(text, lower, i);
      assert SpeltAt(text, lower, upper, i);
    }
    if InAnyCase(text, lower, upper) {
      var i :| 0 <= i <= |text| - |lower| && SpeltAt(text, lower, upper, i);
      assert MentionsAt(text, lower, i);
    }
  }

  /** What a message says is what it decides. */
  lemma VerdictMeans(m: Message)
    ensures Verdict(m) == if Decides(m) then Some(GoodNews(m)) else None
  {
    MentionsLetters(m.text, "fail", "FAIL");
    MentionsLetters(m.text, "error", "ERROR");
  }

  lemma {:induction false} FirstVerdictMeans(parse: Parser, msgs: seq<Bytes>)
    ensures match FirstVerdict(parse, true, msgs)
            case None => forall k :: 0 <= k < |msgs| ==> !DecidesAt(parse, msgs, k)
            case Some(v) => exists k :: 0 <= k < |msgs| && DecidesFirst(parse, msgs, k) &&
                                        v == GoodNews(parse(msgs[k]).value)
    decreases |msgs|
  {
    if msgs != [] {
      var m := parse(msgs[0]);
      if m.Some? {
        VerdictMeans(m.value);
      }
      if m.Some? && Decides(m.value) {
        assert DecidesFirst(parse, msgs, 0);
      } else {
        assert !DecidesAt(parse, msgs, 0);
        FirstVerdictMeans(parse, msgs[1..]);
        DecidesBehind(parse, msgs);
        if FirstVerdict(parse, true, msgs).Some? {
          var k :| 0 <= k < |msgs| - 1 && DecidesFirst(parse, msgs[1..], k) &&
                   FirstVerdict(parse, true, msgs) == Some(GoodNews(parse(msgs[1..][k]).value));
          assert DecidesFirst(parse, msgs, k + 1);
        }
      }
    }
  }

  lemma DecidesBehind(parse: Parser, msgs: seq<Bytes>)
    requires msgs != []
    ensures forall k :: 0 < k < |msgs| ==> (DecidesAt(parse, msgs, k) <==> DecidesAt(parse, msgs[1..], k - 1))
    ensures forall k :: 0 <= k < |msgs| - 1 ==> (DecidesAt(parse, msgs, k + 1) <==> DecidesAt(parse, msgs[1..], k))
  {
  }

  lemma OutcomeMeans(parse: Parser, msgs: seq<Bytes>, ending: Ending)
    ensures OutcomeOf(parse, msgs, ending, VerdictOr(FirstVerdict(parse, true, msgs), ending))
  {
    FirstVerdictMeans(parse, msgs);
  }

  lemma WaitMeans(parse: Parser, kept: Bytes, chunks: seq<Bytes>, ending: Ending) returns (w: Wait, result: bool)
    requires Cut(kept) == Framed([], kept)
    ensures w == Follow(parse, kept, chunks) && Cut(w.data) == Framed([], w.data)
    ensures result == VerdictOr(w.verdict, ending) == VerdictOr(Answer(parse, kept, chunks), ending)
    ensures OutcomeOf(parse, Cut(kept + Join(chunks)).objects, ending, result)
  {
    FollowStream(parse, kept, chunks);
    w := Follow(parse, kept, chunks);
    result := VerdictOr(w.verdict, ending);
    OutcomeMeans(parse, Cut(kept + Join(chunks)).objects, ending);
  }

  class WwanClientImpl {
    const parse: Parser
    const recvBuffer: ByteBuffer
    var completed: bool
    var success: bool
    var abort: bool
    var loop: bool
    var quits: nat
    var listening: bool

    var subscribed: bool
    var reported: seq<Message>

    var sock: R.Sock
    var stopping: bool
    var retryTimer: R.Timer
    var retryCount: nat
    var attempts: seq<R.Attempt>
    var eventRequests: nat

    ghost function WaitLatch(): Latch
      reads this
    {
      Latch(completed, success, loop, quits)
    }

    ghost function Link(): R.Link
      reads this
    {
      R.Link(sock, stopping, retryTimer, retryCount, attempts)
    }

    /** Between reads, no complete message is left in the receive buffer. */
    ghost predicate Settled()
      reads recvBuffer
    {
      Cut(recvBuffer.data) == Framed([], recvBuffer.data)
    }

    constructor (parse: Parser)
      ensures Settled() && WaitLatch() == Latch(false, false, false, 0) && Link() == R.NEW
      ensures this.parse == parse && fresh(recvBuffer) && recvBuffer.data == []
    {
      this.parse := parse;
      recvBuffer := new ByteBuffer();
      completed, success, abort, loop, quits, listening := false, false, false, false, 0, false;
      subscribed, reported := false, [];
      sock, stopping, retryTimer, retryCount, attempts := R.NoSocket, false, R.NoTimer, 0, [];
      eventRequests := 0;
    }

    // ----- The flash wait

    method ResetFlashWait()
      modifies this`completed, this`success, this`abort
      ensures !completed && !success && !abort
    {
      completed := false;
      success := false;
      abort := false;
    }

    method ForceCompleteFlashWait(verdict: bool)
      modifies this`completed, this`success, this`quits
      ensures WaitLatch() == Force(old(WaitLatch()), verdict)
    {
      var before := completed;
      completed := true;
      if before {
        return;
      }
      success := verdict;
      if loop {
        quits := quits + 1;
      }
    }

    method AbortFlashWait()
      modifies this`completed, this`success, this`quits, this`abort
      ensures WaitLatch() == Force(old(WaitLatch()), false) && abort
    {
      abort := true;
      ForceCompleteFlashWait(false);
    }

    method OnIndicationReceived(m: Message)
      requires m.kind == "ind"
      modifies this`completed, this`success, this`quits, this`reported
      ensures WaitLatch() == ForceFirst(old(WaitLatch()), Verdict(m))
      ensures reported == old(reported) + if subscribed then [m] else []
    {
      if m.progress >= 99 {
        ForceCompleteFlashWait(IsTerminalSuccess(m.text));
      }
      if subscribed {
        reported := reported + [m];
      }
    }

    /** One message, in a wait of `TriggerFlash` or outside. */
    method HandleOneSocketMessage(slice: Bytes)
      modifies this`completed, this`success, this`quits, this`reported
      ensures WaitLatch() == ForceFirst(old(WaitLatch()), FirstVerdict(parse, listening, [slice]))
      ensures reported == old(reported) + Passed(subscribed, parse, [slice])
      ensures var m := parse(slice);
              && WaitLatch() == (if m.Some? && Decides(m.value) && (listening || m.value.kind == "ind")
                                 then Force(old(WaitLatch()), GoodNews(m.value)) else old(WaitLatch()))
              && reported == old(reported) + if m.Some? && m.value.kind == "ind" && subscribed then [m.value] else []
    {
      var doc := parse(slice);
      if doc.Some? {
        VerdictMeans(doc.value);
      }
      assert [slice][1..] == [];
      assert doc.None? ==> Reports(parse, [slice]) == [];
      if doc.None? {
        return;
      }
      var m := doc.value;
      assert Reports(parse, [slice]) == if m.kind == "ind" then [m] else [];
      if m.kind == "ind" {
        OnIndicationReceived(m);
        return;
      }
      if m.kind == "resp" {
        if m.functionId == FUNCTION_FLASH && listening {
          ForceCompleteFlashWait(m.finalResult && m.ok);
        }
      }
    }

    method HandleMessages(slices: seq<Bytes>)
      modifies this`completed, this`success, this`quits, this`reported
      ensures WaitLatch() == ForceFirst(old(WaitLatch()), FirstVerdict(parse, listening, slices))
      ensures reported == old(reported) + Passed(subscribed, parse, slices)
    {
      var k := 0;
      assert slices[0..] == slices;
      while k < |slices|
        invariant k <= |slices|
        invariant ForceFirst(WaitLatch(), FirstVerdict(parse, listening, slices[k..])) ==
                  ForceFirst(old(WaitLatch()), FirstVerdict(parse, listening, slices))
        invariant reported + Passed(subscribed, parse, slices[k..]) ==
                  old(reported) + Passed(subscribed, parse, slices)
      {
        HandledNext(parse, listening, slices, k, WaitLatch(), subscribed, reported);
        HandleOneSocketMessage(slices[k]);
        k := k + 1;
      }
    }

    /** One `readyRead`: the chunk is appended, every complete message is taken out
        and handled, in order. */
    method OnReadyRead(chunk: Bytes)
      modifies this`completed, this`success, this`quits, this`reported, recvBuffer
      ensures Settled() && recvBuffer.data == Cut(old(recvBuffer.data) + chunk).residue
      ensures var slices := Cut(old(recvBuffer.data) + chunk).objects;
              && WaitLatch() == ForceFirst(old(WaitLatch()), FirstVerdict(parse, listening, slices))
              && reported == old(reported) + Passed(subscribed, parse, slices)
    {
      recvBuffer.data := recvBuffer.data + chunk;
      CutIdempotent(recvBuffer.data, 0);
      var slices := CutMessages(recvBuffer);
      HandleMessages(slices);
    }

    /** The event loop of `TriggerFlash` while nobody but messages completes: a turn,
        and the turns behind it unless that one has posted the quit. */
    method ReadMessages(chunks: seq<Bytes>)
      requires listening && WaitLatch() == WAITING
      modifies this`completed, this`success, this`quits, this`reported, recvBuffer
      ensures var w := Follow(parse, old(recvBuffer.data), chunks);
              && WaitLatch() == ForceFirst(WAITING, w.verdict)
              && recvBuffer.data == w.data
              && reported == old(reported) + Passed(subscribed, parse, w.slices)
      decreases |chunks|
    {
      if chunks == [] {
        return;
      }
      ghost var f := Cut(recvBuffer.data + chunks[0]);
      OnReadyRead(chunks[0]);
      if quits == 0 {
        ghost var w := Follow(parse, recvBuffer.data, chunks[1..]);
        PassedAppend(subscribed, parse, f.objects, w.slices, old(reported));
        ReadMessages(chunks[1..]);
      }
    }

    /** Somebody who is no message completes the wait. */
    method Complete(ending: Ending)
      modifies this`completed, this`success, this`quits, this`abort
      ensures WaitLatch() == Force(old(WaitLatch()), EndingVerdict(ending))
    {
      match ending {
        case TimedOut => ForceCompleteFlashWait(false);
        case Aborted => AbortFlashWait();
        case Forced(verdict) => ForceCompleteFlashWait(verdict);
      }
    }

    /** From the publication of the loop on: the loop ends with the first completer,
        and what it left in the latch is returned and reset. */
    method AwaitVerdict(chunks: seq<Bytes>, ending: Ending) returns (ok: bool, flashResult: bool)
      requires !completed && !success
      modifies this`completed, this`success, this`abort, this`quits, this`loop, this`listening, this`reported
      modifies recvBuffer
      ensures ok == flashResult
      ensures var w := Follow(parse, old(recvBuffer.data), chunks);
              && flashResult == VerdictOr(w.verdict, ending)
              && recvBuffer.data == w.data
              && reported == old(reported) + Passed(subscribed, parse, w.slices)
      ensures !completed && !success && !abort
    {
      loop, quits, listening := true, 0, true;
      ReadMessages(chunks);
      if quits == 0 {
        Complete(ending);
      }
      listening := false;
      var done := completed;
      flashResult := success;
      ResetFlashWait();
      loop := false;
      ok := done && flashResult;
    }

    /** `TriggerFlash` on the worker thread: `chunks` are the reads that the event loop
        would deliver before `ending`, the first completer that is no message. The
        result is the verdict of the first message that has one - in the bytes as a
        stream, however they are cut - and that of `ending` when there is none; the
        reports among all messages read are passed on. */
    method TriggerFlash(chunks: seq<Bytes>, ending: Ending) returns (ok: bool, flashResult: bool)
      requires Settled()
      modifies this`completed, this`success, this`abort, this`quits, this`loop, this`listening, this`reported
      modifies recvBuffer
      ensures ok == flashResult
      ensures flashResult <==>
              R.IsOpen(Link()) && VerdictOr(Answer(parse, old(recvBuffer.data), chunks), ending)
      ensures if R.IsOpen(Link())
              then OutcomeOf(parse, Cut(old(recvBuffer.data) + Join(chunks)).objects, ending, flashResult)
              else !flashResult
      ensures R.IsOpen(Link()) ==>
                var w := Follow(parse, old(recvBuffer.data), chunks);
                recvBuffer.data == w.data && reported == old(reported) + Passed(subscribed, parse, w.slices)
      ensures !R.IsOpen(Link()) ==> recvBuffer.data == old(recvBuffer.data) && reported == old(reported)
      ensures !completed && !success && !abort && Settled()
    {
      ResetFlashWait();
      if !(sock == R.Connected || sock == R.Closing) {
        return false, false;
      }
      ok, flashResult := AwaitOutcome(chunks, ending);
    }

    /** The wait on an open socket. */
    method AwaitOutcome(chunks: seq<Bytes>, ending: Ending) returns (ok: bool, flashResult: bool)
      requires Settled() && !completed && !success
      modifies this`completed, this`success, this`abort, this`quits, this`loop, this`listening, this`reported
      modifies recvBuffer
      ensures ok == flashResult
      ensures flashResult == VerdictOr(Answer(parse, old(recvBuffer.data), chunks), ending)
      ensures OutcomeOf(parse, Cut(old(recvBuffer.data) + Join(chunks)).objects, ending, flashResult)
      ensures var w := Follow(parse, old(recvBuffer.data), chunks);
              recvBuffer.data == w.data && reported == old(reported) + Passed(subscribed, parse, w.slices)
      ensures !completed && !success && !abort && Settled()
    {
      ghost var w, result := WaitMeans(parse, recvBuffer.data, chunks, ending);
      ok, flashResult := AwaitVerdict(chunks, ending);
      assert recvBuffer.data == w.data && Settled();
      assert flashResult == result;
    }

    // ----- Reconnecting

    method StartReconnectTimer()
      modifies this`retryTimer
      ensures Link() == R.StartTimer(old(Link()))
    {
      if stopping {
        return;
      }
      if retryTimer == R.NoTimer {
        retryTimer := R.Idle;
      }
      if retryTimer != R.Ticking {
        retryTimer := R.Ticking;
      }
    }

    method StopReconnectTimer()
      modifies this`retryTimer
      ensures Link() == R.StopTimer(old(Link()))
    {
      if retryTimer != R.NoTimer {
        retryTimer := R.Idle;
      }
    }

    method ConnectToServerInternal()
      modifies this`sock, this`attempts
      ensures Link() == R.Connect(R.Tool, old(Link()))
    {
      if stopping || sock == R.NoSocket {
        return;
      }
      if sock == R.Connected || sock == R.Connecting {
        return;
      }
      attempts := attempts + [R.Attempt(sock, stopping)];
      if sock != R.Unconnected {
        sock := R.Unconnected;
      }
      sock := R.Connecting;
    }

    method RetryConnection()
      modifies this`retryTimer, this`retryCount, this`sock, this`attempts
      ensures Link() == R.Retry(R.Tool, old(Link()))
    {
      if stopping {
        StopReconnectTimer();
        return;
      }
      retryCount := retryCount + 1;
      ConnectToServerInternal();
    }

    method OnDisconnected()
      modifies this`retryTimer
      ensures Link() == R.OnDisconnected(old(Link()))
    {
      if stopping {
        return;
      }
      StartReconnectTimer();
    }

    method OnError()
      modifies this`retryTimer
      ensures Link() == R.OnError(old(Link()))
    {
      if stopping {
        return;
      }
      if sock == R.Connected {
        return;
      }
      StartReconnectTimer();
    }

    /** Subscribed clients ask for progress events again. */
    method OnConnected()
      modifies this`retryTimer, this`retryCount, this`eventRequests
      ensures Link() == R.OnConnected(old(Link()))
      ensures eventRequests == old(eventRequests) + if subscribed && R.IsOpen(Link()) then 1 else 0
    {
      retryCount := 0;
      StopReconnectTimer();
      if !subscribed {
        return;
      }
      if !(sock == R.Connected || sock == R.Closing) {
        return;
      }
      eventRequests := eventRequests + 1;
    }

    method Init(wait: R.Wait) returns (ok: bool)
      modifies this`retryTimer, this`retryCount, this`eventRequests, this`stopping, this`sock, this`attempts
      ensures Link() == R.Step(R.Tool, old(Link()), R.Init(wait))
      ensures ok
    {
      stopping := false;
      sock := R.Unconnected;
      ConnectToServerInternal();
      if sock != R.Connected {
        match wait {
          case CameUp =>
            sock := R.Connected;
            OnConnected();
          case Refused =>
            sock := R.Unconnected;
            OnError();
          case TimedOut =>
        }
      }
      if sock != R.Connected {
        StartReconnectTimer();
      }
      return true;
    }

    /** True where the connection was closed in time. */
    method Deinit(closed: bool) returns (ok: bool)
      modifies this`retryTimer, this`stopping, this`sock
      ensures Link() == R.Step(R.Tool, old(Link()), R.Deinit(closed))
      ensures ok <==> closed && R.IsOpen(old(Link()))
    {
      stopping := true;
      StopReconnectTimer();
      if sock == R.Connected || sock == R.Closing {
        sock := R.Unconnected;
        if !closed {
          return false;
        }
        OnDisconnected();
        sock := R.NoSocket;
        return true;
      }
      return false;
    }
  }
}
