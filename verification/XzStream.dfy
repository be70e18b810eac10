/** `Xz::XzCompressFile`: the loop that reads a file, feeds the encoder and writes
    what it produces, with its two fixed buffers and its progress reports. */
module XzStream {
  import opened ByteStrings

  const BUFSIZ: nat := 8192

  datatype Action = Run | Finish

  datatype Ret = Ok | StreamEnd | MemError | DataError | OtherError

  /** What `lzma_code` does in one call: bytes taken from the input, bytes put into
      the output buffer, return code. */
  datatype Reply = Reply(consumed: nat, produced: Bytes, ret: Ret)

  /** What the loop meets in its `t`-th turn: how many of at most `most` bytes a read
      brings, None for a read error; the encoder's reply to the input, the output
      space and the action; how many of `size` bytes get written; whether the user
      has asked to stop. */
  datatype World = World(
    read: (nat, nat) -> Option<nat>,
    code: (nat, Bytes, nat, Action) -> Reply,
    write: (nat, nat) -> nat,
    stop: nat -> bool)

  /** Files give no more than is asked for. The encoder stays within its input and
      output, and ends the stream only when told to finish and with all input taken. */
  ghost predicate Lawful(w: World) {
    && (forall t, most :: w.read(t, most).Some? ==> w.read(t, most).value <= most)
    && (forall t, input, space, action ::
          var r := w.code(t, input, space, action);
          && r.consumed <= |input| && |r.produced| <= space
          && (r.ret.StreamEnd? ==> action.Finish? && r.consumed == |input|))
  }

  /** Nothing goes wrong: reads bring bytes, writes are whole, nobody stops, and an
      encoder with something to do takes or gives a byte or ends the stream.
      `credit(t)` bounds all output from turn `t` on. */
  ghost predicate Cooperative(w: World, credit: nat -> nat) {
    && (forall t, most :: most > 0 ==> w.read(t, most).Some? && w.read(t, most).value > 0)
    && (forall t: nat, input: Bytes, space: nat, action: Action :: space > 0 && (input != [] || action.Finish?) ==>
          var r := w.code(t, input, space, action);
          && (r.ret.Ok? || r.ret.StreamEnd?)
          && |r.produced| + credit(t + 1) <= credit(t)
          && (r.ret.Ok? ==> r.consumed + |r.produced| > 0))
    && (forall t, size :: w.write(t, size) == size)
    && (forall t :: !w.stop(t))
  }

  /** `Running` stands for a run cut off after a number of turns. The source returns
      true for `Finished` and false for `Failed` and `Stopped`. */
  datatype Outcome = Finished | Failed | Stopped | Running

  // ----- Progress and actions as sequences

  predicate Increasing(s: seq<int>) {
    forall j, k :: 0 <= j < k < |s| ==> s[j] < s[k]
  }

  function Percent(pos: nat, size: nat): nat
    requires pos <= size
  {
    if size == 0 then 0 else pos * 100 / size
  }

  lemma MulMonotone(p: nat, q: nat, d: nat)
    requires p <= q
    ensures p * d <= q * d
  {
  }

  /** Division by `d`, said by multiplication. */
  lemma DivideAtMost(a: nat, q: nat, d: nat)
    requires d > 0
    ensures a / d <= q <==> a < (q + 1) * d
  {
    var p := a / d;
    assert p * d <= a < p * d + d;
    if p <= q {
      MulMonotone(p, q, d);
    } else {
      MulMonotone(q + 1, p, d);
    }
  }

  /** The percentage is the whole part of what was read, in hundredths of the file. */
  lemma PercentFloor(pos: nat, size: nat)
    requires 0 < pos <= size
    ensures Percent(pos, size) * size <= pos * 100 < (Percent(pos, size) + 1) * size
  {
    var q := Percent(pos, size);
    DivideAtMost(pos * 100, q, size);
    if q > 0 {
      DivideAtMost(pos * 100, q - 1, size);
    }
  }

  lemma PercentMonotone(pos: nat, pos': nat, size: nat)
    requires pos <= pos' <= size
    ensures Percent(pos, size) <= Percent(pos', size)
  {
    if size > 0 {
      var q := pos' * 100 / size;
      DivideAtMost(pos' * 100, q, size);
      DivideAtMost(pos * 100, q, size);
    }
  }

  lemma PercentBound(pos: nat, size: nat)
    requires pos <= size
    ensures Percent(pos, size) <= 100
    ensures 0 < size ==> (Percent(pos, size) == 100 <==> pos == size)
  {
    if size > 0 {
      DivideAtMost(pos * 100, 100, size);
      DivideAtMost(pos * 100, 99, size);
    }
  }

  function OkTimes(n: nat): seq<Ret> {
    seq(n, k requires 0 <= k < n => Ok)
  }

  /** RUN as long as bytes of the file are unread, FINISH from then on. */
  predicate Phased(actions: seq<Action>) {
    forall j, k :: 0 <= j < k < |actions| && actions[j].Finish? ==> actions[k].Finish?
  }

  class Xz {
    const file: Bytes
    const inBuffer: array<Byte>
    const outBuffer: array<Byte>
    var inPos: nat
    var nextIn: nat
    var availIn: nat
    var availOut: nat
    var action: Action
    var outFile: Bytes
    var removed: bool
    var lastProgress: int
    var progress: seq<int>

    // All that went into the encoder and came out of it, and the actions given.
    ghost var fed: Bytes
    ghost var produced: Bytes
    ghost var actions: seq<Action>
    ghost var rets: seq<Ret>

    ghost predicate BuffersOk()
      reads this
    {
      && inBuffer.Length == BUFSIZ && outBuffer.Length == BUFSIZ && inBuffer != outBuffer
      && availOut <= BUFSIZ && nextIn + availIn <= BUFSIZ
    }

    /** What was fed and what waits in the input buffer are what was read. */
    ghost predicate InputOk()
      reads this, inBuffer
      requires BuffersOk()
    {
      && inPos <= |file|
      && fed + inBuffer[nextIn..nextIn + availIn] == file[..inPos]
      && (action.Finish? <==> inPos == |file| && file != [])
    }

    /** What was written and what waits in the output buffer are what was produced. */
    ghost predicate OutputOk()
      reads this, outBuffer
      requires BuffersOk()
    {
      outFile + outBuffer[..BUFSIZ - availOut] == produced
    }

    ghost predicate ProgressOk()
      reads this
    {
      && inPos <= |file|
      && progress != [] && progress[0] == 0 && Increasing(progress)
      && progress[|progress| - 1] == lastProgress == Percent(inPos, |file|)
    }

    ghost predicate ActionsOk()
      reads this
    {
      && Phased(actions)
      && (forall k :: 0 <= k < |actions| && actions[k].Finish? ==> action.Finish?)
    }

    ghost predicate Valid()
      reads this, inBuffer, outBuffer
    {
      BuffersOk() && InputOk() && OutputOk() && ProgressOk() && ActionsOk()
    }

    constructor (file: Bytes)
      ensures this.file == file && Valid() && fresh(inBuffer) && fresh(outBuffer)
      ensures outFile == [] && fed == [] && produced == [] && actions == [] && rets == [] && progress == [0] && !removed
    {
      this.file := file;
      inBuffer := new Byte[BUFSIZ](_ => 0);
      outBuffer := new Byte[BUFSIZ](_ => 0);
      inPos, nextIn, availIn, availOut, action := 0, 0, 0, BUFSIZ, Run;
      outFile, removed, lastProgress, progress := [], false, 0, [0];
      fed, produced, actions, rets := [], [], [], [];
    }

    /** The read: the bytes go to the front of the input buffer. */
    method ReadChunk(n: nat)
      requires BuffersOk() && InputOk() && availIn == 0 && n <= BUFSIZ && inPos + n <= |file|
      modifies this`inPos, this`nextIn, this`availIn, this`action, inBuffer
      ensures BuffersOk() && InputOk()
      ensures inPos == old(inPos) + n && availIn == n && (old(action).Finish? ==> action.Finish?)
    {
      assert fed == file[..inPos];
      forall k | 0 <= k < n {
        inBuffer[k] := file[inPos + k];
      }
      nextIn, availIn := 0, n;
      assert inBuffer[..n] == file[inPos..inPos + n];
      assert file[..inPos] + file[inPos..inPos + n] == file[..inPos + n];
      inPos := inPos + n;
      if inPos == |file| && file != [] {
        action := Finish;
      }
    }

    /** The progress report behind a read. */
    method Report(ghost before: nat)
      requires before <= inPos <= |file| && file != []
      requires progress != [] && progress[0] == 0 && Increasing(progress)
      requires progress[|progress| - 1] == lastProgress == Percent(before, |file|)
      modifies this`lastProgress, this`progress
      ensures ProgressOk()
    {
      PercentMonotone(before, inPos, |file|);
      var percent := inPos * 100 / |file|;
      if percent != lastProgress {
        lastProgress := percent;
        progress := progress + [percent];
      }
    }

    /** Reads into the empty input buffer, reports progress, and turns to FINISH at
        the end of the file. False on a read error. */
    method Fill(count: Option<nat>) returns (ok: bool)
      requires Valid() && availIn == 0 && inPos < |file|
      requires count.Some? ==> count.value <= BUFSIZ && inPos + count.value <= |file|
      modifies this`inPos, this`nextIn, this`availIn, this`action, this`lastProgress, this`progress, inBuffer
      ensures ok <==> count.Some?
      ensures ok ==> availIn == count.value
      ensures Valid()
    {
      if count.None? {
        return false;
      }
      ghost var before := inPos;
      ReadChunk(count.value);
      Report(before);
      return true;
    }

    /** The encoder takes input bytes. */
    method Consume(count: nat)
      requires BuffersOk() && InputOk() && count <= availIn
      modifies this`nextIn, this`availIn, this`fed
      ensures BuffersOk() && InputOk() && availIn == old(availIn) - count
      ensures fed == old(fed) + inBuffer[old(nextIn)..old(nextIn) + count]
    {
      assert inBuffer[nextIn..nextIn + availIn] ==
             inBuffer[nextIn..nextIn + count] + inBuffer[nextIn + count..nextIn + availIn];
      fed := fed + inBuffer[nextIn..nextIn + count];
      nextIn, availIn := nextIn + count, availIn - count;
    }

    /** The encoder puts bytes into the output buffer. */
    method Produce(bytes: Bytes)
      requires BuffersOk() && OutputOk() && |bytes| <= availOut
      modifies this`availOut, this`produced, outBuffer
      ensures BuffersOk() && OutputOk() && availOut == old(availOut) - |bytes|
      ensures produced == old(produced) + bytes
    {
      var at := BUFSIZ - availOut;
      forall k | 0 <= k < |bytes| {
        outBuffer[at + k] := bytes[k];
      }
      assert outBuffer[..at + |bytes|] == old(outBuffer[..at]) + bytes;
      produced := produced + bytes;
      availOut := availOut - |bytes|;
    }

    /** One call of the encoder. */
    method Code(reply: Reply)
      requires Valid() && reply.consumed <= availIn && |reply.produced| <= availOut
      modifies this`nextIn, this`availIn, this`availOut, this`fed, this`produced, this`actions, outBuffer
      ensures Valid() && actions == old(actions) + [action]
      ensures availIn == old(availIn) - reply.consumed
      ensures fed == old(fed) + old(inBuffer[nextIn..nextIn + reply.consumed])
      ensures produced == old(produced) + reply.produced
    {
      Consume(reply.consumed);
      Produce(reply.produced);
      actions := actions + [action];
    }

    /** Writes out the output buffer; false when fewer bytes were written. */
    method Flush(count: nat) returns (ok: bool)
      requires Valid()
      modifies this`availOut, this`outFile
      ensures ok <==> count == BUFSIZ - old(availOut)
      ensures ok ==> Valid() && availOut == BUFSIZ && outFile == produced
      ensures !ok ==> outFile <= produced
    {
      var size := BUFSIZ - availOut;
      outFile := outFile + outBuffer[..if count <= size then count else size];
      if count != size {
        assert outBuffer[..if count <= size then count else size] <= outBuffer[..size];
        return false;
      }
      availOut := BUFSIZ;
      assert outBuffer[..0] == [];
      return true;
    }

    /** At any time: what was written is a prefix of what was produced, what was fed
        is a prefix of the file, and the reported progress is in order. */
    ghost predicate Consistent()
      reads this
    {
      && fed <= file && Phased(actions) && ProgressOk()
      && (removed || outFile <= produced)
      && progress[|progress| - 1] <= 100
      && (inPos == |file| && file != [] ==> progress[|progress| - 1] == 100)
    }

    lemma ValidConsistent()
      requires Valid()
      ensures Consistent()
    {
      PercentBound(inPos, |file|);
      assert fed == file[..inPos][..|fed|];
    }

    /** The encoder's call and, when its buffer is full or its stream has ended, the
        write; false when the write falls short. */
    method Encode(w: World, t: nat, ghost credit: nat -> nat) returns (ret: Ret, wrote: bool)
      requires Lawful(w) && Valid() && !removed && availOut > 0
      modifies this`nextIn, this`availIn, this`availOut, this`fed, this`produced, this`actions, this`rets, this`outFile
      modifies outBuffer
      ensures Consistent()
      ensures rets == old(rets) + [ret]
      ensures ret == w.code(t, old(inBuffer[nextIn..nextIn + availIn]), old(availOut), action).ret
      ensures !wrote ==> exists size: nat :: w.write(t, size) != size
      ensures wrote ==> Valid() && availOut > 0
      ensures Cooperative(w, credit) && (old(availIn) > 0 || action.Finish?) ==>
                wrote && (ret.StreamEnd? || (ret.Ok? && |old(fed)| + credit(t + 1) < |fed| + credit(t)))
      ensures wrote && ret.StreamEnd? ==>
                availIn == 0 && outFile == produced && actions != [] && actions[|actions| - 1] == action == Finish
    {
      var reply := w.code(t, inBuffer[nextIn..nextIn + availIn], availOut, action);
      Code(reply);
      ret := reply.ret;
      rets := rets + [ret];
      wrote := FlushDue(w, t, ret);
    }

    /** The write behind a call of the encoder, if one is due. */
    method FlushDue(w: World, t: nat, ret: Ret) returns (wrote: bool)
      requires Valid() && !removed
      modifies this`availOut, this`outFile
      ensures Consistent()
      ensures wrote ==> Valid() && availOut > 0
      ensures wrote && ret.StreamEnd? ==> outFile == produced
      ensures !wrote ==> exists size: nat :: w.write(t, size) != size
    {
      wrote := true;
      ValidConsistent();
      if availOut == 0 || ret.StreamEnd? {
        ghost var size := BUFSIZ - availOut;
        wrote := Flush(w.write(t, BUFSIZ - availOut));
        assert !wrote ==> w.write(t, size) != size;
      }
    }

    /** The read at the top of a turn, if one is due. */
    method Refill(w: World, t: nat, ghost credit: nat -> nat) returns (ok: bool)
      requires Lawful(w) && Valid()
      modifies this`inPos, this`nextIn, this`availIn, this`action, this`lastProgress, this`progress, inBuffer
      ensures Valid()
      ensures Cooperative(w, credit) && file != [] ==> ok && (availIn > 0 || action.Finish?)
      ensures !ok ==> exists most: nat :: w.read(t, most).None?
    {
      ok := true;
      if availIn == 0 && inPos < |file| {
        var most := if |file| - inPos < BUFSIZ then |file| - inPos else BUFSIZ;
        ok := Fill(w.read(t, most));
        assert !ok ==> w.read(t, most).None?;
      }
    }

    /** Why turn `t` ended as it did, `before` being the codes of the turns before: it
        goes on after Ok unless the user asked to stop, and it fails for a read error, a
        short write or another code, and for nothing else. */
    ghost predicate Ended(w: World, t: nat, before: seq<Ret>, outcome: Outcome)
      reads this
    {
      match outcome
      case Running => rets == before + [Ok] && !w.stop(t)
      case Stopped => rets == before + [Ok] && w.stop(t)
      case Finished => rets == before + [StreamEnd]
      case Failed =>
        || (rets == before && exists most: nat :: w.read(t, most).None?)
        || (|rets| == |before| + 1 && rets[..|before|] == before &&
            ((rets[|before|] != Ok && rets[|before|] != StreamEnd) || exists size: nat :: w.write(t, size) != size))
    }

    /** One turn of the loop. */
    method Turn(w: World, t: nat, ghost credit: nat -> nat) returns (outcome: Outcome)
      requires Lawful(w) && Valid() && !removed && availOut > 0
      modifies this, inBuffer, outBuffer
      ensures Consistent() && (removed <==> outcome.Stopped?) && Ended(w, t, old(rets), outcome)
      ensures outcome.Running? ==> Valid() && availOut > 0
      ensures Cooperative(w, credit) && file != [] ==>
                outcome.Finished? || (outcome.Running? && |old(fed)| + credit(t + 1) < |fed| + credit(t))
      ensures outcome.Finished? ==>
                file != [] && fed == file && outFile == produced && actions != [] && actions[|actions| - 1].Finish?
    {
      var ok := Refill(w, t, credit);
      if !ok {
        ValidConsistent();
        return Failed;
      }
      var ret, wrote := Encode(w, t, credit);
      if !wrote {
        return Failed;
      }
      outcome := Judge(w, t, ret, old(rets));
    }

    /** What the encoder's code means, and whether the user has asked to stop. */
    method Judge(w: World, t: nat, ret: Ret, ghost before: seq<Ret>) returns (outcome: Outcome)
      requires Valid() && !removed && rets == before + [ret]
      requires ret.StreamEnd? ==> availIn == 0 && action.Finish?
      modifies this`outFile, this`removed
      ensures Consistent() && (removed <==> outcome.Stopped?) && Ended(w, t, before, outcome)
      ensures outcome.Running? ==> Valid()
      ensures outcome.Finished? <==> ret.StreamEnd?
      ensures outcome.Finished? ==> file != [] && fed == file && outFile == old(outFile)
      ensures ret.Ok? && !w.stop(t) ==> outcome.Running?
    {
      ValidConsistent();
      if !ret.Ok? {
        if ret.StreamEnd? {
          AllFed();
          return Finished;
        }
        return Failed;
      }
      if w.stop(t) {
        outFile, removed := [], true;
        return Stopped;
      }
      return Running;
    }

    lemma AllFed()
      requires Valid() && availIn == 0 && action.Finish?
      ensures file != [] && fed == file
    {
    }

    /** True is returned only with the whole file fed in order, all that the encoder
        produced written, and FINISH given last. Where nothing goes wrong, the loop
        ends within as many turns as there are bytes to read and to give, and it
        returns true if and only if the file is not empty. */
    method XzCompressFile(w: World, turns: nat, ghost credit: nat -> nat) returns (outcome: Outcome, ghost taken: nat)
      requires Lawful(w)
      requires Valid() && outFile == [] && fed == [] && produced == [] && actions == [] && rets == [] && !removed
      modifies this, inBuffer, outBuffer
      ensures outcome.Finished? ==>
                file != [] && fed == file && outFile == produced && actions != [] && actions[|actions| - 1].Finish?
      ensures Cooperative(w, credit) && turns > |file| + credit(0) ==> (outcome.Finished? <==> file != [])
      ensures removed <==> outcome.Stopped?
      ensures Consistent()
      ensures if outcome.Running? then taken == turns else 0 < taken <= turns
      ensures forall k: nat :: k < taken && !(k == taken - 1 && !outcome.Running?) ==> !w.stop(k)
      ensures outcome.Running? ==> rets == OkTimes(taken)
      ensures !outcome.Running? ==> Ended(w, taken - 1, OkTimes(taken - 1), outcome)
    {
      ValidConsistent();
      var t := 0;
      outcome := Running;
      taken := 0;
      while t < turns && outcome.Running?
        invariant outcome.Running? ==> Valid() && availOut > 0
        invariant Cooperative(w, credit) && file != [] ==>
                    outcome.Finished? || (outcome.Running? && credit(t) + t <= |fed| + credit(0))
        invariant taken == t <= turns
        invariant forall k: nat :: k < taken && !(k == taken - 1 && !outcome.Running?) ==> !w.stop(k)
        invariant outcome.Running? ==> rets == OkTimes(taken)
        invariant !outcome.Running? ==> taken > 0 && Ended(w, taken - 1, OkTimes(taken - 1), outcome)
        invariant Consistent() && (removed <==> outcome.Stopped?)
        invariant outcome.Finished? ==>
                    file != [] && fed == file && outFile == produced && actions != [] && actions[|actions| - 1].Finish?
      {
        outcome := Turn(w, t, credit);
        assert outcome.Running? ==> OkTimes(t) + [Ok] == OkTimes(t + 1);
        t := t + 1;
        taken := t;
      }
    }
  }
}
