/** The device client's incremental framer, `extractJsonObjects`: the brace
    scanner, what one call returns, and the loop that computes it in place. */
module JsonStream {
  import opened ByteStrings

  /** The scanner's three variables. */
  datatype Scan = Scan(depth: int, inString: bool, escape: bool)

  const START := Scan(0, false, false)

  /** The scanner's variables after one more byte. */
  function Advance(s: Scan, c: Byte): Scan {
    if s.inString then
      if s.escape then s.(escape := false)
      else if c == BACKSLASH then s.(escape := true)
      else if c == QUOTE then s.(inString := false)
      else s
    else if c == QUOTE then s.(inString := true)
    else if c == OPEN_BRACE then s.(depth := s.depth + 1)
    else if c == CLOSE_BRACE then s.(depth := s.depth - 1)
    else s
  }

  /** `c` is a closing brace outside strings that brings the depth to zero. */
  predicate Closes(s: Scan, c: Byte) {
    !s.inString && c == CLOSE_BRACE && s.depth == 1
  }

  /** Where a scan that is in state `s` at position `i` stops: just behind the
      brace that closes; None when the buffer ends first. */
  function CloseAt(s: Scan, b: Bytes, i: nat): (r: Option<nat>)
    requires i <= |b|
    ensures r.Some? ==> i < r.value <= |b| && b[r.value - 1] == CLOSE_BRACE
    decreases |b| - i
  {
    if i == |b| then None
    else if Closes(s, b[i]) then Some(i + 1)
    else CloseAt(Advance(s, b[i]), b, i + 1)
  }

  /** What one call of the framer returns and what it leaves in the buffer. */
  datatype Framed = Framed(objects: seq<Bytes>, residue: Bytes)

  function Prepend(objects: seq<Bytes>, f: Framed): Framed {
    f.(objects := objects + f.objects)
  }

  /** One round of the outer loop: stop and keep the bytes from `from` on, drop
      the bytes before `next`, or emit the slice from `start` to `next`. */
  datatype Round = Halt(from: nat) | Drop(next: nat) | Emit(start: nat, next: nat)

  /** The JSON parser is left open: `accepts` says whether it takes a
      brace-matched slice for a document. */
  function Next(accepts: Bytes -> bool, b: Bytes, i: nat): (r: Round)
    requires i <= |b|
    ensures r.Halt? ==> i <= r.from <= |b|
    ensures !r.Halt? ==> i < r.next <= |b|
    ensures r.Emit? ==> i <= r.start < r.next
  {
    var w := SkipSpace(b, i);
    if w == |b| then Halt(w)
    else if b[w] != OPEN_BRACE then Drop(w + 1)
    else
      match CloseAt(START, b, w)
      case None => Halt(i)
      case Some(n) => if accepts(b[w..n]) then Emit(w, n) else Drop(w + 1)
  }

  /** The rounds from position `i` on, until one of them stops. */
  function ExtractFrom(accepts: Bytes -> bool, b: Bytes, i: nat): Framed
    requires i <= |b|
    decreases |b| - i
  {
    match Next(accepts, b, i)
    case Halt(from) => Framed([], b[from..])
    case Drop(n) => ExtractFrom(accepts, b, n)
    case Emit(start, n) => Prepend([b[start..n]], ExtractFrom(accepts, b, n))
  }

  function Extract(accepts: Bytes -> bool, b: Bytes): Framed {
    ExtractFrom(accepts, b, 0)
  }

  predicate AllAccepted(accepts: Bytes -> bool, slices: seq<Bytes>) {
    forall k :: 0 <= k < |slices| ==> accepts(slices[k])
  }

  /** Whatever the framer emits, the parser accepts. */
  lemma {:induction false} EmittedAccepted(accepts: Bytes -> bool, b: Bytes, i: nat)
    requires i <= |b|
    ensures AllAccepted(accepts, ExtractFrom(accepts, b, i).objects)
    decreases |b| - i
  {
    var round := Next(accepts, b, i);
    if !round.Halt? {
      EmittedAccepted(accepts, b, round.next);
    }
  }

  /** How many bytes the inner scan reads in one round. */
  function RoundWork(b: Bytes, i: nat): nat
    requires i <= |b|
  {
    var w := SkipSpace(b, i);
    if w == |b| || b[w] != OPEN_BRACE then 0
    else
      match CloseAt(START, b, w)
      case None => |b| - w
      case Some(n) => n - w
  }

  /** How many bytes the inner scan reads in all rounds from position `i` on. */
  function Work(accepts: Bytes -> bool, b: Bytes, i: nat): nat
    requires i <= |b|
    decreases |b| - i
  {
    var round := Next(accepts, b, i);
    RoundWork(b, i) + if round.Halt? then 0 else Work(accepts, b, round.next)
  }

  /** Every round moves on by at least one byte, so that backtracking costs at
      most 1 + 2 + ... + n reads of n bytes. */
  lemma {:induction false} WorkBound(accepts: Bytes -> bool, b: Bytes, i: nat)
    requires i <= |b|
    ensures 2 * Work(accepts, b, i) <= (|b| - i) * (|b| - i + 1)
    decreases |b| - i
  {
    var round := Next(accepts, b, i);
    var n := |b| - i;
    if !round.Halt? {
      WorkBound(accepts, b, round.next);
      var m := |b| - round.next;
      assert m * (m + 1) <= (n - 1) * n by { assert m <= n - 1; Product(m, m + 1, n - 1, n); }
      assert n * (n + 1) == (n - 1) * n + 2 * n;
    } else {
      assert n * (n + 1) >= 2 * n by { if n > 0 { Product(n, 2, n, n + 1); } }
    }
  }

  lemma Product(a: nat, b: nat, c: nat, d: nat)
    requires a <= c && b <= d
    ensures a * b <= c * d
  {
    assert a * b <= c * b;
    assert c * b <= c * d;
  }

  // ----- The loop

  /** The `QByteArray&` that the framer consumes from the front. */
  class ByteBuffer {
    var data: Bytes

    constructor ()
      ensures data == []
    {
      data := [];
    }
  }

  lemma PrependAppend(objects: seq<Bytes>, slice: Bytes, f: Framed)
    ensures Prepend(objects, Prepend([slice], f)) == Prepend(objects + [slice], f)
  {
    assert objects + ([slice] + f.objects) == objects + [slice] + f.objects;
  }

  /** The inner loop: reads from the opening brace at `start` to its closing
      brace, or to the end of the buffer when it never closes. */
  method ScanObject(b: Bytes, start: nat) returns (i: nat, complete: bool)
    requires start <= |b|
    ensures start <= i <= |b|
    ensures CloseAt(START, b, start) == if complete then Some(i) else None
    ensures !complete ==> i == |b|
  {
    i := start;
    complete := false;
    var depth, inString, escape := 0, false, false;
    while i < |b|
      invariant start <= i <= |b| && !complete
      invariant CloseAt(START, b, start) == CloseAt(Scan(depth, inString, escape), b, i)
    {
      var c := b[i];
      i := i + 1;
      if inString {
        if escape {
          escape := false;
        } else if c == BACKSLASH {
          escape := true;
        } else if c == QUOTE {
          inString := false;
        }
        continue;
      }
      if c == QUOTE {
        inString := true;
      } else if c == OPEN_BRACE {
        depth := depth + 1;
      } else if c == CLOSE_BRACE {
        depth := depth - 1;
        if depth == 0 {
          complete := true;
          break;
        }
      }
    }
  }

  /** One iteration of the outer loop: skips whitespace, then drops a stray
      byte or scans an object and asks the parser. */
  method FrameRound(b: Bytes, consumed: nat, accepts: Bytes -> bool)
    returns (round: Round, ghost steps: nat)
    requires consumed < |b|
    ensures round == Next(accepts, b, consumed)
    ensures steps == RoundWork(b, consumed)
  {
    var i := consumed;
    steps := 0;
    while i < |b| && IsSpace(b[i])
      invariant consumed <= i <= |b|
      invariant SkipSpace(b, consumed) == SkipSpace(b, i)
    {
      i := i + 1;
    }
    if i >= |b| {
      return Halt(i), 0;
    }
    if b[i] != OPEN_BRACE {
      return Drop(i + 1), 0;
    }
    var end, complete := ScanObject(b, i);
    steps := end - i;
    if !complete {
      return Halt(consumed), steps;
    }
    if accepts(b[i..end]) {
      return Emit(i, end), steps;
    }
    return Drop(i + 1), steps;
  }

  /** One call of the framer. The buffer is left with the residue; `steps` counts
      the bytes that the inner loop reads, those after a backtrack included. */
  method ExtractJsonObjects(buffer: ByteBuffer, accepts: Bytes -> bool)
    returns (objects: seq<Bytes>, ghost steps: nat)
    modifies buffer
    ensures Framed(objects, buffer.data) == Extract(accepts, old(buffer.data))
    ensures 2 * steps <= |old(buffer.data)| * (|old(buffer.data)| + 1)
  {
    var b := buffer.data;
    objects := [];
    steps := 0;
    var consumed := 0;
    ghost var whole, work := Extract(accepts, b), Work(accepts, b, 0);
    WorkBound(accepts, b, 0);
    while consumed < |b|
      invariant consumed <= |b| && buffer.data == b
      invariant whole == Prepend(objects, ExtractFrom(accepts, b, consumed))
      invariant work == steps + Work(accepts, b, consumed)
    {
      var round, cost := FrameRound(b, consumed, accepts);
      steps := steps + cost;
      if round.Halt? {
        consumed := round.from;
        break;
      }
      if round.Emit? {
        var slice := b[round.start..round.next];
        PrependAppend(objects, slice, ExtractFrom(accepts, b, round.next));
        objects := objects + [slice];
      }
      consumed := round.next;
    }
    assert whole == Framed(objects, b[consumed..]);
    if consumed > 0 {
      buffer.data := b[consumed..];
    }
  }
}
