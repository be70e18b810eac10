/** What the framer's answer is, said without its loop: which slices of the
    buffer come out, which bytes are dropped and which are kept. */
module Tiling {
  import opened ByteStrings
  import opened JsonStream
  import opened ChunkInvariance

  // ----- Brace matching, said by depths

  /** The scanner's variables after all of `b`. */
  function Run(s: Scan, b: Bytes): Scan
    decreases |b|
  {
    if b == [] then s else Advance(Run(s, b[..|b| - 1]), b[|b| - 1])
  }

  /** From an opening brace, the scan stops behind position `n` exactly when the
      depth is zero there and was positive after every shorter prefix. */
  lemma CloseIsFirstZero(b: Bytes, i: nat, n: nat)
    requires i < |b| && b[i] == OPEN_BRACE && n <= |b|
    ensures CloseAt(START, b, i) == Some(n) <==>
            i < n && Run(START, b[i..n]).depth == 0 &&
            forall k :: i < k < n ==> Run(START, b[i..k]).depth > 0
  {
    assert b[i..i + 1][..0] == [];
    var s := Run(START, b[i..i + 1]);
    FirstZeroFrom(b, i, i + 1, s, n);
  }

  lemma {:induction false} FirstZeroFrom(b: Bytes, i: nat, j: nat, s: Scan, n: nat)
    requires i < j <= |b| && n <= |b|
    requires s == Run(START, b[i..j]) && s.depth > 0
    requires forall k :: i < k <= j ==> Run(START, b[i..k]).depth > 0
    ensures CloseAt(s, b, j) == Some(n) <==>
            i < n && Run(START, b[i..n]).depth == 0 &&
            forall k :: i < k < n ==> Run(START, b[i..k]).depth > 0
    decreases |b| - j
  {
    if j < |b| {
      assert b[i..j + 1][..j - i] == b[i..j];
      var t := Advance(s, b[j]);
      assert t == Run(START, b[i..j + 1]);
      if !Closes(s, b[j]) {
        FirstZeroFrom(b, i, j + 1, t, n);
      }
    }
  }

  // ----- Slices, dropped bytes, kept bytes

  datatype Span = Span(start: nat, end: nat)

  /** At `p` there is a brace-matched slice that the parser takes. */
  predicate Accepted(accepts: Bytes -> bool, b: Bytes, p: nat, end: nat)
    requires p <= |b|
  {
    p < |b| && b[p] == OPEN_BRACE && CloseAt(START, b, p) == Some(end) && accepts(b[p..end])
  }

  /** A byte that may be dropped: no opening brace, or one whose matched slice
      the parser refuses. */
  predicate Droppable(accepts: Bytes -> bool, b: Bytes, p: nat)
    requires p < |b|
  {
    b[p] == OPEN_BRACE ==> CloseAt(START, b, p).Some? && !accepts(b[p..CloseAt(START, b, p).value])
  }

  /** From `p` on there is whitespace and then an opening brace that never closes. */
  predicate Waits(b: Bytes, p: nat)
    requires p <= |b|
  {
    var w := SkipSpace(b, p);
    w < |b| && b[w] == OPEN_BRACE && CloseAt(START, b, w).None?
  }

  predicate Covered(spans: seq<Span>, p: nat) {
    exists k :: 0 <= k < |spans| && spans[k].start <= p < spans[k].end
  }

  predicate Ordered(spans: seq<Span>, i: nat, from: nat) {
    && (forall k :: 0 <= k < |spans| ==> i <= spans[k].start < spans[k].end <= from)
    && (forall j, k :: 0 <= j < k < |spans| ==> spans[j].end <= spans[k].start)
  }

  /** `spans` and `from` divide what follows position `i` as the framer should:
      disjoint accepted slices in order, between them only bytes that may be
      dropped, and kept bytes that wait for more input and are not preceded by
      dropped whitespace. */
  ghost predicate IsFraming(accepts: Bytes -> bool, b: Bytes, i: nat, spans: seq<Span>, from: nat) {
    && i <= from <= |b|
    && Ordered(spans, i, from)
    && (forall k :: 0 <= k < |spans| ==> Accepted(accepts, b, spans[k].start, spans[k].end))
    && (forall p :: i <= p < from && !Covered(spans, p) ==> Droppable(accepts, b, p))
    && (from == |b| || (Waits(b, from) && (i < from ==> !IsSpace(b[from - 1]))))
  }

  function Slices(b: Bytes, spans: seq<Span>): seq<Bytes>
    requires forall k :: 0 <= k < |spans| ==> spans[k].start <= spans[k].end <= |b|
  {
    seq(|spans|, k requires 0 <= k < |spans| => b[spans[k].start..spans[k].end])
  }

  /** A framing of the bytes from `i` on, seen from the round at `i`. */
  lemma FramingRound(accepts: Bytes -> bool, b: Bytes, i: nat, spans: seq<Span>, from: nat)
    requires i <= |b| && IsFraming(accepts, b, i, spans, from)
    ensures match Next(accepts, b, i)
            case Halt(kept) => spans == [] && from == kept
            case Drop(n) => IsFraming(accepts, b, n, spans, from)
            case Emit(start, n) => spans != [] && spans[0] == Span(start, n) &&
                                   IsFraming(accepts, b, n, spans[1..], from)
  {
    var w := SkipSpace(b, i);
    SkipSpaceIs(b, i, w);
    FramingSkipsSpace(accepts, b, i, w, spans, from);
    match Next(accepts, b, i)
    case Halt(kept) =>
      FramingStops(accepts, b, i, w, spans, from);
    case Drop(n) =>
    case Emit(start, n) =>
      FramingTakes(accepts, b, i, w, spans, from);
      FramingTail(accepts, b, i, spans, from);
  }

  /** Whitespace opens no span, so that spans and kept bytes lie behind it. */
  lemma FramingSkipsSpace(accepts: Bytes -> bool, b: Bytes, i: nat, w: nat, spans: seq<Span>, from: nat)
    requires i <= w <= |b| && IsFraming(accepts, b, i, spans, from)
    requires w == SkipSpace(b, i)
    ensures forall k :: 0 <= k < |spans| ==> w <= spans[k].start
    ensures from == |b| || from == i || w < from
    ensures from < w ==> from == i && Waits(b, i)
  {
    SkipSpaceIs(b, i, w);
    assert forall k :: 0 <= k < |spans| ==> b[spans[k].start] == OPEN_BRACE;
    if from < |b| && i < from {
      assert !IsSpace(b[from - 1]);
    }
  }

  lemma FramingStops(accepts: Bytes -> bool, b: Bytes, i: nat, w: nat, spans: seq<Span>, from: nat)
    requires i <= w <= |b| && IsFraming(accepts, b, i, spans, from)
    requires w == SkipSpace(b, i)
    requires forall k :: 0 <= k < |spans| ==> w <= spans[k].start
    requires from == |b| || from == i || w < from
    requires w == |b| || (b[w] == OPEN_BRACE && CloseAt(START, b, w).None?)
    ensures spans == [] && from == if w == |b| then w else i
  {
    assert spans != [] ==> w <= spans[0].start < spans[0].end <= from;
    SkipSpaceIs(b, i, w);
    if w < |b| {
      assert from > w ==> !Droppable(accepts, b, w) && !Covered(spans, w);
      assert from == i;
    } else {
      SkipSpaceIs(b, from, |b|);
    }
  }

  lemma FramingTakes(accepts: Bytes -> bool, b: Bytes, i: nat, w: nat, spans: seq<Span>, from: nat)
    requires i <= w < |b| && IsFraming(accepts, b, i, spans, from)
    requires w == SkipSpace(b, i) && b[w] == OPEN_BRACE
    requires CloseAt(START, b, w).Some? && accepts(b[w..CloseAt(START, b, w).value])
    requires forall k :: 0 <= k < |spans| ==> w <= spans[k].start
    requires from == i || w < from
    ensures spans != [] && spans[0] == Span(w, CloseAt(START, b, w).value)
  {
    assert w < from;
    assert !Droppable(accepts, b, w);
    assert Covered(spans, w);
    var k :| 0 <= k < |spans| && spans[k].start <= w < spans[k].end;
    assert spans[k].start == w;
    assert w <= spans[0].start < spans[0].end;
    assert k == 0;
  }

  lemma CoveredTail(spans: seq<Span>, p: nat)
    requires spans != [] && spans[0].end <= p && Covered(spans, p)
    ensures Covered(spans[1..], p)
  {
    var k :| 0 <= k < |spans| && spans[k].start <= p < spans[k].end;
    assert spans[1..][k - 1] == spans[k];
  }

  lemma FramingTail(accepts: Bytes -> bool, b: Bytes, i: nat, spans: seq<Span>, from: nat)
    requires IsFraming(accepts, b, i, spans, from) && spans != []
    ensures IsFraming(accepts, b, spans[0].end, spans[1..], from)
  {
    var n := spans[0].end;
    forall p | n <= p < from && !Covered(spans[1..], p) ensures Droppable(accepts, b, p) {
      if Covered(spans, p) {
        CoveredTail(spans, p);
      }
    }
  }

  /** The slices the algorithm takes, and where it leaves off. */
  function Spans(accepts: Bytes -> bool, b: Bytes, i: nat): (r: (seq<Span>, nat))
    requires i <= |b|
    ensures i <= r.1 <= |b|
    decreases |b| - i
  {
    var round := Next(accepts, b, i);
    if round.Halt? then ([], round.from)
    else
      var (later, from) := Spans(accepts, b, round.next);
      (if round.Emit? then [Span(round.start, round.next)] + later else later, from)
  }

  /** The algorithm's division is a framing. */
  lemma {:induction false} SpansFrame(accepts: Bytes -> bool, b: Bytes, i: nat)
    requires i <= |b|
    ensures IsFraming(accepts, b, i, Spans(accepts, b, i).0, Spans(accepts, b, i).1)
    decreases |b| - i
  {
    SkipSpaceIs(b, i, SkipSpace(b, i));
    var round := Next(accepts, b, i);
    if !round.Halt? {
      SpansFrame(accepts, b, round.next);
      var (later, from) := Spans(accepts, b, round.next);
      if round.Emit? {
        FramingCons(accepts, b, i, Span(round.start, round.next), later, from);
      } else {
        FramingDrop(accepts, b, i, round.next, later, from);
      }
    }
  }

  lemma FramingDrop(accepts: Bytes -> bool, b: Bytes, i: nat, n: nat, later: seq<Span>, from: nat)
    requires i < n <= |b| && IsFraming(accepts, b, n, later, from)
    requires forall p :: i <= p < n ==> Droppable(accepts, b, p)
    requires !IsSpace(b[n - 1])
    ensures IsFraming(accepts, b, i, later, from)
  {
  }

  lemma CoveredCons(head: Span, later: seq<Span>, p: nat)
    requires Covered(later, p)
    ensures Covered([head] + later, p)
  {
    var k :| 0 <= k < |later| && later[k].start <= p < later[k].end;
    assert ([head] + later)[k + 1] == later[k];
  }

  lemma FramingCons(accepts: Bytes -> bool, b: Bytes, i: nat, head: Span, later: seq<Span>, from: nat)
    requires i <= head.start < head.end <= |b| && IsFraming(accepts, b, head.end, later, from)
    requires Accepted(accepts, b, head.start, head.end)
    requires forall p :: i <= p < head.start ==> Droppable(accepts, b, p)
    ensures IsFraming(accepts, b, i, [head] + later, from)
  {
    var spans := [head] + later;
    forall p | i <= p < from && !Covered(spans, p) ensures Droppable(accepts, b, p) {
      assert spans[0] == head;
      if Covered(later, p) {
        CoveredCons(head, later, p);
      }
    }
  }

  lemma SlicesCons(b: Bytes, head: Span, later: seq<Span>)
    requires head.start <= head.end <= |b|
    requires forall k :: 0 <= k < |later| ==> later[k].start <= later[k].end <= |b|
    ensures Slices(b, [head] + later) == [b[head.start..head.end]] + Slices(b, later)
  {
  }

  /** The framer emits the algorithm's slices and keeps what it leaves. */
  lemma {:induction false} SpansExtract(accepts: Bytes -> bool, b: Bytes, i: nat)
    requires i <= |b|
    ensures var (spans, from) := Spans(accepts, b, i);
            && IsFraming(accepts, b, i, spans, from)
            && ExtractFrom(accepts, b, i) == Framed(Slices(b, spans), b[from..])
    decreases |b| - i
  {
    SpansFrame(accepts, b, i);
    var round := Next(accepts, b, i);
    if round.Drop? {
      SpansExtract(accepts, b, round.next);
    } else if round.Emit? {
      SpansExtract(accepts, b, round.next);
      SlicesCons(b, Span(round.start, round.next), Spans(accepts, b, round.next).0);
    }
  }

  lemma {:induction false} FramingUnique(accepts: Bytes -> bool, b: Bytes, i: nat, spans: seq<Span>, from: nat)
    requires i <= |b| && IsFraming(accepts, b, i, spans, from)
    ensures (spans, from) == Spans(accepts, b, i)
    decreases |b| - i
  {
    FramingRound(accepts, b, i, spans, from);
    var round := Next(accepts, b, i);
    if round.Drop? {
      FramingUnique(accepts, b, round.next, spans, from);
    } else if round.Emit? {
      FramingUnique(accepts, b, round.next, spans[1..], from);
      assert spans == [spans[0]] + spans[1..];
    }
  }

  /** Every buffer has exactly one framing, and a call of the framer returns its
      slices and keeps its kept bytes. */
  lemma FramingIffExtract(accepts: Bytes -> bool, b: Bytes, spans: seq<Span>, from: nat)
    ensures IsFraming(accepts, b, 0, Spans(accepts, b, 0).0, Spans(accepts, b, 0).1)
    ensures IsFraming(accepts, b, 0, spans, from) ==>
            (spans, from) == Spans(accepts, b, 0) &&
            Extract(accepts, b) == Framed(Slices(b, spans), b[from..])
  {
    SpansExtract(accepts, b, 0);
    if IsFraming(accepts, b, 0, spans, from) {
      FramingUnique(accepts, b, 0, spans, from);
    }
  }

  /** Whitespace alone is never kept. */
  lemma KeepsNoSpace(accepts: Bytes -> bool, b: Bytes)
    ensures var kept := Extract(accepts, b).residue; Strip(kept) == [] ==> kept == []
  {
    SpansExtract(accepts, b, 0);
    StripSuffix(b, Spans(accepts, b, 0).1);
  }

  /** Extracting again from what was kept emits nothing and changes nothing. */
  lemma ExtractIdempotent(accepts: Bytes -> bool, b: Bytes)
    ensures var kept := Extract(accepts, b).residue;
            Extract(accepts, kept) == Framed([], kept)
  {
    SpansExtract(accepts, b, 0);
    var from := Spans(accepts, b, 0).1;
    assert IsFraming(accepts, b, from, [], from);
    FramingUnique(accepts, b, from, [], from);
    SpansExtract(accepts, b, from);
    assert b == b[..from] + b[from..];
    ExtractShift(accepts, b[..from], b[from..], 0);
  }
}
