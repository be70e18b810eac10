/** The flash tool client's own framer, the loop of its `onReadyRead`, and how it
    compares with the device client's. */
module ToolStream {
  import opened ByteStrings
  import opened JsonStream
  import opened ChunkInvariance
  import opened Tiling
  import Resync

  /** `indexOf('{')` from position `i` on; the length when there is none. */
  function FirstBrace(b: Bytes, i: nat): (n: nat)
    requires i <= |b|
    ensures i <= n <= |b|
    ensures n < |b| ==> b[n] == OPEN_BRACE
    decreases |b| - i
  {
    if i == |b| || b[i] == OPEN_BRACE then i else FirstBrace(b, i + 1)
  }

  /** One iteration of the tool's loop: whatever is brace-matched is taken out,
      without asking the JSON parser. */
  function CutRound(b: Bytes, i: nat): (r: Round)
    requires i <= |b|
    ensures r.Halt? || r.Emit?
    ensures r.Halt? ==> i <= r.from <= |b|
    ensures r.Emit? ==> i <= r.start < r.next <= |b|
  {
    var start := FirstBrace(b, i);
    if start == |b| then Halt(start)
    else
      match CloseAt(START, b, start)
      case None => Halt(start)
      case Some(n) => Emit(start, n)
  }

  function CutFrom(b: Bytes, i: nat): Framed
    requires i <= |b|
    decreases |b| - i
  {
    var round := CutRound(b, i);
    if round.Halt? then Framed([], b[round.from..])
    else Prepend([b[round.start..round.next]], CutFrom(b, round.next))
  }

  function Cut(b: Bytes): Framed {
    CutFrom(b, 0)
  }

  /** The loop over the receive buffer, which it consumes in place. The slices are
      returned in the order in which they are handled. */
  method CutMessages(buffer: ByteBuffer) returns (slices: seq<Bytes>)
    modifies buffer
    ensures Framed(slices, buffer.data) == Cut(old(buffer.data))
  {
    ghost var whole := Cut(buffer.data);
    slices := [];
    while true
      invariant whole == Prepend(slices, Cut(buffer.data))
      decreases |buffer.data|
    {
      var b := buffer.data;
      var start := IndexOfBrace(b);
      if start == |b| {
        buffer.data := [];
        break;
      }
      if start > 0 {
        buffer.data := b[start..];
      }
      DropPrefix(b, start);
      b := buffer.data;
      var end, complete := ScanObject(b, 0);
      if !complete {
        assert b[0..] == b;
        break;
      }
      TakeFirst(b, end);
      PrependAppend(slices, b[..end], Cut(b[end..]));
      slices := slices + [b[..end]];
      buffer.data := b[end..];
    }
  }

  method IndexOfBrace(b: Bytes) returns (start: nat)
    ensures start == FirstBrace(b, 0)
  {
    start := 0;
    while start < |b| && b[start] != OPEN_BRACE
      invariant start <= |b| && FirstBrace(b, 0) == FirstBrace(b, start)
    {
      start := start + 1;
    }
  }

  // ----- Moving to a longer buffer

  lemma {:induction false} BraceShift(x: Bytes, b: Bytes, i: nat)
    requires i <= |b|
    ensures FirstBrace(x + b, |x| + i) == |x| + FirstBrace(b, i)
    decreases |b| - i
  {
    if i < |b| && b[i] != OPEN_BRACE {
      BraceShift(x, b, i + 1);
    }
  }

  lemma CutRoundShift(x: Bytes, b: Bytes, i: nat)
    requires i <= |b|
    ensures CutRound(x + b, |x| + i) == Shifted(CutRound(b, i), |x|)
  {
    BraceShift(x, b, i);
    CloseShift(START, x, b, FirstBrace(b, i));
  }

  lemma {:induction false} CutShift(x: Bytes, b: Bytes, i: nat)
    requires i <= |b|
    ensures CutFrom(x + b, |x| + i) == CutFrom(b, i)
    decreases |b| - i
  {
    CutRoundShift(x, b, i);
    var round := CutRound(b, i);
    ChunkInvariance.RoundShift(x, b, round);
    if round.Emit? {
      CutShift(x, b, round.next);
    }
  }

  /** An iteration looks for the first brace only. */
  lemma FromBrace(b: Bytes, i: nat)
    requires i <= |b|
    ensures CutFrom(b, i) == CutFrom(b, FirstBrace(b, i))
  {
    var start := FirstBrace(b, i);
    assert FirstBrace(b, start) == start;
    assert CutRound(b, i) == CutRound(b, start);
  }

  /** Removing what precedes the first brace changes nothing. */
  lemma DropPrefix(b: Bytes, start: nat)
    requires start == FirstBrace(b, 0) && start < |b|
    ensures b[start..][0] == OPEN_BRACE && Cut(b[start..]) == Cut(b)
  {
    FromBrace(b, 0);
    CutShiftSlice(b, start);
  }

  lemma CutShiftSlice(b: Bytes, i: nat)
    requires i <= |b|
    ensures Cut(b[i..]) == CutFrom(b, i)
  {
    assert b == b[..i] + b[i..];
    CutShift(b[..i], b[i..], 0);
  }

  lemma TakeFirst(b: Bytes, end: nat)
    requires b != [] && b[0] == OPEN_BRACE && CloseAt(START, b, 0) == Some(end)
    ensures Cut(b) == Prepend([b[..end]], Cut(b[end..]))
  {
    CutShiftSlice(b, end);
    assert b[0..end] == b[..end];
  }

  lemma {:induction false} BraceExtend(a: Bytes, b: Bytes, i: nat)
    requires i <= |a|
    ensures FirstBrace(a + b, i) == if FirstBrace(a, i) < |a| then FirstBrace(a, i) else |a| + FirstBrace(b, 0)
    decreases |a| - i
  {
    if i == |a| {
      BraceShift(a, b, 0);
    } else if a[i] != OPEN_BRACE {
      BraceExtend(a, b, i + 1);
    }
  }

  /** An iteration that stops in `a` stops where one over `a + b` looks first. */
  lemma RoundExtend(a: Bytes, b: Bytes, i: nat)
    requires i <= |a|
    ensures var round := CutRound(a, i);
            if round.Emit? then CutRound(a + b, i) == round
            else CutRound(a + b, i) == CutRound(a + b, round.from)
  {
    BraceExtend(a, b, i);
    var start := FirstBrace(a, i);
    BraceExtend(a, b, start);
    if start < |a| && CloseAt(START, a, start).Some? {
      CloseExtend(START, a, b, start);
    } else {
      BraceShift(a, b, 0);
    }
  }

  lemma CutAppendHalt(a: Bytes, b: Bytes, from: nat)
    requires from <= |a|
    ensures CutFrom(a + b, from) == Cut(a[from..] + b)
  {
    assert a + b == a[..from] + (a[from..] + b);
    CutShift(a[..from], a[from..] + b, 0);
  }

  /** Chunk invariance, with exactly equal residues: this framer keeps nothing but
      an unclosed object. */
  lemma {:induction false} CutAppend(a: Bytes, b: Bytes, i: nat)
    requires i <= |a|
    ensures var first := CutFrom(a, i);
            CutFrom(a + b, i) == Prepend(first.objects, Cut(first.residue + b))
    decreases |a| - i
  {
    RoundExtend(a, b, i);
    var round := CutRound(a, i);
    if round.Halt? {
      CutAppendHalt(a, b, round.from);
      PrependNone(Cut(a[round.from..] + b));
    } else {
      CutAppend(a, b, round.next);
      var slice, later := a[round.start..round.next], CutFrom(a, round.next);
      assert (a + b)[round.start..round.next] == slice;
      PrependTwice([slice], later.objects, Cut(later.residue + b));
    }
  }

  lemma PrependNone(f: Framed)
    ensures Prepend([], f) == f
  {
    assert [] + f.objects == f.objects;
  }

  lemma PrependTwice(xs: seq<Bytes>, ys: seq<Bytes>, f: Framed)
    ensures Prepend(xs, Prepend(ys, f)) == Prepend(xs + ys, f)
  {
    assert xs + (ys + f.objects) == xs + ys + f.objects;
  }

  /** Cutting again what was kept yields nothing and keeps it. */
  lemma {:induction false} CutIdempotent(b: Bytes, i: nat)
    requires i <= |b|
    ensures var kept := CutFrom(b, i).residue; Cut(kept) == Framed([], kept)
    decreases |b| - i
  {
    var round := CutRound(b, i);
    if round.Emit? {
      CutIdempotent(b, round.next);
    } else {
      CutShiftSlice(b, round.from);
      assert CutRound(b, round.from) == Halt(round.from);
    }
  }

  function CutFeed(kept: Bytes, chunks: seq<Bytes>): Framed
    decreases |chunks|
  {
    if chunks == [] then Framed([], kept)
    else
      var f := Cut(kept + chunks[0]);
      Prepend(f.objects, CutFeed(f.residue, chunks[1..]))
  }

  lemma {:induction false} CutChunkInvariant(wire: Bytes, chunks: seq<Bytes>)
    ensures Prepend(Cut(wire).objects, CutFeed(Cut(wire).residue, chunks)) == Cut(wire + Join(chunks))
    decreases |chunks|
  {
    var first := Cut(wire);
    if chunks == [] {
      assert wire + Join(chunks) == wire;
      assert first.objects + [] == first.objects;
    } else {
      CutAppend(wire, chunks[0], 0);
      CutChunkInvariant(wire + chunks[0], chunks[1..]);
      assert wire + Join(chunks) == (wire + chunks[0]) + Join(chunks[1..]);
      var f := Cut(first.residue + chunks[0]);
      PrependTwice(first.objects, f.objects, CutFeed(f.residue, chunks[1..]));
    }
  }

  /** A receive buffer that is not cleared between connections: what an old one left
      does no harm to the new one, whatever is sent, exactly when it left nothing. */
  lemma LeftoverHarmlessIff(kept: Bytes)
    requires Cut(kept) == Framed([], kept)
    ensures (forall t: Bytes :: Cut(kept + t).objects == Cut(t).objects) <==> kept == []
  {
    if kept == [] {
      forall t: Bytes ensures Cut(kept + t).objects == Cut(t).objects {
        NothingLeft(kept, t);
      }
    } else {
      LeftoverHarms(kept);
    }
  }

  lemma NothingLeft(kept: Bytes, t: Bytes)
    requires kept == []
    ensures Cut(kept + t) == Cut(t)
  {
    assert kept + t == t;
  }

  lemma LeftoverHarms(kept: Bytes)
    requires Cut(kept) == Framed([], kept) && kept != []
    ensures Cut(kept + Resync.EMPTY_OBJECT).objects != Cut(Resync.EMPTY_OBJECT).objects
  {
    LeftoverSwallows(kept);
    EmptyObjectCut();
  }

  /** An object that was cut off swallows the next message of the new connection. */
  lemma LeftoverSwallows(kept: Bytes)
    requires Cut(kept) == Framed([], kept) && kept != []
    ensures Cut(kept + Resync.EMPTY_OBJECT).objects == []
  {
    KeptIsOpen(kept);
    StillOpen(kept, Resync.EMPTY_OBJECT);
  }

  lemma KeptIsOpen(kept: Bytes)
    requires Cut(kept) == Framed([], kept) && kept != []
    ensures kept[0] == OPEN_BRACE && CloseAt(START, kept, 0).None?
  {
    var round := CutRound(kept, 0);
    assert round.Halt? && |kept[round.from..]| == |kept|;
  }

  lemma StillOpen(kept: Bytes, t: Bytes)
    requires kept != [] && kept[0] == OPEN_BRACE && CloseAt(START, kept, 0).None? && t == Resync.EMPTY_OBJECT
    ensures Cut(kept + t).objects == []
  {
    Resync.NotClosedBy(Advance(START, kept[0]), kept, 1, t);
    assert (kept + t)[0] == OPEN_BRACE;
    assert CutRound(kept + t, 0) == Halt(0);
  }

  lemma EmptyObjectCut()
    ensures Cut(Resync.EMPTY_OBJECT).objects != []
  {
    assert CloseAt(Scan(1, false, false), Resync.EMPTY_OBJECT, 1) == Some(2);
  }

  // ----- Agreement with the device client's framer

  lemma {:induction false} DropToBrace(accepts: Bytes -> bool, b: Bytes, i: nat)
    requires i <= |b|
    ensures Same(ExtractFrom(accepts, b, i), ExtractFrom(accepts, b, FirstBrace(b, i)))
    decreases |b| - i
  {
    if i < |b| && b[i] != OPEN_BRACE {
      DropToBrace(accepts, b, i + 1);
      if IsSpace(b[i]) {
        SpaceIrrelevant(accepts, b, i, i + 1);
      } else {
        assert Next(accepts, b, i) == Drop(i + 1);
      }
    }
  }

  lemma {:induction false} AcceptedAgree(accepts: Bytes -> bool, b: Bytes, i: nat)
    requires i <= |b| && AllAccepted(accepts, CutFrom(b, i).objects)
    ensures Same(ExtractFrom(accepts, b, i), CutFrom(b, i))
    decreases |b| - i
  {
    DropToBrace(accepts, b, i);
    var start := FirstBrace(b, i);
    if start < |b| && CloseAt(START, b, start).Some? {
      var n := CloseAt(START, b, start).value;
      var later := CutFrom(b, n);
      assert CutFrom(b, i).objects[0] == b[start..n];
      assert CutFrom(b, i).objects[1..] == later.objects;
      AcceptedAgree(accepts, b, n);
      assert Next(accepts, b, start) == Emit(start, n);
    }
  }

  /** The two framers yield the same slices of a buffer, and keep the same bytes up
      to whitespace, exactly when the parser accepts every slice that the tool's
      framer cuts. */
  lemma FramersAgreeIff(accepts: Bytes -> bool, b: Bytes)
    ensures Same(Extract(accepts, b), Cut(b)) <==> AllAccepted(accepts, Cut(b).objects)
  {
    EmittedAccepted(accepts, b, 0);
    if AllAccepted(accepts, Cut(b).objects) {
      AcceptedAgree(accepts, b, 0);
    }
  }
  // ----- Streams with refused slices

  /** Those slices that the parser takes: the messages that the tool client handles. */
  function Taken(accepts: Bytes -> bool, slices: seq<Bytes>): seq<Bytes> {
    if slices == [] then []
    else (if accepts(slices[0]) then [slices[0]] else []) + Taken(accepts, slices[1..])
  }

  /** Behind its first brace the slice holds no object and leaves nothing to wait for. */
  predicate Barren(accepts: Bytes -> bool, s: Bytes) {
    s != [] && Extract(accepts, s[1..]) == Framed([], [])
  }

  /** Every slice that the parser refuses is barren. */
  predicate RefusedAreBarren(accepts: Bytes -> bool, slices: seq<Bytes>) {
    forall k :: 0 <= k < |slices| ==> accepts(slices[k]) || Barren(accepts, slices[k])
  }

  /** A refused slice is passed over, whatever follows, exactly when it is barren. */
  lemma PassedIffBarren(accepts: Bytes -> bool, s: Bytes)
    requires Resync.IsSlice(s) && !accepts(s)
    ensures (forall t: Bytes :: Same(Extract(accepts, s + t), Extract(accepts, t))) <==> Barren(accepts, s)
  {
    if Barren(accepts, s) {
      forall t: Bytes ensures Same(Extract(accepts, s + t), Extract(accepts, t)) {
        BarrenPassed(accepts, s, t);
      }
    } else {
      NotPassed(accepts, s);
      assert !Same(Extract(accepts, s + []), Extract(accepts, []));
    }
  }

  /** On its own, a refused slice that is not barren yields or keeps something. */
  lemma NotPassed(accepts: Bytes -> bool, s: Bytes)
    requires Resync.IsSlice(s) && !accepts(s) && !Barren(accepts, s)
    ensures s + [] == s && !Same(Extract(accepts, s), Framed([], []))
    ensures Extract(accepts, []) == Framed([], [])
  {
    assert s + [] == s && s[1..] + [] == s[1..];
    Resync.RefusedSlice(accepts, s, []);
    KeepsNoSpace(accepts, s[1..]);
  }

  /** A barren slice is passed over. */
  lemma BarrenPassed(accepts: Bytes -> bool, s: Bytes, t: Bytes)
    requires Resync.IsSlice(s) && !accepts(s) && Barren(accepts, s)
    ensures Same(Extract(accepts, s + t), Extract(accepts, t))
  {
    Resync.RefusedSlice(accepts, s, t);
    Append(accepts, s[1..], t, 0);
    assert [] + t == t;
    PrependNone(Extract(accepts, t));
  }

  lemma SliceIs(b: Bytes, start: nat, n: nat)
    requires start < n <= |b| && b[start] == OPEN_BRACE && CloseAt(START, b, start) == Some(n)
    ensures Resync.IsSlice(b[start..n])
  {
    assert b == b[..start] + b[start..];
    CloseShift(START, b[..start], b[start..], 0);
    TailSplit(b, start, n);
    CloseTrim(START, b[start..n], b[n..], 0);
  }

  /** What a scan closes it closes without what follows. */
  lemma {:induction false} CloseTrim(s: Scan, a: Bytes, b: Bytes, i: nat)
    requires i <= |a| && CloseAt(s, a + b, i).Some? && CloseAt(s, a + b, i).value <= |a|
    ensures CloseAt(s, a, i) == CloseAt(s, a + b, i)
    decreases |a| - i
  {
    if !Closes(s, (a + b)[i]) {
      CloseTrim(Advance(s, (a + b)[i]), a, b, i + 1);
    }
  }

  lemma BarrenRound(accepts: Bytes -> bool, b: Bytes, start: nat, n: nat)
    requires start < n <= |b| && b[start] == OPEN_BRACE && CloseAt(START, b, start) == Some(n)
    requires !accepts(b[start..n]) && Barren(accepts, b[start..n])
    ensures Same(ExtractFrom(accepts, b, start), ExtractFrom(accepts, b, n))
  {
    SliceIs(b, start, n);
    BarrenPassed(accepts, b[start..n], b[n..]);
    TailSplit(b, start, n);
    ExtractTail(accepts, b, start);
    ExtractTail(accepts, b, n);
  }

  lemma ExtractTail(accepts: Bytes -> bool, b: Bytes, i: nat)
    requires i <= |b|
    ensures Extract(accepts, b[i..]) == ExtractFrom(accepts, b, i)
  {
    assert b == b[..i] + b[i..];
    ExtractShift(accepts, b[..i], b[i..], 0);
  }

  lemma TailSplit(b: Bytes, start: nat, n: nat)
    requires start <= n <= |b|
    ensures b[start..] == b[start..n] + b[n..]
  {
  }

  lemma {:induction false} TakenAgree(accepts: Bytes -> bool, b: Bytes, i: nat)
    requires i <= |b| && RefusedAreBarren(accepts, CutFrom(b, i).objects)
    ensures AgreeOn(accepts, b, i)
    decreases |b| - i
  {
    DropToBrace(accepts, b, i);
    var start := FirstBrace(b, i);
    if start < |b| && CloseAt(START, b, start).Some? {
      var n := CloseAt(START, b, start).value;
      var later := CutFrom(b, n);
      assert CutFrom(b, i).objects[0] == b[start..n];
      assert CutFrom(b, i).objects[1..] == later.objects;
      TakenAgree(accepts, b, n);
      if accepts(b[start..n]) {
        assert Next(accepts, b, start) == Emit(start, n);
      } else {
        BarrenRound(accepts, b, start, n);
      }
    }
  }

  /** On one buffer the device client's framer yields exactly the slices that the tool
      client handles, and both keep the same bytes up to whitespace. */
  predicate AgreeOn(accepts: Bytes -> bool, b: Bytes, i: nat)
    requires i <= |b|
  {
    Same(ExtractFrom(accepts, b, i), CutFrom(b, i).(objects := Taken(accepts, CutFrom(b, i).objects)))
  }

  /** The first slice of a buffer is first in every prefix that holds it. */
  lemma RoundTrim(a: Bytes, t: Bytes, i: nat)
    requires i <= |a| && CutRound(a + t, i).Emit? && CutRound(a + t, i).next <= |a|
    ensures CutRound(a, i) == CutRound(a + t, i)
  {
    BraceExtend(a, t, i);
    CloseTrim(START, a, t, FirstBrace(a, i));
  }

  /** What a buffer yields from a slice on, in a prefix that holds the slice. */
  lemma PrefixRound(b: Bytes, i: nat, m: nat)
    requires i <= |b| && CutRound(b, i).Emit? && CutRound(b, i).next <= m <= |b|
    ensures CutRound(b[..m], i) == CutRound(b, i)
    ensures b[..m][CutRound(b, i).start..CutRound(b, i).next] == b[CutRound(b, i).start..CutRound(b, i).next]
  {
    assert b == b[..m] + b[m..];
    RoundTrim(b[..m], b[m..], i);
  }

  /** Agreement on the prefix that ends with the first slice tells that the slice is
      accepted or barren. */
  lemma AgreedSlice(accepts: Bytes -> bool, b: Bytes, i: nat)
    requires i <= |b| && CutRound(b, i) == Emit(FirstBrace(b, i), |b|) && AgreeOn(accepts, b, i)
    ensures accepts(b[FirstBrace(b, i)..]) || Barren(accepts, b[FirstBrace(b, i)..])
  {
    var start := FirstBrace(b, i);
    var s := b[start..];
    OneSlice(b, i);
    if !accepts(s) && !Barren(accepts, s) {
      assert Taken(accepts, [s]) == [];
      DropToBrace(accepts, b, i);
      ExtractTail(accepts, b, start);
      NotPassed(accepts, s);
      assert false;
    }
  }

  lemma OneSlice(b: Bytes, i: nat)
    requires i <= |b| && CutRound(b, i) == Emit(FirstBrace(b, i), |b|)
    ensures CutFrom(b, i) == Framed([b[FirstBrace(b, i)..]], []) && Resync.IsSlice(b[FirstBrace(b, i)..])
  {
    var start := FirstBrace(b, i);
    assert b[start..|b|] == b[start..];
    SliceIs(b, start, |b|);
    NothingBehind(b);
  }

  lemma NothingBehind(b: Bytes)
    ensures CutFrom(b, |b|) == Framed([], [])
  {
    assert CutRound(b, |b|) == Halt(|b|);
    assert b[|b|..] == [];
  }

  /** Agreement from `i` on goes over to what follows the first slice. */
  lemma AgreeBehind(accepts: Bytes -> bool, b: Bytes, i: nat)
    requires i <= |b| && CutRound(b, i).Emit? && AgreeOn(accepts, b, i)
    requires var s := b[CutRound(b, i).start..CutRound(b, i).next]; accepts(s) || Barren(accepts, s)
    ensures AgreeOn(accepts, b, CutRound(b, i).next)
  {
    var start, n := CutRound(b, i).start, CutRound(b, i).next;
    var later := CutFrom(b, n);
    DropToBrace(accepts, b, i);
    assert CutFrom(b, i).objects[1..] == later.objects;
    if accepts(b[start..n]) {
      assert Next(accepts, b, start) == Emit(start, n);
      SameBehind(b[start..n], ExtractFrom(accepts, b, n), later.(objects := Taken(accepts, later.objects)));
    } else {
      BarrenRound(accepts, b, start, n);
    }
  }

  lemma SameBehind(slice: Bytes, f: Framed, g: Framed)
    requires Same(Prepend([slice], f), Prepend([slice], g))
    ensures Same(f, g)
  {
    assert f.objects == ([slice] + f.objects)[1..] && g.objects == ([slice] + g.objects)[1..];
  }

  lemma {:induction false} AgreedAreBarren(accepts: Bytes -> bool, b: Bytes, i: nat)
    requires i <= |b| && forall m: nat :: i <= m <= |b| ==> AgreeOn(accepts, b[..m], i)
    ensures RefusedAreBarren(accepts, CutFrom(b, i).objects)
    decreases |b| - i
  {
    var round := CutRound(b, i);
    if round.Emit? {
      var n := round.next;
      PrefixRound(b, i, n);
      assert AgreeOn(accepts, b[..n], i);
      AgreedSlice(accepts, b[..n], i);
      assert b[..n][round.start..] == b[round.start..n];
      forall m: nat | n <= m <= |b| ensures AgreeOn(accepts, b[..m], n) {
        PrefixRound(b, i, m);
        AgreeBehind(accepts, b[..m], i);
      }
      AgreedAreBarren(accepts, b, n);
    }
  }

  lemma PrefixBarren(accepts: Bytes -> bool, b: Bytes, m: nat)
    requires m <= |b| && RefusedAreBarren(accepts, Cut(b).objects)
    ensures RefusedAreBarren(accepts, Cut(b[..m]).objects)
  {
    assert b == b[..m] + b[m..];
    CutAppend(b[..m], b[m..], 0);
    var slices := Cut(b[..m]).objects;
    assert forall k :: 0 <= k < |slices| ==> slices[k] == Cut(b).objects[k];
  }

  /** On messages, and at every moment of a stream: the device client's framer yields
      exactly the slices that the tool client handles, and both keep the same bytes up
      to whitespace, if and only if every slice that the parser refuses is barren. */
  lemma HandledAgreeIff(accepts: Bytes -> bool, b: Bytes)
    ensures (forall m: nat :: m <= |b| ==> AgreeOn(accepts, b[..m], 0)) <==>
            RefusedAreBarren(accepts, Cut(b).objects)
  {
    if RefusedAreBarren(accepts, Cut(b).objects) {
      forall m: nat | m <= |b| ensures AgreeOn(accepts, b[..m], 0) {
        PrefixBarren(accepts, b, m);
        TakenAgree(accepts, b[..m], 0);
      }
    } else if forall m: nat :: m <= |b| ==> AgreeOn(accepts, b[..m], 0) {
      AgreedAreBarren(accepts, b, 0);
    }
  }
}
