/** Re-synchronisation: what happens behind a brace-matched slice that the
    parser refuses, of which the framer skips the opening brace only. */
module Resync {
  import opened ByteStrings
  import opened JsonStream
  import opened ChunkInvariance
  import opened Tiling

  /** At `p` an opening brace starts a scan that runs off the end of `b`. */
  predicate NeverCloses(b: Bytes, p: nat) {
    p < |b| && b[p] == OPEN_BRACE && CloseAt(START, b, p).None?
  }

  /** Every opening brace of `b`, taken for the start of an object, is closed
      within `b`. */
  predicate BracesClose(b: Bytes) {
    forall p :: 0 <= p < |b| ==> !NeverCloses(b, p)
  }

  /** `b` is exactly one brace-matched slice. */
  predicate IsSlice(b: Bytes) {
    b != [] && b[0] == OPEN_BRACE && CloseAt(START, b, 0) == Some(|b|)
  }

  /** Behind the slice `s`, the framer goes on with `t` as if it had started there:
      what `t` yields is emitted, and the same bytes are kept. */
  predicate Recovers(accepts: Bytes -> bool, s: Bytes, t: Bytes)
    requires s != []
  {
    Same(Extract(accepts, s + t), Prepend(Extract(accepts, s[1..]).objects, Extract(accepts, t)))
  }

  const EMPTY_OBJECT: Bytes := [OPEN_BRACE, CLOSE_BRACE]

  /** A refused slice costs its first byte. */
  lemma RefusedSlice(accepts: Bytes -> bool, s: Bytes, t: Bytes)
    requires IsSlice(s) && !accepts(s)
    ensures Extract(accepts, s + t) == Extract(accepts, s[1..] + t)
  {
    CloseExtend(START, s, t, 0);
    assert (s + t)[0..|s|] == s;
    assert Next(accepts, s + t, 0) == Drop(1);
    assert s + t == s[..1] + (s[1..] + t);
    ExtractShift(accepts, s[..1], s[1..] + t, 0);
  }

  /** Every opening brace of `b` that never closes lies inside one of the slices that
      the framer takes from `b`. */
  predicate StrayBracesTaken(accepts: Bytes -> bool, b: Bytes) {
    forall p :: 0 <= p < |b| && NeverCloses(b, p) ==> Covered(Spans(accepts, b, 0).0, p)
  }

  lemma NothingKeptIff(accepts: Bytes -> bool, b: Bytes)
    ensures Extract(accepts, b).residue == [] <==> StrayBracesTaken(accepts, b)
    ensures Extract(accepts, b).residue != [] ==> Waits(Extract(accepts, b).residue, 0)
  {
    SpansExtract(accepts, b, 0);
    var (spans, from) := Spans(accepts, b, 0);
    if from < |b| {
      var w := SkipSpace(b, from);
      assert NeverCloses(b, w) && !Covered(spans, w);
      WaitsSuffix(b, from);
    } else {
      forall p | 0 <= p < |b| && NeverCloses(b, p) ensures Covered(spans, p) {
        assert !Droppable(accepts, b, p);
      }
    }
  }

  lemma WaitsSuffix(b: Bytes, from: nat)
    requires from <= |b| && Waits(b, from)
    ensures Waits(b[from..], 0)
  {
    assert b == b[..from] + b[from..];
    SkipShift(b[..from], b[from..], 0);
    CloseShift(START, b[..from], b[from..], SkipSpace(b, from) - from);
  }

  lemma {:induction false} NotClosedBy(s: Scan, b: Bytes, i: nat, t: Bytes)
    requires i <= |b| && CloseAt(s, b, i).None? && t == EMPTY_OBJECT && s.depth > 0
    ensures CloseAt(s, b + t, i).None?
    decreases |b| - i
  {
    var bt := b + t;
    if i < |b| {
      NotClosedBy(Advance(s, b[i]), b, i + 1, t);
    } else {
      assert bt[i] == OPEN_BRACE && bt[i + 1] == CLOSE_BRACE && |bt| == i + 2;
      var u := Advance(Advance(s, bt[i]), bt[i + 1]);
      assert CloseAt(u, bt, i + 2).None?;
      assert CloseAt(Advance(s, bt[i]), bt, i + 1).None?;
    }
  }

  /** An object behind a waiting brace is swallowed: nothing is emitted, and the
      brace goes on waiting. */
  lemma WaitingSwallows(accepts: Bytes -> bool, kept: Bytes)
    requires Waits(kept, 0)
    ensures Extract(accepts, kept + EMPTY_OBJECT) == Framed([], kept + EMPTY_OBJECT)
  {
    var w := SkipSpace(kept, 0);
    SkipExtend(kept, EMPTY_OBJECT, 0);
    NotClosedBy(Advance(START, kept[w]), kept, w + 1, EMPTY_OBJECT);
  }

  /** Nothing of `{}` is ever kept. */
  lemma EmptyObjectTaken(accepts: Bytes -> bool)
    ensures Extract(accepts, EMPTY_OBJECT).residue == []
  {
    var b := EMPTY_OBJECT;
    assert CloseAt(Scan(1, false, false), b, 1) == Some(2);
    SpansExtract(accepts, b, 0);
  }

  /** For the parser at hand: behind a slice that it refuses, the framer recovers
      whatever follows exactly when every brace inside the slice that never closes
      there lies in an inner slice that the framer takes. */
  lemma RecoversForIff(accepts: Bytes -> bool, s: Bytes)
    requires IsSlice(s) && !accepts(s)
    ensures (forall t: Bytes :: Recovers(accepts, s, t)) <==> StrayBracesTaken(accepts, s[1..])
  {
    NothingKeptIff(accepts, s[1..]);
    if StrayBracesTaken(accepts, s[1..]) {
      forall t: Bytes ensures Recovers(accepts, s, t) {
        RefusedSlice(accepts, s, t);
        Append(accepts, s[1..], t, 0);
        assert [] + t == t;
      }
    } else {
      Swallowed(accepts, s);
      EmptyObjectTaken(accepts);
      assert !Recovers(accepts, s, EMPTY_OBJECT);
    }
  }

  /** Otherwise an object that follows is lost: what is emitted is what the refused
      slice holds, and all of the object is kept. */
  lemma Swallowed(accepts: Bytes -> bool, s: Bytes)
    requires IsSlice(s) && !accepts(s) && !StrayBracesTaken(accepts, s[1..])
    ensures Extract(accepts, s + EMPTY_OBJECT).objects == Extract(accepts, s[1..]).objects
    ensures Strip(Extract(accepts, s + EMPTY_OBJECT).residue) != []
  {
    NothingKeptIff(accepts, s[1..]);
    var first := Extract(accepts, s[1..]);
    WaitingSwallows(accepts, first.residue);
    RefusedSlice(accepts, s, EMPTY_OBJECT);
    Append(accepts, s[1..], EMPTY_OBJECT, 0);
    assert first.objects + [] == first.objects;
    StripKeepsBrace(first.residue);
  }

  lemma StripKeepsBrace(kept: Bytes)
    requires Waits(kept, 0)
    ensures Strip(kept + EMPTY_OBJECT) != []
  {
    SkipExtend(kept, EMPTY_OBJECT, 0);
  }

  /** The same for all parsers at once: the framer recovers behind a refused slice,
      whatever the parser and whatever follows, exactly when the braces inside the
      slice close inside it. */
  lemma RecoversIff(s: Bytes)
    requires IsSlice(s)
    ensures (forall accepts: Bytes -> bool, t: Bytes :: !accepts(s) ==> Recovers(accepts, s, t)) <==> BracesClose(s[1..])
  {
    if BracesClose(s[1..]) {
      forall accepts: Bytes -> bool, t: Bytes | !accepts(s) ensures Recovers(accepts, s, t) {
        RecoversForIff(accepts, s);
      }
    } else {
      var none: Bytes -> bool := _ => false;
      var p :| 0 <= p < |s[1..]| && NeverCloses(s[1..], p);
      SpansExtract(none, s[1..], 0);
      assert !Covered(Spans(none, s[1..], 0).0, p);
      RecoversForIff(none, s);
    }
  }

  predicate QuoteFree(b: Bytes) {
    forall k :: 0 <= k < |b| ==> b[k] != QUOTE
  }

  /** Without quotes, a scan that starts less deep closes no later. */
  lemma {:induction false} ShallowerCloses(b: Bytes, i: nat, d: int, e: int)
    requires i <= |b| && QuoteFree(b) && 0 < e <= d
    requires CloseAt(Scan(d, false, false), b, i).Some?
    ensures CloseAt(Scan(e, false, false), b, i).Some?
    decreases |b| - i
  {
    if !Closes(Scan(e, false, false), b[i]) {
      ShallowerCloses(b, i + 1, Advance(Scan(d, false, false), b[i]).depth,
                      Advance(Scan(e, false, false), b[i]).depth);
    }
  }

  lemma {:induction false} InnerBraceCloses(b: Bytes, i: nat, d: int, p: nat)
    requires i <= p < |b| && QuoteFree(b) && d > 0 && b[p] == OPEN_BRACE
    requires CloseAt(Scan(d, false, false), b, i) == Some(|b|)
    ensures CloseAt(START, b, p).Some?
    decreases p - i
  {
    if i < p {
      InnerBraceCloses(b, i + 1, Advance(Scan(d, false, false), b[i]).depth, p);
    } else {
      ShallowerCloses(b, p + 1, d + 1, 1);
    }
  }

  /** A refused slice without quotes is always recovered from: what follows it is
      framed as if it came first. */
  lemma QuoteFreeRecovers(accepts: Bytes -> bool, s: Bytes, t: Bytes)
    requires IsSlice(s) && QuoteFree(s) && !accepts(s)
    ensures Recovers(accepts, s, t)
  {
    forall p | 0 <= p < |s[1..]| ensures !NeverCloses(s[1..], p) {
      if s[1..][p] == OPEN_BRACE {
        InnerBraceCloses(s, 1, 1, p + 1);
        assert s == s[..1] + s[1..];
        CloseShift(START, s[..1], s[1..], p);
      }
    }
    RecoversIff(s);
  }

  /** With quotes it can fail, for every parser that refuses `{"{"}`: the restart takes
      the string for syntax, and the object that follows is not emitted. */
  lemma QuotedBraceSwallows(accepts: Bytes -> bool)
    ensures var s := [OPEN_BRACE, QUOTE, OPEN_BRACE, QUOTE, CLOSE_BRACE];
            && IsSlice(s) && !QuoteFree(s)
            && (!accepts(s) ==> !Recovers(accepts, s, EMPTY_OBJECT) && Extract(accepts, s + EMPTY_OBJECT).objects == [])
  {
    var s := [OPEN_BRACE, QUOTE, OPEN_BRACE, QUOTE, CLOSE_BRACE];
    assert CloseAt(Scan(1, false, false), s, 4) == Some(5);
    assert CloseAt(Scan(1, true, false), s, 3) == Some(5);
    assert CloseAt(Scan(1, true, false), s, 2) == Some(5);
    assert s[1] == QUOTE;
    if !accepts(s) {
      RefusedQuotedBrace(accepts, s);
    }
  }

  lemma RefusedQuotedBrace(accepts: Bytes -> bool, s: Bytes)
    requires s == [OPEN_BRACE, QUOTE, OPEN_BRACE, QUOTE, CLOSE_BRACE] && IsSlice(s) && !accepts(s)
    ensures !Recovers(accepts, s, EMPTY_OBJECT) && Extract(accepts, s + EMPTY_OBJECT).objects == []
  {
    var u := s[1..];
    assert u == [QUOTE, OPEN_BRACE, QUOTE, CLOSE_BRACE];
    assert CloseAt(Scan(1, true, false), u, 4).None?;
    assert CloseAt(Scan(1, true, false), u, 3).None?;
    assert CloseAt(Scan(1, false, false), u, 2).None?;
    assert Next(accepts, u, 1) == Halt(1);
    assert Next(accepts, u, 0) == Drop(1);
    assert ExtractFrom(accepts, u, 1) == Framed([], u[1..]);
    assert ExtractFrom(accepts, u, 0) == ExtractFrom(accepts, u, 1);
    assert Extract(accepts, u).residue == u[1..];
    assert |u[1..]| == 3;
    NothingKeptIff(accepts, u);
    Swallowed(accepts, s);
    EmptyObjectTaken(accepts);
  }
}
