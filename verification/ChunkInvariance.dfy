/** The framer's answer depends on the bytes of the stream, not on how the
    socket cut them. */
module ChunkInvariance {
  import opened ByteStrings
  import opened JsonStream

  /** The same objects, and the same bytes kept for later up to whitespace in
      front of them. */
  predicate Same(f: Framed, g: Framed) {
    f.objects == g.objects && Strip(f.residue) == Strip(g.residue)
  }

  // ----- Moving a scan to a longer buffer

  lemma {:induction false} CloseShift(s: Scan, x: Bytes, b: Bytes, i: nat)
    requires i <= |b|
    ensures CloseAt(s, x + b, |x| + i) ==
            match CloseAt(s, b, i) case None => None case Some(n) => Some(|x| + n)
    decreases |b| - i
  {
    if i < |b| && !Closes(s, b[i]) {
      CloseShift(Advance(s, b[i]), x, b, i + 1);
    }
  }

  lemma {:induction false} SkipShift(x: Bytes, b: Bytes, i: nat)
    requires i <= |b|
    ensures SkipSpace(x + b, |x| + i) == |x| + SkipSpace(b, i)
    decreases |b| - i
  {
    if i < |b| && IsSpace(b[i]) {
      SkipShift(x, b, i + 1);
    }
  }

  function Shifted(round: Round, d: nat): Round {
    match round
    case Halt(from) => Halt(d + from)
    case Drop(n) => Drop(d + n)
    case Emit(start, n) => Emit(d + start, d + n)
  }

  /** What one round emits or keeps is in the same place. */
  lemma RoundShift(x: Bytes, b: Bytes, round: Round)
    requires round.Halt? ==> round.from <= |b|
    requires round.Emit? ==> round.start <= round.next <= |b|
    ensures round.Halt? ==> (x + b)[Shifted(round, |x|).from..] == b[round.from..]
    ensures round.Emit? ==> (x + b)[Shifted(round, |x|).start..Shifted(round, |x|).next] == b[round.start..round.next]
  {
  }

  lemma NextShift(accepts: Bytes -> bool, x: Bytes, b: Bytes, i: nat)
    requires i <= |b|
    ensures Next(accepts, x + b, |x| + i) == Shifted(Next(accepts, b, i), |x|)
  {
    SkipShift(x, b, i);
    var w := SkipSpace(b, i);
    CloseShift(START, x, b, w);
    var close := CloseAt(START, b, w);
    RoundShift(x, b, if close.Some? then Emit(w, close.value) else Halt(w));
  }

  /** Bytes already passed do not matter. */
  lemma {:induction false} ExtractShift(accepts: Bytes -> bool, x: Bytes, b: Bytes, i: nat)
    requires i <= |b|
    ensures ExtractFrom(accepts, x + b, |x| + i) == ExtractFrom(accepts, b, i)
    decreases |b| - i
  {
    NextShift(accepts, x, b, i);
    var round := Next(accepts, b, i);
    RoundShift(x, b, round);
    if !round.Halt? {
      ExtractShift(accepts, x, b, round.next);
    }
  }

  /** A scan that closes does not look at what follows. */
  lemma {:induction false} CloseExtend(s: Scan, a: Bytes, b: Bytes, i: nat)
    requires i <= |a| && CloseAt(s, a, i).Some?
    ensures CloseAt(s, a + b, i) == CloseAt(s, a, i)
    decreases |a| - i
  {
    if !Closes(s, a[i]) {
      CloseExtend(Advance(s, a[i]), a, b, i + 1);
    }
  }

  lemma {:induction false} SkipExtend(a: Bytes, b: Bytes, i: nat)
    requires i <= |a| && SkipSpace(a, i) < |a|
    ensures SkipSpace(a + b, i) == SkipSpace(a, i)
    decreases |a| - i
  {
    if IsSpace(a[i]) {
      SkipExtend(a, b, i + 1);
    }
  }

  lemma {:induction false} NextExtend(accepts: Bytes -> bool, a: Bytes, b: Bytes, i: nat)
    requires i <= |a| && !Next(accepts, a, i).Halt?
    ensures Next(accepts, a + b, i) == Next(accepts, a, i)
  {
    SkipExtend(a, b, i);
    var w := SkipSpace(a, i);
    if a[w] == OPEN_BRACE {
      CloseExtend(START, a, b, w);
      assert (a + b)[w..CloseAt(START, a, w).value] == a[w..CloseAt(START, a, w).value];
    }
  }

  // ----- Leading whitespace

  lemma {:induction false} SkipTwice(b: Bytes, i: nat, j: nat)
    requires i <= j <= |b|
    requires forall k :: i <= k < j ==> IsSpace(b[k])
    ensures SkipSpace(b, i) == SkipSpace(b, j)
    decreases j - i
  {
    if i < j {
      SkipTwice(b, i + 1, j);
    }
  }

  lemma StripSuffix(b: Bytes, i: nat)
    requires i <= |b|
    ensures Strip(b[i..]) == b[SkipSpace(b, i)..]
  {
    assert b == b[..i] + b[i..];
    SkipShift(b[..i], b[i..], 0);
    assert b[i..][SkipSpace(b[i..], 0)..] == b[SkipSpace(b, i)..];
  }

  lemma NextAfterSpace(accepts: Bytes -> bool, b: Bytes, i: nat, j: nat)
    requires i <= j <= |b|
    requires SkipSpace(b, i) == SkipSpace(b, j)
    ensures Next(accepts, b, i) == Next(accepts, b, j) ||
            (Next(accepts, b, i) == Halt(i) && Next(accepts, b, j) == Halt(j))
  {
  }

  /** Whitespace in front changes at most the whitespace that is kept. */
  lemma SpaceIrrelevant(accepts: Bytes -> bool, b: Bytes, i: nat, j: nat)
    requires i <= j <= |b|
    requires forall k :: i <= k < j ==> IsSpace(b[k])
    ensures Same(ExtractFrom(accepts, b, i), ExtractFrom(accepts, b, j))
  {
    SkipTwice(b, i, j);
    NextAfterSpace(accepts, b, i, j);
    if Next(accepts, b, i) != Next(accepts, b, j) {
      StripSuffix(b, i);
      StripSuffix(b, j);
    }
  }

  lemma SpaceInFront(accepts: Bytes -> bool, u: Bytes, b: Bytes)
    requires AllSpace(u)
    ensures Same(Extract(accepts, u + b), Extract(accepts, b))
  {
    SpaceIrrelevant(accepts, u + b, 0, |u|);
    ExtractShift(accepts, u, b, 0);
  }

  // ----- Two chunks

  /** A round that stops in `a` leaves its residue to the next call. */
  lemma AppendHalt(accepts: Bytes -> bool, a: Bytes, b: Bytes, i: nat, from: nat)
    requires i <= |a| && Next(accepts, a, i) == Halt(from)
    ensures Same(Extract(accepts, a[from..] + b), ExtractFrom(accepts, a + b, i))
  {
    if from < |a| {
      assert a + b == a[..i] + (a[i..] + b);
      ExtractShift(accepts, a[..i], a[i..] + b, 0);
    } else {
      assert a[from..] + b == b;
      ExtractShift(accepts, a, b, 0);
      if SkipSpace(a, i) == |a| {
        SkipSpaceIs(a, i, |a|);
        SpaceIrrelevant(accepts, a + b, i, |a|);
      }
    }
  }

  lemma SliceExtend(a: Bytes, b: Bytes, i: nat, n: nat)
    requires i <= n <= |a|
    ensures (a + b)[i..n] == a[i..n]
  {
  }

  lemma SamePrepend(slice: Bytes, objects: seq<Bytes>, g: Framed, h: Framed)
    requires Same(Prepend(objects, g), h)
    ensures Same(Prepend([slice] + objects, g), Prepend([slice], h))
  {
    assert [slice] + objects + g.objects == [slice] + (objects + g.objects);
  }

  lemma SameUnprefixed(g: Framed, h: Framed)
    requires Same(g, h)
    ensures Same(Prepend([], g), h)
  {
    assert [] + g.objects == g.objects;
  }

  /** Framing `a`, keeping its residue and framing that with `b` behind it is
      framing `a + b` in one go. */
  lemma {:induction false} Append(accepts: Bytes -> bool, a: Bytes, b: Bytes, i: nat)
    requires i <= |a|
    ensures var first := ExtractFrom(accepts, a, i);
            Same(Prepend(first.objects, Extract(accepts, first.residue + b)),
                 ExtractFrom(accepts, a + b, i))
    decreases |a| - i
  {
    var round := Next(accepts, a, i);
    if round.Halt? {
      AppendHalt(accepts, a, b, i, round.from);
      SameUnprefixed(Extract(accepts, a[round.from..] + b), ExtractFrom(accepts, a + b, i));
    } else {
      NextExtend(accepts, a, b, i);
      Append(accepts, a, b, round.next);
      if round.Emit? {
        var slice := a[round.start..round.next];
        SliceExtend(a, b, round.start, round.next);
        var later := ExtractFrom(accepts, a, round.next);
        SamePrepend(slice, later.objects, Extract(accepts, later.residue + b),
                    ExtractFrom(accepts, a + b, round.next));
      }
    }
  }

  // ----- Any number of chunks

  /** The client's use of the framer: append a chunk, extract, keep the rest. */
  function Feed(accepts: Bytes -> bool, kept: Bytes, chunks: seq<Bytes>): Framed
    decreases |chunks|
  {
    if chunks == [] then Framed([], kept)
    else
      var f := Extract(accepts, kept + chunks[0]);
      Prepend(f.objects, Feed(accepts, f.residue, chunks[1..]))
  }

  /** `kept` is what the framer keeps of `wire`, up to leading whitespace. */
  predicate Keeps(accepts: Bytes -> bool, wire: Bytes, kept: Bytes) {
    Strip(kept) == Strip(Extract(accepts, wire).residue)
  }

  /** One more chunk, when all that is known of the kept bytes is `Keeps`. */
  lemma TakeChunk(accepts: Bytes -> bool, wire: Bytes, kept: Bytes, chunk: Bytes)
    requires Keeps(accepts, wire, kept)
    ensures Same(Prepend(Extract(accepts, wire).objects, Extract(accepts, kept + chunk)),
                 Extract(accepts, wire + chunk))
  {
    var residue := Extract(accepts, wire).residue;
    var u, v, core := StripEqual(kept, residue);
    assert kept + chunk == u + (core + chunk) && residue + chunk == v + (core + chunk);
    SpaceInFront(accepts, u, core + chunk);
    SpaceInFront(accepts, v, core + chunk);
    Append(accepts, wire, chunk, 0);
  }

  lemma SameChain(objects: seq<Bytes>, f: Framed, rest: Framed, g: Framed, h: Framed)
    requires Same(Prepend(objects, f), g) && Same(Prepend(g.objects, rest), h)
    ensures Same(Prepend(objects, Prepend(f.objects, rest)), h)
  {
    assert objects + (f.objects + rest.objects) == objects + f.objects + rest.objects;
  }

  /** However the stream is cut, the same objects come out, and what is kept at
      the end is the same up to leading whitespace. */
  lemma {:induction false} ChunkInvariant(accepts: Bytes -> bool, wire: Bytes, kept: Bytes, chunks: seq<Bytes>)
    requires Keeps(accepts, wire, kept)
    ensures Same(Prepend(Extract(accepts, wire).objects, Feed(accepts, kept, chunks)),
                 Extract(accepts, wire + Join(chunks)))
    decreases |chunks|
  {
    if chunks == [] {
      assert wire + Join(chunks) == wire;
    } else {
      TakeChunk(accepts, wire, kept, chunks[0]);
      var f := Extract(accepts, kept + chunks[0]);
      ChunkInvariant(accepts, wire + chunks[0], f.residue, chunks[1..]);
      assert wire + Join(chunks) == (wire + chunks[0]) + Join(chunks[1..]);
      SameChain(Extract(accepts, wire).objects, f, Feed(accepts, f.residue, chunks[1..]),
                Extract(accepts, wire + chunks[0]), Extract(accepts, wire + Join(chunks)));
    }
  }

  /** Two cuttings of one stream are indistinguishable. */
  lemma TwoCuttings(accepts: Bytes -> bool, xs: seq<Bytes>, ys: seq<Bytes>)
    requires Join(xs) == Join(ys)
    ensures Same(Feed(accepts, [], xs), Feed(accepts, [], ys))
  {
    ChunkInvariant(accepts, [], [], xs);
    ChunkInvariant(accepts, [], [], ys);
    assert [] + Join(xs) == Join(xs);
    assert [] + Feed(accepts, [], xs).objects == Feed(accepts, [], xs).objects;
    assert [] + Feed(accepts, [], ys).objects == Feed(accepts, [], ys).objects;
  }
}
