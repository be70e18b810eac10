/** JSON texts of RFC 8259 as concrete syntax trees, and the round trip of a
    stream of objects through the framer. */
module JsonText {
  import opened ByteStrings
  import opened JsonStream
  import opened ChunkInvariance
  import opened Tiling

  const COMMA: Byte := 0x2C
  const COLON: Byte := 0x3A
  const OPEN_BRACKET: Byte := 0x5B
  const CLOSE_BRACKET: Byte := 0x5D

  /** A character of a string (section 7 of RFC 8259): itself, or a backslash and
      what it escapes. The four digits behind `\u` are characters of their own. */
  datatype Piece = Plain(c: Byte) | Escaped(c: Byte)

  /** A value with the whitespace around it. `Token` stands for `true`, `false`,
      `null` and numbers. */
  datatype Json =
    | Token(text: Bytes)
    | Text(pieces: seq<Piece>)
    | Array(pad: Bytes, items: Items)
    | Object(pad: Bytes, members: Members)

  datatype Items = NoItems | Items(before: Bytes, item: Json, after: Bytes, rest: Items)

  datatype Members =
    | NoMembers
    | Members(before: Bytes, key: seq<Piece>, between: Bytes,
              behind: Bytes, value: Json, after: Bytes, rest: Members)

  /** Bytes without syntax for the scanner: whitespace, numbers, literals. */
  predicate Quiet(b: Bytes) {
    forall k :: 0 <= k < |b| ==> b[k] != QUOTE && b[k] != OPEN_BRACE && b[k] != CLOSE_BRACE
  }

  predicate StringOk(pieces: seq<Piece>) {
    forall k :: 0 <= k < |pieces| ==>
      pieces[k].Plain? ==> pieces[k].c != QUOTE && pieces[k].c != BACKSLASH
  }

  /** What the grammar demands of the leaves. */
  predicate WellFormed(j: Json) {
    match j
    case Token(text) => Quiet(text)
    case Text(pieces) => StringOk(pieces)
    case Array(pad, items) => AllSpace(pad) && ItemsOk(items)
    case Object(pad, members) => AllSpace(pad) && MembersOk(members)
  }

  predicate ItemsOk(items: Items) {
    match items
    case NoItems => true
    case Items(before, item, after, rest) =>
      AllSpace(before) && WellFormed(item) && AllSpace(after) && ItemsOk(rest)
  }

  predicate MembersOk(members: Members) {
    match members
    case NoMembers => true
    case Members(before, key, between, behind, value, after, rest) =>
      && AllSpace(before) && StringOk(key) && AllSpace(between) && AllSpace(behind)
      && WellFormed(value) && AllSpace(after) && MembersOk(rest)
  }

  function PrintPieces(pieces: seq<Piece>): Bytes {
    if pieces == [] then []
    else (match pieces[0] case Plain(c) => [c] case Escaped(c) => [BACKSLASH, c]) + PrintPieces(pieces[1..])
  }

  function PrintString(pieces: seq<Piece>): Bytes {
    [QUOTE] + PrintPieces(pieces) + [QUOTE]
  }

  function Print(j: Json): Bytes {
    match j
    case Token(text) => text
    case Text(pieces) => PrintString(pieces)
    case Array(pad, items) => [OPEN_BRACKET] + (pad + PrintItems(items, [])) + [CLOSE_BRACKET]
    case Object(pad, members) => [OPEN_BRACE] + (pad + PrintMembers(members, [])) + [CLOSE_BRACE]
  }

  /** `separator` is empty before the first item and a comma before the others. */
  function PrintItems(items: Items, separator: Bytes): Bytes {
    match items
    case NoItems => []
    case Items(before, item, after, rest) =>
      (separator + before) + (Print(item) + (after + PrintItems(rest, [COMMA])))
  }

  function PrintMembers(members: Members, separator: Bytes): Bytes {
    match members
    case NoMembers => []
    case Members(before, key, between, behind, value, after, rest) =>
      (separator + before) + (PrintString(key) + ((between + [COLON] + behind) +
      (Print(value) + (after + PrintMembers(rest, [COMMA])))))
  }

  // ----- A printed value as the scanner reads it

  /** The scanner's state after `text`, provided that it does not close inside. */
  function Pass(s: Scan, text: Bytes): Option<Scan>
    decreases |text|
  {
    if text == [] then Some(s)
    else if Closes(s, text[0]) then None
    else Pass(Advance(s, text[0]), text[1..])
  }

  lemma {:induction false} PassAppend(s: Scan, a: Bytes, b: Bytes)
    requires Pass(s, a).Some?
    ensures Pass(s, a + b) == Pass(Pass(s, a).value, b)
    decreases |a|
  {
    if a == [] {
      assert a + b == b;
    } else {
      assert (a + b)[1..] == a[1..] + b;
      PassAppend(Advance(s, a[0]), a[1..], b);
    }
  }

  lemma {:induction false} PassClose(s: Scan, b: Bytes, i: nat, n: nat)
    requires i <= n <= |b| && Pass(s, b[i..n]).Some?
    ensures CloseAt(s, b, i) == CloseAt(Pass(s, b[i..n]).value, b, n)
    decreases n - i
  {
    if i < n {
      assert b[i..n][1..] == b[i + 1..n];
      PassClose(Advance(s, b[i]), b, i + 1, n);
    }
  }

  /** Outside strings, at depth `d`. */
  function At(d: nat): Scan {
    Scan(d, false, false)
  }

  /** Read at depth `d`, the text leaves the scanner as it was. */
  predicate Neutral(d: nat, text: Bytes) {
    Pass(At(d), text) == Some(At(d))
  }

  lemma NeutralAppend(d: nat, a: Bytes, b: Bytes)
    requires Neutral(d, a) && Neutral(d, b)
    ensures Neutral(d, a + b)
  {
    PassAppend(At(d), a, b);
  }

  lemma {:induction false} QuietNeutral(d: nat, text: Bytes)
    requires Quiet(text)
    ensures Neutral(d, text)
    decreases |text|
  {
    if text != [] {
      QuietNeutral(d, text[1..]);
    }
  }

  lemma {:induction false} PiecesPass(d: nat, pieces: seq<Piece>)
    requires StringOk(pieces)
    ensures Pass(Scan(d, true, false), PrintPieces(pieces)) == Some(Scan(d, true, false))
  {
    if pieces != [] {
      PiecesPass(d, pieces[1..]);
      var s := Scan(d, true, false);
      var head := PrintPieces(pieces)[..|PrintPieces(pieces)| - |PrintPieces(pieces[1..])|];
      assert PrintPieces(pieces) == head + PrintPieces(pieces[1..]);
      if pieces[0].Plain? {
        assert head == [pieces[0].c] && head[1..] == [];
      } else {
        assert head == [BACKSLASH, pieces[0].c] && head[1..] == [pieces[0].c] && head[1..][1..] == [];
        assert Pass(Scan(d, true, true), head[1..]) == Some(s);
      }
      assert Pass(s, head) == Some(s);
      PassAppend(s, head, PrintPieces(pieces[1..]));
    }
  }

  lemma StringNeutral(d: nat, pieces: seq<Piece>)
    requires StringOk(pieces)
    ensures Neutral(d, PrintString(pieces))
  {
    PiecesPass(d, pieces);
    var body := PrintPieces(pieces) + [QUOTE];
    PassAppend(Scan(d, true, false), PrintPieces(pieces), [QUOTE]);
    assert [QUOTE][1..] == [];
    assert PrintString(pieces)[1..] == body;
  }

  /** Nested values leave the depth as it was, whatever their strings contain. */
  lemma {:induction false} PrintNeutral(d: nat, j: Json)
    requires WellFormed(j) && d > 0
    ensures Neutral(d, Print(j))
    decreases j, 0
  {
    match j
    case Token(text) => QuietNeutral(d, text);
    case Text(pieces) => StringNeutral(d, pieces);
    case Array(pad, items) =>
      QuietNeutral(d, [OPEN_BRACKET]);
      QuietNeutral(d, pad);
      ItemsNeutral(d, items, []);
      QuietNeutral(d, [CLOSE_BRACKET]);
      NeutralAppend(d, pad, PrintItems(items, []));
      NeutralAppend(d, [OPEN_BRACKET], pad + PrintItems(items, []));
      NeutralAppend(d, [OPEN_BRACKET] + (pad + PrintItems(items, [])), [CLOSE_BRACKET]);
    case Object(pad, members) =>
      ObjectBody(d + 1, pad, members);
      var body := pad + PrintMembers(members, []);
      PassAppend(At(d), [OPEN_BRACE], body);
      PassAppend(At(d), [OPEN_BRACE] + body, [CLOSE_BRACE]);
      assert [OPEN_BRACE][1..] == [] && [CLOSE_BRACE][1..] == [];
  }

  lemma {:induction false} ObjectBody(d: nat, pad: Bytes, members: Members)
    requires AllSpace(pad) && MembersOk(members) && d > 0
    ensures Neutral(d, pad + PrintMembers(members, []))
    decreases members, 1
  {
    QuietNeutral(d, pad);
    MembersNeutral(d, members, []);
    NeutralAppend(d, pad, PrintMembers(members, []));
  }

  lemma {:induction false} ItemsNeutral(d: nat, items: Items, separator: Bytes)
    requires ItemsOk(items) && Quiet(separator) && d > 0
    ensures Neutral(d, PrintItems(items, separator))
    decreases items, 0
  {
    match items
    case NoItems =>
    case Items(before, item, after, rest) =>
      QuietNeutral(d, separator + before);
      PrintNeutral(d, item);
      QuietNeutral(d, after);
      ItemsNeutral(d, rest, [COMMA]);
      NeutralAppend(d, after, PrintItems(rest, [COMMA]));
      NeutralAppend(d, Print(item), after + PrintItems(rest, [COMMA]));
      NeutralAppend(d, separator + before, Print(item) + (after + PrintItems(rest, [COMMA])));
  }

  lemma {:induction false} MembersNeutral(d: nat, members: Members, separator: Bytes)
    requires MembersOk(members) && Quiet(separator) && d > 0
    ensures Neutral(d, PrintMembers(members, separator))
    decreases members, 0
  {
    match members
    case NoMembers =>
    case Members(before, key, between, behind, value, after, rest) =>
      QuietNeutral(d, separator + before);
      StringNeutral(d, key);
      QuietNeutral(d, between + [COLON] + behind);
      PrintNeutral(d, value);
      QuietNeutral(d, after);
      MembersNeutral(d, rest, [COMMA]);
      var t := after + PrintMembers(rest, [COMMA]);
      NeutralAppend(d, after, PrintMembers(rest, [COMMA]));
      NeutralAppend(d, Print(value), t);
      NeutralAppend(d, between + [COLON] + behind, Print(value) + t);
      NeutralAppend(d, PrintString(key), (between + [COLON] + behind) + (Print(value) + t));
      NeutralAppend(d, separator + before,
                    PrintString(key) + ((between + [COLON] + behind) + (Print(value) + t)));
  }

  /** The scan of a printed object closes at its last byte and not before. */
  lemma ObjectCloses(j: Json)
    requires WellFormed(j) && j.Object?
    ensures Print(j)[0] == OPEN_BRACE && CloseAt(START, Print(j), 0) == Some(|Print(j)|)
  {
    var body := j.pad + PrintMembers(j.members, []);
    var b := Print(j);
    ObjectBody(1, j.pad, j.members);
    assert b[1..|b| - 1] == body;
    PassClose(At(1), b, 1, |b| - 1);
  }

  // ----- Streams of objects

  /** An object of the stream and what precedes it: whitespace, or any other bytes
      that are no opening brace. */
  datatype Entry = Entry(gap: Bytes, doc: Json)

  predicate NoBrace(b: Bytes) {
    forall k :: 0 <= k < |b| ==> b[k] != OPEN_BRACE
  }

  predicate EntriesOk(entries: seq<Entry>) {
    forall k :: 0 <= k < |entries| ==>
      NoBrace(entries[k].gap) && entries[k].doc.Object? && WellFormed(entries[k].doc)
  }

  function PrintEntries(entries: seq<Entry>, tail: Bytes): Bytes {
    if entries == [] then tail
    else entries[0].gap + (Print(entries[0].doc) + PrintEntries(entries[1..], tail))
  }

  function Printed(entries: seq<Entry>): seq<Bytes> {
    seq(|entries|, k requires 0 <= k < |entries| => Print(entries[k].doc))
  }

  lemma {:induction false} GapDropped(accepts: Bytes -> bool, gap: Bytes, b: Bytes)
    requires NoBrace(gap)
    ensures Same(Extract(accepts, gap + b), Extract(accepts, b))
    decreases |gap|
  {
    if gap == [] {
      assert gap + b == b;
    } else {
      var whole := gap + b;
      assert whole == [gap[0]] + (gap[1..] + b);
      ExtractShift(accepts, [gap[0]], gap[1..] + b, 0);
      if IsSpace(gap[0]) {
        SpaceInFront(accepts, [gap[0]], gap[1..] + b);
      } else {
        assert Next(accepts, whole, 0) == Drop(1);
      }
      GapDropped(accepts, gap[1..], b);
    }
  }

  lemma ObjectEmitted(accepts: Bytes -> bool, j: Json, b: Bytes)
    requires WellFormed(j) && j.Object? && accepts(Print(j))
    ensures Extract(accepts, Print(j) + b) == Prepend([Print(j)], Extract(accepts, b))
  {
    ObjectCloses(j);
    var text := Print(j);
    CloseExtend(START, text, b, 0);
    assert (text + b)[0..|text|] == text;
    assert Next(accepts, text + b, 0) == Emit(0, |text|);
    ExtractShift(accepts, text, b, 0);
  }

  lemma {:induction false} StreamExtract(accepts: Bytes -> bool, entries: seq<Entry>, tail: Bytes)
    requires EntriesOk(entries) && NoBrace(tail)
    requires forall k :: 0 <= k < |entries| ==> accepts(Print(entries[k].doc))
    ensures Same(Extract(accepts, PrintEntries(entries, tail)), Framed(Printed(entries), []))
  {
    if entries == [] {
      GapDropped(accepts, tail, []);
      assert tail + [] == tail;
    } else {
      var later := PrintEntries(entries[1..], tail);
      StreamExtract(accepts, entries[1..], tail);
      ObjectEmitted(accepts, entries[0].doc, later);
      GapDropped(accepts, entries[0].gap, Print(entries[0].doc) + later);
      assert Printed(entries) == [Print(entries[0].doc)] + Printed(entries[1..]);
    }
  }

  /** Print any objects, put anything but opening braces between them, cut the
      text anywhere: the framer gives back exactly those objects, in order, and
      keeps no byte. */
  lemma RoundTrip(accepts: Bytes -> bool, entries: seq<Entry>, tail: Bytes, chunks: seq<Bytes>)
    requires EntriesOk(entries) && NoBrace(tail)
    requires forall k :: 0 <= k < |entries| ==> accepts(Print(entries[k].doc))
    requires Join(chunks) == PrintEntries(entries, tail)
    ensures Feed(accepts, [], chunks) == Framed(Printed(entries), [])
  {
    StreamExtract(accepts, entries, tail);
    ChunkInvariant(accepts, [], [], chunks);
    assert [] + Join(chunks) == Join(chunks);
    var f := Feed(accepts, [], chunks);
    assert [] + f.objects == f.objects;
    FeedKeepsNoSpace(accepts, [], chunks);
  }

  /** Whitespace alone is never kept. */
  lemma {:induction false} FeedKeepsNoSpace(accepts: Bytes -> bool, kept: Bytes, chunks: seq<Bytes>)
    requires Strip(kept) == [] ==> kept == []
    ensures var r := Feed(accepts, kept, chunks).residue; Strip(r) == [] ==> r == []
    decreases |chunks|
  {
    if chunks != [] {
      var b := kept + chunks[0];
      KeepsNoSpace(accepts, b);
      FeedKeepsNoSpace(accepts, Extract(accepts, b).residue, chunks[1..]);
    }
  }
}
