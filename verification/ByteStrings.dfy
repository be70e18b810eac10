/** Byte strings as the socket code sees them, and the few notions about
    whitespace and chunking that the framers share. */
module ByteStrings {

  datatype Option<+T> = None | Some(value: T)

  newtype Byte = x: int | 0 <= x < 256

  type Bytes = seq<Byte>

  const QUOTE: Byte := 0x22
  const BACKSLASH: Byte := 0x5C
  const OPEN_BRACE: Byte := 0x7B
  const CLOSE_BRACE: Byte := 0x7D

  /** `isspace` of the C locale: tab, line feed, vertical tab, form feed,
      carriage return and blank. */
  predicate IsSpace(c: Byte) {
    9 <= c <= 13 || c == 32
  }

  predicate AllSpace(b: Bytes) {
    forall k :: 0 <= k < |b| ==> IsSpace(b[k])
  }

  /** First position from `i` on that holds no whitespace, or the end. */
  function SkipSpace(b: Bytes, i: nat): (n: nat)
    requires i <= |b|
    ensures i <= n <= |b|
    decreases |b| - i
  {
    if i == |b| || !IsSpace(b[i]) then i else SkipSpace(b, i + 1)
  }

  /** `b` without its leading whitespace. */
  function Strip(b: Bytes): Bytes {
    b[SkipSpace(b, 0)..]
  }

  /** All chunks of a stream, glued together. */
  function Join(chunks: seq<Bytes>): Bytes {
    if chunks == [] then [] else chunks[0] + Join(chunks[1..])
  }

  /** The run that is skipped is the longest one. */
  lemma SkipSpaceIs(b: Bytes, i: nat, n: nat)
    requires i <= n <= |b|
    ensures SkipSpace(b, i) == n <==>
            (forall k :: i <= k < n ==> IsSpace(b[k])) && (n < |b| ==> !IsSpace(b[n]))
    decreases |b| - i
  {
  }

  /** Byte strings that differ in leading whitespace only. */
  lemma StripEqual(x: Bytes, y: Bytes)
    returns (u: Bytes, v: Bytes, core: Bytes)
    requires Strip(x) == Strip(y)
    ensures AllSpace(u) && AllSpace(v) && x == u + core && y == v + core
  {
    var i, j := SkipSpace(x, 0), SkipSpace(y, 0);
    u, v, core := x[..i], y[..j], x[i..];
    SkipSpaceIs(x, 0, i);
    SkipSpaceIs(y, 0, j);
  }
}
