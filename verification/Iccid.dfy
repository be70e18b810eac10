/** ICCIDs as nibble-swapped hex text (clause 13.2 of ETSI TS 102 221): the display
    loop of `AfalLpaGetProfilesInfo` and the decoding loop that the profile calls
    share. */
module Iccid {
  import opened ByteStrings

  /** One digit of `%X`. */
  function HexDigit(n: nat): char
    requires n < 16
  {
    if n < 10 then '0' + n as char else 'A' + (n - 10) as char
  }

  predicate IsHex(ch: char) {
    '0' <= ch <= '9' || 'A' <= ch <= 'F' || 'a' <= ch <= 'f'
  }

  function UpperHex(ch: char): char {
    if 'a' <= ch <= 'f' then ch - 'a' + 'A' else ch
  }

  /** The decoding of one character, masked to four bits: letters are taken down by
      55 and everything else by 48, for any character. */
  function Nibble(ch: char): nat {
    (if ch > '9' && (ch <= 'F' || ch <= 'f') then ch as int - 48 - 7 else ch as int - 48) % 16
  }

  /** The two characters shown for a byte, low nibble first. */
  function Swapped(b: Byte): string {
    [HexDigit(b as nat % 16), HexDigit(b as nat / 16)]
  }

  function Display(bytes: Bytes): string {
    if bytes == [] then "" else Swapped(bytes[0]) + Display(bytes[1..])
  }

  function Decode(text: string): Bytes
    decreases |text|
  {
    if |text| < 2 then []
    else [(Nibble(text[1]) * 16 + Nibble(text[0])) as Byte] + Decode(text[2..])
  }

  function Upper(text: string): string {
    seq(|text|, k requires 0 <= k < |text| => UpperHex(text[k]))
  }

  lemma NibbleOfDigit(n: nat)
    requires n < 16
    ensures Nibble(HexDigit(n)) == n
  {
  }

  lemma DigitOfNibble(ch: char)
    requires IsHex(ch)
    ensures HexDigit(Nibble(ch)) == UpperHex(ch)
  {
  }

  /** Decoding what is displayed gives the bytes back. */
  lemma {:induction false} DecodeDisplay(bytes: Bytes)
    ensures Decode(Display(bytes)) == bytes
  {
    if bytes != [] {
      DecodeDisplay(bytes[1..]);
      var n := bytes[0] as nat;
      NibbleOfDigit(n % 16);
      NibbleOfDigit(n / 16);
      assert Display(bytes)[2..] == Display(bytes[1..]);
      assert n / 16 * 16 + n % 16 == n;
    }
  }

  lemma SwappedBack(low: char, high: char)
    requires IsHex(low) && IsHex(high)
    ensures Swapped((Nibble(high) * 16 + Nibble(low)) as Byte) == [UpperHex(low), UpperHex(high)]
  {
    DigitOfNibble(low);
    DigitOfNibble(high);
    var n := Nibble(high) * 16 + Nibble(low);
    assert n / 16 == Nibble(high) && n % 16 == Nibble(low);
  }

  lemma UpperSplit(low: char, high: char, rest: string)
    ensures Upper([low, high] + rest) == [UpperHex(low), UpperHex(high)] + Upper(rest)
  {
  }

  lemma DisplayStep(low: char, high: char, rest: string)
    requires IsHex(low) && IsHex(high)
    ensures Display(Decode([low, high] + rest)) ==
            [UpperHex(low), UpperHex(high)] + Display(Decode(rest))
  {
    SwappedBack(low, high);
    var b := (Nibble(high) * 16 + Nibble(low)) as Byte;
    assert ([low, high] + rest)[2..] == rest;
    assert Decode([low, high] + rest) == [b] + Decode(rest);
    assert ([b] + Decode(rest))[1..] == Decode(rest);
  }

  function Even(text: string): string {
    text[..|text| - |text| % 2]
  }

  /** Displaying what is decoded from hex text, in upper or lower case, gives the
      text in upper case; of an odd length, the last character is dropped. */
  lemma {:induction false} DisplayDecode(text: string)
    requires forall k :: 0 <= k < |text| ==> IsHex(text[k])
    ensures Display(Decode(text)) == Upper(Even(text))
    decreases |text|
  {
    if |text| >= 2 {
      var low, high, rest := text[0], text[1], text[2..];
      DisplayDecode(rest);
      DisplayStep(low, high, rest);
      UpperSplit(low, high, Even(rest));
      EvenSplit(low, high, rest);
      assert text == [low, high] + rest;
    } else {
      assert Even(text) == "";
    }
  }

  lemma EvenSplit(low: char, high: char, rest: string)
    ensures Even([low, high] + rest) == [low, high] + Even(rest)
  {
  }

  lemma {:induction false} DecodeLength(text: string)
    ensures |Decode(text)| == |text| / 2
    decreases |text|
  {
    if |text| >= 2 {
      DecodeLength(text[2..]);
    }
  }

  const LPA_PROFILE_ICCID_BUFFER_MAX_SIZE := 10

  /** What the loop writes stays inside the source's array exactly for texts of at most
      21 characters. */
  lemma DecodeFits(text: string)
    ensures |Decode(text)| <= LPA_PROFILE_ICCID_BUFFER_MAX_SIZE <==> |text| < 22
  {
    DecodeLength(text);
  }

  /** The decoding loop: `bytes` is the fixed array, which takes ten bytes in the
      source, and longer texts overrun it. */
  method DecodeInto(text: string, bytes: array<Byte>) returns (len: nat)
    requires |text| / 2 <= bytes.Length
    modifies bytes
    ensures len == |text| / 2 && bytes[..len] == Decode(text)
    ensures bytes[len..] == old(bytes[len..])
  {
    len := |text| / 2;
    DecodeLength(text);
    var cnt, p := 0, 0;
    while cnt < len
      invariant cnt <= len && p == 2 * cnt
      invariant bytes[..cnt] + Decode(text[p..]) == Decode(text)
      invariant bytes[len..] == old(bytes[len..])
    {
      var low := Nibble(text[p]);
      p := p + 1;
      var high := Nibble(text[p]);
      p := p + 1;
      assert text[2 * cnt..][2..] == text[p..];
      bytes[cnt] := (high * 16 + low) as Byte;
      cnt := cnt + 1;
    }
    assert Decode(text[p..]) == [];
  }

  lemma DisplayFirst(b: Byte, rest: Bytes)
    ensures Display([b] + rest) == Swapped(b) + Display(rest)
  {
    assert ([b] + rest)[1..] == rest;
  }

  /** The display loop, which prints a byte and swaps the two characters. */
  method DisplayOf(bytes: array<Byte>, size: nat) returns (text: string)
    requires size <= bytes.Length
    ensures text == Display(bytes[..size])
  {
    text := "";
    var k := 0;
    while k < size
      invariant k <= size
      invariant text + Display(bytes[k..size]) == Display(bytes[..size])
    {
      var tmp := [HexDigit(bytes[k] as nat / 16), HexDigit(bytes[k] as nat % 16)];
      tmp := [tmp[1], tmp[0]];
      assert bytes[k..size] == [bytes[k]] + bytes[k + 1..size];
      DisplayFirst(bytes[k], bytes[k + 1..size]);
      assert text + tmp + Display(bytes[k + 1..size]) == text + (tmp + Display(bytes[k + 1..size]));
      text := text + tmp;
      k := k + 1;
    }
  }
}
