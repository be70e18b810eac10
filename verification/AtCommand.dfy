/** APDUs in AT commands (sections 8.17 and 8.43 of 3GPP TS 27.007): the command that
    `AfalLpaSelectEsimAppid` builds and patches, the one of `AfalLpaSendApduSync`,
    and the extraction of the response's payload. */
module AtCommand {
  import opened ByteStrings
  import opened Iccid

  // ----- Numbers in text

  function Digit(n: nat): char
    requires n < 10
  {
    '0' + n as char
  }

  /** `%d` of a number that is not negative. */
  function Decimal(n: nat): string {
    (if n < 10 then "" else Decimal(n / 10)) + [Digit(n % 10)]
  }

  predicate IsDigit(ch: char) {
    '0' <= ch <= '9'
  }

  function DigitValue(ch: char): int {
    ch as int - '0' as int
  }

  function ReadDecimal(s: string): int {
    if s == "" then 0 else ReadDecimal(s[..|s| - 1]) * 10 + DigitValue(s[|s| - 1])
  }

  lemma DigitBack(n: nat)
    requires n < 10
    ensures IsDigit(Digit(n)) && DigitValue(Digit(n)) == n
  {
  }

  lemma ReadLast(s: string, ch: char)
    ensures ReadDecimal(s + [ch]) == ReadDecimal(s) * 10 + DigitValue(ch)
  {
    assert (s + [ch])[..|s + [ch]| - 1] == s;
  }

  lemma {:induction false} DecimalDigits(n: nat)
    ensures Decimal(n) != "" && Digits(Decimal(n))
    ensures if n == 0 then Decimal(n) == "0" else Decimal(n)[0] != '0'
  {
    if n >= 10 {
      DecimalDigits(n / 10);
    }
    DigitBack(n % 10);
  }

  /** `d` is the number `n` in digits, without a zero in front. */
  predicate IsNumber(d: string, n: nat) {
    d != "" && Digits(d) && ReadDecimal(d) == n && (d[0] == '0' ==> d == "0")
  }

  lemma DecimalIsNumber(n: nat)
    ensures IsNumber(Decimal(n), n)
  {
    DecimalDigits(n);
    DecimalRead(n);
  }

  lemma {:induction false} DecimalRead(n: nat)
    ensures ReadDecimal(Decimal(n)) == n
  {
    var front := if n < 10 then "" else Decimal(n / 10);
    if n >= 10 {
      DecimalRead(n / 10);
    }
    DigitBack(n % 10);
    ReadLast(front, Digit(n % 10));
  }

  function LowerHexDigit(n: nat): char
    requires n < 16
  {
    if n < 10 then '0' + n as char else 'a' + (n - 10) as char
  }

  /** `%02x` */
  function Hex2(n: nat): (s: string)
    ensures |s| >= 2
    ensures n < 256 ==> |s| == 2
    decreases n
  {
    if n < 256 then [LowerHexDigit(n / 16), LowerHexDigit(n % 16)]
    else Hex2(n / 16) + [LowerHexDigit(n % 16)]
  }

  // ----- Building the command

  /** `GetAtPresetType`: 0 for CSIM, 1 for CGLA. */
  function Prefix(preset: int, channel: nat): string {
    if preset == 0 then CSIM else Numbered(CGLA, Decimal(channel))
  }

  /** `snprintf` into a buffer of `size` characters. */
  function Snprintf(size: nat, s: string): (r: string)
    requires size > 0
    ensures r <= s && |r| == if |s| < size then |s| else size - 1
  {
    if |s| < size then s else s[..size - 1]
  }

  /** What comes before the first quote. */
  function Head(preset: int, channel: nat, length: nat): string {
    Numbered(Prefix(preset, channel), Decimal(length))
  }

  function Numbered(p: string, d: string): string {
    p + d + ","
  }

  /** A command that declares `length` and carries `payload` in quotes. */
  function Command(preset: int, channel: nat, length: nat, payload: string): string {
    Quoted(Head(preset, channel, length), payload)
  }

  function Quoted(head: string, payload: string): string {
    head + ("\"" + payload + "\"")
  }

  const SELECT_AID := "00A40400"

  function SelectPayload(aid: string): string {
    SELECT_AID + Hex2(|aid| / 2) + aid
  }

  function FirstQuote(s: string): (n: nat)
    ensures n <= |s|
    ensures n < |s| ==> s[n] == '\"'
    ensures forall k :: 0 <= k < n ==> s[k] != '\"'
  {
    if s == "" || s[0] == '\"' then 0 else 1 + FirstQuote(s[1..])
  }

  /** The channel, written over the second character behind the quote. */
  function Patch(s: string, channel: nat): string {
    var q := FirstQuote(s);
    if q + 2 < |s| then s[q + 2 := HexDigit(channel % 16)] else s
  }

  predicate KnownPreset(preset: int) {
    preset == 0 || preset == 1
  }

  /** The command that `AfalLpaSelectEsimAppid` sends, `channel` being the open
      channel; None where the call gives up before. */
  function Select(preset: int, channel: Option<nat>, aid: string): Option<string> {
    if channel.None? || |aid| % 2 != 0 || !KnownPreset(preset) then None
    else
      var command := Command(preset, channel.value, |aid| + 10, SelectPayload(aid));
      Some(Patch(Snprintf(128, command), channel.value))
  }

  /** The command that `AfalLpaSendApduSync` sends. */
  function Send(preset: int, channel: Option<nat>, apdu: string): Option<string> {
    if channel.None? || |apdu| % 2 != 0 || !KnownPreset(preset) then None
    else Some(Snprintf(4096, Command(preset, channel.value, |apdu|, apdu)))
  }

  // ----- Reading a command back

  /** Where the run of digits that ends at `i` starts. */
  function RunStart(s: string, i: nat): (j: nat)
    requires i <= |s|
    ensures j <= i
  {
    if i == 0 || !IsDigit(s[i - 1]) then i else RunStart(s, i - 1)
  }

  /** The number in front of the comma and the first quote. */
  function Declared(s: string): int {
    var q := FirstQuote(s);
    if q == 0 then -1 else ReadDecimal(s[RunStart(s, q - 1)..q - 1])
  }

  /** The characters between the first quote and the closing quote at the end. */
  function Carried(s: string): string {
    var q := FirstQuote(s);
    if q + 2 <= |s| then s[q + 1..|s| - 1] else ""
  }

  /** The text ends in the closing quote, and the declared length is the number of
      characters between the quotes. */
  predicate WellFramed(s: string) {
    FirstQuote(s) + 2 <= |s| && s[|s| - 1] == '\"' && Declared(s) == |Carried(s)|
  }

  predicate NoQuote(s: string) {
    forall k :: 0 <= k < |s| ==> s[k] != '\"'
  }

  lemma {:induction false} FirstQuoteIs(s: string, n: nat)
    requires n < |s| && s[n] == '\"' && forall k :: 0 <= k < n ==> s[k] != '\"'
    ensures FirstQuote(s) == n
  {
    var m := FirstQuote(s);
    assert m <= n && n <= m;
  }

  lemma {:induction false} RunStartIs(s: string, j: nat, i: nat)
    requires j <= i <= |s| && forall k :: j <= k < i ==> IsDigit(s[k])
    requires j > 0 && !IsDigit(s[j - 1])
    ensures RunStart(s, i) == j
    decreases i
  {
    if j < i {
      RunStartIs(s, j, i - 1);
    }
  }

  predicate EndsHead(p: string) {
    NoQuote(p) && p != "" && !IsDigit(p[|p| - 1])
  }

  predicate Digits(d: string) {
    forall k :: 0 <= k < |d| ==> IsDigit(d[k])
  }

  lemma DigitsEnd(p: string, d: string)
    requires EndsHead(p) && Digits(d)
    ensures EndsHead(Numbered(p, d))
  {
    var s := Numbered(p, d);
    assert s[|s| - 1] == ',';
    forall k | 0 <= k < |s| ensures s[k] != '\"' {
      if |p| <= k < |p| + |d| {
        assert s[k] == d[k - |p|];
      }
    }
  }

  const CSIM := "AT+CSIM="
  const CGLA := "AT+CGLA="

  lemma NamesShape()
    ensures EndsHead(CSIM) && EndsHead(CGLA)
  {
  }

  lemma PrefixShape(preset: int, channel: nat)
    ensures EndsHead(Prefix(preset, channel))
  {
    NamesShape();
    var d := Decimal(channel);
    DecimalDigits(channel);
    DigitsEnd(CGLA, d);
    assert Prefix(preset, channel) == if preset == 0 then CSIM else Numbered(CGLA, d);
  }

  lemma NumberRead(p: string, d: string, s: string)
    requires EndsHead(p) && Digits(d)
    requires var head := Numbered(p, d);
             |head| < |s| && s[..|head|] == head && s[|head|] == '\"'
    ensures FirstQuote(s) == |Numbered(p, d)| && Declared(s) == ReadDecimal(d)
  {
    var head := Numbered(p, d);
    var n := |head|;
    DigitsEnd(p, d);
    assert forall k :: 0 <= k < n ==> s[k] == head[k];
    FirstQuoteIs(s, n);
    assert head[|p| - 1] == p[|p| - 1];
    forall k | |p| <= k < n - 1 ensures IsDigit(s[k]) {
      assert head[k] == d[k - |p|];
    }
    RunStartIs(s, |p|, n - 1);
    assert s[|p|..n - 1] == head[|p|..n - 1] == d;
  }

  /** A text that starts with a head and a quote declares the head's number. */
  lemma HeadRead(preset: int, channel: nat, length: nat, s: string)
    requires var head := Head(preset, channel, length);
             |head| < |s| && s[..|head|] == head && s[|head|] == '\"'
    ensures FirstQuote(s) == |Head(preset, channel, length)| && Declared(s) == length
  {
    var p, d := Prefix(preset, channel), Decimal(length);
    assert Head(preset, channel, length) == Numbered(p, d);
    NumberShape(preset, channel, length, p, d);
    NumberRead(p, d, s);
  }

  lemma NumberShape(preset: int, channel: nat, length: nat, p: string, d: string)
    requires p == Prefix(preset, channel) && d == Decimal(length)
    ensures EndsHead(p) && Digits(d) && ReadDecimal(d) == length
  {
    PrefixShape(preset, channel);
    DecimalDigits(length);
    DecimalRead(length);
  }

  /** A text that starts as the command does, and is as long as what the buffer
      holds of it, is well framed exactly when the buffer holds all of it. */
  lemma CutCommand(preset: int, channel: nat, payload: string, size: nat, s: string)
    requires var head := Head(preset, channel, |payload|);
             && |head| + 2 < size
             && |s| == |Snprintf(size, Command(preset, channel, |payload|, payload))|
             && s[..|head|] == head && s[|head|] == '\"'
    requires |Command(preset, channel, |payload|, payload)| < size ==> s[|s| - 1] == '\"'
    ensures WellFramed(s) <==> |Command(preset, channel, |payload|, payload)| < size
    ensures |Carried(s)| == |payload| <==> |Command(preset, channel, |payload|, payload)| < size
  {
    HeadRead(preset, channel, |payload|, s);
  }

  lemma SnprintfHead(size: nat, head: string, payload: string)
    requires |head| + 2 < size
    ensures var s := Snprintf(size, Quoted(head, payload));
            |head| < |s| && s[..|head|] == head && s[|head|] == '\"'
    ensures |Quoted(head, payload)| < size ==> Snprintf(size, Quoted(head, payload))[|head| + 1 + |payload|] == '\"'
  {
  }

  /** A head that fills the buffer leaves no room for a quoted payload. */
  lemma LongHead(head: string, payload: string, size: nat)
    requires NoQuote(head) && |head| + 2 >= size >= 2
    ensures var s := Snprintf(size, Quoted(head, payload)); FirstQuote(s) + 2 > |s|
    ensures |Quoted(head, payload)| >= size
  {
    var s := Snprintf(size, Quoted(head, payload));
    assert forall k :: 0 <= k < |s| && k < |head| ==> s[k] == head[k];
  }

  lemma HeadShape(preset: int, channel: nat, length: nat)
    ensures NoQuote(Head(preset, channel, length))
  {
    PrefixShape(preset, channel);
    DecimalDigits(length);
    DigitsEnd(Prefix(preset, channel), Decimal(length));
  }

  /** The declared length of an APDU that is sent is right exactly when the buffer
      takes the whole command; the APDU is then carried whole and unchanged, and else
      it is not, unless it is empty. */
  lemma SendFramedIff(preset: int, channel: nat, apdu: string)
    requires |apdu| % 2 == 0 && KnownPreset(preset)
    ensures Send(preset, Some(channel), apdu).Some?
    ensures WellFramed(Send(preset, Some(channel), apdu).value) <==>
            |Command(preset, channel, |apdu|, apdu)| < 4096
    ensures |Command(preset, channel, |apdu|, apdu)| < 4096 ==> Carried(Send(preset, Some(channel), apdu).value) == apdu
    ensures Carried(Send(preset, Some(channel), apdu).value) == apdu && apdu != "" ==>
              |Command(preset, channel, |apdu|, apdu)| < 4096
  {
    var head := Head(preset, channel, |apdu|);
    if |head| + 2 < 4096 {
      SnprintfHead(4096, head, apdu);
      CommandRead(preset, channel, |apdu|, apdu);
      CutCommand(preset, channel, apdu, 4096, Send(preset, Some(channel), apdu).value);
    } else {
      HeadShape(preset, channel, |apdu|);
      LongHead(head, apdu, 4096);
    }
  }

  /** A well framed APDU, letter by letter: under CSIM the declared length and the
      quoted APDU, under CGLA the channel before them. */
  lemma SendText(preset: int, channel: nat, apdu: string)
    returns (c: string, d: string)
    requires |apdu| % 2 == 0 && (preset == 0 || preset == 1)
    requires WellFramed(Send(preset, Some(channel), apdu).value)
    ensures IsNumber(c, channel) && IsNumber(d, |apdu|)
    ensures Send(preset, Some(channel), apdu) ==
            Some((if preset == 0 then "AT+CSIM=" + d + "," else "AT+CGLA=" + c + "," + d + ",") + ("\"" + apdu + "\""))
  {
    SendFramedIff(preset, channel, apdu);
    c, d := Decimal(channel), Decimal(|apdu|);
    DecimalIsNumber(channel);
    DecimalIsNumber(|apdu|);
    HeadText(preset, channel, |apdu|);
  }

  lemma HeadText(preset: int, channel: nat, length: nat)
    requires preset == 0 || preset == 1
    ensures Head(preset, channel, length) ==
            if preset == 0 then "AT+CSIM=" + Decimal(length) + ","
            else "AT+CGLA=" + Decimal(channel) + "," + Decimal(length) + ","
  {
  }

  /** Hex text of two digits, read back. */
  function ReadHex2(s: string): nat
    requires |s| == 2
  {
    Nibble(s[0]) * 16 + Nibble(s[1])
  }

  lemma Hex2Read(n: nat)
    requires n < 256
    ensures |Hex2(n)| == 2 && ReadHex2(Hex2(n)) == n
  {
    assert n / 16 * 16 + n % 16 == n;
  }

  lemma QuotedPatched(head: string, payload: string, digit: char)
    requires |payload| >= 2
    ensures Quoted(head, payload)[|head| + 2 := digit] == Quoted(head, payload[1 := digit])
  {
    var s, t := Quoted(head, payload)[|head| + 2 := digit], Quoted(head, payload[1 := digit]);
    forall k | 0 <= k < |s| ensures s[k] == t[k] {
      if |head| < k <= |head| + |payload| {
        assert t[k] == payload[1 := digit][k - |head| - 1];
      }
    }
  }

  lemma QuotedCarried(head: string, payload: string)
    requires FirstQuote(Quoted(head, payload)) == |head|
    ensures Carried(Quoted(head, payload)) == payload
    ensures Quoted(head, payload)[..|head|] == head
    ensures |Quoted(head, payload)| == |head| + |payload| + 2
    ensures Quoted(head, payload)[|head|] == '\"'
  {
  }

  lemma CommandRead(preset: int, channel: nat, length: nat, payload: string)
    ensures var s := Command(preset, channel, length, payload);
            && FirstQuote(s) == |Head(preset, channel, length)|
            && Declared(s) == length && Carried(s) == payload
            && |s| == |Head(preset, channel, length)| + |payload| + 2 && s[|s| - 1] == '\"'
  {
    var head := Head(preset, channel, length);
    var s := Command(preset, channel, length, payload);
    assert s == Quoted(head, payload);
    assert s[..|head|] == head;
    HeadRead(preset, channel, length, s);
    QuotedCarried(head, payload);
  }

  /** The patch rewrites the second character of the payload and nothing else. */
  lemma PatchedCommand(preset: int, channel: nat, length: nat, payload: string, c: nat)
    requires |payload| >= 2
    ensures Patch(Command(preset, channel, length, payload), c) ==
            Command(preset, channel, length, payload[1 := HexDigit(c % 16)])
  {
    CommandRead(preset, channel, length, payload);
    QuotedPatched(Head(preset, channel, length), payload, HexDigit(c % 16));
  }

  /** For every AID of even length and every channel, when the command fits into the
      buffer, what is sent is a command for that AID: the declared length is the
      number of characters between the quotes, the Lc byte is half the length of the
      AID, the AID is carried whole, and the patch changes one character only, to the
      channel modulo 16. */
  lemma SelectFraming(preset: int, channel: nat, aid: string)
    requires |aid| % 2 == 0 && KnownPreset(preset)
    requires |Command(preset, channel, |aid| + 10, SelectPayload(aid))| < 128
    ensures Select(preset, Some(channel), aid).Some?
    ensures WellFramed(Select(preset, Some(channel), aid).value)
    ensures SelectsAid(Carried(Select(preset, Some(channel), aid).value), channel, aid)
    ensures Select(preset, Some(channel), aid).value ==
            Command(preset, channel, |aid| + 10, Patched(aid, channel))
  {
    SelectIs(preset, channel, aid);
    var apdu := Patched(aid, channel);
    ShortAid(preset, channel, aid);
    SelectPayloadParts(aid, channel);
    WholeCommand(preset, channel, |aid| + 10, apdu);
    var s := Select(preset, Some(channel), aid).value;
    assert s == Command(preset, channel, |aid| + 10, apdu);
    assert Carried(s) == apdu;
  }

  /** The APDU that is sent for an AID. */
  function Patched(aid: string, channel: nat): string {
    SelectPayload(aid)[1 := HexDigit(channel % 16)]
  }

  lemma SelectIs(preset: int, channel: nat, aid: string)
    requires |aid| % 2 == 0 && KnownPreset(preset)
    requires |Command(preset, channel, |aid| + 10, SelectPayload(aid))| < 128
    ensures Select(preset, Some(channel), aid) == Some(Command(preset, channel, |aid| + 10, Patched(aid, channel)))
  {
    PatchedCommand(preset, channel, |aid| + 10, SelectPayload(aid), channel);
  }

  lemma ShortAid(preset: int, channel: nat, aid: string)
    requires |Command(preset, channel, |aid| + 10, SelectPayload(aid))| < 128
    ensures |aid| < 128
  {
    CommandRead(preset, channel, |aid| + 10, SelectPayload(aid));
  }

  lemma WholeCommand(preset: int, channel: nat, length: nat, payload: string)
    requires |payload| == length
    ensures WellFramed(Command(preset, channel, length, payload))
    ensures Carried(Command(preset, channel, length, payload)) == payload
  {
    CommandRead(preset, channel, length, payload);
  }

  /** The same condition decides for SELECT: a longer AID is sent with a declared
      length that is wrong. */
  lemma SelectFramedIff(preset: int, channel: nat, aid: string)
    requires |aid| % 2 == 0 && KnownPreset(preset)
    ensures WellFramed(Select(preset, Some(channel), aid).value) <==>
            |Command(preset, channel, |aid| + 10, SelectPayload(aid))| < 128
  {
    var head := Head(preset, channel, |aid| + 10);
    if |head| + 2 < 128 {
      CutSelect(preset, channel, aid, Select(preset, Some(channel), aid).value);
    } else {
      HeadShape(preset, channel, |aid| + 10);
      LongHead(head, SelectPayload(aid), 128);
      NotPatched(Snprintf(128, Quoted(head, SelectPayload(aid))), channel);
    }
  }

  lemma NotPatched(s: string, channel: nat)
    requires FirstQuote(s) + 2 > |s|
    ensures Patch(s, channel) == s && !WellFramed(s)
  {
  }

  /** A well framed SELECT, letter by letter. */
  lemma SelectText(preset: int, channel: nat, aid: string)
    returns (c: string, d: string, apdu: string)
    requires |aid| % 2 == 0 && (preset == 0 || preset == 1)
    requires WellFramed(Select(preset, Some(channel), aid).value)
    ensures IsNumber(c, channel) && IsNumber(d, |aid| + 10) && SelectsAid(apdu, channel, aid)
    ensures Select(preset, Some(channel), aid) ==
            Some((if preset == 0 then "AT+CSIM=" + d + "," else "AT+CGLA=" + c + "," + d + ",") + ("\"" + apdu + "\""))
  {
    SelectFramedIff(preset, channel, aid);
    SelectFraming(preset, channel, aid);
    c, d := Decimal(channel), Decimal(|aid| + 10);
    DecimalIsNumber(channel);
    DecimalIsNumber(|aid| + 10);
    apdu := Patched(aid, channel);
    SelectPayloadParts(aid, channel);
    HeadText(preset, channel, |aid| + 10);
  }

  /** Both calls give up exactly without a channel, for an odd number of characters
      and for a preset that is neither. */
  lemma GivesUpIff(preset: int, channel: Option<nat>, text: string)
    ensures Select(preset, channel, text).None? <==>
            channel.None? || |text| % 2 != 0 || (preset != 0 && preset != 1)
    ensures Send(preset, channel, text).None? <==>
            channel.None? || |text| % 2 != 0 || (preset != 0 && preset != 1)
  {
  }

  lemma CutSelect(preset: int, channel: nat, aid: string, t: string)
    requires |aid| % 2 == 0 && |Head(preset, channel, |aid| + 10)| + 2 < 128
    requires t == Patch(Snprintf(128, Command(preset, channel, |aid| + 10, SelectPayload(aid))), channel)
    ensures WellFramed(t) <==> |Command(preset, channel, |aid| + 10, SelectPayload(aid))| < 128
  {
    var head, payload := Head(preset, channel, |aid| + 10), SelectPayload(aid);
    SnprintfHead(128, head, payload);
    HeadRead(preset, channel, |aid| + 10, Snprintf(128, Quoted(head, payload)));
    PatchedCut(head, payload, channel);
    if |aid| < 512 {
      SelectPayloadParts(aid, channel);
      CutCommand(preset, channel, payload, 128, t);
    } else {
      LongAid(preset, channel, aid, t);
    }
  }

  lemma LongAid(preset: int, channel: nat, aid: string, s: string)
    requires |aid| >= 512
    requires var head := Head(preset, channel, |aid| + 10);
             |head| < |s| < 128 && s[..|head|] == head && s[|head|] == '\"'
    ensures !WellFramed(s) && |Command(preset, channel, |aid| + 10, SelectPayload(aid))| >= 128
  {
    HeadRead(preset, channel, |aid| + 10, s);
  }

  /** The patch leaves the head, the quotes and the length of the text alone. */
  lemma PatchedCut(head: string, payload: string, channel: nat)
    requires |head| + 2 < 128 && |payload| >= 2
    requires FirstQuote(Snprintf(128, Quoted(head, payload))) == |head|
    ensures var s := Snprintf(128, Quoted(head, payload));
            var t := Patch(s, channel);
            && |t| == |s| && |head| < |t| && t[..|head|] == head && t[|head|] == '\"'
            && (|Quoted(head, payload)| < 128 ==> t[|t| - 1] == '\"')
  {
    SnprintfHead(128, head, payload);
  }

  lemma {:induction false} DecimalShort(n: nat, digits: nat)
    requires 1 <= digits <= 3
    requires n < (if digits == 1 then 10 else if digits == 2 then 100 else 1000)
    ensures |Decimal(n)| <= digits
  {
    if n >= 10 {
      DecimalShort(n / 10, digits - 1);
    }
  }

  /** Every AID of at most 16 bytes fits, on every channel below 1000. */
  lemma AidFits(preset: int, channel: nat, aid: string)
    requires |aid| <= 32 && channel < 1000
    ensures |Command(preset, channel, |aid| + 10, SelectPayload(aid))| < 128
  {
    var length := |aid| + 10;
    DecimalShort(channel, 3);
    DecimalShort(length, 2);
    assert |Prefix(preset, channel)| <= 12;
    SelectPayloadParts(aid, channel);
    CommandRead(preset, channel, length, SelectPayload(aid));
  }

  /** A SELECT by AID on `channel` (section 11.1.1 of ETSI TS 102 221), in hex. */
  predicate SelectsAid(apdu: string, channel: nat, aid: string) {
    && |aid| < 512 && |apdu| == |aid| + 10
    && apdu[0] == '0' && apdu[1] == "0123456789ABCDEF"[channel % 16] && Nibble(apdu[1]) == channel % 16
    && apdu[2..8] == "A40400"
    && ReadHex2(apdu[8..10]) == |aid| / 2
    && apdu[8] == "0123456789abcdef"[|aid| / 2 / 16] && apdu[9] == "0123456789abcdef"[|aid| / 2 % 16]
    && apdu[10..] == aid
  }

  lemma DigitLetters(n: nat)
    requires n < 16
    ensures HexDigit(n) == "0123456789ABCDEF"[n] && LowerHexDigit(n) == "0123456789abcdef"[n]
  {
  }

  lemma SelectPayloadParts(aid: string, channel: nat)
    requires |aid| / 2 < 256
    ensures SelectsAid(Patched(aid, channel), channel, aid)
    ensures |SelectPayload(aid)| == |aid| + 10
  {
    Hex2Read(|aid| / 2);
    NibbleOfDigit(channel % 16);
    var lc := Hex2(|aid| / 2);
    var apdu := (SELECT_AID + lc + aid)[1 := HexDigit(channel % 16)];
    assert apdu[8..10] == lc;
    assert apdu[10..] == aid;
    assert apdu[2..8] == SELECT_AID[2..8] == "A40400";
    DigitLetters(channel % 16);
    DigitLetters(|aid| / 2 / 16);
    DigitLetters(|aid| / 2 % 16);
    assert apdu[8] == lc[0] && apdu[9] == lc[1];
  }

  // ----- The response

  function SkipQuotes(s: string, i: nat): (n: nat)
    requires i <= |s|
    ensures i <= n <= |s|
    decreases |s| - i
  {
    if i == |s| || s[i] != '\"' then i else SkipQuotes(s, i + 1)
  }

  function NextQuote(s: string, i: nat): (n: nat)
    requires i <= |s|
    ensures i <= n <= |s|
    decreases |s| - i
  {
    if i == |s| || s[i] == '\"' then i else NextQuote(s, i + 1)
  }

  /** The second `strtok` on quotes: tokens are runs of other characters, and
      quotes in a row separate once. */
  function SecondToken(s: string): Option<string> {
    var a := SkipQuotes(s, 0);
    var b := NextQuote(s, a);
    if a == |s| || b == |s| then None
    else
      var c := SkipQuotes(s, b + 1);
      if c == |s| then None else Some(s[c..NextQuote(s, c)])
  }

  /** The two `strtok` calls on the response buffer. */
  method Tokenise(s: string) returns (token: Option<string>)
    ensures token == SecondToken(s)
  {
    var a := 0;
    while a < |s| && s[a] == '\"'
      invariant a <= |s| && SkipQuotes(s, a) == SkipQuotes(s, 0)
    {
      a := a + 1;
    }
    var b := EndOfToken(s, a);
    if a == |s| || b == |s| {
      return None;
    }
    var c := b + 1;
    while c < |s| && s[c] == '\"'
      invariant c <= |s| && SkipQuotes(s, c) == SkipQuotes(s, b + 1)
    {
      c := c + 1;
    }
    if c == |s| {
      return None;
    }
    var d := EndOfToken(s, c);
    return Some(s[c..d]);
  }

  method EndOfToken(s: string, i: nat) returns (n: nat)
    requires i <= |s|
    ensures n == NextQuote(s, i)
  {
    n := i;
    while n < |s| && s[n] != '\"'
      invariant i <= n <= |s| && NextQuote(s, n) == NextQuote(s, i)
    {
      n := n + 1;
    }
  }

  lemma {:induction false} NextQuoteIs(s: string, i: nat, n: nat)
    requires i <= n < |s| && s[n] == '\"' && forall k :: i <= k < n ==> s[k] != '\"'
    ensures NextQuote(s, i) == n
    decreases n - i
  {
    if i < n {
      NextQuoteIs(s, i + 1, n);
    }
  }

  /** The payload of a quoted response is extracted exactly unless it is empty: then
      the two quotes count as one, and what follows them is taken for the payload. */
  lemma ExtractIffNonEmpty(head: string, payload: string, tail: string)
    requires NoQuote(head) && head != "" && NoQuote(payload)
    ensures SecondToken(head + "\"" + payload + "\"" + tail) == Some(payload) <==> payload != ""
  {
    var s := head + "\"" + payload + "\"" + tail;
    assert s[0] == head[0];
    assert forall k :: 0 <= k < |head| ==> s[k] == head[k];
    NextQuoteIs(s, 0, |head|);
    var start := |head| + 1;
    assert forall k :: 0 <= k < |payload| ==> s[start + k] == payload[k];
    if payload != "" {
      assert s[start] == payload[0];
      NextQuoteIs(s, start, start + |payload|);
      assert s[start..start + |payload|] == payload;
    } else {
      assert s[start] == '\"';
      var c := SkipQuotes(s, start);
      SkipsToToken(s, start);
    }
  }

  /** A token that is found is not empty. */
  lemma {:induction false} SkipsToToken(s: string, i: nat)
    requires i <= |s|
    ensures var c := SkipQuotes(s, i); c < |s| ==> s[c] != '\"' && NextQuote(s, c) > c
    decreases |s| - i
  {
    if i < |s| && s[i] == '\"' {
      SkipsToToken(s, i + 1);
    }
  }

  function Tag(preset: int): string {
    if preset == 0 then "+CSIM" else "+CGLA"
  }

  /** `strstr` finds it */
  predicate Contains(s: string, part: string) {
    part <= s || (s != "" && Contains(s[1..], part))
  }

  /** What the caller gets for the modem's response, None being its error text. */
  function Reply(preset: int, response: string): Option<string> {
    if Contains(response, Tag(preset)) then SecondToken(response) else None
  }

  /** Every response in the form of the standard, `+CSIM: n,"payload"` or
      `+CGLA: n,"payload"`, with any text behind it, gives its payload exactly when the
      payload is not empty. */
  lemma ReplyIffNonEmpty(preset: int, n: nat, payload: string, tail: string)
    requires NoQuote(payload) && (preset == 0 || preset == 1)
    ensures var head := (if preset == 0 then "+CSIM: " else "+CGLA: ") + Decimal(n) + ",";
            Reply(preset, head + "\"" + payload + "\"" + tail) == Some(payload) <==> payload != ""
  {
    var head := Numbered(Tag(preset) + ": ", Decimal(n));
    DecimalDigits(n);
    TagHead(preset);
    DigitsEnd(Tag(preset) + ": ", Decimal(n));
    var s := head + "\"" + payload + "\"" + tail;
    assert s[..|Tag(preset)|] == Tag(preset);
    ExtractIffNonEmpty(head, payload, tail);
    assert Tag(preset) + ": " == if preset == 0 then "+CSIM: " else "+CGLA: ";
  }

  lemma {:induction false} ContainsMeans(s: string, part: string)
    requires part != ""
    ensures Contains(s, part) <==> exists i :: 0 <= i <= |s| && part <= s[i..]
    decreases |s|
  {
    assert s[0..] == s;
    if s != "" && !(part <= s) {
      ContainsMeans(s[1..], part);
      assert forall i :: 0 < i <= |s| ==> s[1..][i - 1..] == s[i..];
      assert forall i :: 0 <= i < |s| ==> s[1..][i..] == s[i + 1..];
    }
  }

  /** A response without the tag of its command gives an error, and every other one
      what its second token says. */
  lemma ReplyNeedsTag(preset: int, response: string)
    requires preset == 0 || preset == 1
    ensures var tag := if preset == 0 then "+CSIM" else "+CGLA";
            Reply(preset, response) == if exists i :: 0 <= i <= |response| && tag <= response[i..]
                                       then SecondToken(response) else None
  {
    ContainsMeans(response, Tag(preset));
  }

  lemma TagHead(preset: int)
    ensures EndsHead(Tag(preset) + ": ")
  {
    var t := Tag(preset) + ": ";
    assert t == "+CSIM: " || t == "+CGLA: ";
  }

  /** An answered request can lose its answer: with nothing between the quotes, the
      rest of the line is returned. */
  lemma EmptyPayloadExample()
    ensures SecondToken("+CSIM: 0,\"\"\r\nOK") == Some("\r\nOK")
  {
    var s := "+CSIM: 0,\"\"\r\nOK";
    NextQuoteIs(s, 0, 9);
    assert SkipQuotes(s, 11) == 11;
    assert SkipQuotes(s, 10) == 11;
    assert NextQuote(s, 15) == 15 && NextQuote(s, 14) == 15 && NextQuote(s, 13) == 15;
    assert NextQuote(s, 12) == 15;
    assert s[11..15] == "\r\nOK";
  }

  // ----- The buffer

  /** The command buffer of `AfalLpaSelectEsimAppid`, patched in place behind its
      first quote. */
  method BuildSelect(preset: int, channel: Option<nat>, aid: string) returns (command: Option<string>)
    ensures command == Select(preset, channel, aid)
  {
    if channel.None? {
      return None;
    }
    if |aid| % 2 != 0 {
      return None;
    }
    var inputSize := |aid| + 8 + 2;
    var capduSize := |aid| / 2;
    if preset != 0 && preset != 1 {
      return None;
    }
    var payload := SELECT_AID + Hex2(capduSize) + aid;
    assert payload == SelectPayload(aid);
    var capdu := Buffer(Snprintf(128, Command(preset, channel.value, inputSize, payload)));
    PatchChannel(capdu, channel.value);
    return Some(capdu[..]);
  }

  method Buffer(text: string) returns (buffer: array<char>)
    ensures fresh(buffer) && buffer[..] == text
  {
    buffer := new char[|text|](k requires 0 <= k < |text| => text[k]);
  }

  /** The channel digit, written over the CLA character of the command. */
  method PatchChannel(capdu: array<char>, channel: nat)
    modifies capdu
    ensures capdu[..] == Patch(old(capdu[..]), channel)
  {
    ghost var text := capdu[..];
    var pointer := FindQuote(capdu[..]);
    pointer := pointer + 1;
    if pointer + 1 < capdu.Length {
      if channel % 16 >= 10 {
        capdu[pointer + 1] := (channel % 16 - 10 + 'A' as int) as char;
      } else {
        capdu[pointer + 1] := (channel % 16 + '0' as int) as char;
      }
      assert capdu[..] == text[pointer + 1 := HexDigit(channel % 16)];
    }
  }

  method FindQuote(s: string) returns (n: nat)
    ensures n == FirstQuote(s)
  {
    n := 0;
    assert s[0..] == s;
    while n < |s| && s[n] != '\"'
      invariant n <= |s| && FirstQuote(s) == n + FirstQuote(s[n..])
    {
      assert s[n..][1..] == s[n + 1..];
      n := n + 1;
    }
  }
}
