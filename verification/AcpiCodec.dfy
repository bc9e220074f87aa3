/**
 * HP's WMI buffer protocol as `acpi_call` carries it: the hex argument of a
 * request, and the three shapes of reply.
 */
module AcpiCodec {
  import opened Basics

  type byte = x: int | 0 <= x < 256
  type u32 = x: int | 0 <= x < 0x1_0000_0000

  /** "SECU", the signature every buffer starts with. */
  const SIGNATURE: seq<byte> := [0x53, 0x45, 0x43, 0x55]
  const HEADER_LEN: nat := 16

  // ---- Hex digits ----

  predicate IsHexDigit(c: char) {
    '0' <= c <= '9' || 'a' <= c <= 'f' || 'A' <= c <= 'F'
  }

  function DigitValue(c: char): (v: nat)
    requires IsHexDigit(c)
    ensures v < 16
  {
    if '0' <= c <= '9' then c as int - '0' as int
    else if 'a' <= c <= 'f' then c as int - 'a' as int + 10
    else c as int - 'A' as int + 10
  }

  /** A lowercase digit, as `{:02x}` prints it. */
  function DigitChar(v: nat): (c: char)
    requires v < 16
    ensures IsHexDigit(c) && DigitValue(c) == v
    ensures c == 'b' <==> v == 11
    ensures c == '0' <==> v == 0
  {
    "0123456789abcdef"[v]
  }

  function HexByte(b: byte): (s: string)
    ensures |s| == 2
  {
    [DigitChar(b / 16), DigitChar(b % 16)]
  }

  function Hex(bs: seq<byte>): (s: string)
    ensures |s| == 2 * |bs|
  {
    if bs == [] then [] else HexByte(bs[0]) + Hex(bs[1..])
  }

  // ---- Requests ----

  function LittleEndian32(n: nat): (bs: seq<byte>)
    ensures |bs| == 4
  {
    [n % 256, n / 256 % 256, n / 256 / 256 % 256, n / 256 / 256 / 256 % 256]
  }

  /** The payload cut or zero-padded to `size` bytes. */
  function Fit(payload: seq<byte>, size: nat): (bs: seq<byte>)
    ensures |bs| == size
    ensures forall k | 0 <= k < size :: bs[k] == if k < |payload| then payload[k] else 0
  {
    payload[..Min(|payload|, size)] + seq(size - Min(|payload|, size), _ => 0)
  }

  function RequestBuffer(command: nat, commandType: nat, size: nat, payload: seq<byte>): (bs: seq<byte>)
    ensures |bs| == HEADER_LEN + size
  {
    SIGNATURE + LittleEndian32(command) + LittleEndian32(commandType) + LittleEndian32(size) + Fit(payload, size)
  }

  /** `wmi_request`: the buffer grows field by field, then is printed byte by
      byte. The size field keeps the low 32 bits of `size`, as the cast does. */
  method WmiRequest(command: u32, commandType: u32, size: nat, payload: seq<byte>) returns (hex: string)
    ensures hex == "b" + Hex(RequestBuffer(command, commandType, size, payload))
  {
    hide Hex, HexByte, LittleEndian32;
    var buffer := SIGNATURE;
    buffer := buffer + LittleEndian32(command);
    buffer := buffer + LittleEndian32(commandType);
    buffer := buffer + LittleEndian32(size);
    ghost var header := buffer;
    assert |header| == HEADER_LEN;
    buffer := buffer + payload[..Min(|payload|, size)];
    buffer := buffer + seq(HEADER_LEN + size - |buffer|, _ => 0);
    assert buffer == header + Fit(payload, size);
    hex := PrintHex(buffer);
    hex := "b" + hex;
  }

  method PrintHex(buffer: seq<byte>) returns (hex: string)
    ensures hex == Hex(buffer)
  {
    hide HexByte;
    hex := "";
    assert buffer[..0] == [];
    for k := 0 to |buffer|
      invariant hex == Hex(buffer[..k])
    {
      HexSnoc(buffer[..k], buffer[k]);
      assert buffer[..k + 1] == buffer[..k] + [buffer[k]];
      hex := hex + HexByte(buffer[k]);
    }
    assert buffer[..|buffer|] == buffer;
  }

  lemma {:induction false} HexSnoc(bs: seq<byte>, b: byte)
    ensures Hex(bs + [b]) == Hex(bs) + HexByte(b)
  {
    if bs == [] {
      assert bs + [b] == [b] && [b][1..] == [];
    } else {
      assert (bs + [b])[1..] == bs[1..] + [b];
      HexSnoc(bs[1..], b);
    }
  }

  // ---- Replies ----

  /** How many hex digits the text starts with. */
  function DigitRun(s: string): (n: nat)
    ensures n <= |s|
    ensures forall k | 0 <= k < n :: IsHexDigit(s[k])
    ensures n < |s| ==> !IsHexDigit(s[n])
  {
    if s != [] && IsHexDigit(s[0]) then 1 + DigitRun(s[1..]) else 0
  }

  /** Every `0x` run of digits, left to right. */
  function Tokens(s: string): (ts: seq<string>)
    ensures forall k | 0 <= k < |ts| :: ts[k] != [] && forall j | 0 <= j < |ts[k]| :: IsHexDigit(ts[k][j])
    decreases |s|
  {
    if |s| < 2 then []
    else if s[0] == '0' && (s[1] == 'x' || s[1] == 'X') && DigitRun(s[2..]) > 0 then
      [s[2..][..DigitRun(s[2..])]] + Tokens(s[2..][DigitRun(s[2..])..])
    else Tokens(s[1..])
  }

  /** The inner scan of `hex_tokens`: past the digits at `start`. */
  method RunEnd(text: string, start: nat) returns (end: nat)
    requires start <= |text|
    ensures end == start + DigitRun(text[start..]) <= |text|
  {
    end := start;
    while end < |text| && IsHexDigit(text[end])
      invariant start <= end <= |text|
      invariant DigitRun(text[start..]) == end - start + DigitRun(text[end..])
    {
      assert text[end..][1..] == text[end + 1..];
      end := end + 1;
    }
  }

  /** What the scanner does at position `i`. */
  lemma TokensAt(text: string, i: nat)
    requires i + 1 < |text|
    ensures var start, end := i + 2, i + 2 + DigitRun(text[i + 2..]);
      Tokens(text[i..]) ==
        if text[i] == '0' && (text[i + 1] == 'x' || text[i + 1] == 'X') && end > start
        then [text[start..end]] + Tokens(text[end..])
        else Tokens(text[i + 1..])
  {
    var s, n := text[i..], DigitRun(text[i + 2..]);
    assert s[1..] == text[i + 1..] && s[2..] == text[i + 2..];
    assert s[2..][..n] == text[i + 2..i + 2 + n];
    assert s[2..][n..] == text[i + 2 + n..];
  }

  /** `hex_tokens`. */
  method HexTokens(text: string) returns (tokens: seq<string>)
    ensures tokens == Tokens(text)
  {
    hide Tokens, DigitRun;
    tokens := [];
    var i := 0;
    assert text[0..] == text;
    while i + 1 < |text|
      invariant 0 <= i <= |text|
      invariant tokens + Tokens(text[i..]) == Tokens(text)
    {
      TokensAt(text, i);
      if text[i] == '0' && (text[i + 1] == 'x' || text[i + 1] == 'X') {
        var start := i + 2;
        var end := RunEnd(text, start);
        if end > start {
          assert tokens + ([text[start..end]] + Tokens(text[end..])) == tokens + [text[start..end]] + Tokens(text[end..]);
          tokens := tokens + [text[start..end]];
          i := end;
          continue;
        }
      }
      i := i + 1;
    }
    ShortHasNoTokens(text[i..]);
  }

  lemma ShortHasNoTokens(s: string)
    requires |s| < 2
    ensures Tokens(s) == []
  {
  }

  /** The number a run of hex digits stands for. */
  function HexValue(s: string): nat
    requires forall k | 0 <= k < |s| :: IsHexDigit(s[k])
  {
    if s == [] then 0 else HexValue(s[..|s| - 1]) * 16 + DigitValue(s[|s| - 1])
  }

  /** `u8::from_str_radix(token, 16)`: the value, when it fits a byte. */
  function TokenByte(t: string): Option<byte>
    requires forall k | 0 <= k < |t| :: IsHexDigit(t[k])
  {
    if HexValue(t) < 256 then Some(HexValue(t)) else None
  }

  /** All the bytes, or nothing if one token does not fit. */
  function TokenBytes(ts: seq<string>): Option<seq<byte>>
    requires forall k | 0 <= k < |ts| :: forall j | 0 <= j < |ts[k]| :: IsHexDigit(ts[k][j])
  {
    if ts == [] then Some([])
    else
      var first, rest := TokenByte(ts[0]), TokenBytes(ts[1..]);
      if first.Some? && rest.Some? then Some([first.value] + rest.value) else None
  }

  predicate IsBrace(c: char) {
    c == '{' || c == '}'
  }

  function TrimBraces(s: string): string
    decreases |s|
  {
    if s != [] && IsBrace(s[0]) then TrimBraces(s[1..])
    else if s != [] && IsBrace(s[|s| - 1]) then TrimBraces(s[..|s| - 1])
    else s
  }

  /** The blob without its prefix, which is taken off once. */
  function StripPrefix(s: string): string {
    if |s| >= 2 && s[0] == '0' && s[1] == 'x' then s[2..]
    else if s != [] && s[0] == 'b' then s[1..]
    else s
  }

  function DropBlanks(s: string): string {
    if s == [] then []
    else if Drops(s[0], true) then DropBlanks(s[1..])
    else [s[0]] + DropBlanks(s[1..])
  }

  function PairBytes(s: string): (bs: seq<byte>)
    requires |s| % 2 == 0 && forall k | 0 <= k < |s| :: IsHexDigit(s[k])
  {
    if s == [] then [] else [DigitValue(s[0]) * 16 + DigitValue(s[1])] + PairBytes(s[2..])
  }

  /** `from_hex`. */
  function FromHex(s: string): Option<seq<byte>> {
    if s == [] || |s| % 2 != 0 || exists k | 0 <= k < |s| :: !IsHexDigit(s[k]) then None
    else Some(PairBytes(s))
  }

  /** `parse_bytes`. */
  function ParseBytes(response: string): Option<seq<byte>> {
    var text := Trim(response, false);
    if text == [] then None
    else
      var tokens := Tokens(text);
      if tokens != [] && TokenBytes(tokens).Some? then TokenBytes(tokens)
      else FromHex(DropBlanks(StripPrefix(Trim(TrimBraces(text), false))))
  }

  // ---- Round trips ----

  lemma {:induction false} HexDigitsOnly(bs: seq<byte>)
    ensures forall k | 0 <= k < |Hex(bs)| :: IsHexDigit(Hex(bs)[k])
  {
    if bs != [] { HexDigitsOnly(bs[1..]); }
  }

  lemma {:induction false} PairsOfHex(bs: seq<byte>)
    ensures |Hex(bs)| % 2 == 0 && (forall k | 0 <= k < |Hex(bs)| :: IsHexDigit(Hex(bs)[k]))
    ensures PairBytes(Hex(bs)) == bs
  {
    HexDigitsOnly(bs);
    if bs != [] {
      assert Hex(bs)[2..] == Hex(bs[1..]);
      PairsOfHex(bs[1..]);
    }
  }

  /** Printing and reading back bytes is the identity, except that nothing is
      read from nothing. */
  lemma FromHexOfHex(bs: seq<byte>)
    ensures FromHex(Hex(bs)) == if bs == [] then None else Some(bs)
  {
    PairsOfHex(bs);
  }

  lemma {:induction false} NothingDropped(s: string)
    requires forall k | 0 <= k < |s| :: IsHexDigit(s[k])
    ensures DropBlanks(s) == s
  {
    if s != [] { NothingDropped(s[1..]); }
  }

  /** Without an `x` there is no token. */
  lemma {:induction false} NoTokens(s: string)
    requires forall k | 0 <= k < |s| :: s[k] != 'x' && s[k] != 'X'
    ensures Tokens(s) == []
    decreases |s|
  {
    if |s| >= 2 { NoTokens(s[1..]); }
  }

  lemma NothingTrimmed(s: string)
    requires s != [] && !Drops(s[0], false) && !Drops(s[|s| - 1], false)
    ensures Trim(s, false) == s
  {
  }

  /** A blob of digits is read from its prefix on. */
  lemma BlobPath(blob: string)
    requires blob != [] && forall k | 0 <= k < |blob| :: IsHexDigit(blob[k])
    ensures ParseBytes(blob) == FromHex(StripPrefix(blob))
  {
    NothingTrimmed(blob);
    NoTokens(blob);
    NothingDropped(StripPrefix(blob));
    hide Tokens, Trim, DropBlanks, FromHex, StripPrefix;
    assert TrimBraces(blob) == blob;
  }

  /** A request read as a reply gives back its own buffer. */
  lemma RequestRoundTrip(command: u32, commandType: u32, size: nat, payload: seq<byte>)
    ensures var buffer := RequestBuffer(command, commandType, size, payload);
      ParseBytes("b" + Hex(buffer)) == Some(buffer)
  {
    var buffer := RequestBuffer(command, commandType, size, payload);
    HexDigitsOnly(buffer);
    BlobPath("b" + Hex(buffer));
    assert StripPrefix("b" + Hex(buffer)) == Hex(buffer);
    FromHexOfHex(buffer);
  }

  function FromLittleEndian32(bs: seq<byte>): nat
    requires |bs| == 4
  {
    bs[0] as int + 256 * bs[1] as int + 65536 * bs[2] as int + 16777216 * bs[3] as int
  }

  lemma LittleEndianBack(n: nat)
    ensures FromLittleEndian32(LittleEndian32(n)) == n % 0x1_0000_0000
  {
    var a := n / 256;
    var b := a / 256;
    var c := b / 256;
    var d := c / 256;
    ByteOff(n, a);
    ByteOff(a, b);
    ByteOff(b, c);
    ByteOff(c, d);
    Modulus(n, d, FromLittleEndian32(LittleEndian32(n)));
  }

  lemma ByteOff(n: nat, q: nat)
    requires q == n / 256
    ensures n == 256 * q + n % 256
  {
  }

  lemma Modulus(n: nat, d: nat, r: nat)
    requires n == 0x1_0000_0000 * d + r && r < 0x1_0000_0000
    ensures n % 0x1_0000_0000 == r
  {
  }

  lemma FiveParts(a: seq<byte>, b: seq<byte>, c: seq<byte>, d: seq<byte>, e: seq<byte>)
    requires |a| == |b| == |c| == |d| == 4
    ensures var s := a + b + c + d + e;
      s[..4] == a && s[4..8] == b && s[8..12] == c && s[12..16] == d && s[16..] == e
  {
  }

  /** The four header fields stand where the firmware expects them. */
  lemma HeaderFields(command: u32, commandType: u32, size: nat, payload: seq<byte>)
    ensures var b := RequestBuffer(command, commandType, size, payload);
      && b[..4] == [0x53, 0x45, 0x43, 0x55]
      && FromLittleEndian32(b[4..8]) == command
      && FromLittleEndian32(b[8..12]) == commandType
      && FromLittleEndian32(b[12..16]) == size % 0x1_0000_0000
      && b[16..] == Fit(payload, size)
  {
    hide LittleEndian32, FromLittleEndian32, Fit;
    FiveParts(SIGNATURE, LittleEndian32(command), LittleEndian32(commandType), LittleEndian32(size), Fit(payload, size));
    LittleEndianBack(command);
    LittleEndianBack(commandType);
    LittleEndianBack(size);
  }

  lemma HexHead(bs: seq<byte>)
    requires bs != []
    ensures Hex(bs)[0] == DigitChar(bs[0] / 16) && Hex(bs)[1] != 'x'
  {
    HexDigitsOnly(bs);
  }

  /** A bare blob comes back exactly when its first digit is not `b`, which
      would be taken for a prefix; then nothing is read at all. */
  lemma BareBlob(bs: seq<byte>)
    requires bs != []
    ensures ParseBytes(Hex(bs)) == if bs[0] / 16 == 11 then None else Some(bs)
  {
    hide ParseBytes, Hex, PairBytes;
    HexDigitsOnly(bs);
    HexHead(bs);
    BlobPath(Hex(bs));
    FromHexOfHex(bs);
  }

  // ---- The `0x` blob ----

  function Zeros(bs: seq<byte>): bool {
    forall k | 0 <= k < |bs| :: bs[k] == 0
  }

  lemma HexValuePush(s: string, c: char)
    requires AreDigits(s) && IsHexDigit(c)
    ensures AreDigits(s + [c]) && HexValue(s + [c]) == HexValue(s) * 16 + DigitValue(c)
  {
    assert (s + [c])[..|s|] == s;
  }

  lemma HexValueSnoc(front: seq<byte>, last: byte)
    ensures AreDigits(Hex(front)) && AreDigits(Hex(front + [last]))
    ensures HexValue(Hex(front + [last])) == HexValue(Hex(front)) * 256 + last
  {
    HexDigitsOnly(front);
    HexSnoc(front, last);
    hide Hex, HexValue;
    var s, c, d := Hex(front), DigitChar(last / 16), DigitChar(last % 16);
    HexValuePush(s, c);
    HexValuePush(s + [c], d);
    assert s + HexByte(last) == s + [c] + [d];
  }

  lemma {:induction false} HexValueOfHex(bs: seq<byte>)
    requires bs != []
    ensures forall k | 0 <= k < |Hex(bs)| :: IsHexDigit(Hex(bs)[k])
    ensures HexValue(Hex(bs)) < 256 <==> Zeros(bs[..|bs| - 1])
    ensures HexValue(Hex(bs)) < 256 ==> HexValue(Hex(bs)) == bs[|bs| - 1]
    ensures HexValue(Hex(bs)) == 0 <==> Zeros(bs)
  {
    var front, last := bs[..|bs| - 1], bs[|bs| - 1];
    assert bs == front + [last];
    HexValueSnoc(front, last);
    if front != [] {
      hide HexValue, Hex;
      HexValueOfHex(front);
    }
  }

  lemma OneToken(digits: string)
    requires digits != [] && AreDigits(digits)
    ensures Tokens("0x" + digits) == [digits]
  {
    var item := "0x" + digits;
    assert item[2..] == digits && item + "" == item;
    NoTokens("");
    hide Tokens;
    PrefixedTokens(item, "");
  }

  lemma OneTokenBytes(digits: string)
    requires forall k | 0 <= k < |digits| :: IsHexDigit(digits[k])
    ensures TokenBytes([digits]) == if HexValue(digits) < 256 then Some([HexValue(digits)]) else None
  {
    var ts := [digits];
    assert ts[0] == digits && ts[1..] == [];
    hide HexValue, DigitValue;
    assert TokenBytes([]) == Some([]);
    if TokenByte(digits).Some? {
      assert [TokenByte(digits).value] + [] == [TokenByte(digits).value];
    }
  }

  lemma PrefixedTrims(digits: string)
    requires digits != [] && forall k | 0 <= k < |digits| :: IsHexDigit(digits[k])
    ensures var s := "0x" + digits;
      Trim(s, false) == s && TrimBraces(s) == s && StripPrefix(s) == digits
  {
    NothingTrimmed("0x" + digits);
    hide Trim;
    assert ("0x" + digits)[2..] == digits;
  }

  lemma PrefixedBlobPath(digits: string)
    requires digits != [] && forall k | 0 <= k < |digits| :: IsHexDigit(digits[k])
    ensures ParseBytes("0x" + digits) ==
      if HexValue(digits) < 256 then Some([HexValue(digits)]) else FromHex(digits)
  {
    hide ParseBytes, Tokens, Trim, TrimBraces, StripPrefix, DropBlanks, TokenBytes, FromHex, HexValue;
    PrefixedTrims(digits);
    OneToken(digits);
    OneTokenBytes(digits);
    NothingDropped(digits);
    ParseByTokens("0x" + digits, digits);
  }

  /** A text of one token: its byte if it fits one, else the blob behind it. */
  lemma ParseByTokens(s: string, digits: string)
    requires s != [] && Trim(s, false) == s && TrimBraces(s) == s && StripPrefix(s) == digits && DropBlanks(digits) == digits
    requires Tokens(s) == [digits]
    ensures ParseBytes(s) == if TokenBytes([digits]).Some? then TokenBytes([digits]) else FromHex(digits)
  {
    hide Trim, TrimBraces, StripPrefix, DropBlanks, Tokens, TokenBytes, FromHex;
  }

  /** A `0x` blob comes back exactly when it is one byte long or some byte
      before the last is not zero; otherwise its one token fits a byte, and
      only the last byte comes back. */
  lemma PrefixedBlob(bs: seq<byte>)
    requires bs != []
    ensures ParseBytes("0x" + Hex(bs)) == if Zeros(bs[..|bs| - 1]) then Some([bs[|bs| - 1]]) else Some(bs)
    ensures ParseBytes("0x" + Hex(bs)) == Some(bs) <==> |bs| == 1 || !Zeros(bs[..|bs| - 1])
  {
    hide *;
    HexValueOfHex(bs);
    PrefixedBlobPath(Hex(bs));
    FromHexOfHex(bs);
    if |bs| == 1 { assert [bs[|bs| - 1]] == bs; }
  }

  // ---- The list ----

  predicate AreDigits(s: string) {
    forall k | 0 <= k < |s| :: IsHexDigit(s[k])
  }

  /** One way to write a byte in a list: `0x` or `0X` and digits of either case, as
      many as one likes, that come to its value. */
  predicate IsItem(item: string, b: byte) {
    && |item| > 2 && item[0] == '0' && (item[1] == 'x' || item[1] == 'X')
    && AreDigits(item[2..]) && HexValue(item[2..]) == b
  }

  predicate AreItems(items: seq<string>, bs: seq<byte>) {
    |items| == |bs| && forall k | 0 <= k < |items| :: IsItem(items[k], bs[k])
  }

  /** The items with a separator between them. */
  function Listed(items: seq<string>, sep: string): string {
    if items == [] then []
    else if |items| == 1 then items[0]
    else items[0] + sep + Listed(items[1..], sep)
  }

  /** Separators of blanks and commas: ", " and "," among them. */
  predicate IsSeparator(sep: string) {
    sep != [] && forall k | 0 <= k < |sep| :: sep[k] == ' ' || sep[k] == ','
  }

  lemma {:induction false} DigitRunStops(digits: string, rest: string)
    requires AreDigits(digits) && (rest != [] ==> !IsHexDigit(rest[0]))
    ensures DigitRun(digits + rest) == |digits|
    decreases |digits|
  {
    if digits == [] {
      assert digits + rest == rest;
    } else {
      assert (digits + rest)[1..] == digits[1..] + rest;
      DigitRunStops(digits[1..], rest);
    }
  }

  /** One item, then whatever follows that is not another digit. */
  lemma PrefixedTokens(item: string, rest: string)
    requires |item| > 2 && item[0] == '0' && (item[1] == 'x' || item[1] == 'X') && AreDigits(item[2..])
    requires rest != [] ==> !IsHexDigit(rest[0])
    ensures Tokens(item + rest) == [item[2..]] + Tokens(rest)
  {
    hide Tokens, HexValue;
    var s, n := item + rest, |item|;
    assert s[0..] == s && s[2..] == item[2..] + rest && s[2..n] == item[2..] && s[n..] == rest;
    DigitRunStops(item[2..], rest);
    hide DigitRun;
    TokensAt(s, 0);
  }

  lemma ItemTokens(item: string, b: byte, rest: string)
    requires IsItem(item, b) && (rest != [] ==> !IsHexDigit(rest[0]))
    ensures Tokens(item + rest) == [item[2..]] + Tokens(rest)
  {
    hide Tokens, HexValue;
    PrefixedTokens(item, rest);
  }

  lemma {:induction false} SkipSeparator(sep: string, rest: string)
    requires forall k | 0 <= k < |sep| :: sep[k] == ' ' || sep[k] == ','
    ensures Tokens(sep + rest) == Tokens(rest)
  {
    if sep == [] {
      assert sep + rest == rest;
    } else {
      assert (sep + rest)[1..] == sep[1..] + rest;
      SkipSeparator(sep[1..], rest);
    }
  }

  /** The digits of the items, without their prefixes. */
  function Bare(items: seq<string>): seq<string>
    requires forall k | 0 <= k < |items| :: |items[k]| > 2
  {
    if items == [] then [] else [items[0][2..]] + Bare(items[1..])
  }

  lemma {:induction false} ListTokens(items: seq<string>, bs: seq<byte>, sep: string)
    requires AreItems(items, bs) && IsSeparator(sep)
    ensures Tokens(Listed(items, sep) + "}") == Bare(items)
    decreases |items|
  {
    NoTokens("}");
    hide Tokens, HexValue;
    if |items| == 0 {
      assert "" + "}" == "}";
    } else {
      assert IsItem(items[0], bs[0]);
      if |items| == 1 {
        ItemTokens(items[0], bs[0], "}");
        assert Bare(items) == [items[0][2..]] + [];
      } else {
        var rest := Listed(items[1..], sep) + "}";
        assert Listed(items, sep) + "}" == items[0] + (sep + rest);
        ItemTokens(items[0], bs[0], sep + rest);
        SkipSeparator(sep, rest);
        ListTokens(items[1..], bs[1..], sep);
      }
    }
  }

  lemma {:induction false} ItemBytes(items: seq<string>, bs: seq<byte>)
    requires AreItems(items, bs)
    ensures var ts := Bare(items);
      && (forall k | 0 <= k < |ts| :: AreDigits(ts[k]))
      && TokenBytes(ts) == Some(bs)
    decreases |items|
  {
    if items != [] {
      assert IsItem(items[0], bs[0]);
      assert TokenByte(items[0][2..]) == Some(bs[0]);
      hide TokenByte, HexValue;
      ItemBytes(items[1..], bs[1..]);
      var ts, rest := Bare(items), Bare(items[1..]);
      assert ts[1..] == rest && ts[0] == items[0][2..];
      assert [bs[0]] + bs[1..] == bs;
    }
  }

  /** A `{0xNN, ...}` list, with or without blanks, with digits and prefixes of
      either case, parses to its bytes. */
  lemma ListRoundTrip(items: seq<string>, bs: seq<byte>, sep: string)
    requires bs != [] && AreItems(items, bs) && IsSeparator(sep)
    ensures ParseBytes("{" + Listed(items, sep) + "}") == Some(bs)
  {
    var s := "{" + Listed(items, sep) + "}";
    NothingTrimmed(s);
    OpeningBrace(Listed(items, sep) + "}");
    assert s == "{" + (Listed(items, sep) + "}");
    ListTokens(items, bs, sep);
    ItemBytes(items, bs);
    assert Bare(items) != [];
    hide Tokens, Trim, TokenBytes, Listed, Bare, FromHex, DropBlanks, StripPrefix, TrimBraces, AreItems;
  }

  lemma OpeningBrace(s: string)
    ensures Tokens("{" + s) == Tokens(s)
  {
    assert ("{" + s)[1..] == s;
    if s == [] { NoTokens("{"); NoTokens(s); }
  }

  /** The bytes as `wmi_request` would print them, each an item of its own. */
  function Items(bs: seq<byte>): seq<string>
  {
    if bs == [] then [] else ["0x" + HexByte(bs[0])] + Items(bs[1..])
  }

  /** There is such a list for all bytes. */
  lemma {:induction false} ItemsAre(bs: seq<byte>)
    ensures AreItems(Items(bs), bs)
  {
    if bs != [] {
      ItemsAre(bs[1..]);
      PrintedItem(bs[0]);
      hide IsItem, HexByte;
      var items, rest := Items(bs), Items(bs[1..]);
      forall k | 0 <= k < |bs| ensures IsItem(items[k], bs[k]) {
        if k > 0 { assert items[k] == rest[k - 1] && bs[k] == bs[1..][k - 1]; }
      }
    }
  }

  lemma PrintedItem(b: byte)
    ensures IsItem("0x" + HexByte(b), b)
  {
    assert ("0x" + HexByte(b))[2..] == HexByte(b);
    assert HexByte(b)[..1] == [DigitChar(b / 16)];
    assert HexValue([DigitChar(b / 16)]) == b / 16 by { assert [DigitChar(b / 16)][..0] == []; }
  }

  // ---- Digits, pairs and blanks ----

  /** The digits of either case and what they are worth; nothing else is one. */
  lemma DigitsAre(c: char, v: nat)
    requires v < 16
    ensures IsHexDigit(c) && DigitValue(c) == v <==> c == "0123456789abcdef"[v] || c == "0123456789ABCDEF"[v]
    ensures DigitChar(v) == "0123456789abcdef"[v]
  {
  }

  /** Byte for byte: what two digits stand for. */
  predicate SpellsPairs(s: string, bs: seq<byte>) {
    && |s| == 2 * |bs|
    && forall k | 0 <= k < |bs| ::
         IsHexDigit(s[2 * k]) && IsHexDigit(s[2 * k + 1]) && bs[k] == 16 * DigitValue(s[2 * k]) + DigitValue(s[2 * k + 1])
  }

  lemma {:induction false} PairsSpell(s: string)
    requires |s| % 2 == 0 && AreDigits(s)
    ensures SpellsPairs(s, PairBytes(s))
    decreases |s|
  {
    hide IsHexDigit, DigitValue;
    if s != [] {
      var rest, bs := s[2..], PairBytes(s);
      PairsSpell(rest);
      forall k | 0 <= k < |bs|
        ensures IsHexDigit(s[2 * k]) && IsHexDigit(s[2 * k + 1]) && bs[k] == 16 * DigitValue(s[2 * k]) + DigitValue(s[2 * k + 1])
      {
        if k > 0 { assert s[2 * k] == rest[2 * (k - 1)] && s[2 * k + 1] == rest[2 * (k - 1) + 1] && bs[k] == PairBytes(rest)[k - 1]; }
      }
    }
  }

  lemma SpelledOnce(s: string, bs: seq<byte>, cs: seq<byte>)
    requires SpellsPairs(s, bs) && SpellsPairs(s, cs)
    ensures bs == cs
  {
    hide IsHexDigit, DigitValue;
    assert forall k | 0 <= k < |bs| :: bs[k] == cs[k];
  }

  lemma SpelledDigits(s: string, bs: seq<byte>)
    requires SpellsPairs(s, bs)
    ensures AreDigits(s)
  {
    hide IsHexDigit, DigitValue;
    forall i | 0 <= i < |s| ensures IsHexDigit(s[i]) {
      var k := i / 2;
      assert i == 2 * k || i == 2 * k + 1;
    }
  }

  /** A blob gives bytes exactly when it spells them, two digits each; an empty
      one, one of odd length and one with anything else in it give nothing. */
  lemma FromHexIff(s: string, bs: seq<byte>)
    ensures FromHex(s) == Some(bs) <==> bs != [] && SpellsPairs(s, bs)
    ensures FromHex(s) == None <==> s == [] || |s| % 2 == 1 || !AreDigits(s)
  {
    hide IsHexDigit, DigitValue, PairBytes, SpellsPairs;
    if |s| % 2 == 0 && AreDigits(s) {
      PairsSpell(s);
      if SpellsPairs(s, bs) { SpelledOnce(s, bs, PairBytes(s)); }
    }
    if SpellsPairs(s, bs) { SpelledDigits(s, bs); SpelledLength(s, bs); }
    SpelledLength(s, if |s| % 2 == 0 && AreDigits(s) then PairBytes(s) else []);
  }

  lemma SpelledLength(s: string, bs: seq<byte>)
    ensures SpellsPairs(s, bs) ==> |s| == 2 * |bs|
  {
  }

  lemma {:induction false} BlanksDropped(a: string, blanks: string, b: string)
    requires AllDropped(blanks, true)
    ensures DropBlanks(a + blanks + b) == DropBlanks(a) + DropBlanks(b)
    decreases |a| + |blanks|
  {
    hide Drops;
    if a != [] {
      assert (a + blanks + b)[1..] == a[1..] + blanks + b;
      BlanksDropped(a[1..], blanks, b);
    } else if blanks != [] {
      assert ([] + blanks + b)[1..] == [] + blanks[1..] + b;
      assert a + blanks + b == [] + blanks + b;
      BlanksDropped([], blanks[1..], b);
    } else {
      assert a + blanks + b == b;
    }
  }

  predicate AllBraces(s: string) {
    forall i :: 0 <= i < |s| ==> s[i] == '{' || s[i] == '}'
  }

  lemma {:induction false} BracesTrimmed(open: string, s: string, close: string)
    requires AllBraces(open) && AllBraces(close) && s != [] && !IsBrace(s[0]) && !IsBrace(s[|s| - 1])
    ensures TrimBraces(open + s + close) == s
    decreases |open| + |close|
  {
    var all := open + s + close;
    if open != [] {
      assert all[1..] == open[1..] + s + close;
      BracesTrimmed(open[1..], s, close);
    } else if close != [] {
      assert all[0] == s[0];
      assert all[..|all| - 1] == open + s + close[..|close| - 1];
      BracesTrimmed(open, s, close[..|close| - 1]);
    } else {
      assert all == s;
    }
  }

  /** Digits, with blanks anywhere among them. */
  predicate IsSpaced(s: string) {
    s != [] && IsHexDigit(s[0]) && IsHexDigit(s[|s| - 1]) && forall i :: 0 <= i < |s| ==> IsHexDigit(s[i]) || Drops(s[i], true)
  }

  /** What stands around a blob: blanks, braces, and blanks inside those. */
  predicate Surrounds(before: string, open: string, gap: string) {
    AllDropped(before, false) && AllBraces(open) && AllDropped(gap, false) && (open == "" ==> gap == "")
  }

  lemma PlainCharacters(c: char)
    ensures IsHexDigit(c) ==> !Drops(c, true) && !IsBrace(c)
    ensures IsHexDigit(c) || Drops(c, true) || IsBrace(c) ==> c != 'x' && c != 'X'
    ensures Drops(c, false) ==> Drops(c, true) && !IsBrace(c)
    ensures IsBrace(c) ==> !Drops(c, true)
  {
  }

  lemma NoX(s: string)
    requires forall i :: 0 <= i < |s| ==> IsHexDigit(s[i]) || Drops(s[i], true) || IsBrace(s[i])
    ensures Tokens(s) == []
  {
    forall i | 0 <= i < |s| ensures s[i] != 'x' && s[i] != 'X' { PlainCharacters(s[i]); }
    NoTokens(s);
  }

  /** What stands around a blob, and the blanks within it, make no difference: it is
      read as its digits, less one `b` in front. */
  lemma BlobAnyhow(before: string, open: string, gap: string, blob: string, gap2: string, close: string, after: string)
    requires Surrounds(before, open, gap) && Surrounds(after, close, gap2) && IsSpaced(blob)
    ensures ParseBytes(before + (open + (gap + blob + gap2) + close) + after)
      == FromHex(DropBlanks(if blob[0] == 'b' then blob[1..] else blob))
  {
    hide Tokens, Trim, TrimBraces, DropBlanks, FromHex, IsHexDigit, Drops, IsBrace;
    var inner := gap + blob + gap2;
    var text := open + inner + close;
    InnerEnds(open, gap, blob, gap2, close);
    TrimIs(before, text, after, false);
    BracesOff(open, gap, blob, gap2, close);
    PlainCharacters(blob[0]);
    PlainCharacters(blob[|blob| - 1]);
    TrimIs(gap, blob, gap2, false);
    forall i | 0 <= i < |text| ensures IsHexDigit(text[i]) || Drops(text[i], true) || IsBrace(text[i]) {
      TextCharacters(open, gap, blob, gap2, close, i);
    }
    NoX(text);
    Stripped(blob);
  }

  lemma Stripped(blob: string)
    requires IsSpaced(blob)
    ensures StripPrefix(blob) == if blob[0] == 'b' then blob[1..] else blob
  {
    if |blob| > 1 { PlainCharacters(blob[1]); }
    hide IsHexDigit, Drops;
  }

  lemma InnerEnds(open: string, gap: string, blob: string, gap2: string, close: string)
    requires Surrounds("", open, gap) && Surrounds("", close, gap2) && IsSpaced(blob)
    ensures var text := open + (gap + blob + gap2) + close;
      text != [] && Trimmed(text, false)
  {
    hide IsHexDigit, Drops;
    var text := open + (gap + blob + gap2) + close;
    assert text[0] == if open != "" then open[0] else blob[0];
    assert text[|text| - 1] == if close != "" then close[|close| - 1] else blob[|blob| - 1];
    PlainCharacters(text[0]);
    PlainCharacters(text[|text| - 1]);
    DropsMore(text[0]);
    DropsMore(text[|text| - 1]);
  }

  lemma DropsMore(c: char)
    ensures Drops(c, false) ==> Drops(c, true)
  {
  }

  lemma BracesOff(open: string, gap: string, blob: string, gap2: string, close: string)
    requires Surrounds("", open, gap) && Surrounds("", close, gap2) && IsSpaced(blob)
    ensures TrimBraces(open + (gap + blob + gap2) + close) == gap + blob + gap2
  {
    hide IsHexDigit, Drops, TrimBraces, IsBrace;
    var inner := gap + blob + gap2;
    assert inner[0] == if gap != "" then gap[0] else blob[0];
    assert inner[|inner| - 1] == if gap2 != "" then gap2[|gap2| - 1] else blob[|blob| - 1];
    PlainCharacters(inner[0]);
    PlainCharacters(inner[|inner| - 1]);
    BracesTrimmed(open, inner, close);
  }

  lemma TextCharacters(open: string, gap: string, blob: string, gap2: string, close: string, i: nat)
    requires Surrounds("", open, gap) && Surrounds("", close, gap2) && IsSpaced(blob)
    requires i < |open + (gap + blob + gap2) + close|
    ensures var c := (open + (gap + blob + gap2) + close)[i]; IsHexDigit(c) || Drops(c, true) || IsBrace(c)
  {
    hide IsHexDigit, Drops;
    var text := open + (gap + blob + gap2) + close;
    DropsMore(text[i]);
    var a, b, c := |open|, |open| + |gap|, |open| + |gap| + |blob|;
    if i < a { assert text[i] == open[i]; }
    else if i < b { assert text[i] == gap[i - a]; }
    else if i < c { assert text[i] == blob[i - b]; }
    else if i < c + |gap2| { assert text[i] == gap2[i - c]; }
    else { assert text[i] == close[i - c - |gap2|]; }
  }

  /** A reply of nothing but blanks has no bytes. */
  lemma NothingRead(reply: string)
    requires AllDropped(reply, false)
    ensures ParseBytes(reply) == None
  {
    hide Tokens, FromHex, DropBlanks, Drops;
    TrimIs(reply, "", "", false);
    assert reply + "" + "" == reply;
  }

  /** And blanks around any reply make none. */
  lemma BlanksAround(before: string, reply: string, after: string)
    requires AllDropped(before, false) && AllDropped(after, false) && Trimmed(reply, false)
    ensures ParseBytes(before + reply + after) == ParseBytes(reply)
  {
    hide Trim, Tokens, TokenBytes, FromHex, Trimmed, AllDropped;
    TrimIs(before, reply, after, false);
    Nothing();
    TrimIs("", reply, "", false);
    assert "" + reply + "" == reply;
  }

  lemma Nothing()
    ensures AllDropped("", false)
  {
  }

  predicate Tokenlike(ts: seq<string>) {
    forall k | 0 <= k < |ts| :: AreDigits(ts[k])
  }

  /** A list counts only if every one of its numbers fits a byte. */
  lemma {:induction false} TokenBytesIff(ts: seq<string>)
    requires Tokenlike(ts)
    requires forall k | 0 <= k < |ts| :: forall j | 0 <= j < |ts[k]| :: IsHexDigit(ts[k][j])
    ensures TokenBytes(ts).Some? <==> forall k | 0 <= k < |ts| :: HexValue(ts[k]) < 256
    ensures TokenBytes(ts).Some? ==>
      var bs := TokenBytes(ts).value;
      |bs| == |ts| && forall k | 0 <= k < |ts| :: bs[k] == HexValue(ts[k])
    decreases |ts|
  {
    hide HexValue, IsHexDigit;
    if ts != [] {
      TokenBytesIff(ts[1..]);
      assert forall k | 0 < k < |ts| :: ts[k] == ts[1..][k - 1];
    }
  }
}
