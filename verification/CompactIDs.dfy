/**
  The binary forms of JIDs and message IDs (pkg/waid/mediaid.go). A character of such a string stands for
  a byte.
 */
module CompactIDs {
  import opened Wrappers
  import opened Decimals
  import opened Jids

  function ByteValue(c: char): (b: nat)
    ensures b < 256 && (c as int < 256 ==> b == c as int)
  {
    c as int % 256
  }

  function ByteOf(b: nat): (c: char)
    requires b < 256
    ensures ByteValue(c) == b
  {
    b as char
  }

  // --- Big-endian integers ---

  function Power256(size: nat): nat {
    if size == 0 then 1 else 256 * Power256(size - 1)
  }

  function BigEndian(n: nat, size: nat): (s: string)
    ensures |s| == size
  {
    if size == 0 then [] else BigEndian(n / 256, size - 1) + [ByteOf(n % 256)]
  }

  function FromBigEndian(s: string): (n: nat)
    ensures n < Power256(|s|)
  {
    if s == [] then 0 else 256 * FromBigEndian(s[..|s| - 1]) + ByteValue(s[|s| - 1])
  }

  lemma {:induction false} BigEndianRoundTrip(n: nat, size: nat)
    requires n < Power256(size)
    ensures FromBigEndian(BigEndian(n, size)) == n
  {
    if size > 0 {
      var s := BigEndian(n, size);
      BigEndianRoundTrip(n / 256, size - 1);
      assert s[..|s| - 1] == BigEndian(n / 256, size - 1);
    }
  }

  lemma Widths()
    ensures Power256(8) == UINT64_LIMIT && Power256(2) == UINT16_LIMIT
  {
    assert Power256(2) == 0x1_0000;
    assert Power256(4) == 0x1_0000_0000;
    assert Power256(6) == 0x1_0000_0000_0000;
  }

  // --- JIDs ---

  const RAW_STRING: char := ByteOf(0)
  const USER_INT: char := ByteOf(1)
  const USER_DEVICE: char := ByteOf(2)
  const GROUP_STRING: char := ByteOf(3)

  /** A user that fits the integer form: on the user server, and a number below 2^64. */
  predicate IsUserInt(j: JID) {
    j.server == DEFAULT_USER_SERVER && ParseUint(j.user, UINT64_LIMIT).Some?
  }

  /** compactJID. A numeric user with a device is not in its domain: that branch indexes past a slice of
      length one. */
  function CompactJID(j: JID): string
    requires IsUserInt(j) ==> j.device == 0
  {
    if IsUserInt(j) then [USER_INT] + BigEndian(Number(j.user), 8)
    else if j.server == GROUP_SERVER then [GROUP_STRING] + j.user
    else [RAW_STRING] + JIDString(j)
  }

  function ParseCompactJID(c: string): Result<JID, string> {
    if c == [] then Err("empty JID")
    else if c[0] == RAW_STRING then ParseJID(c[1..])
    else if c[0] == USER_INT then
      if |c| != 9 then Err("invalid compact user JID length")
      else Ok(JID(Format(FromBigEndian(c[1..])), DEFAULT_USER_SERVER, 0))
    else if c[0] == USER_DEVICE then
      if |c| != 11 then Err("invalid compact user device JID length")
      else
        Widths();
        Ok(JID(Format(FromBigEndian(c[1..9])), DEFAULT_USER_SERVER, FromBigEndian(c[9..])))
    else if c[0] == GROUP_STRING then Ok(JID(c[1..], GROUP_SERVER, 0))
    else Err("invalid compact JID type")
  }

  /** The JIDs that keep their value: numbers without leading zeros, all groups, and otherwise those whose
      printed form can be parsed. */
  predicate Faithful(j: JID) {
    if IsUserInt(j) then Canonical(j.user) else j.server == GROUP_SERVER || Plain(j)
  }

  lemma UserIntParses(j: JID)
    requires IsUserInt(j) && j.device == 0
    ensures ParseCompactJID(CompactJID(j)) == Ok(j.(user := Format(Number(j.user))))
  {
    var c := CompactJID(j);
    assert c[1..] == BigEndian(Number(j.user), 8);
    Widths();
    BigEndianRoundTrip(Number(j.user), 8);
  }

  lemma CompactJIDRoundTrip(j: JID)
    requires j.device == 0
    ensures ParseCompactJID(CompactJID(j)) == Ok(j) <==> Faithful(j)
  {
    var c := CompactJID(j);
    if IsUserInt(j) {
      UserIntParses(j);
      FormatUndoesNumber(j.user);
    } else if j.server == GROUP_SERVER {
      assert c[1..] == j.user;
    } else {
      assert c[1..] == JIDString(j);
      ParsePrinted(j);
    }
  }

  /** Leading zeros of a numeric user are lost. */
  lemma LeadingZerosAreLost()
    ensures ParseCompactJID(CompactJID(JID("007", DEFAULT_USER_SERVER, 0))) == Ok(JID("7", DEFAULT_USER_SERVER, 0))
  {
    var j := JID("007", DEFAULT_USER_SERVER, 0);
    assert j.user[..2][..1] == "0" && j.user[..2] == "00";
    assert Number("") == 0 && Number("0") == 0 && Number("00") == 0 && Number("007") == 7;
    UserIntParses(j);
  }

  /** A shortened form is never read as the JID it was made from. */
  lemma ShortenedJID(j: JID, k: nat)
    requires j.device == 0 && k < |CompactJID(j)|
    ensures ParseCompactJID(CompactJID(j)[..k]) != Ok(j)
  {
    var c := CompactJID(j);
    if k > 0 && !IsUserInt(j) && j.server != GROUP_SERVER {
      assert c[..k][0] == RAW_STRING;
      if ParseCompactJID(c[..k]) == Ok(j) {
        ParsedFits(c[..k][1..]);
      }
    }
  }

  // --- Message IDs ---

  const UPPER_HEX: char := ByteOf(1)

  predicate HexChar(c: char) {
    '0' <= c <= '9' || 'A' <= c <= 'F'
  }

  /** isUpperHex */
  predicate IsUpperHex(s: string) {
    forall i :: 0 <= i < |s| ==> HexChar(s[i])
  }

  function HexDigit(v: nat): (c: char)
    requires v < 16
    ensures HexChar(c)
  {
    if v < 10 then ('0' as int + v) as char else ('A' as int + v - 10) as char
  }

  function HexValue(c: char): (v: nat)
    requires HexChar(c)
    ensures v < 16 && HexDigit(v) == c
  {
    if c <= '9' then c as int - '0' as int else c as int - 'A' as int + 10
  }

  /** hex.AppendDecode */
  function DecodeHex(s: string): (b: string)
    requires IsUpperHex(s) && |s| % 2 == 0
    ensures 2 * |b| == |s|
  {
    if s == [] then [] else [ByteOf(HexValue(s[0]) * 16 + HexValue(s[1]))] + DecodeHex(s[2..])
  }

  /** strings.ToUpper(hex.EncodeToString(b)) */
  function EncodeHex(b: string): (s: string)
    ensures |s| == 2 * |b|
  {
    if b == [] then [] else [HexDigit(ByteValue(b[0]) / 16), HexDigit(ByteValue(b[0]) % 16)] + EncodeHex(b[1..])
  }

  lemma {:induction false} HexRoundTrip(s: string)
    requires IsUpperHex(s) && |s| % 2 == 0
    ensures EncodeHex(DecodeHex(s)) == s
    decreases |s|
  {
    if s != [] {
      var b, v := DecodeHex(s), HexValue(s[0]) * 16 + HexValue(s[1]);
      HexRoundTrip(s[2..]);
      assert b[1..] == DecodeHex(s[2..]);
      assert v / 16 == HexValue(s[0]) && v % 16 == HexValue(s[1]);
      assert s == [s[0], s[1]] + s[2..];
    }
  }

  function CompactMsgID(id: string): string {
    if IsUpperHex(id) && |id| % 2 == 0 then [UPPER_HEX] + DecodeHex(id) else [RAW_STRING] + id
  }

  function ParseCompactMsgID(c: string): Result<string, string> {
    if c == [] then Err("empty message ID")
    else if c[0] == RAW_STRING then Ok(c[1..])
    else if c[0] == UPPER_HEX then Ok(EncodeHex(c[1..]))
    else Err("invalid compact message ID type")
  }

  /** Every message ID survives, hexadecimal or not. */
  lemma CompactMsgIDRoundTrip(id: string)
    ensures ParseCompactMsgID(CompactMsgID(id)) == Ok(id)
  {
    assert CompactMsgID(id)[1..] == if IsUpperHex(id) && |id| % 2 == 0 then DecodeHex(id) else id;
    if IsUpperHex(id) && |id| % 2 == 0 {
      HexRoundTrip(id);
    }
  }

  lemma ShortenedMsgID(id: string, k: nat)
    requires k < |CompactMsgID(id)|
    ensures ParseCompactMsgID(CompactMsgID(id)[..k]) != Ok(id)
  {
  }
}
