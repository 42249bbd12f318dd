/**
  The bytes of compact and media IDs (pkg/waid/mediaid.go), which other versions of the bridge have stored:
  what stands where, told without the functions that write and read them.
 */
module MediaLayouts {
  import opened Wrappers
  import opened Decimals
  import opened Jids
  import opened CompactIDs
  import opened BridgeIDs
  import opened MediaIDs

  // --- Integers ---

  /** n shifted right by 8k bits */
  function Shifted(n: nat, k: nat): nat {
    if k == 0 then n else Shifted(n, k - 1) / 256
  }

  lemma {:induction false} ShiftedFirst(n: nat, k: nat)
    ensures Shifted(n / 256, k) == Shifted(n, k + 1)
  {
    if k > 0 {
      ShiftedFirst(n, k - 1);
    }
  }

  lemma Shifts(n: nat)
    ensures Shifted(n, 1) == n / 0x100 && Shifted(n, 2) == n / 0x1_0000 && Shifted(n, 3) == n / 0x100_0000
    ensures Shifted(n, 4) == n / 0x1_0000_0000 && Shifted(n, 5) == n / 0x100_0000_0000
    ensures Shifted(n, 6) == n / 0x1_0000_0000_0000 && Shifted(n, 7) == n / 0x100_0000_0000_0000
  {
    assert Shifted(n, 1) == Shifted(n, 0) / 256;
    assert Shifted(n, 2) == Shifted(n, 1) / 256;
    assert Shifted(n, 3) == Shifted(n, 2) / 256;
    assert Shifted(n, 4) == Shifted(n, 3) / 256;
    assert Shifted(n, 5) == Shifted(n, 4) / 256;
    assert Shifted(n, 6) == Shifted(n, 5) / 256;
    assert Shifted(n, 7) == Shifted(n, 6) / 256;
  }

  /** The most significant byte comes first. */
  lemma {:induction false} BigEndianBytes(n: nat, size: nat, k: nat)
    requires k < size
    ensures BigEndian(n, size)[k] as int == Shifted(n, size - 1 - k) % 256
  {
    if k < size - 1 {
      BigEndianBytes(n / 256, size - 1, k);
      ShiftedFirst(n, size - 2 - k);
      assert BigEndian(n, size)[k] == BigEndian(n / 256, size - 1)[k];
    }
  }

  /** Eight bytes, the most significant first. */
  predicate IsInteger(c: string, n: nat) {
    && |c| == 8
    && c[0] as int == n / 0x100_0000_0000_0000 % 256 && c[1] as int == n / 0x1_0000_0000_0000 % 256
    && c[2] as int == n / 0x100_0000_0000 % 256 && c[3] as int == n / 0x1_0000_0000 % 256
    && c[4] as int == n / 0x100_0000 % 256 && c[5] as int == n / 0x1_0000 % 256
    && c[6] as int == n / 0x100 % 256 && c[7] as int == n % 256
  }

  lemma EightBytes(n: nat)
    ensures IsInteger(BigEndian(n, 8), n)
  {
    Shifts(n);
    forall k | 0 <= k < 8 ensures BigEndian(n, 8)[k] as int == Shifted(n, 7 - k) % 256 {
      BigEndianBytes(n, 8, k);
    }
  }

  // --- JIDs ---

  /** Numbers of users as eight bytes after a 1, groups after a 3, and what else there is as text after a 0. */
  lemma CompactJIDLayout(j: JID)
    requires j.device == 0
    ensures var c := CompactJID(j);
            if j.server == "s.whatsapp.net" && j.user != "" && AllDigits(j.user)
               && Number(j.user) < 0x1_0000_0000_0000_0000
            then c != "" && c[0] as int == 1 && IsInteger(c[1..], Number(j.user))
            else if j.server == "g.us" then c != "" && c[0] as int == 3 && c[1..] == j.user
            else c != "" && c[0] as int == 0 && c[1..] == if j.user != "" then j.user + "@" + j.server else j.server
  {
    var c := CompactJID(j);
    if IsUserInt(j) {
      assert c[1..] == BigEndian(Number(j.user), 8);
      EightBytes(Number(j.user));
    }
  }

  /** The form with a device, which is no longer written: eight bytes of the user and two of the device after a 2. */
  lemma UserDeviceParses(n: nat, device: nat)
    requires n < UINT64_LIMIT && device < UINT16_LIMIT
    ensures ParseCompactJID([2 as char] + (BigEndian(n, 8) + BigEndian(device, 2)))
         == Ok(JID(Format(n), "s.whatsapp.net", device))
  {
    var c := [2 as char] + (BigEndian(n, 8) + BigEndian(device, 2));
    assert c[1..9] == BigEndian(n, 8) && c[9..] == BigEndian(device, 2);
    Widths();
    BigEndianRoundTrip(n, 8);
    BigEndianRoundTrip(device, 2);
  }

  // --- Message IDs ---

  lemma {:induction false} HexBytes(s: string, k: nat)
    requires IsUpperHex(s) && |s| % 2 == 0 && 2 * k < |s|
    ensures DecodeHex(s)[k] as int == 16 * HexValue(s[2 * k]) + HexValue(s[2 * k + 1])
    decreases |s|
  {
    if k > 0 {
      HexBytes(s[2..], k - 1);
      assert DecodeHex(s)[k] == DecodeHex(s[2..])[k - 1];
      assert s[2..][2 * (k - 1)] == s[2 * k] && s[2..][2 * (k - 1) + 1] == s[2 * k + 1];
    }
  }

  /** Upper-case hexadecimal of even length as bytes after a 1, and what else there is as text after a 0. */
  lemma CompactMsgIDLayout(id: string)
    ensures var c := CompactMsgID(id);
            if |id| % 2 == 0 && IsUpperHex(id)
            then |c| == 1 + |id| / 2 && c[0] as int == 1
                 && forall k :: 0 <= k < |id| / 2 ==>
                      c[k + 1] as int == 16 * HexValue(id[2 * k]) + HexValue(id[2 * k + 1])
            else c != "" && c[0] as int == 0 && c[1..] == id
  {
    var c := CompactMsgID(id);
    if |id| % 2 == 0 && IsUpperHex(id) {
      forall k | 0 <= k < |id| / 2
        ensures c[k + 1] as int == 16 * HexValue(id[2 * k]) + HexValue(id[2 * k + 1])
      {
        HexBytes(id, k);
      }
    }
  }

  // --- Media IDs ---

  /** The fields of a text in which each has its length before it. */
  function FieldsOf(data: string): Option<seq<string>> {
    if data == "" then Some([])
    else
      var n := ByteValue(data[0]) + 1;
      if |data| < n then None
      else
        var rest := FieldsOf(data[n..]);
        if rest.None? then None else Some([data[1..n]] + rest.value)
  }

  lemma PackedField(c: string, rest: string, fs: seq<string>)
    requires |c| <= 255 && FieldsOf(rest) == Some(fs)
    ensures FieldsOf(Pack(c) + rest) == Some([c] + fs)
  {
    var data := Pack(c) + rest;
    var n := |c| + 1;
    assert data[0] == Pack(c)[0] && ByteValue(data[0]) == |c|;
    assert data[1..n] == c && data[n..] == rest;
  }

  lemma OneField(c: string)
    requires |c| <= 255
    ensures FieldsOf(Pack(c)) == Some([c])
  {
    var none: seq<string> := [];
    assert Pack(c) + "" == Pack(c);
    assert FieldsOf("") == Some(none);
    PackedField(c, "", none);
    assert [c] + none == [c];
  }

  /** The type byte and the fields of a message's ID, if these fit their length bytes. */
  lemma MessageLayout(m: MediaInfo)
    requires m.Message? && NonAD(m) && |CompactJID(m.chat)| <= 255 && |CompactJID(m.sender)| <= 255
    requires |Login(m.login)| <= 255 && |CompactMsgID(m.id)| <= 255
    ensures var s := Encode(m);
            && s != "" && s[0] as int == 255
            && FieldsOf(s[1..])
            == Some([CompactJID(m.chat), CompactJID(m.sender), Login(m.login), CompactMsgID(m.id)])
  {
    hide CompactJID, CompactMsgID, Login, Pack, FieldsOf;
    var a, b, c, d := CompactJID(m.chat), CompactJID(m.sender), Login(m.login), CompactMsgID(m.id);
    OneField(d);
    PackedField(c, Pack(d), [d]);
    PackedField(b, Pack(c) + Pack(d), [c] + [d]);
    PackedField(a, Pack(b) + (Pack(c) + Pack(d)), [b] + ([c] + [d]));
    assert [a] + ([b] + ([c] + [d])) == [a, b, c, d];
    assert Encode(m)[1..] == Pack(a) + (Pack(b) + (Pack(c) + Pack(d)));
  }

  /** ... and of an avatar's. */
  lemma AvatarLayout(m: MediaInfo)
    requires m.Avatar? && NonAD(m) && |CompactJID(m.target)| <= 255 && |m.avatarID| <= 255 && |Login(m.login)| <= 255
    ensures var s := Encode(m);
            && s != "" && s[0] as int == (if m.community then 253 else 254)
            && FieldsOf(s[1..]) == Some([CompactJID(m.target), m.avatarID, Login(m.login)])
  {
    hide CompactJID, Login, Pack, FieldsOf;
    var a, b, c := CompactJID(m.target), m.avatarID, Login(m.login);
    OneField(c);
    PackedField(b, Pack(c), [c]);
    PackedField(a, Pack(b) + Pack(c), [b] + [c]);
    assert [a] + ([b] + [c]) == [a, b, c];
    assert Encode(m)[1..] == Pack(a) + (Pack(b) + Pack(c));
  }

  lemma FirstField<T>(data: string, fs: seq<string>, fn: string -> Result<T, string>)
    requires FieldsOf(data) == Some(fs)
    ensures fs == [] ==> Field(data, fn).Err? && After(data) == data
    ensures fs != [] ==> Field(data, fn) == fn(fs[0]) && FieldsOf(After(data)) == Some(fs[1..])
  {
  }

  /** Reading takes the fields in that order; what stands behind the last is ignored, and a missing field or one
      that does not parse makes the ID an error. */
  lemma MessageReads(data: string, fs: seq<string>)
    requires FieldsOf(data) == Some(fs)
    ensures var r := DecodeMessage(data);
            && (r.Ok? <==> |fs| >= 4 && ParseCompactJID(fs[0]).Ok? && ParseCompactJID(fs[1]).Ok?
                           && ParseCompactJID(fs[2]).Ok? && ParseCompactMsgID(fs[3]).Ok?)
            && (r.Ok? ==> r.value == Message(ParseCompactJID(fs[0]).value, ParseCompactJID(fs[1]).value,
                                             ParseCompactMsgID(fs[3]).value,
                                             MakeUserLoginID(ParseCompactJID(fs[2]).value)))
  {
    hide ParseCompactJID, ParseCompactMsgID, Field, After, FieldsOf;
    FirstField(data, fs, ParseCompactJID);
    if |fs| >= 1 {
      FirstField(After(data), fs[1..], ParseCompactJID);
      if |fs| >= 2 {
        FirstField(After(After(data)), fs[2..], ParseCompactJID);
        if |fs| >= 3 {
          FirstField(After(After(After(data))), fs[3..], ParseCompactMsgID);
        }
      }
    }
  }

  lemma AvatarReads(data: string, fs: seq<string>, community: bool)
    requires FieldsOf(data) == Some(fs)
    ensures var r := DecodeAvatar(data, community);
            && (r.Ok? <==> |fs| >= 3 && ParseCompactJID(fs[0]).Ok? && ParseCompactJID(fs[2]).Ok?)
            && (r.Ok? ==> r.value == Avatar(ParseCompactJID(fs[0]).value, fs[1], community,
                                            MakeUserLoginID(ParseCompactJID(fs[2]).value)))
  {
    hide ParseCompactJID, Field, After, FieldsOf;
    FirstField(data, fs, ParseCompactJID);
    if |fs| >= 1 {
      FirstField(After(data), fs[1..], ParseString);
      if |fs| >= 2 {
        FirstField(After(After(data)), fs[2..], ParseCompactJID);
      }
    }
  }
}
