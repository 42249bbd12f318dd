/**
  Direct media IDs (pkg/waid/mediaid.go): a type byte, then fields with a length byte before each.
 */
module MediaIDs {
  import opened Wrappers
  import opened BridgeIDs
  import opened Jids
  import opened CompactIDs

  const TYPE_MESSAGE: nat := 255
  const TYPE_AVATAR: nat := 254
  const TYPE_COMMUNITY_AVATAR: nat := 253

  // What an ID says; the login is the user part of its JID, or empty.
  datatype MediaInfo =
    | Message(chat: JID, sender: JID, id: string, login: string)
    | Avatar(target: JID, avatarID: string, community: bool, login: string)

  // --- Encoding ---

  /** A length byte, which keeps only eight bits of the length, and the field. */
  function Pack(c: string): string {
    [ByteOf(|c| % 256)] + c
  }

  function Login(login: string): string {
    CompactJID(ParseUserLoginID(login, 0))
  }

  /** No JID in the ID names a device. */
  predicate NonAD(m: MediaInfo) {
    match m
    case Message(chat, sender, _, _) => chat.device == 0 && sender.device == 0
    case Avatar(target, _, _, _) => target.device == 0
  }

  function TypeByte(m: MediaInfo): nat {
    match m
    case Message(_, _, _, _) => TYPE_MESSAGE
    case Avatar(_, _, community, _) => if community then TYPE_COMMUNITY_AVATAR else TYPE_AVATAR
  }

  function Fields(m: MediaInfo): string
    requires NonAD(m)
  {
    match m
    case Message(chat, sender, id, login) =>
      Pack(CompactJID(chat)) + (Pack(CompactJID(sender)) + (Pack(Login(login)) + Pack(CompactMsgID(id))))
    case Avatar(target, avatarID, _, login) => Pack(CompactJID(target)) + (Pack(avatarID) + Pack(Login(login)))
  }

  function Encode(m: MediaInfo): string
    requires NonAD(m)
  {
    [ByteOf(TypeByte(m))] + Fields(m)
  }

  lemma Regroup(t: string, a: string, b: string, c: string, d: string)
    ensures t + a + b + c + d == t + (a + (b + (c + d)))
    ensures d == [] ==> t + a + b + c == t + (a + (b + c))
  {
  }

  method AppendField(mediaID: string, field: string) returns (r: string)
    ensures r == mediaID + Pack(field)
  {
    r := mediaID + [ByteOf(|field| % 256)];
    r := r + field;
    assert r == mediaID + Pack(field);
  }

  method MakeMediaID(chat: JID, sender: JID, messageID: string, idOverride: string, receiver: string)
    returns (mediaID: string)
    ensures var id := if idOverride != "" then idOverride else messageID;
            mediaID == Encode(Message(ToNonAD(chat), ToNonAD(sender), id, receiver))
  {
    var compactChat := CompactJID(ToNonAD(chat));
    var compactSender := CompactJID(ToNonAD(sender));
    var receiverID := CompactJID(ParseUserLoginID(receiver, 0));
    var compactID;
    if idOverride != "" {
      compactID := CompactMsgID(idOverride);
    } else {
      compactID := CompactMsgID(messageID);
    }
    mediaID := [ByteOf(TYPE_MESSAGE)];
    Regroup(mediaID, Pack(compactChat), Pack(compactSender), Pack(receiverID), Pack(compactID));
    mediaID := AppendField(mediaID, compactChat);
    mediaID := AppendField(mediaID, compactSender);
    mediaID := AppendField(mediaID, receiverID);
    mediaID := AppendField(mediaID, compactID);
  }

  method MakeAvatarMediaID(targetJID: JID, id: string, receiver: string, community: bool) returns (mediaID: string)
    ensures mediaID == Encode(Avatar(ToNonAD(targetJID), id, community, receiver))
  {
    var compactTarget := CompactJID(ToNonAD(targetJID));
    var receiverID := CompactJID(ParseUserLoginID(receiver, 0));
    if community {
      mediaID := [ByteOf(TYPE_COMMUNITY_AVATAR)];
    } else {
      mediaID := [ByteOf(TYPE_AVATAR)];
    }
    Regroup(mediaID, Pack(compactTarget), Pack(id), Pack(receiverID), []);
    mediaID := AppendField(mediaID, compactTarget);
    mediaID := AppendField(mediaID, id);
    mediaID := AppendField(mediaID, receiverID);
  }

  // --- Decoding ---

  /** The data ends before the field does. */
  predicate TooShort(data: string) {
    data == [] || |data| < ByteValue(data[0]) + 1
  }

  function Field<T>(data: string, fn: string -> Result<T, string>): Result<T, string> {
    if TooShort(data) then Err("unexpected EOF") else fn(data[1..ByteValue(data[0]) + 1])
  }

  function After(data: string): string {
    if TooShort(data) then data else data[ByteValue(data[0]) + 1..]
  }

  function ParseString(data: string): Result<string, string> {
    Ok(data)
  }

  function DecodeMessage(data: string): Result<MediaInfo, string> {
    var data1 := After(data);
    var data2 := After(data1);
    var chat, sender := Field(data, ParseCompactJID), Field(data1, ParseCompactJID);
    var receiver, id := Field(data2, ParseCompactJID), Field(After(data2), ParseCompactMsgID);
    if chat.Err? then Err(chat.error)
    else if sender.Err? then Err(sender.error)
    else if receiver.Err? then Err(receiver.error)
    else if id.Err? then Err(id.error)
    else Ok(Message(chat.value, sender.value, id.value, MakeUserLoginID(receiver.value)))
  }

  function DecodeAvatar(data: string, community: bool): Result<MediaInfo, string> {
    var data1 := After(data);
    var target, avatarID := Field(data, ParseCompactJID), Field(data1, ParseString);
    var receiver := Field(After(data1), ParseCompactJID);
    if target.Err? then Err(target.error)
    else if avatarID.Err? then Err(avatarID.error)
    else if receiver.Err? then Err(receiver.error)
    else Ok(Avatar(target.value, avatarID.value, community, MakeUserLoginID(receiver.value)))
  }

  /** What an ID means. A first byte up to 127 is the length byte of an old ID, which had no type byte. */
  function Decode(mediaID: string): Result<MediaInfo, string>
    requires mediaID != ""
  {
    var t := ByteValue(mediaID[0]);
    if t <= 127 then DecodeMessage(mediaID)
    else if t == TYPE_MESSAGE then DecodeMessage(mediaID[1..])
    else if t == TYPE_AVATAR || t == TYPE_COMMUNITY_AVATAR then DecodeAvatar(mediaID[1..], t == TYPE_COMMUNITY_AVATAR)
    else Err("unknown media ID type")
  }

  /** The slice that readCompact advances through a pointer. */
  class Reader {
    var data: string

    constructor (mediaID: string)
      ensures data == mediaID
    {
      data := mediaID;
    }

    method ReadCompact<T>(fn: string -> Result<T, string>) returns (r: Result<T, string>)
      modifies this
      ensures r == Field(old(data), fn) && data == After(old(data))
    {
      if |data| < 1 {
        return Err("unexpected EOF");
      }
      var length := ByteValue(data[0]);
      if |data| < length + 1 {
        return Err("unexpected EOF");
      }
      var dataToParse := data[1..length + 1];
      data := data[length + 1..];
      r := fn(dataToParse);
    }
  }

  method ParseMediaID(mediaID: string) returns (parsed: Result<MediaInfo, string>)
    requires mediaID != ""
    ensures parsed == Decode(mediaID)
  {
    var mediaIDType := TYPE_MESSAGE;
    var reader := new Reader(mediaID);
    if ByteValue(mediaID[0]) > 127 {
      mediaIDType := ByteValue(mediaID[0]);
      reader.data := mediaID[1..];
    }
    if mediaIDType == TYPE_MESSAGE {
      var chat := reader.ReadCompact(ParseCompactJID);
      if chat.Err? { return Err(chat.error); }
      var sender := reader.ReadCompact(ParseCompactJID);
      if sender.Err? { return Err(sender.error); }
      var receiver := reader.ReadCompact(ParseCompactJID);
      if receiver.Err? { return Err(receiver.error); }
      var id := reader.ReadCompact(ParseCompactMsgID);
      if id.Err? { return Err(id.error); }
      parsed := Ok(Message(chat.value, sender.value, id.value, MakeUserLoginID(receiver.value)));
    } else if mediaIDType == TYPE_AVATAR || mediaIDType == TYPE_COMMUNITY_AVATAR {
      var target := reader.ReadCompact(ParseCompactJID);
      if target.Err? { return Err(target.error); }
      var avatarID := reader.ReadCompact(ParseString);
      if avatarID.Err? { return Err(avatarID.error); }
      var receiver := reader.ReadCompact(ParseCompactJID);
      if receiver.Err? { return Err(receiver.error); }
      var community := mediaIDType == TYPE_COMMUNITY_AVATAR;
      parsed := Ok(Avatar(target.value, avatarID.value, community, MakeUserLoginID(receiver.value)));
    } else {
      parsed := Err("unknown media ID type");
    }
  }

  // --- Round trips ---

  /** A field of up to 255 bytes is read back; of a longer one only the first bytes are. */
  lemma ReadPacked<T>(c: string, rest: string, fn: string -> Result<T, string>)
    ensures Field(Pack(c) + rest, fn) == fn(c[..if |c| <= 255 then |c| else |c| % 256])
    ensures |c| <= 255 ==> After(Pack(c) + rest) == rest
  {
    var data := Pack(c) + rest;
    var n := |c| % 256;
    assert data[0] == ByteOf(n);
    assert data[1..n + 1] == c[..n];
    if |c| <= 255 {
      assert data[n + 1..] == rest;
    }
  }

  /** The JIDs that come through: no numeric user has leading zeros, and the others are not too long. */
  predicate JIDFits(j: JID) {
    if IsUserInt(j) then Faithful(j)
    else if j.server == GROUP_SERVER then |j.user| <= 254
    else Faithful(j) && |JIDString(j)| <= 254
  }

  predicate LoginFits(login: string) {
    JIDFits(ParseUserLoginID(login, 0))
  }

  predicate MsgIDFits(id: string) {
    |id| <= if IsUpperHex(id) && |id| % 2 == 0 then 508 else 254
  }

  predicate Fits(m: MediaInfo) {
    match m
    case Message(chat, sender, id, login) => JIDFits(chat) && JIDFits(sender) && LoginFits(login) && MsgIDFits(id)
    case Avatar(target, avatarID, _, login) => JIDFits(target) && |avatarID| <= 255 && LoginFits(login)
  }

  lemma JIDField(j: JID, rest: string)
    requires j.device == 0
    ensures Field(Pack(CompactJID(j)) + rest, ParseCompactJID) == Ok(j) <==> JIDFits(j)
    ensures JIDFits(j) ==> After(Pack(CompactJID(j)) + rest) == rest
  {
    var c := CompactJID(j);
    ReadPacked(c, rest, ParseCompactJID);
    if |c| <= 255 {
      assert c[..|c|] == c;
      CompactJIDRoundTrip(j);
    } else {
      ShortenedJID(j, |c| % 256);
    }
  }

  lemma ReadAsPrintedLogin(j: JID, k: nat)
    requires j.device == 0 && j.user != "" && k <= |JIDString(j)|
    requires var r := ParseJID(JIDString(j)[..k]); r.Ok? && r.value.user == j.user && r.value.server == j.server
    ensures k == |JIDString(j)| && ParseJID(JIDString(j)) == Ok(j)
  {
    hide ParseJID;
    var s := JIDString(j)[..k];
    ParsedFits(s);
    ParsedIsPlain(s);
    ParsePrinted(j);
  }

  lemma ReadAsLogin(login: string, k: nat)
    requires login != "" && k <= |Login(login)|
    requires var r := ParseCompactJID(Login(login)[..k]); r.Ok? && MakeUserLoginID(r.value) == login
    ensures ParseCompactJID(Login(login)[..k]) == Ok(ParseUserLoginID(login, 0)) && k == |Login(login)|
  {
    hide ParseJID, JIDString;
    var j, c := ParseUserLoginID(login, 0), Login(login)[..k];
    assert c[0] == Login(login)[0];
    if !IsUserInt(j) {
      assert c[1..] == JIDString(j)[..k - 1];
      ReadAsPrintedLogin(j, k - 1);
      assert JIDString(j)[..|JIDString(j)|] == JIDString(j);
    }
  }

  /** A login comes back as soon as its JID does, and not otherwise. */
  lemma LoginField(login: string, rest: string)
    ensures var r := Field(Pack(Login(login)) + rest, ParseCompactJID);
            (r.Ok? && MakeUserLoginID(r.value) == login) <==> LoginFits(login)
    ensures LoginFits(login) ==> After(Pack(Login(login)) + rest) == rest
  {
    var c := Login(login);
    JIDField(ParseUserLoginID(login, 0), rest);
    ReadPacked(c, rest, ParseCompactJID);
    var k := if |c| <= 255 then |c| else |c| % 256;
    var r := ParseCompactJID(c[..k]);
    if login != "" && r.Ok? && MakeUserLoginID(r.value) == login {
      ReadAsLogin(login, k);
    }
  }

  lemma MsgIDField(id: string, rest: string)
    ensures Field(Pack(CompactMsgID(id)) + rest, ParseCompactMsgID) == Ok(id) <==> MsgIDFits(id)
  {
    var c := CompactMsgID(id);
    ReadPacked(c, rest, ParseCompactMsgID);
    if |c| <= 255 {
      assert c[..|c|] == c;
      CompactMsgIDRoundTrip(id);
    } else {
      ShortenedMsgID(id, |c| % 256);
    }
  }

  lemma StringField(s: string, rest: string)
    ensures Field(Pack(s) + rest, ParseString) == Ok(s) <==> |s| <= 255
    ensures |s| <= 255 ==> After(Pack(s) + rest) == rest
  {
    ReadPacked(s, rest, ParseString);
    if |s| <= 255 {
      assert s[..|s|] == s;
    }
  }

  lemma MessageFieldsRead(m: MediaInfo)
    requires m.Message? && NonAD(m)
    ensures DecodeMessage(Fields(m)) == Ok(m) <==> Fits(m)
  {
    var id := Pack(CompactMsgID(m.id));
    var login := Pack(Login(m.login)) + id;
    var sender := Pack(CompactJID(m.sender)) + login;
    assert id + [] == id;
    JIDField(m.chat, sender);
    if JIDFits(m.chat) {
      JIDField(m.sender, login);
      if JIDFits(m.sender) {
        LoginField(m.login, id);
        MsgIDField(m.id, []);
      }
    }
  }

  lemma AvatarFieldsRead(m: MediaInfo)
    requires m.Avatar? && NonAD(m)
    ensures DecodeAvatar(Fields(m), m.community) == Ok(m) <==> Fits(m)
  {
    var login := Pack(Login(m.login));
    var id := Pack(m.avatarID) + login;
    assert login + [] == login;
    JIDField(m.target, id);
    if JIDFits(m.target) {
      StringField(m.avatarID, login);
      LoginField(m.login, []);
    }
  }

  /** Exactly the IDs whose parts fit mean what they were made from. */
  lemma MediaIDRoundTrip(m: MediaInfo)
    requires NonAD(m)
    ensures Decode(Encode(m)) == Ok(m) <==> Fits(m)
  {
    assert Encode(m)[1..] == Fields(m);
    match m
    case Message(_, _, _, _) => MessageFieldsRead(m);
    case Avatar(_, _, _, _) => AvatarFieldsRead(m);
  }

  /** So different media never share an ID, and the three kinds are apart even when the parts do not fit. */
  lemma MediaIDsAreDistinct(a: MediaInfo, b: MediaInfo)
    requires NonAD(a) && NonAD(b) && a != b
    requires (Fits(a) && Fits(b)) || TypeByte(a) != TypeByte(b)
    ensures Encode(a) != Encode(b)
  {
    if TypeByte(a) != TypeByte(b) {
      assert Encode(a)[0] != Encode(b)[0];
    } else {
      MediaIDRoundTrip(a);
      MediaIDRoundTrip(b);
    }
  }

  lemma FittingJID(j: JID)
    requires j.device == 0 && JIDFits(j)
    ensures |CompactJID(j)| <= 255
  {
  }

  /** No JID of the longest size is read from three bytes. */
  lemma ShortJID(c: string, j: JID)
    requires |c| <= 3 && j.device == 0 && |CompactJID(j)| == 255
    ensures ParseCompactJID(c) != Ok(j)
  {
    if ParseCompactJID(c) == Ok(j) && c[0] == RAW_STRING {
      ParsedFits(c[1..]);
    }
  }

  /** The longest length byte looks like the type byte of a message; the chat is then read wrong. */
  lemma ShiftedChat(j: JID, rest: string)
    requires j.device == 0 && |CompactJID(j)| == 255
    ensures Field(CompactJID(j) + rest, ParseCompactJID) != Ok(j)
  {
    var data := CompactJID(j) + rest;
    assert data[0] == CompactJID(j)[0];
    ShortJID(data[1..ByteValue(data[0]) + 1], j);
  }

  lemma LegacyText(m: MediaInfo)
    requires m.Message? && NonAD(m)
    ensures Encode(m)[1..] == Fields(m) && Fields(m)[0] == ByteOf(|CompactJID(m.chat)| % 256)
  {
    hide CompactJID, CompactMsgID, Login;
  }

  lemma MessageType(m: MediaInfo)
    requires m.Message? && NonAD(m)
    ensures Encode(m) != "" && Encode(m)[0] == ByteOf(TYPE_MESSAGE)
  {
  }

  /** Dropping the type byte of a message makes no difference when the length byte behind it is at most 127, and
      gives an error when it is from 128 to 252, where no type is. */
  lemma LegacyLengthByte(m: MediaInfo)
    requires m.Message? && NonAD(m)
    ensures var length := |CompactJID(m.chat)| % 256;
            && (length <= 127 ==> Decode(Encode(m)[1..]) == Decode(Encode(m)))
            && (128 <= length <= 252 ==> Decode(Encode(m)[1..]).Err?)
  {
    hide Encode, Fields, CompactJID, DecodeMessage, DecodeAvatar;
    LegacyText(m);
    MessageType(m);
  }

  lemma LongChatIsMisread(m: MediaInfo, c: string, rest: string)
    requires m.Message? && m.chat.device == 0 && c == CompactJID(m.chat) && 128 <= |c| <= 255
    ensures Decode(Pack(c) + rest) != Ok(m)
  {
    hide ParseCompactJID, CompactJID, ParseCompactMsgID, After;
    var f := Pack(c) + rest;
    assert f[1..] == c + rest;
    if |c| == TYPE_MESSAGE {
      ShiftedChat(m.chat, rest);
    }
  }

  /** A message ID without its type byte, as old versions made it, still means the same if and only if the
      length byte it then starts with cannot be taken for a type. */
  lemma LegacyIDs(m: MediaInfo)
    requires m.Message? && NonAD(m) && Fits(m)
    ensures Decode(Encode(m)[1..]) == Ok(m) <==> |CompactJID(m.chat)| <= 127
  {
    hide CompactJID, CompactMsgID, DecodeMessage;
    var c := CompactJID(m.chat);
    var rest := Pack(CompactJID(m.sender)) + (Pack(Login(m.login)) + Pack(CompactMsgID(m.id)));
    assert Encode(m)[1..] == Fields(m) == Pack(c) + rest;
    FittingJID(m.chat);
    if |c| <= 127 {
      MessageFieldsRead(m);
    } else {
      LongChatIsMisread(m, c, rest);
    }
  }
}
