/**
  The text identifiers of pkg/waid/id.go: portals, users, logins and messages. Each is printed from JIDs and
  parsed back; the theorems say for which JIDs that gives back what was printed.
 */
module BridgeIDs {
  import opened Wrappers
  import opened Jids

  // --- Portals ---

  function MakePortalID(j: JID): string {
    JIDString(ToNonAD(j))
  }

  function ParsePortalID(portal: string): Result<JID, string> {
    ParseJID(portal)
  }

  /** A portal ID leads back to the chat, without the device, for plain JIDs only. */
  lemma PortalIDRoundTrip(j: JID)
    ensures ParsePortalID(MakePortalID(j)) == Ok(ToNonAD(j)) <==> Plain(j)
  {
    ParsePrinted(ToNonAD(j));
  }

  // --- Users and logins ---

  const LID_PREFIX := "lid-"
  const BOT_PREFIX := "bot-"

  function MakeUserID(user: JID): string {
    if user.server == DEFAULT_USER_SERVER then user.user
    else if user.server == BOT_SERVER then BOT_PREFIX + user.user
    else if user.server == HIDDEN_USER_SERVER then LID_PREFIX + user.user
    else ""
  }

  function ParseUserID(user: string): JID {
    if LID_PREFIX <= user then JID(user[|LID_PREFIX|..], HIDDEN_USER_SERVER, 0)
    else if BOT_PREFIX <= user then JID(user[|BOT_PREFIX|..], BOT_SERVER, 0)
    else JID(user, DEFAULT_USER_SERVER, 0)
  }

  /** The users that come back: on one of the three servers, and no phone number user that looks like one of
      the other two kinds. */
  predicate HasUserID(user: JID) {
    || user.server == BOT_SERVER
    || user.server == HIDDEN_USER_SERVER
    || (user.server == DEFAULT_USER_SERVER && !(LID_PREFIX <= user.user) && !(BOT_PREFIX <= user.user))
  }

  lemma UserIDRoundTrip(user: JID)
    ensures ParseUserID(MakeUserID(user)) == ToNonAD(user) <==> HasUserID(user)
  {
    var s := MakeUserID(user);
    if user.server == BOT_SERVER {
      assert s[0] == 'b' && s[|BOT_PREFIX|..] == user.user;
    } else if user.server == HIDDEN_USER_SERVER {
      assert s[|LID_PREFIX|..] == user.user;
    }
  }

  /** Every user ID is the ID of the user it is parsed to. */
  lemma UserIDIsParsedUser(s: string)
    ensures MakeUserID(ParseUserID(s)) == s && HasUserID(ParseUserID(s))
  {
    if LID_PREFIX <= s {
      assert s == LID_PREFIX + s[|LID_PREFIX|..];
    } else if BOT_PREFIX <= s {
      assert s == BOT_PREFIX + s[|BOT_PREFIX|..];
    }
  }

  function MakeUserLoginID(user: JID): string {
    if user.server != DEFAULT_USER_SERVER then "" else user.user
  }

  function ParseUserLoginID(login: string, device: Device): JID {
    if login == "" then EMPTY_JID else JID(login, DEFAULT_USER_SERVER, device)
  }

  // --- Messages ---

  function MakeMessageID(chat: JID, sender: JID, id: string): string {
    JIDString(ToNonAD(chat)) + [':'] + (JIDString(ToNonAD(sender)) + [':'] + id)
  }

  function MakeFakeMessageID(chat: JID, sender: JID, data: string): string {
    "fake" + [':'] + MakeMessageID(chat, sender, data)
  }

  datatype ParsedMessageID = ParsedMessageID(chat: JID, sender: JID, id: string)

  const FAKE := "fake"
  const FAKE_PREFIX := "FAKE::"

  /** strings.SplitN(s, ":", 3), if there are three parts */
  function SplitThree(s: string): Option<(string, string, string)> {
    var i := Before(s, ':');
    if i == |s| then None
    else
      var rest := s[i + 1..];
      var j := Before(rest, ':');
      if j == |rest| then None else Some((s[..i], rest[..j], rest[j + 1..]))
  }

  function ParseMessageID(messageID: string): Result<ParsedMessageID, string> {
    match SplitThree(messageID)
    case None => Err("invalid message ID")
    case Some((chatPart, senderPart, id)) =>
      if chatPart == FAKE || FAKE_PREFIX <= id then Err("fake message ID")
      else
        var chat, sender := ParseJID(chatPart), ParseJID(senderPart);
        if chat.Err? then Err(chat.error)
        else if sender.Err? then Err(sender.error)
        else Ok(ParsedMessageID(chat.value, sender.value, id))
  }

  /** A JID that can stand before a colon. */
  predicate Separable(j: JID) {
    Plain(j) && ':' !in j.server
  }

  lemma SplitParts(a: string, b: string, c: string)
    requires ':' !in a && ':' !in b
    ensures SplitThree(a + [':'] + (b + [':'] + c)) == Some((a, b, c))
  {
    BeforeIs(a, ':', b + [':'] + c);
    BeforeIs(b, ':', c);
  }

  lemma BeforeColon(a: string, b: string)
    requires ':' in a
    ensures Before(a + [':'] + b, ':') < |a|
  {
    var i :| 0 <= i < |a| && a[i] == ':';
    assert (a + [':'] + b)[i] == ':';
  }

  /** A shorter text is never read as the JID. */
  lemma ShorterIsAnother(s: string, j: JID)
    requires j.device == 0 && |s| < |JIDString(j)|
    ensures ParseJID(s) != Ok(j)
  {
    if ParseJID(s).Ok? {
      ParsedFits(s);
    }
  }

  lemma PrintedHasColon(j: JID)
    requires j.device == 0
    ensures ':' in JIDString(j) <==> ':' in j.user || ':' in j.server
  {
  }

  /** Message IDs come back, without devices, exactly when both JIDs are plain and without colons, the chat
      does not print as the word that marks fake IDs, and the ID does not start with the prefix that does. */
  lemma MessageIDRoundTrip(chat: JID, sender: JID, id: string)
    ensures ParseMessageID(MakeMessageID(chat, sender, id)) == Ok(ParsedMessageID(ToNonAD(chat), ToNonAD(sender), id))
      <==> Separable(chat) && Separable(sender) && JIDString(ToNonAD(chat)) != FAKE && !(FAKE_PREFIX <= id)
  {
    hide ParseJID;
    var c, d := ToNonAD(chat), ToNonAD(sender);
    var a, b := JIDString(c), JIDString(d);
    var s := MakeMessageID(chat, sender, id);
    PrintedHasColon(c);
    PrintedHasColon(d);
    if ':' in a {
      BeforeColon(a, b + [':'] + id);
      ShorterIsAnother(s[..Before(s, ':')], c);
    } else {
      BeforeIs(a, ':', b + [':'] + id);
      if ':' in b {
        BeforeColon(b, id);
        ShorterIsAnother((b + [':'] + id)[..Before(b + [':'] + id, ':')], d);
      } else {
        SplitParts(a, b, id);
        ParsePrinted(c);
        ParsePrinted(d);
      }
    }
  }

  /** The first of two colons in a text has one behind it. */
  lemma HasTwoColons(s: string, i: nat, j: nat)
    requires i < j < |s| && s[i] == ':' && s[j] == ':'
    ensures Before(s, ':') < |s| - 1 && Before(s[Before(s, ':') + 1..], ':') < |s| - Before(s, ':') - 1
  {
    assert s[Before(s, ':') + 1..][j - Before(s, ':') - 1] == ':';
  }

  /** No fake ID is ever parsed, whatever is in it; so it is not the ID of any message that comes back. What
      follows its mark is the ID that a message would have had. */
  lemma FakeIDsNeverParse(chat: JID, sender: JID, data: string)
    ensures var s := MakeFakeMessageID(chat, sender, data);
            && ParseMessageID(s) == Err("fake message ID")
            && |FAKE| < |s| && Before(s, ':') == |FAKE| && s[|FAKE| + 1..] == MakeMessageID(chat, sender, data)
  {
    hide ParseJID, JIDString;
    var a, b := JIDString(ToNonAD(chat)), JIDString(ToNonAD(sender));
    var m := MakeMessageID(chat, sender, data);
    BeforeIs(FAKE, ':', m);
    assert m[|a|] == ':' && m[|a| + 1 + |b|] == ':';
    HasTwoColons(m, |a|, |a| + 1 + |b|);
    assert MakeFakeMessageID(chat, sender, data)[|FAKE| + 1..] == m;
  }
}
