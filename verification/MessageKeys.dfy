/**
  Message keys: how the bridge names a message to WhatsApp (messageIDToKey in pkg/connector/id.go) and how a
  key that arrives is resolved (KeyToMessageID in pkg/msgconv/wa-poll.go). A key is relative: it says
  whether the message is from whoever sent the key, and leaves out what both ends can work out.
 */
module MessageKeys {
  import opened Wrappers
  import opened BridgeIDs
  import opened Jids

  const MESSENGER_SERVER := "msgr"
  const LEGACY_USER_SERVER := "c.us"

  // An account's two addresses, and the mappings between phone number users and LID users it knows.
  datatype Account = Account(pn: JID, lid: JID, pnForLID: map<string, string>, lidForPN: map<string, string>)

  // Participant is empty when the key has none.
  datatype Key = Key(remoteJID: string, id: string, fromMe: bool, participant: string)

  predicate IsMe(a: Account, j: JID) {
    j.user == a.pn.user || j.user == a.lid.user
  }

  /** Chats whose messages need no participant, since there are only two people in them. */
  predicate IsDirect(server: string) {
    server == MESSENGER_SERVER || server == DEFAULT_USER_SERVER || server == HIDDEN_USER_SERVER || server == BOT_SERVER
  }

  function MessageIDToKey(a: Account, m: ParsedMessageID): Key {
    Key(JIDString(m.chat), m.id, IsMe(a, m.sender), if IsDirect(m.chat.server) then "" else JIDString(m.sender))
  }

  function RerouteMessageKey(a: Account, chat: JID, sender: JID, groupLIDAddressing: bool): JID {
    if chat.server == DEFAULT_USER_SERVER && sender.server == HIDDEN_USER_SERVER then
      if sender.user in a.pnForLID then JID(a.pnForLID[sender.user], DEFAULT_USER_SERVER, sender.device) else sender
    else if chat.server == GROUP_SERVER && sender.server == DEFAULT_USER_SERVER && groupLIDAddressing then
      if sender.user in a.lidForPN then JID(a.lidForPN[sender.user], HIDDEN_USER_SERVER, sender.device) else sender
    else sender
  }

  /** Who sent the message that a key names, if that can be told. */
  function KeySender(a: Account, chat: JID, sender: JID, key: Key): Option<JID> {
    if key.fromMe then Some(ToNonAD(sender))
    else if key.participant != "" then
      match ParseJID(key.participant)
      case Err(_) => None
      case Ok(j) => Some(if j.server == LEGACY_USER_SERVER then j.(server := DEFAULT_USER_SERVER) else j)
    else if chat.server == DEFAULT_USER_SERVER || chat.server == BOT_SERVER then
      Some(if IsMe(a, sender) then chat else ToNonAD(a.pn))
    else None
  }

  function KeyChat(chat: JID, key: Key): JID {
    match ParseJID(key.remoteJID)
    case Ok(j) => if j.server == GROUP_SERVER then j else chat
    case Err(_) => chat
  }

  /** What a key means to `a` when `sender` sent it in `chat`. */
  function ResolveKey(a: Account, chat: JID, sender: JID, key: Key): Option<ParsedMessageID> {
    var keySender := KeySender(a, chat, sender, key);
    if keySender.None? then None
    else
      var keyChat := KeyChat(chat, key);
      var rerouted := RerouteMessageKey(a, keyChat, keySender.value, sender.server == HIDDEN_USER_SERVER);
      Some(ParsedMessageID(keyChat, rerouted, key.id))
  }

  function KeyToMessageID(a: Account, chat: JID, sender: JID, key: Key): string {
    match ResolveKey(a, chat, sender, key)
    case None => ""
    case Some(m) => MakeMessageID(m.chat, m.sender, m.id)
  }

  /** The JIDs of a message ID that has been parsed, without devices. */
  predicate Parsed(m: ParsedMessageID) {
    Plain(m.chat) && Plain(m.sender) && m.chat.device == 0 && m.sender.device == 0
  }

  lemma NoColonNoDevice(s: string)
    requires ':' !in s && ParseJID(s).Ok?
    ensures Plain(ParseJID(s).value) && ParseJID(s).value.device == 0
  {
    ParsedIsPlain(s);
    var n := Before(s, '@');
    assert forall c :: c in s[..n] ==> c in s;
  }

  /** Which every message ID that parses has. */
  lemma ParsedMessageIDIsParsed(id: string)
    requires ParseMessageID(id).Ok?
    ensures Parsed(ParseMessageID(id).value)
  {
    var i := Before(id, ':');
    var rest := id[i + 1..];
    NoColonNoDevice(id[..i]);
    NoColonNoDevice(rest[..Before(rest, ':')]);
  }

  /** The address a LID has in a phone number chat, as far as the account knows. */
  function AddressIn(a: Account, chat: JID, j: JID): JID {
    if chat.server == DEFAULT_USER_SERVER && j.server == HIDDEN_USER_SERVER && j.user in a.pnForLID
    then JID(a.pnForLID[j.user], DEFAULT_USER_SERVER, j.device) else j
  }

  /** The message is addressed by phone number, its group's keys are sent from a LID, and the account knows
      a LID to put instead. */
  predicate PutUnderLID(a: Account, sentFrom: JID, m: ParsedMessageID) {
    && m.chat.server == GROUP_SERVER && m.sender.server == DEFAULT_USER_SERVER
    && sentFrom.server == HIDDEN_USER_SERVER && m.sender.user in a.lidForPN
  }

  /** Somebody else's message, with a participant in the key. */
  predicate NamedByParticipant(a: Account, sentFrom: JID, m: ParsedMessageID) {
    m.sender != EMPTY_JID && m.sender.server != LEGACY_USER_SERVER && !PutUnderLID(a, sentFrom, m)
  }

  lemma KeyChatIs(chat: JID, seen: JID, key: Key)
    requires Plain(chat) && chat.device == 0 && key.remoteJID == JIDString(chat)
    ensures KeyChat(seen, key) == if chat.server == GROUP_SERVER then chat else seen
  {
    ParsePrinted(chat);
  }

  /** A key that names a participant means the same to every account that resolves it in the same way. */
  lemma ParticipantResolves(a: Account, b: Account, sentFrom: JID, m: ParsedMessageID)
    requires Parsed(m) && !IsMe(a, m.sender) && !IsDirect(m.chat.server)
    ensures ResolveKey(b, m.chat, sentFrom, MessageIDToKey(a, m)) == Some(m) <==> NamedByParticipant(b, sentFrom, m)
  {
    KeyChatIs(m.chat, m.chat, MessageIDToKey(a, m));
    ParsePrinted(m.sender);
  }

  /** Who a participant stands for: a legacy address is a phone number, and in a group whose keys come from LIDs a
      phone number with a known LID stands for that LID. */
  function Participant(b: Account, sentFrom: JID, chat: JID, sender: JID): JID {
    var server := if sender.server == LEGACY_USER_SERVER then DEFAULT_USER_SERVER else sender.server;
    if chat.server == GROUP_SERVER && server == DEFAULT_USER_SERVER && sentFrom.server == HIDDEN_USER_SERVER
       && sender.user in b.lidForPN
    then JID(b.lidForPN[sender.user], HIDDEN_USER_SERVER, 0) else JID(sender.user, server, 0)
  }

  /** And that is what such a key resolves to for every account; without a participant it resolves to nothing. */
  lemma ParticipantResolvesTo(a: Account, b: Account, sentFrom: JID, m: ParsedMessageID)
    requires Parsed(m) && !IsMe(a, m.sender) && !IsDirect(m.chat.server)
    ensures ResolveKey(b, m.chat, sentFrom, MessageIDToKey(a, m))
         == if m.sender == EMPTY_JID then None
            else Some(ParsedMessageID(m.chat, Participant(b, sentFrom, m.chat, m.sender), m.id))
  {
    KeyChatIs(m.chat, m.chat, MessageIDToKey(a, m));
    ParsePrinted(m.sender);
  }

  /** In particular: the sender of a message put under a LID has the LID that the account knows. */
  lemma PutUnderKnownLID(a: Account, b: Account, sentFrom: JID, m: ParsedMessageID)
    requires Parsed(m) && !IsMe(a, m.sender) && PutUnderLID(b, sentFrom, m)
    ensures ResolveKey(b, m.chat, sentFrom, MessageIDToKey(a, m))
         == Some(m.(sender := JID(b.lidForPN[m.sender.user], HIDDEN_USER_SERVER, 0)))
  {
    ParticipantResolvesTo(a, b, sentFrom, m);
  }

  /** What a key built for a message says: where it is, which it is, whether it is ours, and who else sent it. */
  lemma KeySays(a: Account, m: ParsedMessageID)
    requires Parsed(m)
    ensures var key := MessageIDToKey(a, m);
            && ParseJID(key.remoteJID) == Ok(m.chat) && key.id == m.id
            && (key.fromMe <==> m.sender.user in {a.pn.user, a.lid.user})
            && (m.chat.server in {MESSENGER_SERVER, DEFAULT_USER_SERVER, HIDDEN_USER_SERVER, BOT_SERVER}
                ==> key.participant == "")
            && (m.chat.server !in {MESSENGER_SERVER, DEFAULT_USER_SERVER, HIDDEN_USER_SERVER, BOT_SERVER}
                ==> ParseJID(key.participant) == Ok(m.sender))
  {
    ParsePrinted(m.chat);
    ParsePrinted(m.sender);
  }

  /** What our own key resolves to in every case. */
  lemma OwnKeyResolvesTo(a: Account, sentFrom: JID, m: ParsedMessageID)
    requires Parsed(m) && IsMe(a, sentFrom)
    ensures ResolveKey(a, m.chat, sentFrom, MessageIDToKey(a, m)) ==
              if IsMe(a, m.sender) then Some(m.(sender := AddressIn(a, m.chat, ToNonAD(sentFrom))))
              else if m.chat.server in {DEFAULT_USER_SERVER, BOT_SERVER} then Some(m.(sender := m.chat))
              else if m.chat.server in {MESSENGER_SERVER, HIDDEN_USER_SERVER} || m.sender == EMPTY_JID then None
              else Some(m.(sender := Participant(a, sentFrom, m.chat, m.sender)))
  {
    KeyChatIs(m.chat, m.chat, MessageIDToKey(a, m));
    if !IsMe(a, m.sender) && !IsDirect(m.chat.server) {
      ParticipantResolvesTo(a, a, sentFrom, m);
    }
  }

  /** Our own key, resolved by ourselves, names the message it was built for: exactly when our message was
      sent from the address the key comes from, when somebody else's has a participant that is kept as it
      is, and in a chat without participants when it is from the chat, addressed by phone number or a bot. */
  lemma OwnKeyRoundTrip(a: Account, sentFrom: JID, m: ParsedMessageID)
    requires Parsed(m) && IsMe(a, sentFrom)
    ensures ResolveKey(a, m.chat, sentFrom, MessageIDToKey(a, m)) == Some(m) <==>
              if IsMe(a, m.sender) then m.sender == AddressIn(a, m.chat, ToNonAD(sentFrom))
              else if IsDirect(m.chat.server) then
                m.sender == m.chat && (m.chat.server == DEFAULT_USER_SERVER || m.chat.server == BOT_SERVER)
              else NamedByParticipant(a, sentFrom, m)
  {
    KeyChatIs(m.chat, m.chat, MessageIDToKey(a, m));
    if !IsMe(a, m.sender) && !IsDirect(m.chat.server) {
      ParticipantResolves(a, a, sentFrom, m);
    }
  }

  /** The same about the ID as text, for the cases the bridge meets: a group message from the addressing mode
      the key is sent in, and a message of a phone number chat from either side. */
  lemma OwnKeyGivesMessageID(a: Account, sentFrom: JID, m: ParsedMessageID)
    requires Parsed(m) && IsMe(a, sentFrom)
    requires || (m.chat.server == GROUP_SERVER && m.sender.server == sentFrom.server
                 && sentFrom.server in {DEFAULT_USER_SERVER, HIDDEN_USER_SERVER}
                 && (IsMe(a, m.sender) ==> m.sender == ToNonAD(sentFrom)))
             || (m.chat.server == DEFAULT_USER_SERVER && sentFrom.server == DEFAULT_USER_SERVER
                 && (m.sender == ToNonAD(sentFrom) || (m.sender == m.chat && !IsMe(a, m.chat))))
    ensures KeyToMessageID(a, m.chat, sentFrom, MessageIDToKey(a, m)) == MakeMessageID(m.chat, m.sender, m.id)
  {
    OwnKeyRoundTrip(a, sentFrom, m);
  }

  /** An account's phone number, as a chat and as a sender of messages. */
  function Number(a: Account): JID {
    ToNonAD(a.pn)
  }

  /** Two accounts in a chat of their own: each has the other's phone number as the chat. */
  predicate Talk(a: Account, b: Account) {
    && Plain(a.pn) && Plain(b.pn)
    && a.pn.server == DEFAULT_USER_SERVER && b.pn.server == DEFAULT_USER_SERVER
    && !IsMe(a, b.pn) && !IsMe(b, a.pn) && !IsMe(b, a.lid)
  }

  /** In a direct chat the key of a message, sent from any device of ours, is resolved by the other side to the
      same message in its own view of the chat, if and only if the sender of the message was the other side, or
      it was us and our address can be mapped to our phone number. */
  lemma PeerResolvesDirectKey(a: Account, b: Account, sentFrom: JID, m: ParsedMessageID)
    requires Talk(a, b) && m.chat == Number(b) && m.sender in {Number(a), Number(b)}
    requires || ToNonAD(sentFrom) == Number(a)
             || (ToNonAD(sentFrom) == ToNonAD(a.lid) && a.lid.server == HIDDEN_USER_SERVER)
    ensures ResolveKey(b, Number(a), sentFrom, MessageIDToKey(a, m)) == Some(m.(chat := Number(a)))
       <==> (m.sender == Number(a) ==> AddressIn(b, Number(a), ToNonAD(sentFrom)) == Number(a))
  {
    KeyChatIs(m.chat, Number(a), MessageIDToKey(a, m));
  }

  /** And what it resolves it to in either case. */
  lemma PeerResolvesDirectKeyTo(a: Account, b: Account, sentFrom: JID, m: ParsedMessageID)
    requires Talk(a, b) && m.chat == Number(b) && m.sender in {Number(a), Number(b)}
    requires || ToNonAD(sentFrom) == Number(a)
             || (ToNonAD(sentFrom) == ToNonAD(a.lid) && a.lid.server == HIDDEN_USER_SERVER)
    ensures var sender := if m.sender == Number(b) then Number(b) else AddressIn(b, Number(a), ToNonAD(sentFrom));
            ResolveKey(b, Number(a), sentFrom, MessageIDToKey(a, m)) == Some(ParsedMessageID(Number(a), sender, m.id))
  {
    KeyChatIs(m.chat, Number(a), MessageIDToKey(a, m));
  }

  /** A group is named by the key, whatever chat the account that resolves it takes it to be from. */
  lemma GroupIsNamedByKey(a: Account, b: Account, seen: JID, sentFrom: JID, m: ParsedMessageID)
    requires Parsed(m) && m.chat.server == GROUP_SERVER && !IsMe(a, m.sender) && m.sender != EMPTY_JID
    ensures ResolveKey(b, seen, sentFrom, MessageIDToKey(a, m)) == ResolveKey(b, m.chat, sentFrom, MessageIDToKey(a, m))
  {
    KeyChatIs(m.chat, seen, MessageIDToKey(a, m));
    KeyChatIs(m.chat, m.chat, MessageIDToKey(a, m));
    ParsePrinted(m.sender);
  }

  /** In a group both sides resolve a key about a third person's message to the same message, whether or not
      it is the one the key was made for, if they know the same LID for that person. */
  lemma PeersAgreeInGroup(a: Account, b: Account, sentFrom: JID, m: ParsedMessageID)
    requires Parsed(m) && m.chat.server == GROUP_SERVER && !IsMe(a, m.sender)
    requires m.sender.user in a.lidForPN <==> m.sender.user in b.lidForPN
    requires m.sender.user in a.lidForPN ==> a.lidForPN[m.sender.user] == b.lidForPN[m.sender.user]
    ensures var key := MessageIDToKey(a, m);
            ResolveKey(a, m.chat, sentFrom, key) == ResolveKey(b, m.chat, sentFrom, key)
  {
    hide ParseJID, JIDString;
    KeyChatIs(m.chat, m.chat, MessageIDToKey(a, m));
    ParsePrinted(m.sender);
  }
}
