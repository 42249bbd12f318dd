/**
  WhatsApp JIDs. Printing and parsing them belongs to the whatsmeow library; what is modelled is the form
  user@server, with an optional :device after the user. A user with a dot in it would be read as an agent
  number and is an error here.
 */
module Jids {
  import opened Wrappers
  import opened Decimals

  const DEFAULT_USER_SERVER := "s.whatsapp.net"
  const GROUP_SERVER := "g.us"
  const HIDDEN_USER_SERVER := "lid"
  const BOT_SERVER := "bot"

  type Device = n: nat | n < UINT16_LIMIT

  datatype JID = JID(user: string, server: string, device: Device)

  const EMPTY_JID := JID("", "", 0)

  function ToNonAD(j: JID): JID {
    j.(device := 0)
  }

  function JIDString(j: JID): string {
    if j.device > 0 then j.user + ":" + Format(j.device) + "@" + j.server
    else if j.user != "" then j.user + "@" + j.server
    else j.server
  }

  /** How many characters stand before the first `c`. */
  function Before(s: string, c: char): (n: nat)
    ensures n <= |s| && (forall i :: 0 <= i < n ==> s[i] != c) && (n < |s| ==> s[n] == c)
  {
    if s == [] || s[0] == c then 0 else 1 + Before(s[1..], c)
  }

  function ParseUser(user: string, server: string): Result<JID, string> {
    if '.' in user then Err("agent")
    else if ':' in user then
      var n := Before(user, ':');
      var device := ParseUint(user[n + 1..], UINT16_LIMIT);
      if device.None? then Err("device") else Ok(JID(user[..n], server, device.value))
    else Ok(JID(user, server, 0))
  }

  /** types.ParseJID: what follows a second @ is ignored. */
  function ParseJID(s: string): Result<JID, string> {
    var n := Before(s, '@');
    if n == |s| then Ok(JID("", s, 0))
    else
      var rest := s[n + 1..];
      ParseUser(s[..n], rest[..Before(rest, '@')])
  }

  /** Nothing in the JID looks like the punctuation between its parts. */
  predicate Plain(j: JID) {
    '@' !in j.user && '.' !in j.user && ':' !in j.user && '@' !in j.server
  }

  lemma BeforeIs(a: string, c: char, b: string)
    requires c !in a
    ensures Before(a, c) == |a|
    ensures Before(a + [c] + b, c) == |a|
    ensures (a + [c] + b)[..|a|] == a && (a + [c] + b)[|a| + 1..] == b
  {
    var s := a + [c] + b;
    assert s[|a|] == c;
    assert forall i :: 0 <= i < |a| ==> s[i] == a[i];
  }

  /** Whatever is parsed is plain. */
  lemma ParsedIsPlain(s: string)
    requires ParseJID(s).Ok?
    ensures Plain(ParseJID(s).value)
  {
    var n := Before(s, '@');
    if n < |s| {
      var user, rest := s[..n], s[n + 1..];
      var m := Before(user, ':');
      assert ':' in user || m == |user|;
      forall c | c in user[..m] ensures c in user {}
    }
  }

  /** The server goes up to a second @. */
  lemma ParseParts(user: string, rest: string)
    requires '@' !in user
    ensures ParseJID(user + ['@'] + rest) == ParseUser(user, rest[..Before(rest, '@')])
  {
    hide ParseUser;
    BeforeIs(user, '@', rest);
  }

  lemma ParseTwoParts(user: string, server: string)
    requires '@' !in user && '@' !in server
    ensures ParseJID(user + ['@'] + server) == ParseUser(user, server)
  {
    ParseParts(user, server);
    BeforeIs(server, '@', []);
    assert server[..|server|] == server;
  }

  lemma ParseUserDevice(user: string, server: string, device: Device)
    requires '.' !in user && ':' !in user
    ensures ParseUser(user + [':'] + Format(device), server) == Ok(JID(user, server, device))
  {
    var s := user + [':'] + Format(device);
    FormatIsCanonical(device);
    BeforeIs(user, ':', Format(device));
    assert s[|user|] == ':';
  }

  /** Parsing undoes printing for the plain JIDs and for no others. */
  lemma ParsePrinted(j: JID)
    ensures ParseJID(JIDString(j)) == Ok(j) <==> Plain(j)
  {
    if ParseJID(JIDString(j)) == Ok(j) {
      ParsedIsPlain(JIDString(j));
    }
    if Plain(j) {
      if j.device > 0 {
        ParseTwoParts(j.user + [':'] + Format(j.device), j.server);
        ParseUserDevice(j.user, j.server, j.device);
      } else if j.user != "" {
        ParseTwoParts(j.user, j.server);
      } else {
        BeforeIs(j.server, '@', []);
      }
    }
  }

  /** A JID cannot be read from fewer characters than its parts need. */
  lemma ParsedFits(s: string)
    requires ParseJID(s).Ok?
    ensures var j := ParseJID(s).value; |j.server| + (if j.user == "" then 0 else |j.user| + 1) <= |s|
  {
  }
}
