/**
  The one-time deletion of direct chats that were created under a LID (deleteLIDDMsMigration in
  pkg/connector/connector.go), when the same chat exists under the phone number.
 */
module PortalMigration {
  import opened Wrappers
  import opened BridgeIDs
  import opened Jids

  datatype PortalKey = PortalKey(id: string, receiver: string)

  datatype Portal = Portal(key: PortalKey, isDM: bool)

  /** The direct chats among the portals, which are the only ones looked at. */
  predicate IsDM(p: Portal) {
    p.key.receiver != "" && p.isDM
  }

  /** The phone number portal that would replace a LID portal, if it is one and the number is known. */
  function Replacement(key: PortalKey, pnForLID: map<string, string>): Option<PortalKey> {
    match ParsePortalID(key.id)
    case Err(_) => None
    case Ok(j) =>
      if j.server != HIDDEN_USER_SERVER || j.user !in pnForLID then None
      else Some(PortalKey(MakePortalID(JID(pnForLID[j.user], DEFAULT_USER_SERVER, 0)), key.receiver))
  }

  predicate Replaced(dms: set<PortalKey>, key: PortalKey, pnForLID: map<string, string>) {
    var r := Replacement(key, pnForLID);
    key in dms && r.Some? && r.value in dms
  }

  function DMs(portals: seq<Portal>): (keys: set<PortalKey>)
    ensures forall k :: k in keys <==>
              k.receiver != "" && exists i :: 0 <= i < |portals| && portals[i].isDM && portals[i].key == k
  {
    set i | 0 <= i < |portals| && IsDM(portals[i]) :: portals[i].key
  }

  lemma OneMoreDM(portals: seq<Portal>, i: nat)
    requires i < |portals| && IsDM(portals[i])
    ensures DMs(portals[..i + 1]) == DMs(portals[..i]) + {portals[i].key}
  {
    var xs, ys := portals[..i], portals[..i + 1];
    assert ys == xs + [portals[i]];
    forall k | k in DMs(xs) ensures k in DMs(ys) {
      var j :| 0 <= j < |xs| && IsDM(xs[j]) && xs[j].key == k;
      assert ys[j].key == k;
    }
    assert ys[i].key in DMs(ys);
  }

  class Bridge {
    // The keys of the portals in the database.
    var stored: set<PortalKey>

    /** `portals` is the list that was loaded; `fails` says which deletions the database refuses. */
    method DeleteLIDDMsMigration(portals: seq<Portal>, pnForLID: map<string, string>, fails: set<PortalKey>)
      modifies this
      ensures forall k :: k in stored <==> k in old(stored) && !(Replaced(DMs(portals), k, pnForLID) && k !in fails)
    {
      hide Replacement;
      if |portals| == 0 { return; }
      var portalsByKey: map<PortalKey, Portal> := map[];
      for i := 0 to |portals|
        invariant portalsByKey.Keys == DMs(portals[..i]) && stored == old(stored)
      {
        assert portals[..i + 1] == portals[..i] + [portals[i]];
        if portals[i].key.receiver == "" || !portals[i].isDM {
          assert DMs(portals[..i + 1]) == DMs(portals[..i]);
          continue;
        }
        OneMoreDM(portals, i);
        portalsByKey := portalsByKey[portals[i].key := portals[i]];
      }
      assert portals[..|portals|] == portals;
      var left := portalsByKey.Keys;
      while left != {}
        invariant left <= portalsByKey.Keys
        invariant forall k :: k in stored <==>
                    k in old(stored) && !(k !in left && Replaced(DMs(portals), k, pnForLID) && k !in fails)
        decreases left
      {
        var key :| key in left;
        left := left - {key};
        var pnKey := Replacement(key, pnForLID);
        if pnKey.None? || pnKey.value !in portalsByKey { continue; }
        if key in fails { continue; }
        stored := stored - {key};
      }
    }
  }

  function NumberPortal(pn: string, receiver: string): PortalKey {
    PortalKey(MakePortalID(JID(pn, DEFAULT_USER_SERVER, 0)), receiver)
  }

  /** A mapped number that is no number: with an @ in it, it reads as a LID that is mapped in turn. */
  predicate IsKnownLID(pn: string, pnForLID: map<string, string>) {
    '@' in pn && Replacement(PortalKey(pn, ""), pnForLID).Some?
  }

  /** Text after an @ does not matter to what stands before the first one. */
  lemma BeforeLater(a: string, b: string)
    ensures (a + ['@'] + b)[..Before(a + ['@'] + b, '@')] == a[..Before(a, '@')]
  {
    var s := a + ['@'] + b;
    assert forall i :: 0 <= i < |a| ==> s[i] == a[i];
    assert s[|a|] == '@';
    assert Before(s, '@') == Before(a, '@');
  }

  lemma SplitAtFirst(a: string) returns (user: string, rest: string)
    requires '@' in a
    ensures '@' !in user && a == user + ['@'] + rest
  {
    var n := Before(a, '@');
    var i :| 0 <= i < |a| && a[i] == '@';
    user, rest := a[..n], a[n + 1..];
  }

  lemma SecondAtIsIgnored(a: string, b: string)
    requires '@' in a
    ensures ParseJID(a + ['@'] + b) == ParseJID(a)
  {
    hide ParseJID, ParseUser;
    var user, rest := SplitAtFirst(a);
    ParseParts(user, rest);
    ParseParts(user, rest + ['@'] + b);
    BeforeLater(rest, b);
    assert a + ['@'] + b == user + ['@'] + (rest + ['@'] + b);
  }

  lemma ServerParses()
    ensures ParseJID(DEFAULT_USER_SERVER) == Ok(JID("", DEFAULT_USER_SERVER, 0))
  {
    BeforeIs(DEFAULT_USER_SERVER, '@', []);
  }

  lemma NumberParses(pn: string)
    ensures var r := ParseJID(JIDString(JID(pn, DEFAULT_USER_SERVER, 0)));
            if '@' in pn then r == ParseJID(pn) else r.Ok? ==> r.value.server == DEFAULT_USER_SERVER
  {
    hide ParseJID;
    if '@' in pn {
      SecondAtIsIgnored(pn, DEFAULT_USER_SERVER);
    } else if pn == "" {
      ServerParses();
    } else {
      ParseTwoParts(pn, DEFAULT_USER_SERVER);
    }
  }

  /** The portal of a number is itself taken for a LID portal exactly if the number is a known LID. */
  lemma NumberPortalIsNoLID(pn: string, receiver: string, pnForLID: map<string, string>)
    ensures Replacement(NumberPortal(pn, receiver), pnForLID).None? <==> !IsKnownLID(pn, pnForLID)
  {
    hide ParseJID, JIDString;
    NumberParses(pn);
  }

  /** The number a LID portal is mapped to. */
  function NumberOf(key: PortalKey, pnForLID: map<string, string>): string
    requires Replacement(key, pnForLID).Some?
  {
    pnForLID[ParsePortalID(key.id).value.user]
  }

  /** Whatever is deleted was a LID chat whose phone number chat, with the same receiver, was there and, unless
      its number is a known LID, is not deleted. */
  lemma DeletedHaveSurvivor(dms: set<PortalKey>, key: PortalKey, pnForLID: map<string, string>)
    requires Replaced(dms, key, pnForLID)
    ensures var other := Replacement(key, pnForLID).value;
            && ParsePortalID(key.id).value.server == HIDDEN_USER_SERVER && other.receiver == key.receiver
            && other in dms
            && (!IsKnownLID(NumberOf(key, pnForLID), pnForLID) ==> other != key && !Replaced(dms, other, pnForLID))
  {
    hide ParsePortalID;
    NumberPortalIsNoLID(NumberOf(key, pnForLID), key.receiver, pnForLID);
  }

  ghost predicate AlwaysSurvives(key: PortalKey, pnForLID: map<string, string>) {
    forall dms :: Replaced(dms, key, pnForLID) ==> !Replaced(dms, Replacement(key, pnForLID).value, pnForLID)
  }

  lemma ReplacementIs(key: PortalKey, pnForLID: map<string, string>) returns (other: PortalKey)
    requires Replacement(key, pnForLID).Some?
    ensures other == NumberPortal(NumberOf(key, pnForLID), key.receiver) && Replacement(key, pnForLID) == Some(other)
  {
    other := NumberPortal(NumberOf(key, pnForLID), key.receiver);
  }

  /** And the condition is exact: with any other number there is a list of portals from which both are deleted. */
  lemma SurvivesUnlessKnownLID(key: PortalKey, pnForLID: map<string, string>)
    requires Replacement(key, pnForLID).Some?
    ensures AlwaysSurvives(key, pnForLID) <==> !IsKnownLID(NumberOf(key, pnForLID), pnForLID)
  {
    hide Replacement, IsKnownLID;
    var pn := NumberOf(key, pnForLID);
    var other := ReplacementIs(key, pnForLID);
    NumberPortalIsNoLID(pn, key.receiver, pnForLID);
    if IsKnownLID(pn, pnForLID) {
      var dms := {key, other, Replacement(other, pnForLID).value};
      assert Replaced(dms, key, pnForLID) && Replaced(dms, other, pnForLID);
    }
  }
}
