/**
  The disappearing message setting of a chat (convertEphemeralSettingMessage in pkg/msgconv/wa-misc.go): a
  register that setting messages write, arriving in any order.
 */
module DisappearingTimer {
  import opened Wrappers

  datatype Kind = NoType | AfterSend

  datatype Setting = Setting(kind: Kind, timer: nat)

  // A setting message; the timestamp is optional in the protocol.
  datatype Change = Change(expiration: nat, timestamp: Option<int>)

  datatype Register = Register(setting: Setting, setAt: int)

  function SettingOf(c: Change): Setting {
    Setting(if c.expiration == 0 then NoType else AfterSend, c.expiration)
  }

  function Apply(r: Register, c: Change): Register {
    if c.timestamp.None? then Register(SettingOf(c), 0)
    else if r.setAt < c.timestamp.value then Register(SettingOf(c), c.timestamp.value)
    else r
  }

  function ApplyAll(r: Register, cs: seq<Change>): Register {
    if cs == [] then r else Apply(ApplyAll(r, cs[..|cs| - 1]), cs[|cs| - 1])
  }

  class Portal {
    var disappear: Setting
    var disappearingTimerSetAt: int

    function Contents(): Register
      reads this
    {
      Register(disappear, disappearingTimerSetAt)
    }

    /** The change is ignored when the register is newer; history that is being backfilled never changes it. */
    method ConvertEphemeralSetting(msg: Change, isBackfill: bool) returns (dontBridge: bool, ignored: bool)
      modifies this
      ensures Contents() == if isBackfill then old(Contents()) else Apply(old(Contents()), msg)
      ensures dontBridge <==> old(disappear) == SettingOf(msg)
      ensures !isBackfill && !ignored ==>
                disappear.timer == msg.expiration && (disappear.kind == AfterSend <==> msg.expiration > 0)
      ensures ignored <==> !isBackfill && msg.timestamp.Some? && msg.timestamp.value <= old(disappearingTimerSetAt)
    {
      var newSetting := Setting(AfterSend, msg.expiration);
      if newSetting.timer == 0 {
        newSetting := newSetting.(kind := NoType);
      }
      dontBridge, ignored := disappear == newSetting, false;
      if !isBackfill {
        var timestamp := if msg.timestamp.None? then 0 else msg.timestamp.value;
        if msg.timestamp.None? || disappearingTimerSetAt < timestamp {
          disappearingTimerSetAt := timestamp;
          disappear := newSetting;
        } else {
          ignored := true;
        }
      }
    }
  }

  predicate Timed(cs: seq<Change>) {
    forall c :: c in cs ==> c.timestamp.Some?
  }

  /** The register holds the newest change, or is as it was if there is no newer one. */
  ghost predicate HoldsNewest(r: Register, cs: seq<Change>, q: Register)
    requires Timed(cs)
  {
    && (forall c :: c in cs ==> c.timestamp.value <= q.setAt)
    && (q == r || (q.setAt > r.setAt && exists c :: c in cs && q == Register(SettingOf(c), c.timestamp.value)))
  }

  lemma {:induction false} NewestIsHeld(r: Register, cs: seq<Change>)
    requires Timed(cs)
    ensures HoldsNewest(r, cs, ApplyAll(r, cs)) && ApplyAll(r, cs).setAt >= r.setAt
  {
    if cs != [] {
      var init, last := cs[..|cs| - 1], cs[|cs| - 1];
      NewestIsHeld(r, init);
      assert forall c :: c in cs <==> c in init || c == last;
    }
  }

  predicate IsNewest(r: Register, cs: seq<Change>, c: Change)
    requires Timed(cs) && c in cs
  {
    c.timestamp.value > r.setAt && forall d :: d in cs ==> d.timestamp.value <= c.timestamp.value
  }

  /** Changes that compete for the newest place all say the same. */
  ghost predicate NewestAgree(r: Register, cs: seq<Change>)
    requires Timed(cs)
  {
    forall c, d :: c in cs && d in cs && IsNewest(r, cs, c) && IsNewest(r, cs, d) ==> SettingOf(c) == SettingOf(d)
  }

  predicate SameChanges(xs: seq<Change>, ys: seq<Change>) {
    (forall c :: c in xs ==> c in ys) && (forall c :: c in ys ==> c in xs)
  }

  /** Convergence: the same changes in any order, any of them delivered more than once, give the same. */
  lemma Converges(r: Register, xs: seq<Change>, ys: seq<Change>)
    requires Timed(xs) && Timed(ys) && SameChanges(xs, ys) && NewestAgree(r, xs)
    ensures ApplyAll(r, xs) == ApplyAll(r, ys)
  {
    NewestIsHeld(r, xs);
    NewestIsHeld(r, ys);
    var p, q := ApplyAll(r, xs), ApplyAll(r, ys);
    if p != r {
      var c :| c in xs && p == Register(SettingOf(c), c.timestamp.value);
      assert c in ys && IsNewest(r, xs, c);
      if q != r {
        var d :| d in ys && q == Register(SettingOf(d), d.timestamp.value);
        assert d in xs && IsNewest(r, xs, d);
      }
    }
  }

  predicate DistinctTimestamps(cs: seq<Change>)
    requires Timed(cs)
  {
    forall c, d :: c in cs && d in cs && c.timestamp.value == d.timestamp.value ==> c == d
  }

  /** In particular when no two changes have the same timestamp: the newest one is what is left. */
  lemma DistinctConverge(r: Register, xs: seq<Change>, ys: seq<Change>, newest: Change)
    requires Timed(xs) && Timed(ys) && SameChanges(xs, ys) && DistinctTimestamps(xs)
    requires newest in xs && IsNewest(r, xs, newest)
    ensures ApplyAll(r, ys) == Register(SettingOf(newest), newest.timestamp.value)
    ensures var setting := ApplyAll(r, ys).setting;
            setting.timer == newest.expiration && (setting.kind == AfterSend <==> newest.expiration > 0)
  {
    NewestIsHeld(r, ys);
  }

  lemma {:induction false} FirstOfNewestStays(r: Register, d: Change, cs: seq<Change>)
    requires Timed(cs) && d.timestamp.Some? && d.timestamp.value > r.setAt
    requires forall c :: c in cs ==> c.timestamp.value <= d.timestamp.value
    ensures ApplyAll(r, [d] + cs) == Register(SettingOf(d), d.timestamp.value)
  {
    var all := [d] + cs;
    if cs == [] {
      assert all[..0] == [];
    } else {
      FirstOfNewestStays(r, d, cs[..|cs| - 1]);
      assert all[..|all| - 1] == [d] + cs[..|cs| - 1];
    }
  }

  /** `d` delivered before all the others. */
  lemma First(cs: seq<Change>, d: Change) returns (ys: seq<Change>, rest: seq<Change>)
    requires d in cs
    ensures ys == [d] + rest && multiset(ys) == multiset(cs) && forall c :: c in rest ==> c in cs
  {
    var i :| 0 <= i < |cs| && cs[i] == d;
    rest := cs[..i] + cs[i + 1..];
    ys := [d] + rest;
    assert cs == cs[..i] + [d] + cs[i + 1..];
  }

  predicate EndsTheSame(r: Register, cs: seq<Change>, ys: seq<Change>) {
    multiset(ys) == multiset(cs) ==> ApplyAll(r, ys) == ApplyAll(r, cs)
  }

  lemma SameElements(xs: seq<Change>, ys: seq<Change>)
    requires multiset(xs) == multiset(ys)
    ensures SameChanges(xs, ys)
  {
    assert forall c :: c in xs <==> c in multiset(xs);
    assert forall c :: c in ys <==> c in multiset(ys);
  }

  /** Timed changes in any order end the same if and only if those that compete for the newest place agree. */
  lemma TimedOrderMattersUnlessNewestAgree(r: Register, cs: seq<Change>)
    requires Timed(cs)
    ensures (forall ys :: EndsTheSame(r, cs, ys)) <==> NewestAgree(r, cs)
  {
    if NewestAgree(r, cs) {
      forall ys ensures EndsTheSame(r, cs, ys) {
        if multiset(ys) == multiset(cs) {
          SameElements(cs, ys);
          Converges(r, cs, ys);
        }
      }
    } else {
      var c, d :| c in cs && d in cs && IsNewest(r, cs, c) && IsNewest(r, cs, d) && SettingOf(c) != SettingOf(d);
      var xs, xrest := First(cs, c);
      var ys, yrest := First(cs, d);
      FirstOfNewestStays(r, c, xrest);
      FirstOfNewestStays(r, d, yrest);
      assert ApplyAll(r, xs) != ApplyAll(r, ys);
      assert !EndsTheSame(r, cs, xs) || !EndsTheSame(r, cs, ys);
    }
  }

  // --- Changes without a timestamp ---

  /** The changes without a timestamp all say the same, and no other change is from after the time they set. */
  ghost predicate UntimedAgree(cs: seq<Change>) {
    && (forall c, d :: c in cs && d in cs && c.timestamp.None? && d.timestamp.None? ==> SettingOf(c) == SettingOf(d))
    && (forall c :: c in cs && c.timestamp.Some? ==> c.timestamp.value <= 0)
  }

  lemma {:induction false} UntimedStays(r: Register, cs: seq<Change>, u: Change)
    requires UntimedAgree(cs) && u in cs && u.timestamp.None?
    ensures ApplyAll(r, cs) == Register(SettingOf(u), 0)
  {
    var init, last := cs[..|cs| - 1], cs[|cs| - 1];
    if last.timestamp.Some? {
      assert u in init;
      UntimedStays(r, init, u);
    }
  }

  /** `d` delivered after all the others. */
  lemma Last(cs: seq<Change>, d: Change) returns (ys: seq<Change>, rest: seq<Change>)
    requires d in cs
    ensures ys == rest + [d] && multiset(ys) == multiset(cs) && |rest| < |cs|
    ensures forall c :: c in cs && c != d ==> c in rest
  {
    var i :| 0 <= i < |cs| && cs[i] == d;
    rest := cs[..i] + cs[i + 1..];
    ys := rest + [d];
    assert cs == cs[..i] + [d] + cs[i + 1..];
  }

  lemma LastApplied(r: Register, rest: seq<Change>, d: Change)
    ensures ApplyAll(r, rest + [d]) == Apply(ApplyAll(r, rest), d)
  {
    assert (rest + [d])[..|rest|] == rest;
  }

  /** A timed change can come right after an untimed one, or before it. */
  lemma LateChangeWins(r: Register, cs: seq<Change>, u: Change, t: Change)
    requires u in cs && t in cs && u.timestamp.None? && t.timestamp.Some? && t.timestamp.value > 0
    ensures exists ys :: !EndsTheSame(r, cs, ys)
  {
    var xs, xrest := Last(cs, u);
    var ys, rest := Last(xrest, t);
    var zs := (rest + [u]) + [t];
    LastApplied(r, xrest, u);
    LastApplied(r, rest + [u], t);
    LastApplied(r, rest, u);
    assert multiset(zs) == multiset(ys) + multiset([u]) == multiset(xs);
    assert ApplyAll(r, xs).setAt == 0 && ApplyAll(r, zs).setAt > 0;
    assert !EndsTheSame(r, cs, xs) || !EndsTheSame(r, cs, zs);
  }

  /** With an untimed change among them, orders that end with different changes can end differently. */
  lemma UntimedOrderMatters(r: Register, cs: seq<Change>, u: Change)
    requires u in cs && u.timestamp.None? && !UntimedAgree(cs)
    ensures exists ys :: !EndsTheSame(r, cs, ys)
  {
    if exists c :: c in cs && c.timestamp.Some? && c.timestamp.value > 0 {
      var t :| t in cs && t.timestamp.Some? && t.timestamp.value > 0;
      LateChangeWins(r, cs, u, t);
    } else {
      var c, d :| c in cs && d in cs && c.timestamp.None? && d.timestamp.None? && SettingOf(c) != SettingOf(d);
      var ys, yrest := Last(cs, c);
      var zs, zrest := Last(cs, d);
      LastApplied(r, yrest, c);
      LastApplied(r, zrest, d);
      assert !EndsTheSame(r, cs, ys) || !EndsTheSame(r, cs, zs);
    }
  }

  /** What the changes must satisfy for every delivery order of them to end the same. */
  ghost predicate Convergent(r: Register, cs: seq<Change>) {
    if Timed(cs) then NewestAgree(r, cs) else UntimedAgree(cs)
  }

  /** Convergence, for all changes: the order they come in makes no difference if and only if, when all have
      a timestamp, those competing for the newest place agree, and otherwise those without one agree and none
      is from after time zero. */
  lemma OrderMattersUnlessConvergent(r: Register, cs: seq<Change>)
    ensures (forall ys :: EndsTheSame(r, cs, ys)) <==> Convergent(r, cs)
  {
    if Timed(cs) {
      TimedOrderMattersUnlessNewestAgree(r, cs);
    } else {
      var u :| u in cs && u.timestamp.None?;
      if UntimedAgree(cs) {
        UntimedStays(r, cs, u);
        forall ys ensures EndsTheSame(r, cs, ys) {
          if multiset(ys) == multiset(cs) {
            SameElements(cs, ys);
            UntimedStays(r, ys, u);
          }
        }
      } else {
        UntimedOrderMatters(r, cs, u);
      }
    }
  }

  /** The time of the setting goes back exactly when a change without a timestamp comes after one that had a
      positive one. */
  lemma UntimedGoesBack(r: Register, c: Change)
    ensures Apply(r, c).setAt < r.setAt <==> c.timestamp.None? && r.setAt > 0
  {
  }

  /** A change without a timestamp makes everything before it forgotten, and anything positive after it win. */
  lemma {:induction false} UntimedForgets(r: Register, before: seq<Change>, c: Change, after: seq<Change>)
    requires c.timestamp.None?
    ensures ApplyAll(r, before + [c] + after) == ApplyAll(Register(SettingOf(c), 0), after)
    decreases |after|
  {
    var all := before + [c] + after;
    if after == [] {
      assert all == before + [c] && all[..|all| - 1] == before;
    } else {
      UntimedForgets(r, before, c, after[..|after| - 1]);
      assert all[..|all| - 1] == before + [c] + after[..|after| - 1];
    }
  }

  /** So with one of them the order matters even for two changes. */
  lemma UntimedDiverges(r: Register, a: Change, b: Change)
    requires a.timestamp.Some? && b.timestamp.None? && a.timestamp.value > 0 && a.timestamp.value > r.setAt
    ensures ApplyAll(r, [a, b]) == Register(SettingOf(b), 0)
    ensures ApplyAll(r, [b, a]) == Register(SettingOf(a), a.timestamp.value)
  {
    assert [a, b][..1] == [a] && [b, a][..1] == [b] && [a][..0] == [] && [b][..0] == [];
  }
}
