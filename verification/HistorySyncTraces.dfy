/**
  What a run of the history sync loops (pkg/connector/backfill.go) does with what it is given, told by the
  steps themselves: payloads through the channel, notifications through the queue, wakeups and portal queries.
 */
module HistorySyncTraces {
  import opened HistorySyncLoop

  // --- Payloads ---

  // One conversation of a payload that has been come to, whether or not it could be stored.
  datatype Attempt = Attempt(kind: SyncType, chat: Chat)

  /** The types of payload whose conversations are stored. */
  predicate IsStored(kind: SyncType) {
    kind == InitialBootstrap || kind == OnDemand || kind == Recent || kind == Full
  }

  function Attempts(kind: SyncType, chats: seq<Chat>): seq<Attempt> {
    if !IsStored(kind) || chats == [] then [] else [Attempt(kind, chats[0])] + Attempts(kind, chats[1..])
  }

  function AllAttempts(bs: seq<Batch>): seq<Attempt> {
    if bs == [] then [] else Attempts(bs[0].kind, bs[0].chats) + AllAttempts(bs[1..])
  }

  function PushedBy(step: Step): seq<Batch> {
    if step.Env? && step.e.PushSync? then [step.e.b] else []
  }

  function AttemptedBy(c: Config, s: State, step: Step): seq<Attempt>
    requires Enabled(c, s, step)
  {
    if step.Main? && step.m.StoreChat? then [Attempt(s.main.batch.kind, s.main.batch.chats[s.main.k])] else []
  }

  /** The payloads pushed in a run. */
  function Pushed(steps: seq<Step>): seq<Batch> {
    if steps == [] then [] else PushedBy(steps[0]) + Pushed(steps[1..])
  }

  /** The conversations come to in a run. */
  function Attempted(c: Config, s: State, steps: seq<Step>): seq<Attempt>
    requires IsRun(c, s, steps)
    decreases |steps|
  {
    if steps == [] then [] else AttemptedBy(c, s, steps[0]) + Attempted(c, Apply(c, s, steps[0]), steps[1..])
  }

  /** What is left of the payload in hand. */
  function InHand(main: MainPc): seq<Attempt> {
    match main
    case GotSync(b) => Attempts(b.kind, b.chats)
    case Storing(b, k) => if k <= |b.chats| then Attempts(b.kind, b.chats[k..]) else []
    case _ => []
  }

  /** What is still to come of the payloads received. */
  function Owed(s: State): seq<Attempt> {
    InHand(s.main) + AllAttempts(s.inbox)
  }

  lemma Regroup<T>(a: seq<T>, b: seq<T>, c: seq<T>)
    ensures a + (b + c) == a + b + c
  {
  }

  lemma {:induction false} AllAttemptsConcat(xs: seq<Batch>, ys: seq<Batch>)
    ensures AllAttempts(xs + ys) == AllAttempts(xs) + AllAttempts(ys)
  {
    hide Attempts;
    if xs == [] {
      assert xs + ys == ys;
    } else {
      AllAttemptsConcat(xs[1..], ys);
      assert (xs + ys)[0] == xs[0] && (xs + ys)[1..] == xs[1..] + ys;
      Regroup(Attempts(xs[0].kind, xs[0].chats), AllAttempts(xs[1..]), AllAttempts(ys));
    }
  }

  lemma FirstAttempt(kind: SyncType, chats: seq<Chat>, k: nat)
    requires k < |chats| && IsStored(kind)
    ensures Attempts(kind, chats[k..]) == [Attempt(kind, chats[k])] + Attempts(kind, chats[k + 1..])
  {
    assert chats[k..][1..] == chats[k + 1..];
  }

  lemma NoAttempts(kind: SyncType, chats: seq<Chat>, k: nat)
    requires k >= |chats| || !IsStored(kind)
    ensures k <= |chats| ==> Attempts(kind, chats[k..]) == []
  {
  }

  lemma FirstBatch(bs: seq<Batch>)
    requires bs != []
    ensures AllAttempts(bs) == Attempts(bs[0].kind, bs[0].chats) + AllAttempts(bs[1..])
  {
  }

  /** One step of the main loop with the payload in hand. */
  lemma HandOwes(c: Config, s: State, m: MainStep)
    requires MainEnabled(c, s, m) && !m.ReceiveSync?
    ensures AttemptedBy(c, s, Main(m)) + InHand(MainApply(c, s, m).main) == InHand(s.main)
    ensures MainApply(c, s, m).inbox == s.inbox
  {
    hide Attempts, AllAttempts;
    match m
    case StopForSync =>
      assert s.main.batch.chats[0..] == s.main.batch.chats;
    case StoreChat(_) => FirstAttempt(s.main.batch.kind, s.main.batch.chats, s.main.k);
    case FinishStoring => NoAttempts(s.main.batch.kind, s.main.batch.chats, s.main.k);
    case _ =>
  }

  lemma MainOwes(c: Config, s: State, m: MainStep)
    requires MainEnabled(c, s, m)
    ensures AttemptedBy(c, s, Main(m)) + InHand(MainApply(c, s, m).main) + AllAttempts(MainApply(c, s, m).inbox)
         == InHand(s.main) + AllAttempts(s.inbox)
  {
    hide Attempts, AllAttempts;
    if m.ReceiveSync? {
      FirstBatch(s.inbox);
    } else {
      hide InHand, MainApply, AttemptedBy;
      HandOwes(c, s, m);
    }
  }

  lemma EnvOwes(c: Config, s: State, e: EnvStep)
    requires EnvEnabled(c, s, e)
    ensures Owed(EnvApply(c, s, e)) == Owed(s) + AllAttempts(PushedBy(Env(e)))
  {
    hide Attempts, InHand;
    if e.PushSync? {
      AllAttemptsConcat(s.inbox, [e.b]);
      Regroup(InHand(s.main), AllAttempts(s.inbox), AllAttempts([e.b]));
    } else {
      var t := EnvApply(c, s, e);
      assert t.main == s.main && t.inbox == s.inbox;
    }
  }

  lemma CreatorOwes(s: State, k: CreatorStep)
    requires CreatorEnabled(s, k)
    ensures Owed(CreatorApply(s, k)) == Owed(s)
  {
    hide InHand, AllAttempts;
  }

  lemma StepOwes(c: Config, s: State, step: Step)
    requires Enabled(c, s, step)
    ensures AttemptedBy(c, s, step) + Owed(Apply(c, s, step)) == Owed(s) + AllAttempts(PushedBy(step))
  {
    hide MainApply, CreatorApply, EnvApply, InHand;
    match step
    case Main(m) =>
      MainOwes(c, s, m);
      Regroup(AttemptedBy(c, s, step), InHand(MainApply(c, s, m).main), AllAttempts(MainApply(c, s, m).inbox));
    case Creator(k) => CreatorOwes(s, k);
    case Env(e) => EnvOwes(c, s, e);
  }

  lemma Rearrange<T>(a: seq<T>, b: seq<T>, c: seq<T>, owed0: seq<T>, owed1: seq<T>, p: seq<T>, q: seq<T>)
    requires a + owed1 == owed0 + p && b + c == owed1 + q
    ensures a + b + c == owed0 + (p + q)
  {
    assert a + b + c == a + (b + c) == a + owed1 + q;
  }

  /** In every run, what was come to and then what is still to come is what was to come at the start and then
      what was pushed: every conversation of every payload of a stored type once, in order, and no other. */
  lemma {:induction false} NothingReceivedIsLost(c: Config, s: State, steps: seq<Step>)
    requires IsRun(c, s, steps)
    ensures Attempted(c, s, steps) + Owed(Final(c, s, steps)) == Owed(s) + AllAttempts(Pushed(steps))
    decreases |steps|
  {
    hide Apply, Enabled, Owed, AttemptedBy, PushedBy;
    if steps != [] {
      var step, rest := steps[0], steps[1..];
      var t := Apply(c, s, step);
      StepOwes(c, s, step);
      NothingReceivedIsLost(c, t, rest);
      AllAttemptsConcat(PushedBy(step), Pushed(rest));
      Rearrange(AttemptedBy(c, s, step), Attempted(c, t, rest), Owed(Final(c, s, steps)), Owed(s), Owed(t),
                AllAttempts(PushedBy(step)), AllAttempts(Pushed(rest)));
    }
  }

  /** When all has gone quiet, every conversation of every payload pushed has been come to. */
  lemma QuietMeansAttempted(c: Config, s: State, steps: seq<Step>)
    requires Init(c, s) && IsRun(c, s, steps) && Quiet(Final(c, s, steps))
    ensures Attempted(c, s, steps) == AllAttempts(Pushed(steps))
  {
    NothingReceivedIsLost(c, s, steps);
    var none: seq<Attempt> := [];
    assert Owed(s) == none && Owed(Final(c, s, steps)) == none;
    assert Attempted(c, s, steps) + none == Attempted(c, s, steps);
    assert none + AllAttempts(Pushed(steps)) == AllAttempts(Pushed(steps));
  }

  // --- What the portal queries have not seen ---

  /** The conversations that a step stores for a later portal query. */
  function StoredBy(c: Config, s: State, step: Step): set<Chat>
    requires Enabled(c, s, step)
  {
    match step
    case Main(StoreChat(true)) =>
      if s.main.batch.kind in {Recent, Full} then {s.main.batch.chats[s.main.k]} else {}
    case Main(Commit(b)) => if b.kind in {Recent, Full} then set x | x in b.chats else {}
    case _ => {}
  }

  /** What has been stored after the last portal query of a run began. */
  function StoredSinceQuery(c: Config, s: State, steps: seq<Step>, before: set<Chat>): set<Chat>
    requires IsRun(c, s, steps)
    decreases |steps|
  {
    if steps == [] then before
    else
      var now := if steps[0] == Creator(QueryPortals) then {} else before + StoredBy(c, s, steps[0]);
      StoredSinceQuery(c, Apply(c, s, steps[0]), steps[1..], now)
  }

  lemma MainUnqueried(c: Config, s: State, m: MainStep)
    requires MainEnabled(c, s, m)
    ensures MainApply(c, s, m).unqueried == s.unqueried + StoredBy(c, s, Main(m))
  {
    if !m.StoreChat? && !m.Commit? {
      assert MainApply(c, s, m).unqueried == s.unqueried;
    }
  }

  lemma StepUnqueried(c: Config, s: State, step: Step)
    requires Enabled(c, s, step)
    ensures Apply(c, s, step).unqueried
         == if step == Creator(QueryPortals) then {} else s.unqueried + StoredBy(c, s, step)
  {
    hide MainApply;
    match step
    case Main(m) => MainUnqueried(c, s, m);
    case Creator(k) => assert CreatorApply(s, k).unqueried == if k.QueryPortals? then {} else s.unqueried;
    case Env(e) => assert EnvApply(c, s, e).unqueried == s.unqueried;
  }

  /** The results about lost dispatches speak of just these conversations. */
  lemma {:induction false} UnqueriedIsStoredSinceQuery(c: Config, s: State, steps: seq<Step>)
    requires IsRun(c, s, steps)
    ensures Final(c, s, steps).unqueried == StoredSinceQuery(c, s, steps, s.unqueried)
    decreases |steps|
  {
    hide Apply, Enabled, StoredBy;
    if steps != [] {
      StepUnqueried(c, s, steps[0]);
      UnqueriedIsStoredSinceQuery(c, Apply(c, s, steps[0]), steps[1..]);
    }
  }

  // --- Notifications ---

  function PutBy(step: Step): set<Notif> {
    if step.Env? && step.e.PutNotif? then {step.e.n} else {}
  }

  function Put(steps: seq<Step>): set<Notif> {
    if steps == [] then {} else PutBy(steps[0]) + Put(steps[1..])
  }

  function CommittedBy(c: Config, s: State, step: Step): set<Notif>
    requires Enabled(c, s, step)
  {
    if step.Main? && step.m.Commit? then {s.main.notif} else {}
  }

  function Committed(c: Config, s: State, steps: seq<Step>): set<Notif>
    requires IsRun(c, s, steps)
    decreases |steps|
  {
    if steps == [] then {} else CommittedBy(c, s, steps[0]) + Committed(c, Apply(c, s, steps[0]), steps[1..])
  }

  lemma MainNotifs(c: Config, s: State, m: MainStep)
    requires MainEnabled(c, s, m)
    ensures MainApply(c, s, m).accepted == s.accepted
    ensures MainApply(c, s, m).delivered == s.delivered + CommittedBy(c, s, Main(m))
  {
    if !m.Commit? {
      assert MainApply(c, s, m).delivered == s.delivered;
    }
  }

  lemma EnvNotifs(c: Config, s: State, e: EnvStep)
    requires EnvEnabled(c, s, e)
    ensures EnvApply(c, s, e).accepted == s.accepted + PutBy(Env(e)) && EnvApply(c, s, e).delivered == s.delivered
  {
  }

  lemma StepNotifs(c: Config, s: State, step: Step)
    requires Enabled(c, s, step)
    ensures Apply(c, s, step).accepted == s.accepted + PutBy(step)
    ensures Apply(c, s, step).delivered == s.delivered + CommittedBy(c, s, step)
  {
    hide MainApply, EnvApply;
    match step
    case Main(m) => MainNotifs(c, s, m);
    case Creator(k) =>
    case Env(e) => EnvNotifs(c, s, e);
  }

  lemma {:induction false} NotifsAreTraced(c: Config, s: State, steps: seq<Step>)
    requires IsRun(c, s, steps)
    ensures Final(c, s, steps).accepted == s.accepted + Put(steps)
    ensures Final(c, s, steps).delivered == s.delivered + Committed(c, s, steps)
    decreases |steps|
  {
    hide Apply, Enabled, PutBy, CommittedBy;
    if steps != [] {
      StepNotifs(c, s, steps[0]);
      NotifsAreTraced(c, Apply(c, s, steps[0]), steps[1..]);
    }
  }

  /** What is in the queue after a run is exactly what was in it, or was put, and was not committed. */
  lemma QueueIsPutNotCommitted(c: Config, s: State, steps: seq<Step>)
    requires Init(c, s) && IsRun(c, s, steps)
    ensures Final(c, s, steps).table.Values == (s.accepted + Put(steps)) - Committed(c, s, steps)
  {
    EveryRunIsSafe(c, s, steps);
    NotifsAreTraced(c, s, steps);
    var t := Final(c, s, steps);
    forall n ensures n in t.table.Values <==> n in t.accepted && n !in t.delivered {}
  }

  // --- The timer ---

  /** The main loop is at work between stopping the timer and deciding whether to start it again. */
  predicate AtWork(main: MainPc) {
    || main.Storing? || main.Fetching? || main.Downloading? || main.Rewaking? || main.Returning?
    || main.CheckingPending? || main.Rearming?
  }

  predicate TimerRests(s: State) {
    AtWork(s.main) ==> s.timer == Stopped
  }

  lemma MainTimerRests(c: Config, s: State, m: MainStep)
    requires TimerRests(s) && MainEnabled(c, s, m)
    ensures TimerRests(MainApply(c, s, m))
  {
  }

  lemma StepTimerRests(c: Config, s: State, step: Step)
    requires TimerRests(s) && Enabled(c, s, step)
    ensures TimerRests(Apply(c, s, step))
  {
    hide MainApply;
    match step
    case Main(m) => MainTimerRests(c, s, m);
    case Creator(k) => assert CreatorApply(s, k).main == s.main;
    case Env(e) => assert EnvApply(c, s, e).main == s.main;
  }

  lemma TimerRestsMeans(c: Config, s: State)
    requires TimerRests(s)
    ensures AtWork(s.main) ==> !Enabled(c, s, Creator(TakeTick))
  {
  }

  /** While history is stored the timer does not run, so no round of portals begins in the middle of it. */
  lemma {:induction false} NoQueryWhileStoring(c: Config, s: State, steps: seq<Step>)
    requires TimerRests(s) && IsRun(c, s, steps)
    ensures TimerRests(Final(c, s, steps))
    ensures AtWork(Final(c, s, steps).main) ==> !Enabled(c, Final(c, s, steps), Creator(TakeTick))
    decreases |steps|
  {
    hide Apply, TimerRests;
    if steps != [] {
      StepTimerRests(c, s, steps[0]);
      NoQueryWhileStoring(c, Apply(c, s, steps[0]), steps[1..]);
    } else {
      assert TimerRests(s);
      TimerRestsMeans(c, s);
    }
  }

  // --- Every round of portals is asked for ---

  /** A step that asks for a round: the start with the flag up, and a RECENT or FULL payload. */
  function AskedBy(c: Config, s: State, step: Step): nat
    requires Enabled(c, s, step)
  {
    match step
    case Main(ConfigureTimer) => if c.resume then 1 else 0
    case Main(FinishStoring) => if s.main.batch.kind in {Recent, Full} then 1 else 0
    case Main(Commit(b)) => if b.kind in {Recent, Full} then 1 else 0
    case Main(DeleteFails(b)) => if b.kind in {Recent, Full} then 1 else 0
    case _ => 0
  }

  function Asked(c: Config, s: State, steps: seq<Step>): nat
    requires IsRun(c, s, steps)
    decreases |steps|
  {
    if steps == [] then 0 else AskedBy(c, s, steps[0]) + Asked(c, Apply(c, s, steps[0]), steps[1..])
  }

  function Rounds(steps: seq<Step>): nat {
    if steps == [] then 0 else (if steps[0] == Creator(TakeTick) then 1 else 0) + Rounds(steps[1..])
  }

  /** How many rounds can follow without being asked for again: a flag that is still up can start the timer
      again while the creator, which has the tick, has not yet taken it down. */
  function Due(s: State): nat {
    if s.main.Starting? then 0
    else
      (if (s.main.Rewaking? || s.main.Returning?) && s.main.reset then 2 else 0)
      + (if s.timerPending then if s.creator.Took? then 1 else 2
         else if TimerActive(s) || s.main.Rearming? then 1 else 0)
  }

  predicate NotYetStarted(s: State) {
    && (s.main.Starting? || s.main.Configured? ==> s.creator.NotStarted?)
    && (s.main.Starting? ==> !s.timerPending) && TimerRests(s)
  }

  lemma MainDue(c: Config, s: State, m: MainStep)
    requires NotYetStarted(s) && MainEnabled(c, s, m)
    ensures Due(MainApply(c, s, m)) <= Due(s) + 2 * AskedBy(c, s, Main(m))
  {
  }

  lemma MainStaysStarted(c: Config, s: State, m: MainStep)
    requires NotYetStarted(s) && MainEnabled(c, s, m)
    ensures NotYetStarted(MainApply(c, s, m))
  {
    hide TimerRests;
    MainTimerRests(c, s, m);
  }

  lemma CreatorDue(s: State, k: CreatorStep)
    requires NotYetStarted(s) && CreatorEnabled(s, k)
    ensures NotYetStarted(CreatorApply(s, k))
    ensures (if k == TakeTick then 1 else 0) + Due(CreatorApply(s, k)) <= Due(s)
  {
  }

  lemma EnvDue(c: Config, s: State, e: EnvStep)
    requires NotYetStarted(s) && EnvEnabled(c, s, e)
    ensures NotYetStarted(EnvApply(c, s, e)) && Due(EnvApply(c, s, e)) <= Due(s)
  {
  }

  lemma StepDue(c: Config, s: State, step: Step)
    requires NotYetStarted(s) && Enabled(c, s, step)
    ensures NotYetStarted(Apply(c, s, step))
    ensures (if step == Creator(TakeTick) then 1 else 0) + Due(Apply(c, s, step)) <= Due(s) + 2 * AskedBy(c, s, step)
  {
    hide MainApply, CreatorApply, EnvApply, Due, NotYetStarted;
    match step
    case Main(m) =>
      MainDue(c, s, m);
      MainStaysStarted(c, s, m);
    case Creator(k) => CreatorDue(s, k);
    case Env(e) => EnvDue(c, s, e);
  }

  lemma {:induction false} RoundsFromHere(c: Config, s: State, steps: seq<Step>)
    requires NotYetStarted(s) && IsRun(c, s, steps)
    ensures Rounds(steps) + Due(Final(c, s, steps)) <= Due(s) + 2 * Asked(c, s, steps)
    decreases |steps|
  {
    hide Apply, Enabled, Due, AskedBy, NotYetStarted;
    if steps != [] {
      StepDue(c, s, steps[0]);
      RoundsFromHere(c, Apply(c, s, steps[0]), steps[1..]);
    }
  }

  /** Every round of portals goes back to a payload that asked for one, and each payload accounts for at most two. */
  lemma RoundsAreAskedFor(c: Config, s: State, steps: seq<Step>)
    requires Init(c, s) && IsRun(c, s, steps)
    ensures Rounds(steps) <= 2 * Asked(c, s, steps)
  {
    RoundsFromHere(c, s, steps);
  }

  // --- ... and what is asked for follows ---

  /** Whether a round has been asked for since the last portal query began. */
  function AskedSinceQuery(c: Config, s: State, steps: seq<Step>, before: bool): bool
    requires IsRun(c, s, steps)
    decreases |steps|
  {
    if steps == [] then before
    else
      var now := steps[0] != Creator(QueryPortals) && (before || AskedBy(c, s, steps[0]) > 0);
      AskedSinceQuery(c, Apply(c, s, steps[0]), steps[1..], now)
  }

  /** A round that was asked for is on its way. */
  predicate NoLostAsk(c: Config, s: State, asked: bool) {
    asked && s.creator != CreatorStopped ==>
      || s.creator.Took? || s.creator.Querying?
      || WillSetPending(c, s.main)
      || (s.timerPending && (AtRest(s.main) ==> TimerActive(s)))
  }

  lemma MainKeepsAsk(c: Config, s: State, m: MainStep, asked: bool)
    requires NoLostAsk(c, s, asked) && FlagMeansTimer(s) && StartedTogether(s) && MainEnabled(c, s, m)
    ensures NoLostAsk(c, MainApply(c, s, m), asked || AskedBy(c, s, Main(m)) > 0)
  {
  }

  lemma CreatorKeepsAsk(c: Config, s: State, k: CreatorStep, asked: bool)
    requires NoLostAsk(c, s, asked) && CreatorEnabled(s, k)
    ensures NoLostAsk(c, CreatorApply(s, k), asked && k != QueryPortals)
  {
  }

  lemma EnvKeepsAsk(c: Config, s: State, e: EnvStep, asked: bool)
    requires NoLostAsk(c, s, asked) && EnvEnabled(c, s, e)
    ensures NoLostAsk(c, EnvApply(c, s, e), asked)
  {
    var t := EnvApply(c, s, e);
    assert t.main == s.main && t.creator == s.creator && t.timerPending == s.timerPending;
  }

  lemma StepKeepsAsk(c: Config, s: State, step: Step, asked: bool)
    requires NoLostAsk(c, s, asked) && FlagMeansTimer(s) && StartedTogether(s) && Enabled(c, s, step)
    ensures NoLostAsk(c, Apply(c, s, step), step != Creator(QueryPortals) && (asked || AskedBy(c, s, step) > 0))
  {
    hide MainApply, CreatorApply, EnvApply, NoLostAsk, FlagMeansTimer, StartedTogether;
    match step
    case Main(m) => MainKeepsAsk(c, s, m, asked);
    case Creator(k) => CreatorKeepsAsk(c, s, k, asked);
    case Env(e) => EnvKeepsAsk(c, s, e, asked);
  }

  lemma {:induction false} AsksFromHere(c: Config, s: State, steps: seq<Step>, asked: bool)
    requires Invariant(c, s) && NoLostAsk(c, s, asked) && IsRun(c, s, steps)
    ensures NoLostAsk(c, Final(c, s, steps), AskedSinceQuery(c, s, steps, asked))
    decreases |steps|
  {
    hide Apply, Enabled, AskedBy, NoLostAsk;
    hide NoLostDispatch, FlagMeansTimer, NoLostWakeup, Accounted, HeldRowExists, StartedTogether;
    if steps != [] {
      StepKeepsInvariant(c, s, steps[0]);
      StepKeepsAsk(c, s, steps[0], asked);
      var now := steps[0] != Creator(QueryPortals) && (asked || AskedBy(c, s, steps[0]) > 0);
      AsksFromHere(c, Apply(c, s, steps[0]), steps[1..], now);
    }
  }

  /** When all has gone quiet, a portal query has begun after the last payload that asked for one, even if that
      payload was rolled back because the notification could not be deleted. */
  lemma QuietMeansAnswered(c: Config, s: State, steps: seq<Step>)
    requires Init(c, s) && IsRun(c, s, steps) && Quiet(Final(c, s, steps))
    ensures !AskedSinceQuery(c, s, steps, false)
  {
    hide IsRun, Final, AskedSinceQuery;
    AsksFromHere(c, s, steps, false);
    RunKeepsInvariant(c, s, steps);
  }

  // --- Wakeups ---

  function WokenBy(step: Step): nat {
    if step == Main(ReceiveWakeup) then 1 else 0
  }

  function SentBy(c: Config, step: Step): nat {
    if step == Main(Rewake) || step == Env(SendWakeup) || (step == Main(StartupWake) && c.manual) then 1 else 0
  }

  function Woken(steps: seq<Step>): nat {
    if steps == [] then 0 else WokenBy(steps[0]) + Woken(steps[1..])
  }

  function Sent(c: Config, steps: seq<Step>): nat {
    if steps == [] then 0 else SentBy(c, steps[0]) + Sent(c, steps[1..])
  }

  lemma MainWakes(c: Config, s: State, m: MainStep)
    requires MainEnabled(c, s, m)
    ensures WokenBy(Main(m)) + (if MainApply(c, s, m).token then 1 else 0)
         <= (if s.token then 1 else 0) + SentBy(c, Main(m))
  {
  }

  lemma StepWakes(c: Config, s: State, step: Step)
    requires Enabled(c, s, step)
    ensures WokenBy(step) + (if Apply(c, s, step).token then 1 else 0) <= (if s.token then 1 else 0) + SentBy(c, step)
  {
    hide MainApply;
    match step
    case Main(m) => MainWakes(c, s, m);
    case Creator(k) => assert CreatorApply(s, k).token == s.token;
    case Env(e) => assert e != SendWakeup ==> EnvApply(c, s, e).token == s.token;
  }

  /** The main loop looks at the queue at most as often as it has been woken. */
  lemma {:induction false} WakeupsAreSent(c: Config, s: State, steps: seq<Step>)
    requires IsRun(c, s, steps)
    ensures Woken(steps) + (if Final(c, s, steps).token then 1 else 0) <= (if s.token then 1 else 0) + Sent(c, steps)
    decreases |steps|
  {
    hide Apply, Enabled, WokenBy, SentBy;
    if steps != [] {
      StepWakes(c, s, steps[0]);
      WakeupsAreSent(c, Apply(c, s, steps[0]), steps[1..]);
    }
  }

  /** Whether GetNext has failed since the channel was last sent on. */
  function FailedSinceSent(c: Config, steps: seq<Step>, before: bool): bool {
    if steps == [] then before
    else
      var now := steps[0] == Main(GetNextFails) || (before && SentBy(c, steps[0]) == 0);
      FailedSinceSent(c, steps[1..], now)
  }

  lemma MainStalls(c: Config, s: State, m: MainStep)
    requires MainEnabled(c, s, m)
    ensures MainApply(c, s, m).stalled <==> m == GetNextFails || (s.stalled && SentBy(c, Main(m)) == 0)
  {
  }

  lemma StepStalls(c: Config, s: State, step: Step)
    requires Enabled(c, s, step)
    ensures Apply(c, s, step).stalled <==> step == Main(GetNextFails) || (s.stalled && SentBy(c, step) == 0)
  {
    hide MainApply;
    match step
    case Main(m) => MainStalls(c, s, m);
    case Creator(k) => assert CreatorApply(s, k).stalled == s.stalled;
    case Env(e) => assert e != SendWakeup ==> EnvApply(c, s, e).stalled == s.stalled;
  }

  /** The exception to the results about lost wakeups is just this. */
  lemma {:induction false} StalledIsFailedSinceSent(c: Config, s: State, steps: seq<Step>)
    requires IsRun(c, s, steps)
    ensures Final(c, s, steps).stalled == FailedSinceSent(c, steps, s.stalled)
    decreases |steps|
  {
    hide Apply, Enabled, SentBy;
    if steps != [] {
      StepStalls(c, s, steps[0]);
      StalledIsFailedSinceSent(c, Apply(c, s, steps[0]), steps[1..]);
    }
  }
}
