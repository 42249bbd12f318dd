/**
  That the history sync loops (pkg/connector/backfill.go) get on: how many moves any run can make for what it is
  given, and that it can only come to rest where nothing is left to do.
 */
module HistorySyncProgress {
  import opened HistorySyncLoop
  import opened HistorySyncTraces

  /** The moves of the loops, of the timer, and of producers that owe a wakeup; what is given from outside is not. */
  predicate IsMove(step: Step) {
    !(step.Env? && (step.e.PushSync? || step.e.PutNotif? || step.e.Cancel?))
  }

  /** A failure that keeps the notification in the queue and has the main loop try again at once. */
  predicate IsRetry(step: Step) {
    step.Main? && (step.m.DownloadFails? || step.m.StoreFails? || step.m.DeleteFails?)
  }

  /** A call of the loops that returns an error. */
  predicate IsError(step: Step) {
    IsRetry(step) || (step.Main? && (step.m.GetNextFails? || step.m == StoreChat(false)))
  }

  // --- Every run gets to an end ---

  function Moves(steps: seq<Step>): nat {
    if steps == [] then 0 else (if IsMove(steps[0]) then 1 else 0) + Moves(steps[1..])
  }

  /** How many moves a step can bring about: a payload, a notification, a failure. */
  function GivenBy(step: Step): nat {
    match step
    case Env(PushSync(b)) => 15 + |b.chats|
    case Env(PutNotif(_, _)) => 26
    case _ => if IsRetry(step) then 17 else 0
  }

  function Given(steps: seq<Step>): nat {
    if steps == [] then 0 else GivenBy(steps[0]) + Given(steps[1..])
  }

  function MainLeft(main: MainPc): nat {
    match main
    case Starting => 20
    case Configured => 10
    case Selecting => 1
    case GotSync(b) => 15 + |b.chats|
    case Storing(b, k) => 14 + if k < |b.chats| then |b.chats| - k else 0
    case GotWakeup => 8
    case Fetching => 7
    case Downloading(_, _) => 6
    case Rewaking(_) => 14
    case Returning(_) => 5
    case CheckingPending => 4
    case Rearming => 3
    case MainStopped => 0
  }

  function CreatorLeft(creator: CreatorPc): nat {
    match creator
    case NotStarted => 1
    case Idle => 1
    case Took => 4
    case Querying => 3
    case Creating => 2
    case CreatorStopped => 0
  }

  function InboxLeft(inbox: seq<Batch>): nat {
    if inbox == [] then 0 else 15 + |inbox[0].chats| + InboxLeft(inbox[1..])
  }

  function LoopsLeft(s: State): nat {
    MainLeft(s.main) + CreatorLeft(s.creator) + (if s.token then 8 else 0) + (if s.timer.Armed? then 1 else 0)
  }

  /** The moves that are left besides those of the rounds of portals that are due. */
  function OtherLeft(s: State): nat {
    LoopsLeft(s) + InboxLeft(s.inbox) + 17 * |s.table| + 9 * s.putting
  }

  function Left(s: State): nat {
    OtherLeft(s) + 4 * Due(s)
  }

  lemma {:induction false} InboxLeftPush(inbox: seq<Batch>, b: Batch)
    ensures InboxLeft(inbox + [b]) == InboxLeft(inbox) + 15 + |b.chats|
  {
    if inbox == [] {
      assert inbox + [b] == [b];
    } else {
      InboxLeftPush(inbox[1..], b);
      assert (inbox + [b])[1..] == inbox[1..] + [b];
    }
  }

  lemma InboxLeftReceive(inbox: seq<Batch>)
    requires inbox != []
    ensures InboxLeft(inbox) == 15 + |inbox[0].chats| + InboxLeft(inbox[1..])
  {
  }

  /** What is received leaves the channel, and what is committed leaves the queue. */
  lemma MainTakes(c: Config, s: State, m: MainStep)
    requires HeldRowExists(s) && MainEnabled(c, s, m)
    ensures var t := MainApply(c, s, m);
            && t.putting == s.putting
            && t.inbox == (if m == ReceiveSync then s.inbox[1..] else s.inbox)
            && |t.table| == |s.table| - if m.Commit? then 1 else 0
  {
    if m.Commit? {
      assert |s.table - {s.main.row}| == |s.table| - 1;
    }
  }

  lemma MainLoopMoves(c: Config, s: State, m: MainStep)
    requires NotYetStarted(s) && MainEnabled(c, s, m)
    ensures 1 + LoopsLeft(MainApply(c, s, m)) + 8 * AskedBy(c, s, Main(m))
         <= LoopsLeft(s) + GivenBy(Main(m)) + (if m.Commit? then 17 else 0)
            + if m == ReceiveSync then 15 + |s.inbox[0].chats| else 0
  {
    hide TimerRests;
  }

  lemma MainMoves(c: Config, s: State, m: MainStep)
    requires HeldRowExists(s) && NotYetStarted(s) && MainEnabled(c, s, m)
    ensures 1 + OtherLeft(MainApply(c, s, m)) + 8 * AskedBy(c, s, Main(m)) <= OtherLeft(s) + GivenBy(Main(m))
  {
    hide MainApply, InboxLeft, LoopsLeft, NotYetStarted, HeldRowExists, AskedBy, GivenBy;
    MainTakes(c, s, m);
    MainLoopMoves(c, s, m);
    if m == ReceiveSync {
      InboxLeftReceive(s.inbox);
    }
  }

  lemma CreatorMoves(s: State, k: CreatorStep)
    requires CreatorEnabled(s, k)
    ensures 1 + OtherLeft(CreatorApply(s, k)) <= OtherLeft(s) + if k == TakeTick then 4 else 0
  {
  }

  lemma EnvMoves(c: Config, s: State, e: EnvStep)
    requires EnvEnabled(c, s, e)
    ensures (if IsMove(Env(e)) then 1 else 0) + OtherLeft(EnvApply(c, s, e)) <= OtherLeft(s) + GivenBy(Env(e))
  {
    if e.PushSync? {
      InboxLeftPush(s.inbox, e.b);
    } else if e.PutNotif? {
      assert |s.table[e.row := e.n]| == |s.table| + 1;
    }
  }

  lemma StepMoves(c: Config, s: State, step: Step)
    requires HeldRowExists(s) && NotYetStarted(s) && Enabled(c, s, step)
    ensures (if IsMove(step) then 1 else 0) + Left(Apply(c, s, step)) <= Left(s) + GivenBy(step)
  {
    hide MainApply, CreatorApply, EnvApply, OtherLeft, Due, NotYetStarted, HeldRowExists, AskedBy;
    StepDue(c, s, step);
    match step
    case Main(m) =>
      MainMoves(c, s, m);
      MainDue(c, s, m);
    case Creator(k) =>
      CreatorMoves(s, k);
      CreatorDue(s, k);
    case Env(e) =>
      EnvMoves(c, s, e);
      EnvDue(c, s, e);
  }

  lemma {:induction false} MovesFromHere(c: Config, s: State, steps: seq<Step>)
    requires Invariant(c, s) && NotYetStarted(s) && IsRun(c, s, steps)
    ensures Moves(steps) + Left(Final(c, s, steps)) <= Left(s) + Given(steps)
    decreases |steps|
  {
    hide Apply, Enabled, Left, GivenBy, NotYetStarted, IsMove, NoLostDispatch, FlagMeansTimer, NoLostWakeup, Accounted;
    if steps != [] {
      StepMoves(c, s, steps[0]);
      StepDue(c, s, steps[0]);
      StepKeepsInvariant(c, s, steps[0]);
      MovesFromHere(c, Apply(c, s, steps[0]), steps[1..]);
    }
  }

  /** Whatever the order of events, a run makes only so many moves for the notifications it finds, the payloads
      and notifications it is given and the failures it meets. So it goes on for ever only on failures or on
      what comes from outside. */
  lemma MovesAreBounded(c: Config, s: State, steps: seq<Step>)
    requires Init(c, s) && IsRun(c, s, steps)
    ensures Moves(steps) <= 30 + 17 * |s.table| + Given(steps)
  {
    MovesFromHere(c, s, steps);
  }

  // --- Where a run can rest ---

  /** No move is possible that does not fail. */
  ghost predicate Rests(c: Config, s: State) {
    forall step :: IsMove(step) && !IsError(step) ==> !Enabled(c, s, step)
  }

  /** The loops end only when they are cancelled. */
  predicate StopsOnCancel(s: State) {
    s.main.MainStopped? || s.creator.CreatorStopped? ==> s.cancelled
  }

  lemma MainStopsOnCancel(c: Config, s: State, m: MainStep)
    requires StopsOnCancel(s) && MainEnabled(c, s, m)
    ensures StopsOnCancel(MainApply(c, s, m)) && MainApply(c, s, m).cancelled == s.cancelled
  {
  }

  lemma StepStopsOnCancel(c: Config, s: State, step: Step)
    requires StopsOnCancel(s) && Enabled(c, s, step)
    ensures StopsOnCancel(Apply(c, s, step))
    ensures Apply(c, s, step).cancelled <==> s.cancelled || step == Env(Cancel)
  {
    hide MainApply;
    match step
    case Main(m) => MainStopsOnCancel(c, s, m);
    case Creator(k) => assert CreatorApply(s, k).main == s.main;
    case Env(e) => assert EnvApply(c, s, e).main == s.main;
  }

  lemma {:induction false} OnlyCancelStops(c: Config, s: State, steps: seq<Step>)
    requires StopsOnCancel(s) && IsRun(c, s, steps)
    ensures StopsOnCancel(Final(c, s, steps))
    ensures Final(c, s, steps).cancelled <==> s.cancelled || Env(Cancel) in steps
    decreases |steps|
  {
    hide Apply, Enabled, StopsOnCancel;
    if steps != [] {
      StepStopsOnCancel(c, s, steps[0]);
      OnlyCancelStops(c, Apply(c, s, steps[0]), steps[1..]);
    }
  }

  /** Where the main loop is, unless it can make a move. */
  lemma MainRests(c: Config, s: State)
    requires Rests(c, s)
    ensures s.main.MainStopped? || (s.main.Selecting? && s.inbox == [] && !s.token && !s.cancelled)
  {
    var m :=
      match s.main
      case Starting => ConfigureTimer
      case Configured => StartupWake
      case Selecting => if s.cancelled then StopMain else if s.token then ReceiveWakeup else ReceiveSync
      case GotSync(_) => StopForSync
      case Storing(b, k) => if !Ignored(b.kind) && k < |b.chats| then StoreChat(true) else FinishStoring
      case GotWakeup => StopForWakeup
      case Fetching => if s.table == map[] then GetNextEmpty else var r :| r in s.table; GetNextRow(r)
      case Downloading(_, _) => Commit(Batch(Absent, []))
      case Rewaking(_) => Rewake
      case Returning(_) => SetPending
      case CheckingPending => LoadPending
      case Rearming => Rearm
      case MainStopped => StopMain;
    assert !Enabled(c, s, Main(m));
  }

  lemma CreatorRests(c: Config, s: State)
    requires Rests(c, s)
    ensures s.creator.NotStarted? || s.creator.CreatorStopped? ||
            (s.creator.Idle? && !s.timer.Expired? && !s.cancelled)
  {
    var k :=
      match s.creator
      case Took => ClearPending
      case Querying => QueryPortals
      case Creating => FinishCreating
      case _ => if s.cancelled then StopCreator else TakeTick;
    assert !Enabled(c, s, Creator(k));
  }

  lemma EnvRests(c: Config, s: State)
    requires Rests(c, s)
    ensures s.putting == 0 && !s.timer.Armed?
  {
    assert !Enabled(c, s, Env(Expire)) && !Enabled(c, s, Env(SendWakeup));
  }

  /** Until it is cancelled a run can rest exactly where nothing is left to do: no payload, no wakeup, none owed, and
      no timer. Once cancelled, exactly where both loops have ended and nothing is due. No other state stops one. */
  lemma RestIsQuiet(c: Config, s: State, steps: seq<Step>)
    requires Init(c, s) && IsRun(c, s, steps)
    ensures var t := Final(c, s, steps);
            && (Env(Cancel) !in steps ==> (Rests(c, t) <==> Quiet(t)))
            && (Env(Cancel) in steps ==> (Rests(c, t) <==>
                  t.main == MainStopped && t.creator == CreatorStopped && t.putting == 0 && t.timer != Armed))
            && Enabled(c, t, Env(Cancel))
  {
    hide IsRun, Final;
    var t := Final(c, s, steps);
    RunKeepsInvariant(c, s, steps);
    OnlyCancelStops(c, s, steps);
    if Rests(c, t) {
      MainRests(c, t);
      CreatorRests(c, t);
      EnvRests(c, t);
    }
  }

  // --- The channel of payloads ---

  lemma StepBuffers(c: Config, s: State, step: Step)
    requires HeldRowExists(s) && |s.inbox| <= 64 && Enabled(c, s, step)
    ensures |Apply(c, s, step).inbox| <= 64
  {
    hide MainApply;
    match step
    case Main(m) => MainTakes(c, s, m);
    case Creator(k) => assert CreatorApply(s, k).inbox == s.inbox;
    case Env(e) => assert !e.PushSync? ==> EnvApply(c, s, e).inbox == s.inbox;
  }

  lemma {:induction false} BufferFrom(c: Config, s: State, steps: seq<Step>)
    requires Invariant(c, s) && |s.inbox| <= 64 && IsRun(c, s, steps)
    ensures |Final(c, s, steps).inbox| <= 64
    decreases |steps|
  {
    hide Apply, Enabled, NoLostDispatch, FlagMeansTimer, NoLostWakeup, Accounted;
    if steps != [] {
      StepBuffers(c, s, steps[0]);
      StepKeepsInvariant(c, s, steps[0]);
      BufferFrom(c, Apply(c, s, steps[0]), steps[1..]);
    }
  }

  /** The channel never holds more than 64 payloads, and takes another one unless it does hold so many. */
  lemma BufferIsBounded(c: Config, s: State, steps: seq<Step>, b: Batch)
    requires Init(c, s) && IsRun(c, s, steps)
    ensures var t := Final(c, s, steps); |t.inbox| <= 64 && (|t.inbox| < 64 ==> Enabled(c, t, Env(PushSync(b))))
  {
    BufferFrom(c, s, steps);
  }
}
