/**
  The two history sync goroutines of pkg/connector/backfill.go as a transition system over program
  counters: the main loop, which stores payloads and drains the durable notification queue, and the
  portal creator, which waits for the dispatch timer. They share the timer, the atomic flag
  `timerPending`, the one-slot wakeup channel and the notification table. Any number of producers
  run beside them. One step is one atomic action, so every interleaving is a run.
 */
module HistorySyncLoop {

  type Chat = nat
  type RowId = nat
  // Identity of one queued notification. Row numbers may be reused by the database; these are not.
  type Notif = nat

  datatype SyncType =
    | Absent | InitialBootstrap | InitialStatusV3 | PushName | NonBlockingData | OnDemand | Recent | Full

  // One history sync payload; `chats` are the conversations that still have messages to store.
  datatype Batch = Batch(kind: SyncType, chats: seq<Chat>)

  predicate Ignored(kind: SyncType) {
    kind in {Absent, InitialStatusV3, PushName, NonBlockingData}
  }

  predicate Dispatches(kind: SyncType) {
    kind == Recent || kind == Full
  }

  // Stop and Reset discard an unreceived tick (Go 1.23 timers), so three states are enough.
  datatype Timer = Stopped | Armed | Expired

  datatype MainPc =
    | Starting                                   // before the timer is configured
    | Configured                                 // before the startup wakeup
    | Selecting                                  // blocked in the select statement
    | GotSync(batch: Batch)                      // before dispatchTimer.Stop()
    | Storing(batch: Batch, k: nat)              // storing conversation k of the payload
    | GotWakeup                                  // before dispatchTimer.Stop()
    | Fetching                                   // before GetNext
    | Downloading(row: RowId, notif: Notif)      // GetNext returned a row
    | Rewaking(reset: bool)                      // before the non-blocking wakeup send
    | Returning(reset: bool)                     // before `if resetTimer`
    | CheckingPending                            // before timerPending.Load()
    | Rearming                                   // before dispatchTimer.Reset()
    | MainStopped

  datatype CreatorPc =
    | NotStarted
    | Idle        // blocked in the select statement
    | Took        // received the tick, before timerPending.Store(false)
    | Querying    // before GetRecent
    | Creating    // after GetRecent
    | CreatorStopped

  datatype Config = Config(
    manual: bool,  // ManualHistorySyncDownload
    resume: bool)  // not a new login, and portals were left to create by an earlier run

  datatype State = State(
    main: MainPc,
    creator: CreatorPc,
    timer: Timer,
    timerPending: bool,
    token: bool,                // the slot of historySyncWakeup
    inbox: seq<Batch>,          // historySyncs
    table: map<RowId, Notif>,   // the notification queue
    putting: nat,               // producers between Put and the wakeup send
    cancelled: bool,
    // History variables.
    leftover: set<Chat>,        // stored by an earlier run and not queried since
    unqueried: set<Chat>,       // stored by a RECENT or FULL payload since the last portal query began
    accepted: set<Notif>,       // every notification ever put
    delivered: set<Notif>,      // notifications whose payload has been stored
    stalled: bool)              // GetNext failed and nothing has been sent on the wakeup channel since

  const INBOX_SIZE := 64

  /** Every accepted notification is either in exactly one row or delivered, never both. */
  predicate Accounted(table: map<RowId, Notif>, accepted: set<Notif>, delivered: set<Notif>) {
    && (forall r :: r in table ==> table[r] in accepted && table[r] !in delivered)
    && (forall r, q :: r in table && q in table && table[r] == table[q] ==> r == q)
    && delivered <= accepted
    && (forall n :: n in accepted ==> n in delivered || n in table.Values)
  }

  predicate Init(c: Config, s: State) {
    && s.main == Starting && s.creator == NotStarted
    && s.timer == Armed && !s.timerPending
    && s.inbox == [] && s.putting == 0 && !s.cancelled && !s.stalled
    && s.unqueried == {}
    && Accounted(s.table, s.accepted, s.delivered) && s.delivered == {}
  }

  datatype MainStep =
    | ConfigureTimer
    | StartupWake
    | ReceiveSync
    | StopForSync
    | StoreChat(saved: bool)
    | FinishStoring
    | ReceiveWakeup
    | StopForWakeup
    | GetNextFails
    | GetNextEmpty
    | GetNextRow(r: RowId)
    | DownloadFails
    | StoreFails              // handleWAHistorySync returned an error: rolled back
    | DeleteFails(b: Batch)   // the delete or the commit failed: rolled back
    | Commit(b: Batch)
    | Rewake
    | SetPending
    | LoadPending
    | Rearm
    | StopMain

  datatype CreatorStep = TakeTick | ClearPending | QueryPortals | FinishCreating | StopCreator

  // Time, the producers of both channels, and cancellation.
  datatype EnvStep = Expire | PushSync(b: Batch) | PutNotif(row: RowId, n: Notif) | SendWakeup | Cancel

  datatype Step = Main(m: MainStep) | Creator(k: CreatorStep) | Env(e: EnvStep)

  predicate MainEnabled(c: Config, s: State, step: MainStep) {
    match step
    case ConfigureTimer => s.main.Starting?
    case StartupWake => s.main.Configured?
    case ReceiveSync => s.main.Selecting? && s.inbox != []
    case StopForSync => s.main.GotSync?
    case StoreChat(saved) => s.main.Storing? && !Ignored(s.main.batch.kind) && s.main.k < |s.main.batch.chats|
    case FinishStoring => s.main.Storing? && (Ignored(s.main.batch.kind) || s.main.k >= |s.main.batch.chats|)
    case ReceiveWakeup => s.main.Selecting? && s.token
    case StopForWakeup => s.main.GotWakeup?
    case GetNextFails => s.main.Fetching?
    case GetNextEmpty => s.main.Fetching? && s.table == map[]
    case GetNextRow(r) => s.main.Fetching? && r in s.table
    case DownloadFails => s.main.Downloading?
    case StoreFails => s.main.Downloading?
    case DeleteFails(b) => s.main.Downloading?
    case Commit(b) => s.main.Downloading?
    case Rewake => s.main.Rewaking?
    case SetPending => s.main.Returning?
    case LoadPending => s.main.CheckingPending?
    case Rearm => s.main.Rearming?
    case StopMain => s.main.Selecting? && s.cancelled
  }

  function MainApply(c: Config, s: State, step: MainStep): State
    requires MainEnabled(c, s, step)
  {
    match step
    case ConfigureTimer =>
      if c.resume then s.(main := Configured, timer := Armed, timerPending := true)
      else s.(main := Configured, timer := Stopped)
    case StartupWake =>
      s.(main := Selecting, creator := Idle, token := s.token || c.manual, stalled := s.stalled && !c.manual)
    case ReceiveSync => s.(main := GotSync(s.inbox[0]), inbox := s.inbox[1..])
    case StopForSync => s.(main := Storing(s.main.batch, 0), timer := Stopped)
    case StoreChat(saved) =>
      var b := s.main.batch;
      s.(main := Storing(b, s.main.k + 1),
         unqueried := s.unqueried + if saved && Dispatches(b.kind) then {b.chats[s.main.k]} else {})
    case FinishStoring => s.(main := Returning(Dispatches(s.main.batch.kind)))
    case ReceiveWakeup => s.(main := GotWakeup, token := false)
    case StopForWakeup => s.(main := Fetching, timer := Stopped)
    case GetNextFails => s.(main := Returning(false), stalled := true)
    case GetNextEmpty => s.(main := Returning(false))
    case GetNextRow(r) => s.(main := Downloading(r, s.table[r]))
    case DownloadFails => s.(main := Rewaking(false))
    case StoreFails => s.(main := Rewaking(false))
    case DeleteFails(b) => s.(main := Rewaking(Dispatches(b.kind)))
    case Commit(b) =>
      s.(main := Rewaking(Dispatches(b.kind)),
         table := s.table - {s.main.row},
         delivered := s.delivered + {s.main.notif},
         unqueried := s.unqueried + if Dispatches(b.kind) then set x | x in b.chats else {})
    case Rewake => s.(main := Returning(s.main.reset), token := true, stalled := false)
    case SetPending => s.(main := CheckingPending, timerPending := s.timerPending || s.main.reset)
    case LoadPending => s.(main := if s.timerPending then Rearming else Selecting)
    case Rearm => s.(main := Selecting, timer := Armed)
    case StopMain => s.(main := MainStopped)
  }

  predicate CreatorEnabled(s: State, step: CreatorStep) {
    match step
    case TakeTick => s.creator.Idle? && s.timer.Expired?
    case ClearPending => s.creator.Took?
    case QueryPortals => s.creator.Querying?
    case FinishCreating => s.creator.Creating?
    case StopCreator => s.creator.Idle? && s.cancelled
  }

  function CreatorApply(s: State, step: CreatorStep): State
    requires CreatorEnabled(s, step)
  {
    match step
    case TakeTick => s.(creator := Took, timer := Stopped)
    case ClearPending => s.(creator := Querying, timerPending := false)
    case QueryPortals => s.(creator := Creating, leftover := {}, unqueried := {})
    case FinishCreating => s.(creator := Idle)
    case StopCreator => s.(creator := CreatorStopped)
  }

  predicate EnvEnabled(c: Config, s: State, step: EnvStep) {
    match step
    case Expire => s.timer.Armed?
    case PushSync(b) => |s.inbox| < INBOX_SIZE
    case PutNotif(row, n) => c.manual && row !in s.table && n !in s.accepted
    case SendWakeup => s.putting > 0
    case Cancel => true
  }

  function EnvApply(c: Config, s: State, step: EnvStep): State
    requires EnvEnabled(c, s, step)
  {
    match step
    case Expire => s.(timer := Expired)
    case PushSync(b) => s.(inbox := s.inbox + [b])
    case PutNotif(row, n) => s.(table := s.table[row := n], accepted := s.accepted + {n}, putting := s.putting + 1)
    case SendWakeup => s.(putting := s.putting - 1, token := true, stalled := false)
    case Cancel => s.(cancelled := true)
  }

  predicate Enabled(c: Config, s: State, step: Step) {
    match step
    case Main(m) => MainEnabled(c, s, m)
    case Creator(k) => CreatorEnabled(s, k)
    case Env(e) => EnvEnabled(c, s, e)
  }

  function Apply(c: Config, s: State, step: Step): State
    requires Enabled(c, s, step)
  {
    match step
    case Main(m) => MainApply(c, s, m)
    case Creator(k) => CreatorApply(s, k)
    case Env(e) => EnvApply(c, s, e)
  }

  // --- What every reachable state satisfies ---

  predicate AtRest(main: MainPc) {
    main.Configured? || main.Selecting? || main.MainStopped?
  }

  predicate TimerActive(s: State) {
    s.timer.Armed? || s.timer.Expired?
  }

  /** The main loop is on its way to `timerPending.Store(true)`. */
  predicate WillSetPending(c: Config, main: MainPc) {
    || (main == Starting && c.resume)
    || ((main.GotSync? || main.Storing?) && Dispatches(main.batch.kind))
    || ((main.Rewaking? || main.Returning?) && main.reset)
  }

  /** Some conversation is to be queried: one this run has stored, or one of an earlier run whose flag says so. */
  predicate DispatchDue(c: Config, s: State) {
    s.unqueried != {} || (c.resume && s.leftover != {})
  }

  /** No lost dispatch: conversations stored after the last portal query began have another query coming. */
  predicate NoLostDispatch(c: Config, s: State) {
    DispatchDue(c, s) && s.creator != CreatorStopped ==>
      || s.creator.Took? || s.creator.Querying?
      || WillSetPending(c, s.main)
      || (s.timerPending && (AtRest(s.main) ==> TimerActive(s)))
  }

  /** The main loop never comes to rest with the flag up and the timer down. */
  predicate FlagMeansTimer(s: State) {
    s.timerPending && AtRest(s.main) && s.creator != Took ==> TimerActive(s)
  }

  /** Someone is still going to look at the notification table. */
  predicate WakeComing(s: State) {
    || s.token
    || s.putting > 0
    || s.main.Starting? || s.main.Configured? || s.main.GotWakeup? || s.main.Fetching?
    || s.main.Downloading? || s.main.Rewaking?
  }

  /** No lost wakeup: a queued notification is always being waited for, unless GetNext itself failed. */
  predicate NoLostWakeup(c: Config, s: State) {
    c.manual && s.table != map[] && s.main != MainStopped ==> WakeComing(s) || s.stalled
  }

  predicate HeldRowExists(s: State) {
    s.main.Downloading? ==> s.main.row in s.table && s.table[s.main.row] == s.main.notif
  }

  predicate StartedTogether(s: State) {
    && (s.main.Starting? || s.main.Configured? <==> s.creator.NotStarted?)
    && (s.main.Starting? ==> !s.timerPending)
    && (s.main == Configured && s.timerPending ==> TimerActive(s))
  }

  predicate Invariant(c: Config, s: State) {
    && NoLostDispatch(c, s) && FlagMeansTimer(s)
    && NoLostWakeup(c, s)
    && Accounted(s.table, s.accepted, s.delivered) && HeldRowExists(s) && StartedTogether(s)
  }

  lemma PutKeepsAccounts(table: map<RowId, Notif>, accepted: set<Notif>, delivered: set<Notif>, row: RowId, n: Notif)
    requires Accounted(table, accepted, delivered) && row !in table && n !in accepted
    ensures Accounted(table[row := n], accepted + {n}, delivered)
  {
    var t := table[row := n];
    assert t[row] == n;
    forall m | m in accepted && m !in delivered ensures m in t.Values {
      assert m in table.Values;
      var r :| r in table && table[r] == m;
      assert t[r] == m;
    }
  }

  lemma DeliveryKeepsAccounts(table: map<RowId, Notif>, accepted: set<Notif>, delivered: set<Notif>, row: RowId)
    requires Accounted(table, accepted, delivered) && row in table
    ensures Accounted(table - {row}, accepted, delivered + {table[row]})
  {
    var t := table - {row};
    forall m | m in accepted && m !in delivered && m != table[row] ensures m in t.Values {
      assert m in table.Values;
      var r :| r in table && table[r] == m;
      assert t[r] == m;
    }
  }

  lemma MainKeepsWakeup(c: Config, s: State, step: MainStep)
    requires NoLostWakeup(c, s) && MainEnabled(c, s, step)
    ensures NoLostWakeup(c, MainApply(c, s, step))
  {
  }

  /** Only a commit changes the queue. */
  lemma MainTable(c: Config, s: State, step: MainStep)
    requires HeldRowExists(s) && MainEnabled(c, s, step) && !step.Commit?
    ensures HeldRowExists(MainApply(c, s, step))
    ensures var t := MainApply(c, s, step); t.table == s.table && t.accepted == s.accepted && t.delivered == s.delivered
  {
  }

  lemma MainKeepsQueue(c: Config, s: State, step: MainStep)
    requires Accounted(s.table, s.accepted, s.delivered) && HeldRowExists(s) && MainEnabled(c, s, step)
    ensures var t := MainApply(c, s, step); Accounted(t.table, t.accepted, t.delivered) && HeldRowExists(t)
  {
    hide Accounted;
    if step.Commit? {
      DeliveryKeepsAccounts(s.table, s.accepted, s.delivered, s.main.row);
    } else {
      hide MainApply, HeldRowExists;
      MainTable(c, s, step);
    }
  }

  lemma MainKeepsDispatch(c: Config, s: State, step: MainStep)
    requires NoLostDispatch(c, s) && FlagMeansTimer(s) && StartedTogether(s) && MainEnabled(c, s, step)
    ensures NoLostDispatch(c, MainApply(c, s, step))
  {
  }

  lemma MainKeepsTimer(c: Config, s: State, step: MainStep)
    requires FlagMeansTimer(s) && StartedTogether(s) && MainEnabled(c, s, step)
    ensures FlagMeansTimer(MainApply(c, s, step))
  {
  }

  lemma MainKeepsStart(c: Config, s: State, step: MainStep)
    requires StartedTogether(s) && MainEnabled(c, s, step)
    ensures StartedTogether(MainApply(c, s, step))
  {
  }

  lemma CreatorKeepsInvariant(c: Config, s: State, step: CreatorStep)
    requires Invariant(c, s) && CreatorEnabled(s, step)
    ensures Invariant(c, CreatorApply(s, step))
  {
    var t := CreatorApply(s, step);
    assert t.table == s.table && t.accepted == s.accepted && t.delivered == s.delivered && t.main == s.main;
    assert step.TakeTick? || t.timer == s.timer;
  }

  lemma EnvKeepsInvariant(c: Config, s: State, step: EnvStep)
    requires Invariant(c, s) && EnvEnabled(c, s, step)
    ensures Invariant(c, EnvApply(c, s, step))
  {
    var t := EnvApply(c, s, step);
    assert t.main == s.main && t.creator == s.creator;
    if step.PutNotif? {
      PutKeepsAccounts(s.table, s.accepted, s.delivered, step.row, step.n);
      assert HeldRowExists(t);
    } else {
      assert t.table == s.table && t.accepted == s.accepted && t.delivered == s.delivered;
    }
  }

  lemma StepKeepsInvariant(c: Config, s: State, step: Step)
    requires Invariant(c, s) && Enabled(c, s, step)
    ensures Invariant(c, Apply(c, s, step))
  {
    match step
    case Main(m) =>
      MainKeepsQueue(c, s, m);
      MainKeepsWakeup(c, s, m);
      MainKeepsDispatch(c, s, m);
      MainKeepsTimer(c, s, m);
      MainKeepsStart(c, s, m);
    case Creator(k) => CreatorKeepsInvariant(c, s, k);
    case Env(e) => EnvKeepsInvariant(c, s, e);
  }

  // --- Runs ---

  predicate IsRun(c: Config, s: State, steps: seq<Step>)
    decreases |steps|
  {
    steps == [] || (Enabled(c, s, steps[0]) && IsRun(c, Apply(c, s, steps[0]), steps[1..]))
  }

  function Final(c: Config, s: State, steps: seq<Step>): State
    requires IsRun(c, s, steps)
    decreases |steps|
  {
    if steps == [] then s else Final(c, Apply(c, s, steps[0]), steps[1..])
  }

  lemma NoSteps(c: Config, s: State)
    ensures IsRun(c, s, []) && Final(c, s, []) == s
  {
  }

  lemma Prepend(c: Config, s: State, step: Step, rest: seq<Step>)
    requires Enabled(c, s, step) && IsRun(c, Apply(c, s, step), rest)
    ensures IsRun(c, s, [step] + rest)
    ensures Final(c, s, [step] + rest) == Final(c, Apply(c, s, step), rest)
  {
    assert ([step] + rest)[1..] == rest;
  }

  lemma {:induction false} RunKeepsInvariant(c: Config, s: State, steps: seq<Step>)
    requires Invariant(c, s) && IsRun(c, s, steps)
    ensures Invariant(c, Final(c, s, steps))
    decreases |steps|
  {
    if steps != [] {
      StepKeepsInvariant(c, s, steps[0]);
      RunKeepsInvariant(c, Apply(c, s, steps[0]), steps[1..]);
    }
  }

  /** No dispatch and no wakeup is lost in any state of any run of the two loops. */
  lemma EveryRunIsSafe(c: Config, s: State, steps: seq<Step>)
    requires Init(c, s) && IsRun(c, s, steps)
    ensures NoLostDispatch(c, Final(c, s, steps)) && NoLostWakeup(c, Final(c, s, steps))
    ensures FlagMeansTimer(Final(c, s, steps))
    ensures var t := Final(c, s, steps); Accounted(t.table, t.accepted, t.delivered)
  {
    RunKeepsInvariant(c, s, steps);
  }

  /** Nothing is left that could move either loop. */
  predicate Quiet(s: State) {
    && s.main == Selecting && s.creator == Idle
    && s.timer == Stopped && !s.token && s.inbox == [] && s.putting == 0
  }

  /** When everything has gone quiet, a portal query has begun after every dispatchable conversation was stored,
      and every notification ever accepted has been stored exactly once. */
  lemma QuietMeansDone(c: Config, s: State, steps: seq<Step>)
    requires Init(c, s) && IsRun(c, s, steps) && Quiet(Final(c, s, steps))
    ensures !DispatchDue(c, Final(c, s, steps))
    ensures c.manual && !Final(c, s, steps).stalled ==>
              Final(c, s, steps).table == map[] && Final(c, s, steps).delivered == Final(c, s, steps).accepted
  {
    RunKeepsInvariant(c, s, steps);
  }

  /** With both loops idle, the pending dispatch needs nothing but the passing of time. */
  lemma IdleDispatchFollows(c: Config, s: State, steps: seq<Step>)
    requires Init(c, s) && IsRun(c, s, steps)
    requires var t := Final(c, s, steps); t.main == Selecting && t.creator == Idle && DispatchDue(c, t)
    ensures var t := Final(c, s, steps);
            var e := if t.timer == Armed then EnvApply(c, t, Expire) else t;
            && CreatorEnabled(e, TakeTick)
            && CreatorEnabled(CreatorApply(e, TakeTick), ClearPending)
            && CreatorEnabled(CreatorApply(CreatorApply(e, TakeTick), ClearPending), QueryPortals)
            && !DispatchDue(c, CreatorApply(CreatorApply(CreatorApply(e, TakeTick), ClearPending), QueryPortals))
  {
    RunKeepsInvariant(c, s, steps);
  }

  /** What an earlier run has stored is dispatched by this one, without new history, exactly if the flag that
      was saved says so: otherwise the timer is stopped. */
  lemma LeftoverNeedsFlag(c: Config, s: State)
    requires Init(c, s)
    ensures var t := MainApply(c, s, ConfigureTimer); t.timerPending && TimerActive(t) <==> c.resume
  {
  }

  /** That the flag can be down is real: without it, conversations of an earlier run wait with both loops idle. */
  lemma LeftoverCanWait(chat: Chat) returns (c: Config, s: State, steps: seq<Step>)
    ensures Init(c, s) && IsRun(c, s, steps)
    ensures Quiet(Final(c, s, steps)) && Final(c, s, steps).leftover == {chat}
  {
    c := Config(false, false);
    s := State(Starting, NotStarted, Armed, false, false, [], map[], 0, false, {chat}, {}, {}, {}, false);
    var s1 := s.(main := Configured, timer := Stopped);
    var s2 := s1.(main := Selecting, creator := Idle);
    NoSteps(c, s2);
    Prepend(c, s1, Main(StartupWake), []);
    steps := [Main(StartupWake)] + [];
    Prepend(c, s, Main(ConfigureTimer), steps);
    steps := [Main(ConfigureTimer)] + steps;
  }

  // --- The exception ---

  /** Nobody is going to look at a table that has rows. */
  predicate Unattended(s: State) {
    s.table != map[] && !WakeComing(s)
  }

  /** A GetNext that fails leaves the queue unattended exactly if it has rows, no wakeup is in the channel and no
      producer is about to send one. */
  lemma GetNextErrorUnattended(c: Config, s: State)
    requires MainEnabled(c, s, GetNextFails)
    ensures Unattended(MainApply(c, s, GetNextFails)) <==> s.table != map[] && !s.token && s.putting == 0
  {
  }

  /** The rest of a run in which GetNext fails, once it is called. */
  lemma StallInGetNext(c: Config, s: State) returns (steps: seq<Step>)
    requires s.main == Fetching && !s.timerPending
    ensures IsRun(c, s, steps)
    ensures Final(c, s, steps) == s.(main := Selecting, stalled := true)
  {
    hide IsRun, Final;
    var s1 := s.(main := Returning(false), stalled := true);
    var s2 := s1.(main := CheckingPending);
    NoSteps(c, s2.(main := Selecting));
    Prepend(c, s2, Main(LoadPending), []);
    steps := [Main(LoadPending)] + [];
    Prepend(c, s1, Main(SetPending), steps);
    steps := [Main(SetPending)] + steps;
    Prepend(c, s, Main(GetNextFails), steps);
    steps := [Main(GetNextFails)] + steps;
  }

  /** ... and from the wakeup on. */
  lemma StallAfterWakeup(c: Config, s: State) returns (steps: seq<Step>)
    requires s.main == Selecting && s.token && !s.timerPending
    ensures IsRun(c, s, steps)
    ensures Final(c, s, steps) == s.(token := false, timer := Stopped, stalled := true)
  {
    hide IsRun, Final;
    var s1 := s.(main := GotWakeup, token := false);
    steps := StallInGetNext(c, s1.(main := Fetching, timer := Stopped));
    Prepend(c, s1, Main(StopForWakeup), steps);
    steps := [Main(StopForWakeup)] + steps;
    Prepend(c, s, Main(ReceiveWakeup), steps);
    steps := [Main(ReceiveWakeup)] + steps;
  }

  /** The exception is real: after one GetNext error the queue sits unread with nobody coming for it. */
  lemma GetNextErrorStallsQueue() returns (c: Config, s: State, steps: seq<Step>)
    ensures Init(c, s) && IsRun(c, s, steps) && c.manual
    ensures Quiet(Final(c, s, steps)) && Final(c, s, steps).table != map[]
  {
    c := Config(true, false);
    s := State(Starting, NotStarted, Armed, false, false, [], map[7 := 1], 0, false, {}, {}, {1}, {}, false);
    assert 1 in s.table.Values by { assert s.table[7] == 1; }
    var s1 := s.(main := Configured, timer := Stopped);
    var s2 := s1.(main := Selecting, creator := Idle, token := true);
    steps := StallAfterWakeup(c, s2);
    Prepend(c, s1, Main(StartupWake), steps);
    steps := [Main(StartupWake)] + steps;
    Prepend(c, s, Main(ConfigureTimer), steps);
    steps := [Main(ConfigureTimer)] + steps;
  }
}
