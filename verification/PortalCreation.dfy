/**
  createPortalsFromHistorySync (pkg/connector/backfill.go) as a transition system: the loop over the
  conversations returned by GetRecent, with its `i--` retries, the WaitGroup, the event handlers that
  run PostHandleFunc at any later time, and the goroutine that clears the portals-need-creating flag.
 */
module PortalCreation {

  datatype Kind = Regular | StatusBroadcast | Psa

  datatype Config = Config(convs: seq<Kind>, statusEnabled: bool)

  // What became of a conversation when its share of the WaitGroup was given back.
  datatype Settlement = Skipped | Deleted | Failed | Handled

  datatype Pc =
    | Head        // before `i < len(conversations)`
    | Body        // before the status and PSA checks
    | Sleeping    // in the first select
    | Asking      // before getChatInfo returns
    | Deleting    // before Conversation.Delete
    | RateSleep   // in the second select, after `i--`
    | Queueing    // before QueueRemoteEvent returns
    | Advance     // before `i++`
    | Waiting     // the loop ended; a goroutine is in wg.Wait()
    | Saved       // the flag has been cleared
    | Returned    // one of the early returns

  datatype State = State(
    pc: Pc, i: int, rateLimitErrors: nat, wg: int,
    queued: set<int>,              // events accepted by QueueRemoteEvent whose PostHandleFunc has not ended
    marked: set<int>,              // of those, the ones that have run MarkSynced
    needCreating: bool,            // HistorySyncPortalsNeedCreating
    settled: map<int, Settlement>,
    passed: nat)                   // how many conversations the loop has finished with

  predicate SkippedByJID(c: Config, i: int)
    requires 0 <= i < |c.convs|
  {
    (c.convs[i] == StatusBroadcast && !c.statusEnabled) || c.convs[i] == Psa
  }

  predicate Init(c: Config, s: State) {
    && s.pc == Head && s.i == 0 && s.rateLimitErrors == 0 && s.wg == |c.convs|
    && s.queued == {} && s.marked == {} && s.settled == map[] && s.passed == 0
  }

  datatype LoopStep =
    | Enter | Abort | SkipChat | StartSleep | Wake
    | InfoOk | NotInGroup | RateLimited | InfoError
    | DeleteChat | Retry | QueueOk | QueueFails | Increment | Finish | ClearFlag

  datatype HandlerStep = MarkSynced(j: int) | Done(j: int)

  datatype Step = Loop(l: LoopStep) | Handler(h: HandlerStep)

  predicate LoopEnabled(c: Config, s: State, step: LoopStep) {
    match step
    case Enter => s.pc.Head? && s.i < |c.convs|
    case Abort => (s.pc.Head? && s.i < |c.convs|) || s.pc.Sleeping? || s.pc.RateSleep?
    case SkipChat => s.pc.Body? && 0 <= s.i < |c.convs| && SkippedByJID(c, s.i)
    case StartSleep => s.pc.Body? && 0 <= s.i < |c.convs| && !SkippedByJID(c, s.i)
    case Wake => s.pc.Sleeping?
    case InfoOk => s.pc.Asking?
    case NotInGroup => s.pc.Asking?
    case RateLimited => s.pc.Asking?
    case InfoError => s.pc.Asking?
    case DeleteChat => s.pc.Deleting?
    case Retry => s.pc.RateSleep?
    case QueueOk => s.pc.Queueing?
    case QueueFails => s.pc.Queueing?
    case Increment => s.pc.Advance?
    case Finish => s.pc.Head? && s.i >= |c.convs|
    case ClearFlag => s.pc.Waiting? && s.wg == 0
  }

  function Settle(s: State, how: Settlement): State {
    s.(pc := Advance, wg := s.wg - 1, settled := s.settled[s.i := how], passed := s.passed + 1)
  }

  function LoopApply(c: Config, s: State, step: LoopStep): State
    requires LoopEnabled(c, s, step)
  {
    match step
    case Enter => s.(pc := Body)
    case Abort => s.(pc := Returned)
    case SkipChat => Settle(s, Skipped)
    case StartSleep => s.(pc := Sleeping)
    case Wake => s.(pc := Asking)
    case InfoOk => s.(pc := Queueing)
    case NotInGroup => s.(pc := Deleting)
    case RateLimited => s.(pc := RateSleep, rateLimitErrors := s.rateLimitErrors + 1, i := s.i - 1)
    case InfoError => Settle(s, Failed)
    case DeleteChat => Settle(s, Deleted)
    case Retry => s.(pc := Advance)
    case QueueOk => s.(pc := Advance, queued := s.queued + {s.i}, passed := s.passed + 1)
    case QueueFails => s.(pc := Returned)
    case Increment => s.(pc := Head, i := s.i + 1)
    case Finish => s.(pc := Waiting)
    case ClearFlag => s.(pc := Saved, needCreating := false)
  }

  predicate HandlerEnabled(s: State, step: HandlerStep) {
    match step
    case MarkSynced(j) => j in s.queued && j !in s.marked
    case Done(j) => j in s.queued && j in s.marked
  }

  function HandlerApply(s: State, step: HandlerStep): State
    requires HandlerEnabled(s, step)
  {
    match step
    case MarkSynced(j) => s.(marked := s.marked + {j})
    case Done(j) =>
      s.(queued := s.queued - {j}, marked := s.marked - {j}, wg := s.wg - 1, settled := s.settled[j := Handled])
  }

  predicate Enabled(c: Config, s: State, step: Step) {
    match step
    case Loop(l) => LoopEnabled(c, s, l)
    case Handler(h) => HandlerEnabled(s, h)
  }

  function Apply(c: Config, s: State, step: Step): State
    requires Enabled(c, s, step)
  {
    match step
    case Loop(l) => LoopApply(c, s, l)
    case Handler(h) => HandlerApply(s, h)
  }

  // --- The accounting invariant ---

  predicate IndexSound(c: Config, s: State) {
    && s.passed <= |c.convs|
    && (match s.pc
        case Advance => s.i + 1 == s.passed
        case RateSleep => s.i + 1 == s.passed < |c.convs|
        case Returned => s.i <= s.passed
        case Head => s.i == s.passed
        case Waiting => s.i == s.passed == |c.convs|
        case Saved => s.i == s.passed == |c.convs|
        case _ => s.i == s.passed < |c.convs|)
  }

  /** The conversations passed so far are exactly the settled ones and the queued ones, never both. */
  ghost predicate EachOnce(s: State) {
    && (forall j :: j in s.settled || j in s.queued <==> 0 <= j < s.passed)
    && (forall j :: j in s.queued ==> j !in s.settled)
    && s.marked <= s.queued
  }

  predicate Counted(c: Config, s: State) {
    s.wg == |c.convs| - s.passed + |s.queued|
  }

  /** Only the waiting goroutine clears the flag, and only with the whole WaitGroup given back. */
  predicate FlagSound(c: Config, s: State, initially: bool) {
    && (s.needCreating != initially ==> s.pc.Saved?)
    && (s.pc.Saved? ==> s.wg == 0)
  }

  predicate SkipsSound(c: Config, s: State) {
    forall j :: j in s.settled && 0 <= j < |c.convs| ==> (s.settled[j].Skipped? <==> SkippedByJID(c, j))
  }

  predicate QueuedSound(c: Config, s: State) {
    && (forall j :: j in s.queued && 0 <= j < |c.convs| ==> !SkippedByJID(c, j))
    && ((s.pc.Sleeping? || s.pc.Asking? || s.pc.Deleting? || s.pc.Queueing?) && 0 <= s.i < |c.convs|
        ==> !SkippedByJID(c, s.i))
  }

  ghost predicate Invariant(c: Config, s: State, initially: bool) {
    && IndexSound(c, s) && EachOnce(s) && Counted(c, s) && FlagSound(c, s, initially)
    && SkipsSound(c, s) && QueuedSound(c, s)
  }

  lemma LoopKeepsIndex(c: Config, s: State, step: LoopStep)
    requires IndexSound(c, s) && LoopEnabled(c, s, step)
    ensures IndexSound(c, LoopApply(c, s, step))
  {
  }

  /** A step passes at most one conversation, the next one, and settles or queues it. */
  lemma LoopKeepsEachOnce(c: Config, s: State, step: LoopStep)
    requires IndexSound(c, s) && EachOnce(s) && LoopEnabled(c, s, step)
    ensures EachOnce(LoopApply(c, s, step))
  {
  }

  lemma LoopKeepsCount(c: Config, s: State, step: LoopStep)
    requires IndexSound(c, s) && EachOnce(s) && Counted(c, s) && LoopEnabled(c, s, step)
    ensures Counted(c, LoopApply(c, s, step))
  {
    if step.QueueOk? {
      assert s.i !in s.queued;
    }
  }

  lemma LoopKeepsFlag(c: Config, s: State, step: LoopStep, initially: bool)
    requires FlagSound(c, s, initially) && LoopEnabled(c, s, step)
    ensures FlagSound(c, LoopApply(c, s, step), initially)
  {
  }

  lemma LoopKeepsSkips(c: Config, s: State, step: LoopStep)
    requires IndexSound(c, s) && SkipsSound(c, s) && QueuedSound(c, s) && LoopEnabled(c, s, step)
    ensures SkipsSound(c, LoopApply(c, s, step))
  {
  }

  lemma LoopKeepsQueued(c: Config, s: State, step: LoopStep)
    requires IndexSound(c, s) && QueuedSound(c, s) && LoopEnabled(c, s, step)
    ensures QueuedSound(c, LoopApply(c, s, step))
  {
  }

  /** At the head of the loop the WaitGroup is what is left of the list plus the unfinished events. */
  lemma LoopKeepsInvariant(c: Config, s: State, step: LoopStep, initially: bool)
    requires Invariant(c, s, initially) && LoopEnabled(c, s, step)
    ensures Invariant(c, LoopApply(c, s, step), initially)
  {
    hide LoopApply, LoopEnabled, IndexSound, EachOnce, Counted, FlagSound, SkipsSound, QueuedSound;
    LoopKeepsIndex(c, s, step);
    LoopKeepsEachOnce(c, s, step);
    LoopKeepsCount(c, s, step);
    LoopKeepsFlag(c, s, step, initially);
    LoopKeepsSkips(c, s, step);
    LoopKeepsQueued(c, s, step);
  }

  lemma HandlerKeepsInvariant(c: Config, s: State, step: HandlerStep, initially: bool)
    requires Invariant(c, s, initially) && HandlerEnabled(s, step)
    ensures Invariant(c, HandlerApply(s, step), initially)
  {
  }

  predicate AllSettled(c: Config, s: State) {
    forall j :: 0 <= j < |c.convs| ==> j in s.settled
  }

  // --- Runs ---

  predicate IsRun(c: Config, s: State, steps: seq<Step>)
    decreases |steps|
  {
    steps == [] || (Enabled(c, s, steps[0]) && IsRun(c, Apply(c, s, steps[0]), steps[1..]))
  }

  function Final(c: Config, s: State, steps: seq<Step>): State
    requires IsRun(c, s, steps)
    decreases |steps|
  {
    if steps == [] then s else Final(c, Apply(c, s, steps[0]), steps[1..])
  }

  lemma StepKeepsInvariant(c: Config, s: State, step: Step, initially: bool)
    requires Invariant(c, s, initially) && Enabled(c, s, step)
    ensures Invariant(c, Apply(c, s, step), initially)
  {
    hide Invariant, LoopApply, HandlerApply;
    match step
    case Loop(l) => LoopKeepsInvariant(c, s, l, initially);
    case Handler(h) => HandlerKeepsInvariant(c, s, h, initially);
  }

  lemma {:induction false} RunKeepsInvariant(c: Config, s: State, steps: seq<Step>, initially: bool)
    requires Invariant(c, s, initially) && IsRun(c, s, steps)
    ensures Invariant(c, Final(c, s, steps), initially)
    decreases |steps|
  {
    if steps != [] {
      StepKeepsInvariant(c, s, steps[0], initially);
      RunKeepsInvariant(c, Apply(c, s, steps[0]), steps[1..], initially);
    }
  }

  lemma ZeroMeansSettled(c: Config, s: State)
    requires IndexSound(c, s) && EachOnce(s) && Counted(c, s)
    ensures s.wg == 0 <==> AllSettled(c, s)
  {
    if AllSettled(c, s) {
      assert s.passed < |c.convs| ==> s.passed in s.settled;
      forall j ensures j !in s.queued {}
    }
  }

  /** The WaitGroup accounts for every conversation in every state of every run, so it never goes negative. */
  lemma WaitGroupAccounts(c: Config, s: State, steps: seq<Step>)
    requires Init(c, s) && IsRun(c, s, steps)
    ensures var t := Final(c, s, steps);
            && (t.pc.Head? ==> t.wg == (|c.convs| - t.i) + |t.queued|)
            && 0 <= t.wg
            && (t.wg == 0 <==> AllSettled(c, t))
  {
    RunKeepsInvariant(c, s, steps, s.needCreating);
    ZeroMeansSettled(c, Final(c, s, steps));
  }

  /** If a run has cleared the flag, the loop went through the whole list and every conversation is settled;
      a run that left the loop early still has the flag it started with. */
  lemma FlagClearedOnlyWhenSettled(c: Config, s: State, steps: seq<Step>)
    requires Init(c, s) && IsRun(c, s, steps)
    ensures var t := Final(c, s, steps);
            && (t.needCreating != s.needCreating ==>
                  && t.pc.Saved?
                  && AllSettled(c, t))
            && (t.pc.Returned? ==> t.needCreating == s.needCreating)
            && (forall j :: j in t.settled ==> 0 <= j < |c.convs|)
            && (forall j :: j in t.settled ==>
                  (t.settled[j].Skipped? <==>
                     c.convs[j] == Psa || (c.convs[j] == StatusBroadcast && !c.statusEnabled)))
  {
    RunKeepsInvariant(c, s, steps, s.needCreating);
    WaitGroupAccounts(c, s, steps);
  }

  /** Once every accepted event has been handled, nothing can keep the flag from being cleared. */
  lemma FlagIsClearedInTheEnd(c: Config, s: State, steps: seq<Step>)
    requires Init(c, s) && IsRun(c, s, steps)
    requires var t := Final(c, s, steps); t.pc.Waiting? && t.queued == {}
    ensures LoopEnabled(c, Final(c, s, steps), ClearFlag)
    ensures !LoopApply(c, Final(c, s, steps), ClearFlag).needCreating
  {
    RunKeepsInvariant(c, s, steps, s.needCreating);
  }

  /** No conversation gives its share of the WaitGroup back twice: a decrement settles a new one. */
  lemma SettlesOnce(c: Config, s: State, steps: seq<Step>, step: Step)
    requires Init(c, s) && IsRun(c, s, steps) && Enabled(c, Final(c, s, steps), step)
    ensures var t := Final(c, s, steps);
            var u := Apply(c, t, step);
            && (|| (u.settled == t.settled && u.wg == t.wg)
                || (|u.settled| == |t.settled| + 1 && u.wg == t.wg - 1))
            && (forall j :: j in t.settled ==> j in u.settled && u.settled[j] == t.settled[j])
  {
    RunKeepsInvariant(c, s, steps, s.needCreating);
    var t := Final(c, s, steps);
    match step {
      case Loop(SkipChat) => assert t.i !in t.settled;
      case Loop(InfoError) => assert t.i !in t.settled;
      case Loop(DeleteChat) => assert t.i !in t.settled;
      case Loop(_) =>
      case Handler(Done(j)) => assert j !in t.settled;
      case Handler(MarkSynced(j)) =>
    }
  }

  // --- Termination of the loop ---

  function Rank(pc: Pc): nat {
    match pc
    case Head => 7
    case Body => 6
    case Sleeping => 5
    case Asking => 4
    case Deleting => 3
    case RateSleep => 3
    case Queueing => 3
    case Advance => 2
    case Waiting => 1
    case Saved => 0
    case Returned => 0
  }

  /** The variant of the loop: rate-limit errors still to come, then conversations still to visit. */
  function Variant(c: Config, s: State, limit: int): int {
    8 * ((limit - s.rateLimitErrors) + (|c.convs| - s.i)) + Rank(s.pc)
  }

  function LoopSteps(steps: seq<Step>): nat {
    if steps == [] then 0 else (if steps[0].Loop? then 1 else 0) + LoopSteps(steps[1..])
  }

  lemma {:induction false} RunUsesUpVariant(c: Config, s: State, steps: seq<Step>, limit: int)
    requires IsRun(c, s, steps)
    ensures Variant(c, Final(c, s, steps), limit) + LoopSteps(steps) <= Variant(c, s, limit)
    decreases |steps|
  {
    if steps != [] {
      RunUsesUpVariant(c, Apply(c, s, steps[0]), steps[1..], limit);
    }
  }

  /** However the handlers interleave, a run that has seen r rate-limit errors has made at most
      8 (n + r) + 7 moves of the loop: only rate-limit errors can prolong it. */
  lemma LoopTerminates(c: Config, s: State, steps: seq<Step>)
    requires Init(c, s) && IsRun(c, s, steps)
    ensures LoopSteps(steps) <= 8 * (|c.convs| + Final(c, s, steps).rateLimitErrors) + 7
  {
    var t := Final(c, s, steps);
    RunKeepsInvariant(c, s, steps, s.needCreating);
    RunUsesUpVariant(c, s, steps, t.rateLimitErrors);
  }

  /** The loop is never stuck: until it has returned or waits for handlers, some move is possible. */
  lemma LoopNeverStuck(c: Config, s: State, steps: seq<Step>) returns (next: LoopStep)
    requires Init(c, s) && IsRun(c, s, steps)
    requires var t := Final(c, s, steps); !t.pc.Waiting? && !t.pc.Saved? && !t.pc.Returned?
    ensures LoopEnabled(c, Final(c, s, steps), next)
  {
    RunKeepsInvariant(c, s, steps, s.needCreating);
    var t := Final(c, s, steps);
    match t.pc
    case Head => next := if t.i < |c.convs| then Enter else Finish;
    case Body => next := if SkippedByJID(c, t.i) then SkipChat else StartSleep;
    case Sleeping => next := Wake;
    case Asking => next := InfoOk;
    case Deleting => next := DeleteChat;
    case RateSleep => next := Retry;
    case Queueing => next := QueueOk;
    case Advance => next := Increment;
  }

  lemma AnElement<T>(xs: set<T>) returns (x: T)
    requires xs != {}
    ensures x in xs
  {
    x :| x in xs;
  }

  lemma HandlerNeverStuck(s: State, j: int) returns (next: HandlerStep)
    requires j in s.queued
    ensures HandlerEnabled(s, next)
  {
    next := if j in s.marked then Done(j) else MarkSynced(j);
  }

  lemma GoesOn(c: Config, s: State, steps: seq<Step>) returns (next: Step)
    requires Init(c, s) && IsRun(c, s, steps)
    requires var t := Final(c, s, steps); (!t.pc.Saved? && !t.pc.Returned?) || t.queued != {}
    ensures Enabled(c, Final(c, s, steps), next)
  {
    hide IsRun, Final, Init, LoopEnabled, HandlerEnabled;
    var t := Final(c, s, steps);
    if t.queued != {} {
      var j := AnElement(t.queued);
      var h := HandlerNeverStuck(t, j);
      next := Handler(h);
    } else if t.pc.Waiting? {
      FlagIsClearedInTheEnd(c, s, steps);
      next := Loop(ClearFlag);
    } else {
      var l := LoopNeverStuck(c, s, steps);
      next := Loop(l);
    }
  }

  /** A run can go on until the loop has returned early or the flag has been cleared, and every event that was
      accepted has been handled; and then it cannot. */
  lemma RestIsFinished(c: Config, s: State, steps: seq<Step>)
    requires Init(c, s) && IsRun(c, s, steps)
    ensures var t := Final(c, s, steps);
            (exists step :: Enabled(c, t, step)) <==> (!t.pc.Saved? && !t.pc.Returned?) || t.queued != {}
  {
    hide IsRun, Final, Init;
    var t := Final(c, s, steps);
    if (!t.pc.Saved? && !t.pc.Returned?) || t.queued != {} {
      var next := GoesOn(c, s, steps);
    }
  }

  // --- What a run has done ---

  function RateLimits(steps: seq<Step>): nat {
    if steps == [] then 0 else (if steps[0] == Loop(RateLimited) then 1 else 0) + RateLimits(steps[1..])
  }

  lemma {:induction false} RateLimitsAreCounted(c: Config, s: State, steps: seq<Step>)
    requires IsRun(c, s, steps)
    ensures Final(c, s, steps).rateLimitErrors == s.rateLimitErrors + RateLimits(steps)
    decreases |steps|
  {
    if steps != [] {
      assert Apply(c, s, steps[0]).rateLimitErrors
          == s.rateLimitErrors + if steps[0] == Loop(RateLimited) then 1 else 0;
      RateLimitsAreCounted(c, Apply(c, s, steps[0]), steps[1..]);
    }
  }

  /** The same bound told by the run: its rate-limit errors are all that can prolong it. */
  lemma OnlyRateLimitsProlong(c: Config, s: State, steps: seq<Step>)
    requires Init(c, s) && IsRun(c, s, steps)
    ensures LoopSteps(steps) <= 8 * (|c.convs| + RateLimits(steps)) + 7
  {
    LoopTerminates(c, s, steps);
    RateLimitsAreCounted(c, s, steps);
  }

  // How often the event of a conversation was queued, marked as synced and done with.
  datatype Tally = Tally(queued: nat, marked: nat, done: nat)

  function TalliedBy(s: State, step: Step, j: nat): Tally {
    Tally(if step == Loop(QueueOk) && s.i == j then 1 else 0,
          if step == Handler(MarkSynced(j)) then 1 else 0,
          if step == Handler(Done(j)) then 1 else 0)
  }

  function Plus(a: Tally, b: Tally): Tally {
    Tally(a.queued + b.queued, a.marked + b.marked, a.done + b.done)
  }

  function EventTally(c: Config, s: State, steps: seq<Step>, j: nat): Tally
    requires IsRun(c, s, steps)
    decreases |steps|
  {
    if steps == [] then Tally(0, 0, 0)
    else Plus(TalliedBy(s, steps[0], j), EventTally(c, Apply(c, s, steps[0]), steps[1..], j))
  }

  /** What the sets of queued and marked events say of one event's history. */
  predicate Tallies(queued: bool, marked: bool, passed: bool, h: Tally) {
    && h.done <= h.marked <= h.queued <= 1
    && (queued <==> h.queued == 1 && h.done == 0)
    && (marked <==> h.marked == 1 && h.done == 0)
    && (h.queued == 1 ==> passed)
  }

  predicate Tallied(s: State, j: nat, h: Tally) {
    Tallies(j in s.queued, j in s.marked, j < s.passed, h)
  }

  lemma QueuesNext(c: Config, s: State, step: LoopStep)
    requires IndexSound(c, s) && LoopEnabled(c, s, step) && step.QueueOk?
    ensures s.i == s.passed
  {
  }

  lemma InChanged(a: set<int>, k: int, j: int)
    ensures j in a + {k} <==> j in a || j == k
    ensures j in a - {k} <==> j in a && j != k
  {
  }

  lemma LoopTallies(c: Config, s: State, step: LoopStep, j: nat, h: Tally)
    requires IndexSound(c, s) && Tallied(s, j, h) && LoopEnabled(c, s, step)
    ensures Tallied(LoopApply(c, s, step), j, Plus(h, TalliedBy(s, Loop(step), j)))
  {
    hide IndexSound;
    var t := LoopApply(c, s, step);
    assert t.marked == s.marked && s.passed <= t.passed;
    if step.QueueOk? {
      QueuesNext(c, s, step);
      InChanged(s.queued, s.i, j);
    } else {
      assert t.queued == s.queued;
    }
  }

  lemma Marks(s: State, k: int, j: nat)
    requires HandlerEnabled(s, MarkSynced(k))
    ensures var t := HandlerApply(s, MarkSynced(k));
            && t.passed == s.passed && t.queued == s.queued && (j in t.marked <==> j in s.marked || j == k)
    ensures k in s.queued && k !in s.marked
    ensures TalliedBy(s, Handler(MarkSynced(k)), j) == Tally(0, if j == k then 1 else 0, 0)
  {
    InChanged(s.marked, k, j);
  }

  lemma Ends(s: State, k: int, j: nat)
    requires HandlerEnabled(s, Done(k))
    ensures var t := HandlerApply(s, Done(k));
            && t.passed == s.passed && (j in t.queued <==> j in s.queued && j != k)
            && (j in t.marked <==> j in s.marked && j != k)
    ensures k in s.queued && k in s.marked
    ensures TalliedBy(s, Handler(Done(k)), j) == Tally(0, 0, if j == k then 1 else 0)
  {
    InChanged(s.queued, k, j);
    InChanged(s.marked, k, j);
  }

  lemma HandlerTallies(s: State, step: HandlerStep, j: nat, h: Tally)
    requires Tallied(s, j, h) && HandlerEnabled(s, step)
    ensures Tallied(HandlerApply(s, step), j, Plus(h, TalliedBy(s, Handler(step), j)))
  {
    hide HandlerApply, HandlerEnabled, TalliedBy;
    match step
    case MarkSynced(k) => Marks(s, k, j);
    case Done(k) => Ends(s, k, j);
  }

  lemma StepTallies(c: Config, s: State, step: Step, j: nat, h: Tally)
    requires IndexSound(c, s) && Tallied(s, j, h) && Enabled(c, s, step)
    ensures Tallied(Apply(c, s, step), j, Plus(h, TalliedBy(s, step, j)))
  {
    hide IndexSound, LoopApply, HandlerApply, Tallied, Plus, TalliedBy;
    match step
    case Loop(l) => LoopTallies(c, s, l, j, h);
    case Handler(m) => HandlerTallies(s, m, j, h);
  }

  lemma InvariantHasIndex(c: Config, s: State, initially: bool)
    requires Invariant(c, s, initially)
    ensures IndexSound(c, s)
  {
  }

  lemma PlusAssociates(a: Tally, b: Tally, c: Tally)
    ensures Plus(a, Plus(b, c)) == Plus(Plus(a, b), c)
    ensures Plus(a, Tally(0, 0, 0)) == a && Plus(Tally(0, 0, 0), a) == a
  {
  }

  lemma {:induction false} TalliesFrom(c: Config, s: State, steps: seq<Step>, j: nat, h: Tally, initially: bool)
    requires Invariant(c, s, initially) && Tallied(s, j, h) && IsRun(c, s, steps)
    ensures Tallied(Final(c, s, steps), j, Plus(h, EventTally(c, s, steps, j)))
    decreases |steps|
  {
    hide Apply, Enabled, Invariant, Tallied, TalliedBy, IndexSound, Plus;
    if steps != [] {
      var t, now := Apply(c, s, steps[0]), TalliedBy(s, steps[0], j);
      InvariantHasIndex(c, s, initially);
      StepTallies(c, s, steps[0], j, h);
      StepKeepsInvariant(c, s, steps[0], initially);
      TalliesFrom(c, t, steps[1..], j, Plus(h, now), initially);
      PlusAssociates(h, now, EventTally(c, t, steps[1..], j));
    } else {
      PlusAssociates(h, h, h);
    }
  }

  lemma InitTallied(c: Config, s: State, j: nat)
    requires Init(c, s)
    ensures Tallied(s, j, Tally(0, 0, 0)) && Invariant(c, s, s.needCreating)
  {
    assert j !in s.queued && j !in s.marked;
  }

  /** Every conversation is queued at most once, and its handler marks it as synced before it is done, each once. */
  lemma HandlersInOrder(c: Config, s: State, steps: seq<Step>, j: nat)
    requires Init(c, s) && IsRun(c, s, steps)
    ensures var h := EventTally(c, s, steps, j);
            && h.done <= h.marked <= h.queued <= 1
            && (j in Final(c, s, steps).queued <==> h.queued == 1 && h.done == 0)
  {
    hide Init, Invariant, IsRun, Final, EventTally, Plus;
    InitTallied(c, s, j);
    TalliesFrom(c, s, steps, j, Tally(0, 0, 0), s.needCreating);
    PlusAssociates(EventTally(c, s, steps, j), Tally(0, 0, 0), Tally(0, 0, 0));
  }
}
