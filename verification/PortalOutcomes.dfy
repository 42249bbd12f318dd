/**
  What createPortalsFromHistorySync (pkg/connector/backfill.go) does with each conversation, told by what
  getChatInfo answered for it.
 */
module PortalOutcomes {
  import opened Wrappers
  import opened PortalCreation

  /** The answer of getChatInfo for the conversation the loop is at. */
  predicate IsAnswer(l: LoopStep) {
    l.InfoOk? || l.NotInGroup? || l.RateLimited? || l.InfoError?
  }

  function AnswerAfter(s: State, step: Step, j: nat, before: Option<LoopStep>): Option<LoopStep> {
    if step.Loop? && IsAnswer(step.l) && s.i == j then Some(step.l) else before
  }

  /** The last answer of a run for one conversation. */
  function LastAnswer(c: Config, s: State, steps: seq<Step>, j: nat, before: Option<LoopStep>): Option<LoopStep>
    requires IsRun(c, s, steps)
    decreases |steps|
  {
    if steps == [] then before
    else LastAnswer(c, Apply(c, s, steps[0]), steps[1..], j, AnswerAfter(s, steps[0], j, before))
  }

  /** What becomes of a conversation with this last answer, if it has one that is final. */
  function Outcome(answer: Option<LoopStep>): Option<Settlement> {
    match answer
    case None => Some(Skipped)
    case Some(InfoOk) => Some(Handled)
    case Some(NotInGroup) => Some(Deleted)
    case Some(InfoError) => Some(Failed)
    case _ => None
  }

  predicate OpenAnswer(answer: Option<LoopStep>) {
    answer == None || answer == Some(RateLimited)
  }

  /** The answers there can be for the conversation that the loop is at. */
  predicate AnswerAt(pc: Pc, answer: Option<LoopStep>) {
    match pc
    case Queueing => answer == Some(InfoOk)
    case Deleting => answer == Some(NotInGroup)
    case Returned => true
    case _ => OpenAnswer(answer)
  }

  predicate DealtWith(c: Config, s: State, j: nat, answer: Option<LoopStep>) {
    && (j in s.settled ==> Outcome(answer) == Some(s.settled[j]))
    && (j in s.queued ==> answer == Some(InfoOk))
    && (j == s.passed ==> AnswerAt(s.pc, answer))
    && (j > s.passed ==> answer == None)
    && (j < |c.convs| && SkippedByJID(c, j) ==> answer == None)
  }

  lemma SettlesByAnswer(c: Config, s: State, l: LoopStep, j: nat, answer: Option<LoopStep>)
    requires IndexSound(c, s) && EachOnce(s) && QueuedSound(c, s)
    requires DealtWith(c, s, j, answer) && LoopEnabled(c, s, l)
    ensures DealtWith(c, LoopApply(c, s, l), j, AnswerAfter(s, Loop(l), j, answer))
  {
  }

  lemma HandlerSettles(c: Config, s: State, h: HandlerStep, j: nat, answer: Option<LoopStep>)
    requires DealtWith(c, s, j, answer) && HandlerEnabled(s, h)
    ensures DealtWith(c, HandlerApply(s, h), j, answer)
  {
  }

  lemma {:induction false} AnswersFromHere(c: Config, s: State, steps: seq<Step>, j: nat, answer: Option<LoopStep>,
                                           initially: bool)
    requires Invariant(c, s, initially) && DealtWith(c, s, j, answer) && IsRun(c, s, steps)
    ensures DealtWith(c, Final(c, s, steps), j, LastAnswer(c, s, steps, j, answer))
    decreases |steps|
  {
    hide LoopApply, LoopEnabled, HandlerApply, HandlerEnabled, DealtWith;
    hide IndexSound, EachOnce, QueuedSound, Counted, FlagSound, SkipsSound;
    if steps != [] {
      match steps[0] {
        case Loop(l) => SettlesByAnswer(c, s, l, j, answer);
        case Handler(h) => HandlerSettles(c, s, h, j, answer);
      }
      StepKeepsInvariant(c, s, steps[0], initially);
      AnswersFromHere(c, Apply(c, s, steps[0]), steps[1..], j, AnswerAfter(s, steps[0], j, answer), initially);
    }
  }

  /** Every conversation that is settled is settled by its last answer: handled if its chat info was there, deleted if
      the user is not in the group, given up on another error, and skipped if it was never asked for. Those to be
      skipped never are, and a rate limit settles nothing. */
  lemma SettledByLastAnswer(c: Config, s: State, steps: seq<Step>, j: nat)
    requires Init(c, s) && IsRun(c, s, steps)
    ensures var t, answer := Final(c, s, steps), LastAnswer(c, s, steps, j, None);
            && (j in t.settled ==> Outcome(answer) == Some(t.settled[j]))
            && (j in t.queued ==> answer == Some(InfoOk))
            && (j < |c.convs| && SkippedByJID(c, j) ==> answer == None)
  {
    hide IsRun, Final, LastAnswer;
    AnswersFromHere(c, s, steps, j, None, s.needCreating);
  }

  /** When the flag has been cleared, every conversation has an outcome, which is that of its last answer. */
  lemma ClearedMeansDealtWith(c: Config, s: State, steps: seq<Step>, j: nat)
    requires Init(c, s) && IsRun(c, s, steps) && j < |c.convs| && Final(c, s, steps).pc.Saved?
    ensures var t := Final(c, s, steps);
            && j in t.settled && Outcome(LastAnswer(c, s, steps, j, None)) == Some(t.settled[j])
            && (t.settled[j] == Skipped <==> SkippedByJID(c, j))
  {
    hide IsRun, Final, LastAnswer, Outcome;
    SettledByLastAnswer(c, s, steps, j);
    RunKeepsInvariant(c, s, steps, s.needCreating);
    ZeroMeansSettled(c, Final(c, s, steps));
  }

  // --- Early returns ---

  lemma LoopReturns(c: Config, s: State, l: LoopStep)
    requires LoopEnabled(c, s, l)
    ensures !s.pc.Returned?
    ensures LoopApply(c, s, l).pc.Returned? <==> l.Abort? || l.QueueFails?
  {
  }

  lemma {:induction false} StaysReturned(c: Config, s: State, steps: seq<Step>)
    requires IsRun(c, s, steps) && s.pc.Returned?
    ensures Final(c, s, steps).pc.Returned?
    decreases |steps|
  {
    if steps != [] {
      match steps[0]
      case Loop(l) => LoopReturns(c, s, l);
      case Handler(h) => StaysReturned(c, HandlerApply(s, h), steps[1..]);
    }
  }

  /** The loop returns early exactly if it was cancelled or an event was refused: no other failure keeps it from
      going on to the next conversation. */
  lemma {:induction false} ReturnsEarlyIff(c: Config, s: State, steps: seq<Step>)
    requires IsRun(c, s, steps) && !s.pc.Returned?
    ensures Final(c, s, steps).pc.Returned? <==> Loop(Abort) in steps || Loop(QueueFails) in steps
    decreases |steps|
  {
    hide LoopApply, LoopEnabled;
    if steps != [] {
      match steps[0]
      case Loop(l) =>
        LoopReturns(c, s, l);
        if LoopApply(c, s, l).pc.Returned? {
          StaysReturned(c, LoopApply(c, s, l), steps[1..]);
        } else {
          ReturnsEarlyIff(c, LoopApply(c, s, l), steps[1..]);
        }
      case Handler(h) => ReturnsEarlyIff(c, HandlerApply(s, h), steps[1..]);
    }
  }

  // --- Sleeping ---

  // Sleeps before a question, answers, sleeps after a rate limit, and rate limits.
  datatype Counts = Counts(wakes: nat, answers: nat, retries: nat, limits: nat)

  function CountsAfter(step: Step, n: Counts): Counts {
    match step
    case Loop(l) =>
      Counts(n.wakes + if l == Wake then 1 else 0, n.answers + if IsAnswer(l) then 1 else 0,
             n.retries + if l == Retry then 1 else 0, n.limits + if l == RateLimited then 1 else 0)
    case Handler(_) => n
  }

  function CountsOf(steps: seq<Step>, before: Counts): Counts {
    if steps == [] then before else CountsOf(steps[1..], CountsAfter(steps[0], before))
  }

  predicate Rested(pc: Pc, n: Counts) {
    && n.wakes == n.answers + (if pc.Asking? then 1 else 0)
    && n.retries <= n.limits <= n.retries + 1
    && (!pc.Returned? ==> (n.limits == n.retries + 1 <==> pc.RateSleep?))
  }

  lemma LoopRests(c: Config, s: State, l: LoopStep, n: Counts)
    requires LoopEnabled(c, s, l) && Rested(s.pc, n)
    ensures Rested(LoopApply(c, s, l).pc, CountsAfter(Loop(l), n))
  {
  }

  lemma {:induction false} RestsFromHere(c: Config, s: State, steps: seq<Step>, n: Counts)
    requires IsRun(c, s, steps) && Rested(s.pc, n)
    ensures Rested(Final(c, s, steps).pc, CountsOf(steps, n))
    decreases |steps|
  {
    hide LoopApply, LoopEnabled, Rested;
    if steps != [] {
      match steps[0] {
        case Loop(l) => LoopRests(c, s, l, n);
        case Handler(h) => assert HandlerApply(s, h).pc == s.pc;
      }
      RestsFromHere(c, Apply(c, s, steps[0]), steps[1..], CountsAfter(steps[0], n));
    }
  }

  /** Before each question the loop has slept once, and once more after each rate limit but the last. */
  lemma SleepsBeforeAsking(c: Config, s: State, steps: seq<Step>)
    requires Init(c, s) && IsRun(c, s, steps)
    ensures var n, pc := CountsOf(steps, Counts(0, 0, 0, 0)), Final(c, s, steps).pc;
            && n.wakes == n.answers + (if pc.Asking? then 1 else 0)
            && n.retries <= n.limits <= n.retries + 1
            && (n.limits == n.retries + 1 ==> pc.RateSleep? || pc.Returned?)
  {
    RestsFromHere(c, s, steps, Counts(0, 0, 0, 0));
  }
}
