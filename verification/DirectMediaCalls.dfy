/**
  How downloads and responses of pkg/connector/directmedia.go come to an end: none moves for ever, nobody is
  stuck behind a lock, and what a waiter is told when the phone has answered.
 */
module DirectMediaCalls {
  import opened Wrappers
  import opened DirectMedia

  predicate HasEnded(p: PC) {
    p.Left? || p.Failed? || p.Ended?
  }

  /** How many moves an actor can still make. */
  function MovesLeft(p: PC): nat {
    match p
    case Requesting(_) => 9
    case Found(_) => 8
    case Checking(_) => 7
    case Sending(_) => 6
    case Sent(_) => 5
    case Unlocking(_, _) => 4
    case Waiting(_) => 3
    case Awake(_) => 2
    case SawURL(_) => 1
    case SawNone(_) => 1
    case Notified(_, _) => 6
    case Knows(_, _) => 5
    case Handling(_, _) => 4
    case Storing(_, _) => 3
    case Answering(_) => 2
    case Answered(_) => 1
    case _ => 0
  }

  function MovesOf(steps: seq<Step>, a: Actor): nat {
    if steps == [] then 0
    else
      var last := steps[|steps| - 1];
      MovesOf(steps[..|steps| - 1], a) + if last.Move? && last.a == a then 1 else 0
  }

  function LeftOf(s: State, a: Actor): nat {
    if a in s.actors then MovesLeft(s.actors[a]) else 9
  }

  lemma LocalUsesMove(a: Actor, p: PC, r: Retry, choice: bool)
    requires HasObject(p) && Local(a, p, r, choice).Some?
    ensures MovesLeft(Local(a, p, r, choice).value.0) < MovesLeft(p)
  {
  }

  lemma StepUsesMove(s: State, step: Step, a: Actor)
    requires Do(s, step).Some?
    ensures LeftOf(Do(s, step).value, a) + (if step.Move? && step.a == a then 1 else 0) <= LeftOf(s, a)
    ensures step.Respond? && step.a == a ==> LeftOf(Do(s, step).value, a) == 6 && LeftOf(s, a) == 9
  {
    hide Local;
    if step.Move? && step.a == a && HasObject(s.actors[a]) {
      var p := s.actors[a];
      LocalUsesMove(a, p, s.objects[p.o], step.choice);
    }
  }

  predicate IsResponse(steps: seq<Step>, a: Actor) {
    exists i :: 0 <= i < |steps| && steps[i].Respond? && steps[i].a == a
  }

  lemma ResponseBefore(steps: seq<Step>, a: Actor)
    requires steps != []
    ensures var last := steps[|steps| - 1];
            IsResponse(steps, a) ==> IsResponse(steps[..|steps| - 1], a) || (last.Respond? && last.a == a)
  {
  }

  /** In every run a download makes at most nine moves and the handling of a response at most six, however often
      it is held up. */
  lemma {:induction false} CallsEnd(steps: seq<Step>, a: Actor)
    requires Exec(INIT, steps).Some?
    ensures MovesOf(steps, a) + LeftOf(Exec(INIT, steps).value, a) <= if IsResponse(steps, a) then 6 else 9
  {
    if steps != [] {
      hide Do, LeftOf, IsResponse;
      var before, last := steps[..|steps| - 1], steps[|steps| - 1];
      CallsEnd(before, a);
      StepUsesMove(Exec(INIT, before).value, last, a);
      ResponseBefore(steps, a);
    }
  }

  ghost predicate CanMove(s: State, a: Actor) {
    a in s.actors && exists choice :: Go(s, a, s.actors[a], choice).Some?
  }

  /** The lock that an actor wants to take. */
  predicate HeldUp(s: State, a: Actor) {
    a in s.actors && (s.actors[a].Found? || s.actors[a].Knows?) && s.actors[a].o < |s.objects|
    && s.objects[s.actors[a].o].holder.Some?
  }

  lemma LocalCanMove(a: Actor, p: PC, r: Retry)
    requires HasObject(p)
    ensures (exists choice :: Local(a, p, r, choice).Some?)
       <==> !HasEnded(p) && !((p.Found? || p.Knows?) && r.holder.Some?)
  {
    if !HasEnded(p) && !((p.Found? || p.Knows?) && r.holder.Some?) {
      assert Local(a, p, r, false).Some?;
    }
  }

  lemma WhoCanMove(s: State, a: Actor)
    requires Invariant(s) && a in s.actors
    ensures CanMove(s, a) <==> !HasEnded(s.actors[a]) && !HeldUp(s, a)
  {
    hide Local, Invariant, Sound;
    Known(s, a);
    var p := s.actors[a];
    if HasObject(p) {
      var r := s.objects[p.o];
      LocalCanMove(a, p, r);
      forall choice ensures Go(s, a, p, choice).Some? <==> Local(a, p, r, choice).Some? {}
      if choice :| Local(a, p, r, choice).Some? {
        assert Go(s, a, p, choice).Some?;
      }
    } else if !p.Ended? {
      assert Go(s, a, p, true).Some?;
    }
  }

  /** In every reachable state an actor that has not ended can move on, unless it wants a lock that somebody holds,
      and then that one can. So nobody is ever stuck. */
  lemma NobodyIsStuck(steps: seq<Step>, a: Actor)
    requires Exec(INIT, steps).Some? && a in Exec(INIT, steps).value.actors
    ensures var s := Exec(INIT, steps).value;
            HasEnded(s.actors[a]) || CanMove(s, a)
            || (HeldUp(s, a) && CanMove(s, s.objects[s.actors[a].o].holder.value))
  {
    RunKeepsInvariant(steps);
    var s := Exec(INIT, steps).value;
    hide CanMove, Sound, Exec;
    WhoCanMove(s, a);
    if HeldUp(s, a) {
      var o := s.actors[a].o;
      assert ObjectOK(o, s.objects[o], s.actors, s.phone);
      WhoCanMove(s, s.objects[o].holder.value);
    }
  }

  /** A caller that comes once the request has been sent waits like the others, and sends nothing. */
  lemma LateCallerWaits(s: State, a: Actor, msg: MsgID)
    requires Invariant(s) && a !in s.actors && msg in s.retries
    requires var r := s.objects[s.retries[msg]]; r.holder.None? && r.requested
    ensures var t := Exec(s, CallerSteps(a, msg));
            && t.Some? && a in t.value.actors && t.value.actors[a] == Waiting(s.retries[msg])
            && t.value.objects == s.objects
  {
    hide Invariant, Do, Exec;
    var o := Object(s, msg);
    var r, go := s.objects[o], Move(a, true);
    var steps := [Download(a, msg)] + [go];
    CallerFinds(s, a, msg);
    ThenMove(s, steps, Exec(s, steps).value, a, Found(o), true, Checking(o), r.(holder := Some(a)));
    steps := steps + [go];
    ThenMove(s, steps, Exec(s, steps).value, a, Checking(o), true, Unlocking(o, true), r.(holder := Some(a)));
    steps := steps + [go];
    ThenMove(s, steps, Exec(s, steps).value, a, Unlocking(o, true), true, Waiting(o), r);
    assert r.(holder := None) == r;
  }

  /** What a waiter ends with. */
  function Told(o: nat, r: Retry): PC {
    if r.resultURL != "" then Left(o, r.resultURL) else Failed(o, r.resultType == NotFound)
  }

  /** Once the event is set, a waiter that is not overtaken leaves with the path, or with the error if there is none. */
  lemma WaiterIsTold(s: State, before: seq<Step>, t: State, a: Actor, o: nat) returns (steps: seq<Step>)
    requires Exec(s, before) == Some(t) && a in t.actors && t.actors[a] == Waiting(o)
    requires o < |t.objects| && t.objects[o].isSet
    ensures Exec(s, steps).Some? && a in Exec(s, steps).value.actors
    ensures Exec(s, steps).value.actors[a] == Told(o, t.objects[o])
  {
    hide Do, Exec;
    var r, go := t.objects[o], Move(a, true);
    ThenMove(s, before, t, a, Waiting(o), true, Awake(o), r);
    steps := before + [go];
    var saw := if r.resultURL != "" then SawURL(o) else SawNone(o);
    ThenMove(s, steps, Exec(s, steps).value, a, Awake(o), true, saw, r);
    steps := steps + [go];
    ThenMove(s, steps, Exec(s, steps).value, a, saw, true, Told(o, r), r);
    steps := steps + [go];
  }

  /** Whoever waits is told what the phone answers: with a path it leaves with the path, even if the phone reports an
      error beside it; without one, if no path has come before, it is told whether the media was not found. */
  lemma AnswerReachesWaiter(s: State, a: Actor, b: Actor, msg: MsgID, t: ResultType, path: string)
    returns (steps: seq<Step>)
    requires Invariant(s) && a in s.actors && b !in s.actors && msg in s.retries
    requires var o := s.retries[msg];
             o < |s.objects| && s.actors[a] == Waiting(o) && s.objects[o].holder.None? && s.objects[o].resultURL == ""
    ensures Exec(s, steps).Some? && a in Exec(s, steps).value.actors
    ensures Exec(s, steps).value.actors[a]
         == if path != "" then Left(s.retries[msg], path) else Failed(s.retries[msg], t == NotFound)
  {
    hide Do, Exec, Invariant;
    var o := s.retries[msg];
    var answer := AnswerArrives(s, b, msg, Readable(t, path));
    steps := WaiterIsTold(s, answer, Exec(s, answer).value, a, o);
  }
}
