/**
  Downloads of old media that ask the phone to upload the file again (pkg/connector/directmedia.go), as a
  state machine: any number of downloads and of responses from the phone, stopped and resumed between any
  two accesses to what they share.
 */
module DirectMedia {
  import opened Wrappers

  type MsgID = nat
  type Actor = nat

  datatype ResultType = Success | NotFound | OtherError

  // What a notification decrypts to, if it does.
  datatype Response = Unreadable | Readable(resultType: ResultType, path: string)

  // A shared retry state. `holder` has its lock, `isSet` is the event, and `sends` counts the requests that
  // were sent successfully.
  datatype Retry = Retry(msg: MsgID, holder: Option<Actor>, requested: bool, isSet: bool, resultURL: string,
                         resultType: ResultType, sends: nat)

  // Where a download or the handling of a response has got to; `o` is the retry state it has in hand.
  datatype PC =
    | Requesting(msg: MsgID) | Found(o: nat) | Checking(o: nat) | Sending(o: nat) | Sent(o: nat)
    | Unlocking(o: nat, ok: bool) | Waiting(o: nat) | Awake(o: nat) | SawURL(o: nat) | Left(o: nat, path: string)
    | SawNone(o: nat) | Failed(o: nat, notFound: bool)
    | Notified(msg: MsgID, response: Response) | Knows(o: nat, response: Response)
    | Handling(o: nat, response: Response) | Storing(o: nat, path: string) | Answering(o: nat) | Answered(o: nat)
    | Ended

  // What the phone has sent so far: the messages it answered for, the paths it gave, the messages for which it
  // reported success without a path, and those it did not find.
  datatype Phone = Phone(heard: set<MsgID>, paths: set<(MsgID, string)>, blanks: set<MsgID>, missing: set<MsgID>)

  // The map and the objects it refers to, every actor that has come so far, and the history of the phone.
  datatype State = State(retries: map<MsgID, nat>, objects: seq<Retry>, actors: map<Actor, PC>, phone: Phone)

  const INIT := State(map[], [], map[], Phone({}, {}, {}, {}))

  const BLANK := Readable(Success, "")

  // `choice` says whether a send succeeds, and whether a waiter sees the event or gives up.
  datatype Step = Download(a: Actor, msg: MsgID) | Respond(a: Actor, msg: MsgID, response: Response)
                | Move(a: Actor, choice: bool)

  predicate HasObject(p: PC) {
    !p.Requesting? && !p.Notified? && !p.Ended?
  }

  predicate Holds(p: PC) {
    p.Checking? || p.Sending? || p.Sent? || p.Unlocking? || p.Handling? || p.Storing? || p.Answering? || p.Answered?
  }

  /** One move of an actor that has a retry state in hand: where it gets to, and the state after. */
  function Local(a: Actor, p: PC, r: Retry, choice: bool): Option<(PC, Retry)>
    requires HasObject(p)
  {
    match p
    case Found(o) => if r.holder.None? then Some((Checking(o), r.(holder := Some(a)))) else None
    case Checking(o) => Some((if r.requested then Unlocking(o, true) else Sending(o), r))
    case Sending(o) => Some(if choice then (Sent(o), r.(sends := r.sends + 1)) else (Unlocking(o, false), r))
    case Sent(o) => Some((Unlocking(o, true), r.(requested := true)))
    case Unlocking(o, ok) => Some((if ok then Waiting(o) else Ended, r.(holder := None)))
    case Waiting(o) => if !choice then Some((Ended, r)) else if r.isSet then Some((Awake(o), r)) else None
    case Awake(o) => Some((if r.resultURL != "" then SawURL(o) else SawNone(o), r))
    case SawURL(o) => Some((Left(o, r.resultURL), r))
    case SawNone(o) => Some((Failed(o, r.resultType == NotFound), r))
    case Left(_, _) => None
    case Failed(_, _) => None
    case Knows(o, response) => if r.holder.None? then Some((Handling(o, response), r.(holder := Some(a)))) else None
    case Handling(o, Unreadable) => Some((Answering(o), r))
    case Handling(o, Readable(t, path)) =>
      Some((if t != Success && path == "" then Answering(o) else Storing(o, path), r.(resultType := t)))
    case Storing(o, path) => Some((Answering(o), r.(resultURL := path)))
    case Answering(o) => Some((Answered(o), r.(isSet := true)))
    case Answered(_) => Some((Ended, r.(holder := None)))
  }

  /** getDirectMediaRetryState, under the lock of the map: a download makes the state if there is none. */
  function GetState(s: State, a: Actor, msg: MsgID): State {
    if msg in s.retries then s.(actors := s.actors[a := Found(s.retries[msg])])
    else
      State(s.retries[msg := |s.objects|], s.objects + [Retry(msg, None, false, false, "", Success, 0)],
            s.actors[a := Found(|s.objects|)], s.phone)
  }

  function Heard(ph: Phone, msg: MsgID, response: Response): Phone {
    Phone(ph.heard + {msg}, if response.Readable? then ph.paths + {(msg, response.path)} else ph.paths,
          if response == BLANK then ph.blanks + {msg} else ph.blanks,
          if response.Readable? && response.resultType == NotFound then ph.missing + {msg} else ph.missing)
  }

  function Go(s: State, a: Actor, p: PC, choice: bool): Option<State> {
    if p.Requesting? then Some(GetState(s, a, p.msg))
    else if p.Notified? then
      Some(s.(actors := s.actors[a := if p.msg in s.retries then Knows(s.retries[p.msg], p.response) else Ended]))
    else if p.Ended? || p.o >= |s.objects| then None
    else
      var moved := Local(a, p, s.objects[p.o], choice);
      if moved.None? then None
      else Some(s.(actors := s.actors[a := moved.value.0], objects := s.objects[p.o := moved.value.1]))
  }

  function Do(s: State, step: Step): Option<State> {
    match step
    case Download(a, msg) => if a in s.actors then None else Some(s.(actors := s.actors[a := Requesting(msg)]))
    case Respond(a, msg, response) =>
      if a in s.actors then None
      else
        Some(s.(actors := s.actors[a := Notified(msg, response)], phone := Heard(s.phone, msg, response)))
    case Move(a, choice) => if a in s.actors then Go(s, a, s.actors[a], choice) else None
  }

  function Exec(s: State, steps: seq<Step>): Option<State> {
    if steps == [] then Some(s)
    else
      var t := Exec(s, steps[..|steps| - 1]);
      if t.None? then None else Do(t.value, steps[|steps| - 1])
  }

  // --- What every step keeps ---

  /** Each message has one state, and each state is the one of its message. */
  predicate Registered(retries: map<MsgID, nat>, objects: seq<Retry>) {
    && (forall m :: m in retries ==> retries[m] < |objects| && objects[retries[m]].msg == m)
    && (forall o :: 0 <= o < |objects| ==> objects[o].msg in retries && retries[objects[o].msg] == o)
  }

  /** The phone has sent this path; an empty one only in a report of success. */
  predicate Delivered(msg: MsgID, path: string, ph: Phone) {
    (msg, path) in ph.paths && (path == "" ==> msg in ph.blanks)
  }

  /** The phone has sent this response. */
  predicate FromPhone(msg: MsgID, response: Response, ph: Phone) {
    && msg in ph.heard
    && (response.Readable? ==> (msg, response.path) in ph.paths && (response == BLANK ==> msg in ph.blanks))
    && (response.Readable? && response.resultType == NotFound ==> msg in ph.missing)
  }

  /** What is known at each point of the retry state in hand. */
  predicate Sound(p: PC, r: Retry, ph: Phone) {
    match p
    case Sending(_) => !r.requested
    case Sent(_) => !r.requested
    case Unlocking(_, ok) => ok <==> r.requested
    case Waiting(_) => r.requested
    case Awake(_) => r.requested && r.msg in ph.heard
    case SawURL(_) => r.requested && r.msg in ph.heard && Delivered(r.msg, r.resultURL, ph)
    case Left(_, path) => r.requested && r.msg in ph.heard && Delivered(r.msg, path, ph)
    case SawNone(_) => r.requested && r.msg in ph.heard
    case Failed(_, notFound) => r.requested && r.msg in ph.heard && (notFound ==> r.msg in ph.missing)
    case Knows(_, response) => FromPhone(r.msg, response, ph)
    case Handling(_, response) => FromPhone(r.msg, response, ph)
    case Storing(_, path) => r.msg in ph.heard && Delivered(r.msg, path, ph)
    case Answering(_) => r.msg in ph.heard
    case _ => true
  }

  predicate ActorOK(a: Actor, p: PC, objects: seq<Retry>, ph: Phone) {
    && (HasObject(p) ==> p.o < |objects| && Sound(p, objects[p.o], ph) && (Holds(p) ==> objects[p.o].holder == Some(a)))
    && (p.Notified? ==> FromPhone(p.msg, p.response, ph))
  }

  predicate ObjectOK(o: nat, r: Retry, actors: map<Actor, PC>, ph: Phone) {
    && (r.holder.Some? ==> r.holder.value in actors && Holds(actors[r.holder.value]) && actors[r.holder.value].o == o)
    && r.sends == (if r.requested || (r.holder.Some? && actors[r.holder.value].Sent?) then 1 else 0)
    && (r.resultURL == "" || Delivered(r.msg, r.resultURL, ph))
    && (r.isSet ==> r.msg in ph.heard) && (r.resultType == NotFound ==> r.msg in ph.missing)
  }

  predicate Invariant(s: State) {
    && Registered(s.retries, s.objects)
    && (forall a :: a in s.actors ==> ActorOK(a, s.actors[a], s.objects, s.phone))
    && (forall o :: 0 <= o < |s.objects| ==> ObjectOK(o, s.objects[o], s.actors, s.phone))
  }

  lemma Known(s: State, a: Actor)
    requires Invariant(s) && a in s.actors
    ensures ActorOK(a, s.actors[a], s.objects, s.phone)
  {
  }

  lemma Object(s: State, msg: MsgID) returns (o: nat)
    requires Invariant(s) && msg in s.retries
    ensures o == s.retries[msg] && o < |s.objects| && s.objects[o].msg == msg
  {
    o := s.retries[msg];
  }

  /** How one actor's move can change a retry state under the eyes of the others: without the lock only to
      take it, and what the others rely on stays. */
  predicate Allowed(a: Actor, r: Retry, q: Retry, ph: Phone) {
    && q.msg == r.msg && (r.requested ==> q.requested) && (r.isSet ==> q.isSet) && r.sends <= q.sends
    && (q.resultURL == r.resultURL || Delivered(r.msg, q.resultURL, ph))
    && (q.resultType == r.resultType || (q.resultType == NotFound ==> r.msg in ph.missing))
    && (|| q == r
        || (r.holder == None && q == r.(holder := Some(a)))
        || (r.holder == Some(a) && q.holder in {None, Some(a)}))
    && (r.requested ==> q.sends == r.sends)
  }

  lemma LocalMove(a: Actor, p: PC, r: Retry, choice: bool, ph: Phone)
    requires HasObject(p) && Local(a, p, r, choice).Some?
    requires Sound(p, r, ph) && (Holds(p) <==> r.holder == Some(a))
    requires (r.resultURL == "" || Delivered(r.msg, r.resultURL, ph)) && (r.isSet ==> r.msg in ph.heard)
    requires r.resultType == NotFound ==> r.msg in ph.missing
    requires r.holder in {None, Some(a)} ==> r.sends == if r.requested || p.Sent? then 1 else 0
    ensures var (p', q) := Local(a, p, r, choice).value;
            && Allowed(a, r, q, ph)
            && (HasObject(p') ==> p'.o == p.o && Sound(p', q, ph))
            && !p'.Requesting? && !p'.Notified?
            && (Holds(p') <==> q.holder == Some(a))
            && (q.isSet ==> q.msg in ph.heard)
            && (q.holder in {None, Some(a)} ==> q.sends == if q.requested || p'.Sent? then 1 else 0)
  {
  }

  lemma OthersStaySound(b: Actor, p: PC, a: Actor, objects: seq<Retry>, o: nat, q: Retry, ph: Phone)
    requires a != b && o < |objects| && ActorOK(b, p, objects, ph) && Allowed(a, objects[o], q, ph)
    ensures ActorOK(b, p, objects[o := q], ph)
  {
  }

  lemma LocalKeepsActors(s: State, a: Actor, q: PC, o: nat, r: Retry, t: State)
    requires Invariant(s) && o < |s.objects| && Allowed(a, s.objects[o], r, s.phone)
    requires HasObject(q) ==> q.o == o && Sound(q, r, s.phone) && (Holds(q) ==> r.holder == Some(a))
    requires !q.Notified? && t == s.(actors := s.actors[a := q], objects := s.objects[o := r])
    ensures forall b :: b in t.actors ==> ActorOK(b, t.actors[b], t.objects, t.phone)
  {
    hide Sound, Delivered, Allowed;
    forall b | b in t.actors ensures ActorOK(b, t.actors[b], t.objects, t.phone) {
      if b != a {
        OthersStaySound(b, s.actors[b], a, s.objects, o, r, s.phone);
      }
    }
  }

  lemma LocalKeepsObjects(s: State, a: Actor, q: PC, o: nat, r: Retry, t: State)
    requires Invariant(s) && o < |s.objects| && a in s.actors && HasObject(s.actors[a]) && s.actors[a].o == o
    requires t == s.(actors := s.actors[a := q], objects := s.objects[o := r])
    requires ObjectOK(o, r, t.actors, t.phone)
    ensures forall x :: 0 <= x < |t.objects| ==> ObjectOK(x, t.objects[x], t.actors, t.phone)
  {
    hide Sound, Delivered;
    forall x: nat | x < |t.objects| ensures ObjectOK(x, t.objects[x], t.actors, t.phone) {
      assert ObjectOK(x, s.objects[x], s.actors, s.phone);
    }
  }

  lemma LocalKeepsInvariant(s: State, a: Actor, choice: bool)
    requires Invariant(s) && a in s.actors && HasObject(s.actors[a])
    requires Local(a, s.actors[a], s.objects[s.actors[a].o], choice).Some?
    ensures var (p', q) := Local(a, s.actors[a], s.objects[s.actors[a].o], choice).value;
            Invariant(s.(actors := s.actors[a := p'], objects := s.objects[s.actors[a].o := q]))
  {
    hide Local, Sound, Delivered;
    var p := s.actors[a];
    var o, r := p.o, s.objects[p.o];
    assert ActorOK(a, p, s.objects, s.phone) && ObjectOK(o, r, s.actors, s.phone);
    LocalMove(a, p, r, choice, s.phone);
    var (p', q) := Local(a, p, r, choice).value;
    var t := s.(actors := s.actors[a := p'], objects := s.objects[o := q]);
    LocalKeepsActors(s, a, p', o, q, t);
    LocalKeepsObjects(s, a, p', o, q, t);
  }

  lemma FoundIsSound(objects: seq<Retry>, o: nat, ph: Phone)
    requires o < |objects|
    ensures Sound(Found(o), objects[o], ph)
  {
  }

  lemma GetStateKeepsInvariant(s: State, a: Actor, msg: MsgID)
    requires Invariant(s) && a in s.actors && s.actors[a] == Requesting(msg)
    ensures Invariant(GetState(s, a, msg))
  {
    hide Sound, Delivered, FromPhone;
    var t := GetState(s, a, msg);
    forall b | b in t.actors ensures ActorOK(b, t.actors[b], t.objects, t.phone) {
      assert ActorOK(b, s.actors[b], s.objects, s.phone);
      FoundIsSound(t.objects, t.retries[msg], t.phone);
    }
    forall x: nat | x < |t.objects| ensures ObjectOK(x, t.objects[x], t.actors, t.phone) {
      if x < |s.objects| {
        assert ObjectOK(x, s.objects[x], s.actors, s.phone);
      }
    }
  }

  predicate MoreHeard(ph: Phone, qh: Phone) {
    ph.heard <= qh.heard && ph.paths <= qh.paths && ph.blanks <= qh.blanks && ph.missing <= qh.missing
  }

  /** An actor that has no retry state in hand yet appears, or finds out whether there is one. */
  lemma ArrivalKeepsInvariant(s: State, t: State, a: Actor)
    requires Invariant(s) && (a in s.actors ==> s.actors[a].Notified?)
    requires t.retries == s.retries && t.objects == s.objects && MoreHeard(s.phone, t.phone)
    requires a in t.actors && t.actors == s.actors[a := t.actors[a]]
    requires ActorOK(a, t.actors[a], t.objects, t.phone) && !(HasObject(t.actors[a]) && Holds(t.actors[a]))
    ensures Invariant(t)
  {
    forall b | b in t.actors ensures ActorOK(b, t.actors[b], t.objects, t.phone) {
      assert b != a ==> ActorOK(b, s.actors[b], s.objects, s.phone);
    }
    forall x: nat | x < |t.objects| ensures ObjectOK(x, t.objects[x], t.actors, t.phone) {
      assert ObjectOK(x, s.objects[x], s.actors, s.phone);
    }
  }

  lemma Learned(s: State, p: PC)
    requires Invariant(s) && p.Notified? && p.msg in s.retries && FromPhone(p.msg, p.response, s.phone)
    ensures s.retries[p.msg] < |s.objects|
    ensures Sound(Knows(s.retries[p.msg], p.response), s.objects[s.retries[p.msg]], s.phone)
  {
  }

  lemma StepKeepsInvariant(s: State, step: Step)
    requires Invariant(s) && Do(s, step).Some?
    ensures Invariant(Do(s, step).value)
  {
    hide Local, Sound, Invariant, ObjectOK, Registered;
    var a := step.a;
    var t := Do(s, step).value;
    if step.Move? {
      Known(s, a);
      var p := s.actors[a];
      if p.Requesting? {
        GetStateKeepsInvariant(s, a, p.msg);
      } else if p.Notified? {
        if p.msg in s.retries {
          Learned(s, p);
        }
        ArrivalKeepsInvariant(s, t, a);
      } else {
        LocalKeepsInvariant(s, a, step.choice);
      }
    } else {
      ArrivalKeepsInvariant(s, t, a);
    }
  }

  /** Every state that can be reached, however downloads and responses interleave. */
  lemma {:induction false} RunKeepsInvariant(steps: seq<Step>)
    requires Exec(INIT, steps).Some?
    ensures Invariant(Exec(INIT, steps).value)
  {
    if steps != [] {
      RunKeepsInvariant(steps[..|steps| - 1]);
      StepKeepsInvariant(Exec(INIT, steps[..|steps| - 1]).value, steps[|steps| - 1]);
    }
  }

  // --- What callers can rely on ---

  predicate Kept(r: Retry, q: Retry) {
    && q.msg == r.msg && (r.requested ==> q.requested) && (r.isSet ==> q.isSet)
    && r.sends <= q.sends && (r.requested ==> q.sends == r.sends)
  }

  /** The states of the messages stay in place, what was requested stays requested, and a request that was
      sent is not sent again. */
  ghost predicate Extends(s: State, t: State) {
    && |s.objects| <= |t.objects|
    && (forall m :: m in s.retries ==> m in t.retries && t.retries[m] == s.retries[m])
    && (forall o :: 0 <= o < |s.objects| ==> Kept(s.objects[o], t.objects[o]))
  }

  lemma StepExtends(s: State, step: Step)
    requires Invariant(s) && Do(s, step).Some?
    ensures Extends(s, Do(s, step).value)
  {
    hide Local, Sound, Delivered;
    var a := step.a;
    if step.Move? {
      Known(s, a);
      var p := s.actors[a];
      if HasObject(p) {
        assert ObjectOK(p.o, s.objects[p.o], s.actors, s.phone);
        LocalMove(a, p, s.objects[p.o], step.choice, s.phone);
      }
    }
  }

  lemma {:induction false} RunExtends(s: State, steps: seq<Step>)
    requires Invariant(s) && Exec(s, steps).Some?
    ensures Invariant(Exec(s, steps).value) && Extends(s, Exec(s, steps).value)
  {
    hide Do, Invariant;
    if steps != [] {
      var before := Exec(s, steps[..|steps| - 1]).value;
      RunExtends(s, steps[..|steps| - 1]);
      StepKeepsInvariant(before, steps[|steps| - 1]);
      StepExtends(before, steps[|steps| - 1]);
    }
  }

  /** In every run: whoever works on the same message shares one retry state, and for it at most one request
      is ever sent successfully. */
  lemma OneRequestPerMessage(steps: seq<Step>, a: Actor, b: Actor)
    requires Exec(INIT, steps).Some?
    ensures var s := Exec(INIT, steps).value;
            && (forall o :: 0 <= o < |s.objects| ==> s.objects[o].sends <= 1)
            && (a in s.actors && b in s.actors && HasObject(s.actors[a]) && HasObject(s.actors[b]) ==>
                  && s.actors[a].o < |s.objects| && s.actors[b].o < |s.objects|
                  && (s.objects[s.actors[a].o].msg == s.objects[s.actors[b].o].msg <==> s.actors[a].o == s.actors[b].o))
  {
    hide Sound;
    RunKeepsInvariant(steps);
    var s := Exec(INIT, steps).value;
    forall o: nat | o < |s.objects| ensures s.objects[o].sends <= 1 {
      assert ObjectOK(o, s.objects[o], s.actors, s.phone);
    }
  }

  /** In every run: a caller only waits once the request has been sent, is only woken after the phone
      answered, and only leaves with a path that the phone sent for its message. The path is not empty unless
      the phone has reported success without one for that message. A caller that is told that the media was not
      found is told so because the phone has said it. */
  lemma WaitersLearnFromPhone(steps: seq<Step>, a: Actor)
    requires Exec(INIT, steps).Some? && a in Exec(INIT, steps).value.actors
    ensures var s := Exec(INIT, steps).value;
            var p := s.actors[a];
            && (p.Waiting? || p.Awake? || p.Left? || p.Failed? ==> p.o < |s.objects| && s.objects[p.o].sends == 1)
            && (p.Awake? || p.Left? || p.Failed? ==> s.objects[p.o].msg in s.phone.heard)
            && (p.Failed? && p.notFound ==> s.objects[p.o].msg in s.phone.missing)
            && (p.Left? ==> (s.objects[p.o].msg, p.path) in s.phone.paths)
            && (p.Left? && s.objects[p.o].msg !in s.phone.blanks ==> p.path != "")
  {
    RunKeepsInvariant(steps);
    var s := Exec(INIT, steps).value;
    Known(s, a);
    if HasObject(s.actors[a]) {
      assert ObjectOK(s.actors[a].o, s.objects[s.actors[a].o], s.actors, s.phone);
    }
  }

  // --- Making runs ---

  lemma ExecNothing(s: State)
    ensures Exec(s, []) == Some(s)
  {
  }

  lemma Then(s: State, steps: seq<Step>, t: State, step: Step)
    requires Exec(s, steps) == Some(t)
    ensures Exec(s, steps + [step]) == Do(t, step)
  {
    assert (steps + [step])[..|steps|] == steps;
  }

  lemma ThenMove(s: State, steps: seq<Step>, t: State, a: Actor, p: PC, choice: bool, q: PC, r: Retry)
    requires Exec(s, steps) == Some(t) && a in t.actors && t.actors[a] == p && HasObject(p) && p.o < |t.objects|
    requires Local(a, p, t.objects[p.o], choice) == Some((q, r))
    ensures Exec(s, steps + [Move(a, choice)]) == Some(t.(actors := t.actors[a := q], objects := t.objects[p.o := r]))
  {
    Then(s, steps, t, Move(a, choice));
  }

  lemma {:induction false} ExecConcat(s: State, xs: seq<Step>, ys: seq<Step>)
    requires Exec(s, xs).Some?
    ensures Exec(s, xs + ys) == Exec(Exec(s, xs).value, ys)
    decreases |ys|
  {
    hide Do;
    if ys == [] {
      assert xs + ys == xs;
    } else {
      ExecConcat(s, xs, ys[..|ys| - 1]);
      assert (xs + ys)[..|xs + ys| - 1] == xs + ys[..|ys| - 1];
    }
  }

  /** Nobody but `a` has moved, and the same retry states are there. */
  ghost predicate OnlyMoved(s: State, t: State, a: Actor) {
    && t.retries == s.retries && |t.objects| == |s.objects| && a in t.actors
    && forall b :: b != a ==> (b in t.actors <==> b in s.actors) && (b in s.actors ==> t.actors[b] == s.actors[b])
  }

  lemma {:induction false} Bounded(actors: set<Actor>) returns (limit: Actor)
    ensures forall b :: b in actors ==> b < limit
    decreases |actors|
  {
    limit := 0;
    if actors != {} {
      var a :| a in actors;
      limit := Bounded(actors - {a});
      assert forall b :: b in actors ==> b == a || b in actors - {a};
      limit := if a < limit then limit else a + 1;
    }
  }

  // --- A holder lets go of the lock ---

  function Rank(p: PC): nat {
    match p
    case Handling(_, _) => 4
    case Storing(_, _) => 3
    case Checking(_) => 3
    case Sending(_) => 2
    case Sent(_) => 2
    case Answering(_) => 2
    case Unlocking(_, _) => 1
    case Answered(_) => 1
    case _ => 0
  }

  /** Whoever holds the lock can move on without sending, and comes closer to giving it back. */
  lemma HolderMoves(h: Actor, p: PC, r: Retry)
    requires HasObject(p) && Holds(p) && r.holder == Some(h)
    ensures Local(h, p, r, false).Some?
    ensures var (q, r') := Local(h, p, r, false).value;
            && r'.sends == r.sends
            && (|| r'.holder.None?
                || (r'.holder == r.holder && HasObject(q) && q.o == p.o && Holds(q) && Rank(q) < Rank(p)))
  {
  }

  ghost predicate Released(s: State, t: State, o: nat) {
    && Invariant(t) && t.retries == s.retries && |t.objects| == |s.objects| && o < |s.objects|
    && t.objects[o].holder.None? && t.objects[o].sends == s.objects[o].sends && t.objects[o].msg == s.objects[o].msg
    && forall b :: (b !in s.actors ==> b !in t.actors)
                   && (b in s.actors && s.objects[o].holder != Some(b) ==> b in t.actors && t.actors[b] == s.actors[b])
  }

  lemma HolderGoesOn(s: State, o: nat, h: Actor) returns (t: State)
    requires Invariant(s) && o < |s.objects| && s.objects[o].holder == Some(h)
    ensures h in s.actors && Do(s, Move(h, false)) == Some(t) && Invariant(t) && OnlyMoved(s, t, h)
    ensures t.objects[o].sends == s.objects[o].sends && t.objects[o].msg == s.objects[o].msg
    ensures t.objects[o].holder.None? || (t.objects[o].holder == Some(h) && Rank(t.actors[h]) < Rank(s.actors[h]))
  {
    hide Local, Sound, Rank;
    assert ObjectOK(o, s.objects[o], s.actors, s.phone);
    var p := s.actors[h];
    HolderMoves(h, p, s.objects[o]);
    Known(s, h);
    t := Do(s, Move(h, false)).value;
    StepKeepsInvariant(s, Move(h, false));
    StepExtends(s, Move(h, false));
    assert Kept(s.objects[o], t.objects[o]);
  }

  lemma ReleasedOn(s: State, t: State, u: State, o: nat, h: Actor)
    requires OnlyMoved(s, t, h) && h in s.actors && o < |s.objects| && s.objects[o].holder == Some(h)
    requires t.objects[o].holder in {None, Some(h)} && Released(t, u, o)
    requires t.objects[o].sends == s.objects[o].sends && t.objects[o].msg == s.objects[o].msg
    ensures Released(s, u, o)
  {
    hide Invariant;
  }

  /** How far the holder of a lock is from giving it back. */
  function HolderRank(s: State, o: nat): nat
    requires o < |s.objects|
  {
    var h := s.objects[o].holder;
    if h.Some? && h.value in s.actors then Rank(s.actors[h.value]) else 0
  }

  /** From any state a lock comes free without a send, and without anybody but its holder moving. */
  lemma {:induction false} LockComesFree(s: State, o: nat) returns (steps: seq<Step>)
    requires Invariant(s) && o < |s.objects|
    ensures Exec(s, steps).Some? && Released(s, Exec(s, steps).value, o)
    decreases HolderRank(s, o), s.objects[o].holder.Some?
  {
    hide Do, Exec, Invariant, Rank;
    ExecNothing(s);
    steps := [];
    if s.objects[o].holder.Some? {
      var h := s.objects[o].holder.value;
      var t := HolderGoesOn(s, o, h);
      var more := LockComesFree(t, o);
      Then(s, [], s, Move(h, false));
      ExecConcat(s, [] + [Move(h, false)], more);
      steps := [] + [Move(h, false)] + more;
      ReleasedOn(s, t, Exec(s, steps).value, o, h);
    }
  }

  // --- Whether a request can still be sent ---

  predicate SentMore(s: State, t: State, o: nat) {
    o < |s.objects| && o < |t.objects| && t.objects[o].sends > s.objects[o].sends
  }

  ghost predicate CanStillSend(s: State, o: nat) {
    exists steps :: Exec(s, steps).Some? && SentMore(s, Exec(s, steps).value, o)
  }

  /** A new caller takes a free lock and sends a request, if none is marked as sent, even if the phone has answered. */
  function CallerSteps(a: Actor, msg: MsgID): seq<Step> {
    [Download(a, msg)] + [Move(a, true)] + [Move(a, true)] + [Move(a, true)] + [Move(a, true)]
  }

  lemma CallerFinds(s: State, a: Actor, msg: MsgID)
    requires Invariant(s) && a !in s.actors && msg in s.retries
    ensures var actors := s.actors[a := Requesting(msg)][a := Found(s.retries[msg])];
            Exec(s, [Download(a, msg)] + [Move(a, true)]) == Some(s.(actors := actors))
  {
    hide Invariant;
    var s1 := s.(actors := s.actors[a := Requesting(msg)]);
    Then(s, [], s, Download(a, msg));
    assert [] + [Download(a, msg)] == [Download(a, msg)];
    Then(s, [Download(a, msg)], s1, Move(a, true));
  }

  lemma NewCallerSends(s: State, a: Actor, msg: MsgID)
    requires Invariant(s) && a !in s.actors && msg in s.retries
    requires var r := s.objects[s.retries[msg]]; r.holder.None? && !r.requested
    ensures var t := Exec(s, CallerSteps(a, msg)); t.Some? && SentMore(s, t.value, s.retries[msg])
  {
    hide Invariant, Do, Exec;
    var o := Object(s, msg);
    var r, go := s.objects[o], Move(a, true);
    var start := [Download(a, msg)] + [go];
    CallerFinds(s, a, msg);
    ThenMove(s, start, Exec(s, start).value, a, Found(o), true, Checking(o), r.(holder := Some(a)));
    var s3 := Exec(s, start + [go]).value;
    ThenMove(s, start + [go], s3, a, Checking(o), true, Sending(o), r.(holder := Some(a)));
    var s4 := Exec(s, start + [go] + [go]).value;
    ThenMove(s, start + [go] + [go], s4, a, Sending(o), true, Sent(o), r.(holder := Some(a), sends := r.sends + 1));
  }

  /** From any reachable state on, a request for a message can still be sent if and only if none has been. It
      makes no difference whether the phone has answered, or who holds the lock. */
  lemma CanStillSendIffNoneSent(s: State, msg: MsgID)
    requires Invariant(s) && msg in s.retries
    ensures CanStillSend(s, s.retries[msg]) <==> s.objects[s.retries[msg]].sends == 0
  {
    hide Exec, Sound;
    var o := Object(s, msg);
    if s.objects[o].sends == 0 {
      var release := LockComesFree(s, o);
      var t := Exec(s, release).value;
      var a := Bounded(t.actors.Keys);
      assert ObjectOK(o, t.objects[o], t.actors, t.phone);
      NewCallerSends(t, a, msg);
      ExecConcat(s, release, CallerSteps(a, msg));
      assert SentMore(s, Exec(s, release + CallerSteps(a, msg)).value, o);
    } else {
      forall steps | Exec(s, steps).Some? ensures !SentMore(s, Exec(s, steps).value, o) {
        RunExtends(s, steps);
        var t := Exec(s, steps).value;
        assert ObjectOK(o, t.objects[o], t.actors, t.phone) && ObjectOK(o, s.objects[o], s.actors, s.phone);
      }
    }
  }

  /** With the lock free that is: if and only if none is marked as sent. */
  lemma LaterCallersSendIffNotRequested(s: State, msg: MsgID)
    requires Invariant(s) && msg in s.retries && s.objects[s.retries[msg]].holder.None?
    ensures CanStillSend(s, s.retries[msg]) <==> !s.objects[s.retries[msg]].requested
  {
    hide CanStillSend, Sound;
    var o := Object(s, msg);
    assert ObjectOK(o, s.objects[o], s.actors, s.phone);
    CanStillSendIffNoneSent(s, msg);
  }

  // --- Answers ---

  /** What handling a response makes of a retry state. */
  function Answer(r: Retry, response: Response): Retry {
    match response
    case Unreadable => r.(isSet := true)
    case Readable(t, path) =>
      if t != Success && path == "" then r.(resultType := t, isSet := true)
      else r.(resultType := t, resultURL := path, isSet := true)
  }

  lemma AnswerTakesLock(s: State, b: Actor, msg: MsgID, response: Response) returns (steps: seq<Step>)
    requires Invariant(s) && b !in s.actors && msg in s.retries && s.objects[s.retries[msg]].holder.None?
    ensures var t, o := Exec(s, steps), s.retries[msg];
            && t.Some? && OnlyMoved(s, t.value, b) && o < |s.objects|
            && t.value.objects == s.objects[o := s.objects[o].(holder := Some(b))]
            && t.value.actors[b] == Handling(o, response)
  {
    hide Invariant;
    var o := Object(s, msg);
    steps := [Respond(b, msg, response)];
    var s1 := s.(actors := s.actors[b := Notified(msg, response)], phone := Heard(s.phone, msg, response));
    var s2 := s1.(actors := s1.actors[b := Knows(o, response)]);
    Then(s, [], s, steps[0]);
    assert [] + steps == steps;
    Then(s, steps, s1, Move(b, true));
    steps := steps + [Move(b, true)];
    Then(s, steps, s2, Move(b, true));
    steps := steps + [Move(b, true)];
  }

  /** The response is read and what it says is stored. */
  lemma AnswerStored(s: State, before: seq<Step>, t: State, b: Actor, o: nat, response: Response)
    returns (steps: seq<Step>)
    requires Exec(s, before) == Some(t) && b in t.actors && o < |t.objects| && t.actors[b] == Handling(o, response)
    ensures var u := Exec(s, steps);
            && u.Some? && OnlyMoved(t, u.value, b) && u.value.actors[b] == Answering(o)
            && u.value.objects[o].(isSet := true) == Answer(t.objects[o], response)
            && u.value.objects[o].isSet == t.objects[o].isSet
  {
    hide Do, Exec;
    var r := t.objects[o];
    if response.Readable? && (response.resultType == Success || response.path != "") {
      var path := response.path;
      r := r.(resultType := response.resultType);
      ThenMove(s, before, t, b, Handling(o, response), true, Storing(o, path), r);
      steps := before + [Move(b, true)];
      var t1 := Exec(s, steps).value;
      ThenMove(s, steps, t1, b, Storing(o, path), true, Answering(o), r.(resultURL := path));
      steps := steps + [Move(b, true)];
    } else {
      r := if response.Readable? then r.(resultType := response.resultType) else r;
      ThenMove(s, before, t, b, Handling(o, response), true, Answering(o), r);
      steps := before + [Move(b, true)];
    }
  }

  /** The event is set and the lock given back. */
  lemma AnswerEnds(s: State, before: seq<Step>, t: State, b: Actor, o: nat, r: Retry) returns (steps: seq<Step>)
    requires Exec(s, before) == Some(t) && b in t.actors && o < |t.objects|
    requires t.actors[b] == Answering(o) && t.objects[o] == r
    ensures var u := Exec(s, steps);
            u.Some? && OnlyMoved(t, u.value, b) && u.value.objects[o] == r.(isSet := true, holder := None)
  {
    hide Do, Exec;
    ThenMove(s, before, t, b, Answering(o), true, Answered(o), r.(isSet := true));
    steps := before + [Move(b, true)];
    var t1 := Exec(s, steps).value;
    ThenMove(s, steps, t1, b, Answered(o), true, Ended, r.(isSet := true, holder := None));
    steps := steps + [Move(b, true)];
  }

  lemma MovedOn(s: State, t: State, u: State, b: Actor)
    requires OnlyMoved(s, t, b) && OnlyMoved(t, u, b)
    ensures OnlyMoved(s, u, b)
  {
  }

  lemma AnswerOnceLocked(r: Retry, b: Actor, response: Response)
    requires r.holder.None?
    ensures Answer(r.(holder := Some(b)), response).(holder := None) == Answer(r, response)
  {
  }

  /** With the lock free, any response can come next and be handled without anybody else moving. */
  lemma AnswerArrives(s: State, b: Actor, msg: MsgID, response: Response) returns (steps: seq<Step>)
    requires Invariant(s) && b !in s.actors && msg in s.retries && s.objects[s.retries[msg]].holder.None?
    ensures var t, o := Exec(s, steps), s.retries[msg];
            && t.Some? && Invariant(t.value) && OnlyMoved(s, t.value, b)
            && o < |t.value.objects| && t.value.objects[o] == Answer(s.objects[o], response)
  {
    hide Do, Exec, Invariant, Answer;
    var o := Object(s, msg);
    steps := AnswerTakesLock(s, b, msg, response);
    var t1 := Exec(s, steps).value;
    steps := AnswerStored(s, steps, t1, b, o, response);
    var t2 := Exec(s, steps).value;
    MovedOn(s, t1, t2, b);
    steps := AnswerEnds(s, steps, t2, b, o, t2.objects[o]);
    MovedOn(s, t2, Exec(s, steps).value, b);
    AnswerOnceLocked(s.objects[o], b, response);
    RunExtends(s, steps);
  }

  function Comes(msg: MsgID): State {
    INIT.(actors := map[0 := Requesting(msg)])
  }

  lemma FirstSteps(msg: MsgID)
    ensures Do(INIT, Download(0, msg)) == Some(Comes(msg))
    ensures Do(Comes(msg), Move(0, true)) == Some(GetState(Comes(msg), 0, msg))
  {
    assert INIT.actors[0 := Requesting(msg)] == map[0 := Requesting(msg)];
  }

  lemma FirstState(msg: MsgID)
    ensures var s := GetState(Comes(msg), 0, msg);
            && msg in s.retries && s.retries[msg] == 0
            && 0 in s.actors && s.actors[0] == Found(0) && 1 !in s.actors
            && s.objects == [Retry(msg, None, false, false, "", Success, 0)]
  {
  }

  /** The first caller for a message has made its retry state. */
  lemma FirstCaller(msg: MsgID) returns (steps: seq<Step>)
    ensures var s := Exec(INIT, steps);
            && s.Some? && Invariant(s.value) && msg in s.value.retries && s.value.retries[msg] == 0
            && 0 in s.value.actors && s.value.actors[0] == Found(0) && 1 !in s.value.actors
            && s.value.objects == [Retry(msg, None, false, false, "", Success, 0)]
  {
    hide Invariant, Exec, Do, GetState, Comes;
    FirstSteps(msg);
    FirstState(msg);
    ExecNothing(INIT);
    Then(INIT, [], INIT, Download(0, msg));
    steps := [] + [Download(0, msg)];
    Then(INIT, steps, Comes(msg), Move(0, true));
    steps := steps + [Move(0, true)];
    RunKeepsInvariant(steps);
  }

  /** An answer can come before the request: the first caller has made the state but not taken its lock when the
      event is set. The request is still sent afterwards. */
  lemma AnswerBeforeRequest(msg: MsgID) returns (steps: seq<Step>)
    ensures var s := Exec(INIT, steps);
            && s.Some? && msg in s.value.retries && s.value.retries[msg] < |s.value.objects|
            && s.value.objects[s.value.retries[msg]].isSet && CanStillSend(s.value, s.value.retries[msg])
  {
    hide Exec, Do, Invariant, CanStillSend;
    steps := FirstCaller(msg);
    var s := Exec(INIT, steps).value;
    var more := AnswerArrives(s, 1, msg, Unreadable);
    ExecConcat(INIT, steps, more);
    CanStillSendIffNoneSent(Exec(s, more).value, msg);
    steps := steps + more;
  }

  // --- Empty paths ---

  lemma BlankIsStored(r: Retry)
    ensures Answer(r, BLANK).resultURL == ""
  {
  }

  /** The lock is free and what the waiter has in hand is still the state of its message. */
  lemma WaiterSeesRelease(s: State, t: State, a: Actor, o: nat)
    requires Invariant(s) && a in s.actors && s.actors[a] == SawURL(o) && o < |s.objects| && Released(s, t, o)
    ensures a in t.actors && t.actors[a] == SawURL(o)
    ensures s.objects[o].msg in t.retries && t.retries[s.objects[o].msg] == o
    ensures o < |t.objects| && t.objects[o].holder.None?
  {
    hide Sound, Delivered;
    assert ObjectOK(o, s.objects[o], s.actors, s.phone);
  }

  /** The path is read a second time when the waiter leaves. Whenever it is between the two reads, a report of
      success without a path can still make it leave with none. */
  lemma BlankEmptiesPath(s: State, a: Actor, o: nat) returns (steps: seq<Step>)
    requires Invariant(s) && a in s.actors && s.actors[a] == SawURL(o)
    ensures Exec(s, steps).Some? && a in Exec(s, steps).value.actors
    ensures Exec(s, steps).value.actors[a] == Left(o, "")
  {
    hide Do, Exec, Sound, Invariant, Answer;
    Known(s, a);
    var release := LockComesFree(s, o);
    var t := Exec(s, release).value;
    WaiterSeesRelease(s, t, a, o);
    var b := Bounded(t.actors.Keys);
    var answer := AnswerArrives(t, b, s.objects[o].msg, BLANK);
    ExecConcat(s, release, answer);
    steps := release + answer;
    var u := Exec(s, steps).value;
    BlankIsStored(t.objects[o]);
    ThenMove(s, steps, u, a, SawURL(o), true, Left(o, ""), u.objects[o]);
    steps := steps + [Move(a, true)];
  }

  lemma CallerSends(before: seq<Step>, s: State, r: Retry) returns (steps: seq<Step>)
    requires Exec(INIT, before) == Some(s) && 0 in s.actors && s.actors[0] == Found(0) && |s.objects| > 0
    requires s.objects[0] == r.(holder := None) && r.holder == Some(0) && !r.requested
    ensures var t := Exec(INIT, steps);
            && t.Some? && OnlyMoved(s, t.value, 0) && t.value.actors[0] == Sent(0)
            && t.value.objects == s.objects[0 := r.(sends := r.sends + 1)]
  {
    hide Do, Exec;
    var go := Move(0, true);
    ThenMove(INIT, before, s, 0, Found(0), true, Checking(0), r);
    steps := before + [go];
    ThenMove(INIT, steps, Exec(INIT, steps).value, 0, Checking(0), true, Sending(0), r);
    steps := steps + [go];
    ThenMove(INIT, steps, Exec(INIT, steps).value, 0, Sending(0), true, Sent(0), r.(sends := r.sends + 1));
    steps := steps + [go];
  }

  lemma SenderWaits(before: seq<Step>, s: State, r: Retry) returns (steps: seq<Step>)
    requires Exec(INIT, before) == Some(s) && 0 in s.actors && s.actors[0] == Sent(0)
    requires |s.objects| > 0 && s.objects[0] == r
    ensures var t := Exec(INIT, steps);
            && t.Some? && OnlyMoved(s, t.value, 0) && t.value.actors[0] == Waiting(0)
            && t.value.objects == s.objects[0 := r.(holder := None, requested := true)]
  {
    hide Do, Exec;
    var go := Move(0, true);
    ThenMove(INIT, before, s, 0, Sent(0), true, Unlocking(0, true), r.(requested := true));
    steps := before + [go];
    var t := Exec(INIT, steps).value;
    ThenMove(INIT, steps, t, 0, Unlocking(0, true), true, Waiting(0), r.(holder := None, requested := true));
    steps := steps + [go];
  }

  /** A caller that sends its request and waits. */
  lemma CallerWaits(msg: MsgID) returns (steps: seq<Step>)
    ensures var s := Exec(INIT, steps);
            && s.Some? && Invariant(s.value) && msg in s.value.retries && s.value.retries[msg] == 0
            && 0 in s.value.actors && s.value.actors[0] == Waiting(0) && 1 !in s.value.actors
            && s.value.objects == [Retry(msg, None, true, false, "", Success, 1)]
  {
    hide Do, Exec, Invariant;
    steps := FirstCaller(msg);
    var s := Exec(INIT, steps).value;
    var r := Retry(msg, Some(0), false, false, "", Success, 0);
    steps := CallerSends(steps, s, r);
    steps := SenderWaits(steps, Exec(INIT, steps).value, r.(sends := 1));
    RunKeepsInvariant(steps);
  }

  /** That happens: a run in which a caller leaves with an empty path, for any message. */
  lemma CallerLeavesWithoutPath(msg: MsgID, path: string) returns (steps: seq<Step>)
    requires path != ""
    ensures var s := Exec(INIT, steps); s.Some? && 0 in s.value.actors && s.value.actors[0] == Left(0, "")
  {
    hide Do, Exec;
    steps := CallerWaits(msg);
    var s := Exec(INIT, steps).value;
    var answer := AnswerArrives(s, 1, msg, Readable(Success, path));
    ExecConcat(INIT, steps, answer);
    steps := steps + answer;
    var t := Exec(INIT, steps).value;
    var r := t.objects[0];
    ThenMove(INIT, steps, t, 0, Waiting(0), true, Awake(0), r);
    steps := steps + [Move(0, true)];
    ThenMove(INIT, steps, Exec(INIT, steps).value, 0, Awake(0), true, SawURL(0), r);
    steps := steps + [Move(0, true)];
    RunKeepsInvariant(steps);
    var more := BlankEmptiesPath(Exec(INIT, steps).value, 0, 0);
    ExecConcat(INIT, steps, more);
    steps := steps + more;
  }
}
